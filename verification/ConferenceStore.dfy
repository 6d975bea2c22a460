/** The conference service's link store. */
module ConferenceStore {
  import opened Common

  function HexDigit(d: nat): (c: char)
    requires d < 16
  {
    if d < 10 then '0' + d as char else 'a' + (d - 10) as char
  }

  /** The n lowest hexadecimal digits of v, most significant first. */
  function Hex(v: nat, n: nat): (s: string)
    ensures |s| == n
  {
    if n == 0 then "" else Hex(v / 16, n - 1) + [HexDigit(v % 16)]
  }

  /** id.String()[:8]: the eight hexadecimal digits of the UUID's top 32 bits. */
  function TopBits(id: Id): nat {
    (id / 0x1_0000_0000_0000_0000_0000_0000) % 0x1_0000_0000
  }

  function LinkFor(id: Id): string {
    "https://meet.example.com/" + Hex(TopBits(id), 8)
  }

  lemma {:induction false} HexInjective(v: nat, w: nat, n: nat)
    requires Hex(v, n) == Hex(w, n)
    requires v < Power16(n) && w < Power16(n)
    ensures v == w
  {
    if n > 0 {
      var hv, hw := Hex(v / 16, n - 1), Hex(w / 16, n - 1);
      assert Hex(v, n)[..n - 1] == hv && Hex(w, n)[..n - 1] == hw;
      assert Hex(v, n)[n - 1] == HexDigit(v % 16) && Hex(w, n)[n - 1] == HexDigit(w % 16);
      HexInjective(v / 16, w / 16, n - 1);
    }
  }

  function Power16(n: nat): (p: nat)
    ensures p > 0
  {
    if n == 0 then 1 else 16 * Power16(n - 1)
  }

  /** The value of a hexadecimal digit, and of a numeral. */
  function DigitValue(c: char): int {
    if '0' <= c <= '9' then (c - '0') as int
    else if 'a' <= c <= 'f' then (c - 'a') as int + 10
    else -1
  }

  function HexValue(s: string): int {
    if s == "" then 0 else HexValue(s[..|s| - 1]) * 16 + DigitValue(s[|s| - 1])
  }

  /** A UUID's 32 digits are the lower-case numeral of its 128 bits, and read back to it. */
  lemma {:induction false} HexReadsBack(v: nat, n: nat)
    requires v < Power16(n)
    ensures HexValue(Hex(v, n)) == v
    ensures forall i :: 0 <= i < n ==> 0 <= DigitValue(Hex(v, n)[i]) <= 15
  {
    if n == 0 {
    } else {
      HexReadsBack(v / 16, n - 1);
      assert Hex(v, n)[..n - 1] == Hex(v / 16, n - 1);
      assert DigitValue(HexDigit(v % 16)) == v % 16;
    }
  }

  /** The first k digits of a numeral are the numeral of its leading part. */
  lemma {:induction false} HexPrefix(v: nat, n: nat, k: nat)
    requires k <= n
    ensures Hex(v, n)[..k] == Hex(v / Power16(n - k), k)
    decreases n - k
  {
    if k == n {
      assert Hex(v, n)[..n] == Hex(v, n);
    } else {
      HexPrefix(v / 16, n - 1, k);
      assert Hex(v, n)[..k] == Hex(v / 16, n - 1)[..k];
      DivideTwice(v, Power16(n - 1 - k));
    }
  }

  lemma DivideTwice(v: nat, p: nat)
    requires p > 0
    ensures v / 16 / p == v / (16 * p)
  {
    var a, r := v / 16, v % 16;
    var q, t := a / p, a % p;
    assert p * q + t == a && 0 <= t < p;
    assert 16 * (p * q) + (16 * t + r) == v;
    assert (16 * p) * q == 16 * (p * q);
    QuotientIs(v, 16 * p, q, 16 * t + r);
  }

  lemma QuotientIs(v: nat, d: nat, q: nat, r: nat)
    requires d > 0 && v == d * q + r && r < d
    ensures v / d == q
  {
    var p := v / d;
    assert d * p + v % d == v && 0 <= v % d < d;
    if p < q {
      assert d * (p + 1) <= d * q by { Scale(d, p + 1, q); }
    } else if q < p {
      assert d * (q + 1) <= d * p by { Scale(d, q + 1, p); }
    }
  }

  lemma Scale(d: nat, a: nat, b: nat)
    requires a <= b
    ensures d * a <= d * b
  {
  }

  /** id.String()[:8] of a UUID: the link ends in the first eight of its 32 hexadecimal digits. */
  lemma LinkIsFirstEight(id: Id)
    requires id < Power16(32)
    ensures LinkFor(id) == "https://meet.example.com/" + Hex(id, 32)[..8]
  {
    hide Hex;
    HexPrefix(id, 32, 8);
    Powers();
  }

  lemma Powers()
    ensures Power16(8) == 0x1_0000_0000
    ensures Power16(24) == 0x1_0000_0000_0000_0000_0000_0000
    ensures Power16(32) == 0x1_0000_0000_0000_0000_0000_0000_0000_0000
  {
    PowerSum(2, 2);
    PowerSum(4, 4);
    PowerSum(8, 8);
    PowerSum(16, 8);
    PowerSum(16, 16);
  }

  lemma {:induction false} PowerSum(m: nat, n: nat)
    ensures Power16(m + n) == Power16(m) * Power16(n)
    decreases n
  {
    if n == 0 {
    } else {
      PowerSum(m, n - 1);
      assert Power16(m + n) == 16 * Power16(m + (n - 1));
    }
  }

  /** Two UUIDs share a link exactly when their first eight digits agree: distinct bookings are not promised
      distinct links. */
  lemma SameLinkIffSameFirstEight(a: Id, b: Id)
    requires a < Power16(32) && b < Power16(32)
    ensures LinkFor(a) == LinkFor(b) <==> Hex(a, 32)[..8] == Hex(b, 32)[..8]
  {
    hide Hex, LinkFor;
    LinkIsFirstEight(a);
    LinkIsFirstEight(b);
    var prefix := "https://meet.example.com/";
    assert (prefix + Hex(a, 32)[..8])[|prefix|..] == Hex(a, 32)[..8];
    assert (prefix + Hex(b, 32)[..8])[|prefix|..] == Hex(b, 32)[..8];
  }

  /** The link is a function of the id, and two bookings share one exactly when their ids' top
      32 bits agree: distinct bookings are not promised distinct links. */
  lemma SameLinkIffSameTopBits(a: Id, b: Id)
    ensures LinkFor(a) == LinkFor(b) <==> TopBits(a) == TopBits(b)
  {
    if LinkFor(a) == LinkFor(b) {
      var prefix := "https://meet.example.com/";
      assert LinkFor(a)[|prefix|..] == Hex(TopBits(a), 8) && LinkFor(b)[|prefix|..] == Hex(TopBits(b), 8);
      assert Power16(8) == 0x1_0000_0000 by {
        assert Power16(2) == 256;
        assert Power16(4) == 65536;
        assert Power16(6) == 0x100_0000;
      }
      HexInjective(TopBits(a), TopBits(b), 8);
    }
  }

  /** Every stored link is the one derived from its id. */
  ghost predicate Derived(links: map<Id, string>) {
    forall id :: id in links ==> links[id] == LinkFor(id)
  }

  class Store {
    var links: map<Id, string>

    constructor ()
      ensures links == map[]
    {
      links := map[];
    }

    /** Under the read lock. */
    method Find(id: Id) returns (link: Option<string>)
      ensures link == if id in links then Some(links[id]) else None
    {
      if id in links {
        return Some(links[id]);
      }
      return None;
    }

    /** Under the write lock: checks again before it creates. */
    method FindOrInsert(id: Id) returns (link: string)
      modifies this
      ensures id in links && link == links[id]
      ensures links == if id in old(links) then old(links) else old(links)[id := LinkFor(id)]
    {
      if id in links {
        return links[id];
      }
      link := LinkFor(id);
      links := links[id := link];
    }

    /** GetOrCreate, with the write sections of other callers that run between its two locks.
        Whatever they insert, every caller of one id is told the same link and no entry is replaced. */
    method GetOrCreate(id: Id, others: seq<Id>) returns (link: string)
      requires Derived(links)
      modifies this
      ensures Derived(links) && link == LinkFor(id) && id in links && links[id] == link
      ensures id < Power16(32) ==> link == "https://meet.example.com/" + Hex(id, 32)[..8]
      ensures forall k :: k in old(links) ==> k in links && links[k] == old(links[k])
      ensures links.Keys <= old(links).Keys + {id} + set k | k in others
      ensures others == [] ==> links == if id in old(links) then old(links) else old(links)[id := LinkFor(id)]
    {
      hide LinkFor, Hex, Power16;
      if id < Power16(32) {
        LinkIsFirstEight(id);
      }
      var found := Find(id);
      if found.Some? {
        return found.value;
      }
      for i := 0 to |others|
        invariant Derived(links)
        invariant forall k :: k in old(links) ==> k in links && links[k] == old(links[k])
        invariant links.Keys <= old(links).Keys + set k | k in others
        invariant others == [] ==> links == old(links)
      {
        var _ := FindOrInsert(others[i]);
      }
      link := FindOrInsert(id);
    }
  }
}
