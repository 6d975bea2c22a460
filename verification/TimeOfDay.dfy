/** parseTime: the opening hours' text form. */
module TimeOfDay {
  import opened Common

  /** unicode.IsSpace. */
  predicate IsSpace(c: char) {
    || '\t' <= c <= '\r' || c == ' '
    || c == '\U{0085}' || c == '\U{00A0}' || c == '\U{1680}' || '\U{2000}' <= c <= '\U{200A}'
    || c == '\U{2028}' || c == '\U{2029}' || c == '\U{202F}' || c == '\U{205F}' || c == '\U{3000}'
  }

  /** White space by code point: tab to carriage return, space, and Unicode's other White_Space characters. */
  lemma SpacesAre(c: char)
    ensures IsSpace(c) <==>
            var n := c as int;
            || 9 <= n <= 13 || n == 32 || n == 133 || n == 160 || n == 5760 || 8192 <= n <= 8202
            || n == 8232 || n == 8233 || n == 8239 || n == 8287 || n == 12288
  {
  }

  function TrimLeft(s: string): string {
    if s != "" && IsSpace(s[0]) then TrimLeft(s[1..]) else s
  }

  function TrimRight(s: string): string {
    if s != "" && IsSpace(s[|s| - 1]) then TrimRight(s[..|s| - 1]) else s
  }

  /** strings.TrimSpace. */
  function Trim(s: string): string {
    TrimRight(TrimLeft(s))
  }

  /** strings.Split at colons. */
  function Split(s: string): (parts: seq<string>)
    ensures |parts| >= 1
  {
    if s == "" then [""]
    else
      var rest := Split(s[1..]);
      if s[0] == ':' then [""] + rest else [[s[0]] + rest[0]] + rest[1..]
  }

  predicate IsDigit(c: char) {
    '0' <= c <= '9'
  }

  predicate AllDigits(s: string) {
    s != "" && forall i :: 0 <= i < |s| ==> IsDigit(s[i])
  }

  function Digits(s: string): nat {
    if s == "" then 0
    else Digits(s[..|s| - 1]) * 10 + (if IsDigit(s[|s| - 1]) then (s[|s| - 1] - '0') as nat else 0)
  }

  /** strconv.Atoi, without the machine range: a number too large for it is too large for a clock as well. */
  function Atoi(s: string): Option<int> {
    var signed := s != "" && (s[0] == '+' || s[0] == '-');
    var digits := if signed then s[1..] else s;
    if !AllDigits(digits) then None
    else
      var n: int := Digits(digits);
      Some(if signed && s[0] == '-' then -n else n)
  }

  /** Minutes after midnight. */
  function ParseTime(s: string): (r: Option<int>)
    ensures r.Some? ==> 0 <= r.value <= 1439
  {
    var parts := Split(Trim(s));
    if |parts| != 2 then None
    else
      var h, m := Atoi(parts[0]), Atoi(parts[1]);
      if h.None? || m.None? || h.value < 0 || h.value > 23 || m.value < 0 || m.value > 59 then None
      else Some(h.value * 60 + m.value)
  }

  predicate ColonFree(s: string) {
    forall i :: 0 <= i < |s| ==> s[i] != ':'
  }

  /** Hour and minute texts of a time of day. */
  predicate Reads(hour: string, minute: string, t: int) {
    && ColonFree(hour) && ColonFree(minute)
    && Atoi(hour).Some? && 0 <= Atoi(hour).value <= 23
    && Atoi(minute).Some? && 0 <= Atoi(minute).value <= 59
    && t == Atoi(hour).value * 60 + Atoi(minute).value
  }

  lemma {:induction false} SplitPlain(s: string)
    requires ColonFree(s)
    ensures Split(s) == [s]
  {
    if s != "" {
      SplitPlain(s[1..]);
      assert [s[0]] + s[1..] == s;
    }
  }

  lemma {:induction false} SplitPair(a: string, b: string)
    requires ColonFree(a) && ColonFree(b)
    ensures Split(a + ":" + b) == [a, b]
    decreases |a|
  {
    var s := a + ":" + b;
    if a == "" {
      assert s[1..] == b;
      SplitPlain(b);
    } else {
      assert s[1..] == a[1..] + ":" + b;
      SplitPair(a[1..], b);
      assert [a[0]] + a[1..] == a && s[0] == a[0];
    }
  }

  function Join(parts: seq<string>): string
    requires |parts| >= 1
  {
    if |parts| == 1 then parts[0] else parts[0] + ":" + Join(parts[1..])
  }

  /** Splitting loses nothing. */
  lemma {:induction false} SplitJoins(s: string)
    ensures Join(Split(s)) == s
    ensures forall i :: 0 <= i < |Split(s)| ==> ColonFree(Split(s)[i])
  {
    if s != "" {
      SplitJoins(s[1..]);
      var rest, parts := Split(s[1..]), Split(s);
      if s[0] == ':' {
        assert parts[1..] == rest;
      } else {
        assert parts[1..] == rest[1..];
      }
      assert s == [s[0]] + s[1..];
    }
  }

  /** What is accepted: between white space, one colon between an hour and a minute in range. */
  lemma ParseTimeMeans(s: string, t: int)
    ensures ParseTime(s) == Some(t) <==>
            exists hour, minute {:trigger Reads(hour, minute, t)} :: Trim(s) == hour + ":" + minute
              && Reads(hour, minute, t)
  {
    hide Atoi, Trim, ColonFree, Split;
    if ParseTime(s) == Some(t) {
      SplitJoins(Trim(s));
      var parts := Split(Trim(s));
      assert Join(parts) == parts[0] + ":" + Join(parts[1..]);
      assert Trim(s) == parts[0] + ":" + parts[1] && Reads(parts[0], parts[1], t);
    }
    if hour, minute :| Trim(s) == hour + ":" + minute && Reads(hour, minute, t) {
      SplitPair(hour, minute);
    }
  }

  /** The usual text of a time of day: two digits, a colon, two digits. */
  function Clock(t: int): string
    requires 0 <= t <= 1439
  {
    TwoDigits(t / 60) + ":" + TwoDigits(t % 60)
  }

  function TwoDigits(n: nat): string
    requires n < 100
  {
    ['0' + (n / 10) as char, '0' + (n % 10) as char]
  }

  lemma TwoDigitsRead(n: nat)
    requires n < 100
    ensures Atoi(TwoDigits(n)) == Some(n) && ColonFree(TwoDigits(n))
  {
    var s := TwoDigits(n);
    assert Digits(s[..1]) == n / 10 by {
      assert s[..1][..0] == "";
    }
    assert Digits(s) == Digits(s[..1]) * 10 + n % 10;
    assert IsDigit(s[0]) && IsDigit(s[1]);
  }

  predicate Blank(s: string) {
    forall i :: 0 <= i < |s| ==> IsSpace(s[i])
  }

  /** Trimming takes white space off both ends, all of it and nothing else. */
  lemma TrimTakesBlanks(s: string) returns (before: string, after: string)
    ensures s == before + Trim(s) + after && Blank(before) && Blank(after)
    ensures Trim(s) != "" ==> !IsSpace(Trim(s)[0]) && !IsSpace(Trim(s)[|Trim(s)| - 1])
  {
    before := TrimLeftTakes(s);
    after := TrimRightTakes(TrimLeft(s));
    assert s == before + (Trim(s) + after);
    assert Trim(s) != "" ==> Trim(s)[0] == TrimLeft(s)[0];
  }

  lemma {:induction false} TrimLeftTakes(s: string) returns (blank: string)
    ensures s == blank + TrimLeft(s) && Blank(blank)
    ensures TrimLeft(s) != "" ==> !IsSpace(TrimLeft(s)[0])
    decreases |s|
  {
    if s != "" && IsSpace(s[0]) {
      var rest := TrimLeftTakes(s[1..]);
      blank := [s[0]] + rest;
      assert s == [s[0]] + s[1..];
    } else {
      blank := "";
    }
  }

  lemma {:induction false} TrimRightTakes(s: string) returns (blank: string)
    ensures s == TrimRight(s) + blank && Blank(blank)
    ensures TrimRight(s) != "" ==> !IsSpace(TrimRight(s)[|TrimRight(s)| - 1])
    decreases |s|
  {
    if s != "" && IsSpace(s[|s| - 1]) {
      var rest := TrimRightTakes(s[..|s| - 1]);
      blank := rest + [s[|s| - 1]];
      assert s == s[..|s| - 1] + [s[|s| - 1]];
    } else {
      blank := "";
    }
  }

  lemma {:induction false} TrimLeftDropsBlank(blank: string, s: string)
    requires Blank(blank) && s != "" && !IsSpace(s[0])
    ensures TrimLeft(blank + s) == s
    decreases |blank|
  {
    if blank == "" {
      assert blank + s == s;
    } else {
      assert (blank + s)[1..] == blank[1..] + s;
      TrimLeftDropsBlank(blank[1..], s);
    }
  }

  lemma {:induction false} TrimRightDropsBlank(s: string, blank: string)
    requires Blank(blank) && s != "" && !IsSpace(s[|s| - 1])
    ensures TrimRight(s + blank) == s
    decreases |blank|
  {
    if blank == "" {
      assert s + blank == s;
    } else {
      assert (s + blank)[..|s + blank| - 1] == s + blank[..|blank| - 1];
      TrimRightDropsBlank(s, blank[..|blank| - 1]);
    }
  }

  /** Two texts and their readings. */
  lemma NineToFive()
    ensures ParseTime("09:00") == Some(540) && ParseTime("17:00") == Some(1020)
  {
    hide ParseTime, Clock;
    NineToFiveTexts();
    ReadsClock(540);
    ReadsClock(1020);
  }

  lemma NineToFiveTexts()
    ensures Clock(540) == "09:00" && Clock(1020) == "17:00"
  {
  }

  lemma ReadsClock(t: int)
    requires 0 <= t <= 1439
    ensures ParseTime(Clock(t)) == Some(t)
  {
    ClockIsRead(t, "", "");
    assert "" + Clock(t) + "" == Clock(t);
  }

  /** A number is read with or without a sign ... */
  lemma AtoiReads(d: string)
    requires AllDigits(d)
    ensures Atoi(d) == Some(Digits(d)) && Atoi("+" + d) == Some(Digits(d)) && Atoi("-" + d) == Some(0 - Digits(d))
  {
    hide Digits;
    assert ("+" + d)[1..] == d && ("-" + d)[1..] == d;
    assert IsDigit(d[0]);
  }

  /** ... and nothing else is read. */
  lemma AtoiReadsOnly(s: string)
    requires Atoi(s).Some?
    ensures AllDigits(s) || (s != "" && (s[0] == '+' || s[0] == '-') && AllDigits(s[1..]))
  {
    hide Digits;
  }

  lemma DigitsAppend(s: string, d: nat)
    requires d < 10
    ensures Digits(s + ['0' + d as char]) == 10 * Digits(s) + d && Digits("") == 0
  {
    assert (s + ['0' + d as char])[..|s|] == s;
  }

  /** Round trip: every time of day is read back from its usual text, whatever white space surrounds it. */
  lemma ClockIsRead(t: int, before: string, after: string)
    requires 0 <= t <= 1439 && Blank(before) && Blank(after)
    ensures ParseTime(before + Clock(t) + after) == Some(t)
  {
    var c := Clock(t);
    assert before + c + after == before + (c + after);
    TrimLeftDropsBlank(before, c + after);
    TrimRightDropsBlank(c, after);
    TwoDigitsRead(t / 60);
    TwoDigitsRead(t % 60);
    SplitPair(TwoDigits(t / 60), TwoDigits(t % 60));
  }
}
