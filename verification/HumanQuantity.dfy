/** Durations as people read and type them. */
module HumanQuantity {
  import opened Text

  function Padded(n: nat): string
    requires n < 60
  {
    if n < 10 then "0" + Digits(n) else Digits(n)
  }

  /** Minutes and seconds; empty for nothing. */
  function FormatDuration(ms: int): string {
    if ms <= 0 then "" else
      var totalSeconds := ms / 1000;
      Digits(totalSeconds / 60) + ":" + Padded(totalSeconds % 60)
  }

  /** With hours once there are any. */
  function FormatClock(ms: int): string {
    if ms <= 0 then "" else
      var totalSeconds := ms / 1000;
      var hours := totalSeconds / 3600;
      var minutes := (totalSeconds % 3600) / 60;
      var seconds := totalSeconds % 60;
      if hours > 0
      then Digits(hours) + ":" + Padded(minutes) + ":" + Padded(seconds)
      else Digits(minutes) + ":" + Padded(seconds)
  }

  /** Exactly two digits, the first a zero below ten. */
  ghost predicate IsTwoDigits(s: string, n: nat) {
    |s| == 2 && AllDigits(s) && Value(s) == n
  }

  lemma PaddedIs(n: nat)
    requires n < 60
    ensures IsTwoDigits(Padded(n), n)
  {
    var s := Padded(n);
    ValueOfDigits(n);
    assert s[..2] == s && s[..1] == [s[0]] && [s[0]][..0] == "";
    assert Value([s[0]]) == s[0] as int - '0' as int;
    if n >= 10 {
      assert Digits(n / 10) == [Digit(n / 10)];
    }
  }

  /** A printed duration is its minutes, unpadded, and two digits of seconds. */
  lemma DurationForm(ms: int) returns (minutes: string, seconds: string)
    requires ms > 0
    ensures FormatDuration(ms) == minutes + ":" + seconds
    ensures IsNumeral(minutes, ms / 1000 / 60) && IsTwoDigits(seconds, ms / 1000 % 60)
  {
    var t := ms / 1000;
    minutes, seconds := Digits(t / 60), Padded(t % 60);
    DigitsAreNumeral(t / 60);
    PaddedIs(t % 60);
  }

  /** The other form shows hours exactly from an hour on, and then two digits of minutes. */
  lemma ClockForm(ms: int) returns (hours: string, minutes: string, seconds: string)
    requires ms > 0
    ensures var t := ms / 1000;
      IsTwoDigits(seconds, t % 60) &&
      if t < 3600 then FormatClock(ms) == minutes + ":" + seconds && IsNumeral(minutes, t / 60)
      else
        FormatClock(ms) == hours + ":" + minutes + ":" + seconds &&
        IsNumeral(hours, t / 3600) && IsTwoDigits(minutes, t % 3600 / 60)
  {
    var t := ms / 1000;
    var m: nat := t % 3600 / 60;
    hours, minutes, seconds := Digits(t / 3600), if t < 3600 then Digits(m) else Padded(m), Padded(t % 60);
    DigitsAreNumeral(t / 3600);
    DigitsAreNumeral(m);
    PaddedIs(m);
    PaddedIs(t % 60);
  }

  const MAX_INT64: int := 0x7fff_ffff_ffff_ffff

  function Numeral(s: string, negative: bool): int {
    if s == "" || !(forall c :: c in s ==> IsDigit(c)) then 0 else
      var v: int := if negative then -(Value(s) as int) else Value(s);
      if -MAX_INT64 - 1 <= v <= MAX_INT64 then v else 0
  }

  /** A signed 64-bit numeral; zero for anything else. */
  function ToLongLong(s: string): int {
    if s == "" then 0
    else if s[0] == '-' then Numeral(s[1..], true)
    else if s[0] == '+' then Numeral(s[1..], false)
    else Numeral(s, false)
  }

  /** Digits give their value, or its negative after a minus, if that fits 64 bits. */
  lemma SignedNumeral(s: string)
    requires s != "" && AllDigits(s)
    ensures ToLongLong(s) == if Value(s) <= MAX_INT64 then Value(s) else 0
    ensures ToLongLong("+" + s) == if Value(s) <= MAX_INT64 then Value(s) else 0
    ensures ToLongLong("-" + s) == if Value(s) <= MAX_INT64 + 1 then -(Value(s) as int) else 0
  {
    assert s[0] in s;
    assert ("+" + s)[1..] == s && ("-" + s)[1..] == s;
  }

  /** Anything else is zero. */
  lemma NoNumeral(s: string)
    requires !IsSigned(s)
    ensures ToLongLong(s) == 0
  {
  }

  /** At most one sign, and digits. */
  predicate IsSigned(s: string) {
    s != "" &&
    var digits := if s[0] == '-' || s[0] == '+' then s[1..] else s;
    digits != "" && forall c :: c in digits ==> IsDigit(c)
  }

  /** The base-60 value of components, most significant first. */
  function Base60(components: seq<int>): int {
    if components == [] then 0
    else Base60(components[..|components| - 1]) * 60 + components[|components| - 1]
  }

  function Components(text: string): seq<int> {
    var parts := Split(text, ':');
    seq(|parts|, i requires 0 <= i < |parts| => ToLongLong(Trim(parts[i])))
  }

  method ParseDuration(text: string) returns (ms: int)
    ensures ms == Base60(Components(text)) * 1000
  {
    var total := 0;
    var parts := Split(text, ':');
    for i := 0 to |parts|
      invariant total == Base60(Components(text)[..i])
    {
      ghost var upTo := Components(text)[..i + 1];
      assert upTo[..i] == Components(text)[..i];
      total := total * 60 + ToLongLong(Trim(parts[i]));
    }
    assert Components(text)[..|parts|] == Components(text);
    ms := total * 1000;
  }

  lemma TrimDigits(s: string)
    requires AllDigits(s)
    ensures Trim(s) == s
  {
    if s != "" {
      assert s[0] in s && s[|s| - 1] in s;
    }
  }

  /** A printed component reads back as its number, with or without the padding zero. */
  lemma ComponentReadsBack(n: nat)
    requires n <= MAX_INT64
    ensures ToLongLong(Trim(Digits(n))) == n && ':' !in Digits(n)
    ensures n < 60 ==> ToLongLong(Trim(Padded(n))) == n && ':' !in Padded(n)
  {
    ValueOfDigits(n);
    TrimDigits(Digits(n));
    assert Digits(n)[0] in Digits(n);
    if n < 10 {
      var s := "0" + Digits(n);
      TrimDigits(s);
      assert s[0] in s && s[..1][..0] == "" && s[..|s| - 1] == "0";
      assert Value("0") == Value("0"[..0]) * 10 + 0;
    }
  }

  lemma Base60Two(a: int, b: int)
    ensures Base60([a, b]) == a * 60 + b
  {
    assert [a, b][..1] == [a] && [a][..0] == [];
    assert Base60([a]) == Base60([]) * 60 + a;
  }

  lemma Base60Three(a: int, b: int, c: int)
    ensures Base60([a, b, c]) == (a * 60 + b) * 60 + c
  {
    assert [a, b, c][..2] == [a, b];
    Base60Two(a, b);
  }

  lemma TwoComponents(a: string, b: string)
    requires ':' !in a && ':' !in b
    ensures Components(a + ":" + b) == [ToLongLong(Trim(a)), ToLongLong(Trim(b))]
  {
    SplitAt(a, b, ':');
    SplitNone(b, ':');
  }

  lemma ThreeComponents(a: string, b: string, c: string)
    requires ':' !in a && ':' !in b && ':' !in c
    ensures Components(a + ":" + b + ":" + c) == [ToLongLong(Trim(a)), ToLongLong(Trim(b)), ToLongLong(Trim(c))]
  {
    assert a + ":" + b + ":" + c == a + ":" + (b + ":" + c);
    SplitAt(a, b + ":" + c, ':');
    SplitAt(b, c, ':');
    SplitNone(c, ':');
  }

  /** Parsing a printed duration gives it back, rounded down to whole seconds. */
  lemma DurationRoundTrip(ms: int)
    requires ms <= MAX_INT64
    ensures Base60(Components(FormatDuration(ms))) * 1000 == if ms <= 0 then 0 else ms / 1000 * 1000
  {
    if ms > 0 {
      MinutesRoundTrip(ms / 1000 / 60, ms / 1000 % 60);
    } else {
      EmptyIsZero();
    }
  }

  lemma EmptyIsZero()
    ensures Base60(Components("")) == 0
  {
    assert Components("") == [0];
    assert [0][..0] == [];
  }

  lemma HoursRoundTrip(hours: nat, minutes: nat, seconds: nat)
    requires hours <= MAX_INT64 && minutes < 60 && seconds < 60
    ensures Base60(Components(Digits(hours) + ":" + Padded(minutes) + ":" + Padded(seconds))) ==
            (hours * 60 + minutes) * 60 + seconds
  {
    ComponentReadsBack(hours);
    ComponentReadsBack(minutes);
    ComponentReadsBack(seconds);
    ThreeComponents(Digits(hours), Padded(minutes), Padded(seconds));
    Base60Three(hours, minutes, seconds);
  }

  lemma MinutesRoundTrip(minutes: nat, seconds: nat)
    requires minutes <= MAX_INT64 && seconds < 60
    ensures Base60(Components(Digits(minutes) + ":" + Padded(seconds))) == minutes * 60 + seconds
  {
    ComponentReadsBack(minutes);
    ComponentReadsBack(seconds);
    TwoComponents(Digits(minutes), Padded(seconds));
    Base60Two(minutes, seconds);
  }

  /** The same for the form with hours. */
  lemma ClockRoundTrip(ms: int)
    requires ms <= MAX_INT64
    ensures Base60(Components(FormatClock(ms))) * 1000 == if ms <= 0 then 0 else ms / 1000 * 1000
  {
    if ms > 0 {
      var t: nat := ms / 1000;
      var hours: nat, minutes: nat, seconds: nat := t / 3600, (t % 3600) / 60, t % 60;
      assert t == (hours * 60 + minutes) * 60 + seconds;
      HoursRoundTrip(hours, minutes, seconds);
      MinutesRoundTrip(minutes, seconds);
    } else {
      EmptyIsZero();
    }
  }
}
