/**
 * The relative-time formatter (timeAgoFromMs, server.js:124-140). The current
 * time is a parameter instead of a clock reading.
 */
module TimeFormat {

  type Pos = x: int | x > 0 witness 1

  /** One entry of the formatter's unit table. */
  datatype TimeUnit = TimeUnit(name: string, seconds: Pos)

  /** The unit table, largest unit first. */
  const Units: seq<TimeUnit> := [
    TimeUnit("year", 31536000),
    TimeUnit("month", 2592000),
    TimeUnit("day", 86400),
    TimeUnit("hour", 3600),
    TimeUnit("minute", 60),
    TimeUnit("second", 1)
  ]

  predicate IsDigit(c: char) { '0' <= c <= '9' }

  function DigitChar(d: nat): (c: char)
    requires d < 10
    ensures IsDigit(c) && c as int - '0' as int == d
  {
    ('0' as int + d) as char
  }

  /** Decimal rendering of a natural number, as a JavaScript template literal renders it. */
  function NatToString(n: nat): (s: string)
    ensures |s| >= 1
    ensures forall i :: 0 <= i < |s| ==> IsDigit(s[i])
    ensures s[0] == '0' <==> n == 0
  {
    if n < 10 then [DigitChar(n)] else NatToString(n / 10) + [DigitChar(n % 10)]
  }

  /** The number a string of decimal digits denotes. */
  function DigitsValue(s: string): nat
    requires forall i :: 0 <= i < |s| ==> IsDigit(s[i])
  {
    if s == [] then 0
    else
      var last := s[|s| - 1];
      assert IsDigit(last);
      DigitsValue(s[..|s| - 1]) * 10 + (last as int - '0' as int)
  }

  /** The rendering can be read back: no information is lost. */
  lemma {:induction false} NatToStringRoundTrip(n: nat)
    ensures DigitsValue(NatToString(n)) == n
  {
    if n >= 10 {
      var s := NatToString(n);
      assert s[..|s| - 1] == NatToString(n / 10);
      NatToStringRoundTrip(n / 10);
    }
  }

  /** Elapsed whole seconds: Math.floor((now - t) / 1000). */
  function DiffSeconds(epochMs: int, nowMs: int): int
  {
    (nowMs - epochMs) / 1000
  }

  /** "{n} {unit}{'s' if n > 1} ago". */
  function Phrase(value: nat, unitName: string): string
  {
    NatToString(value) + " " + unitName + (if value > 1 then "s" else "") + " ago"
  }

  /** The loop over the unit table, from entry k on. */
  function PickUnit(d: int, k: nat): string
    requires k <= |Units|
    decreases |Units| - k
  {
    if k == |Units| then "just now"
    else
      var value := d / Units[k].seconds;
      if value >= 1 then Phrase(value, Units[k].name) else PickUnit(d, k + 1)
  }

  function TimeAgoFromMs(epochMs: int, nowMs: int): string
  {
    PickUnit(DiffSeconds(epochMs, nowMs), 0)
  }

  lemma DivAtLeastOne(d: int, s: Pos)
    ensures d / s >= 1 <==> s <= d
  {
  }

  lemma {:induction false} PickUnitNothingElapsed(d: int, k: nat)
    requires d < 1 && k <= |Units|
    ensures PickUnit(d, k) == "just now"
    decreases |Units| - k
  {
    if k < |Units| {
      DivAtLeastOne(d, Units[k].seconds);
      PickUnitNothingElapsed(d, k + 1);
    }
  }

  lemma {:induction false} PickUnitFirstFit(d: int, k: nat)
    requires d >= 1 && k < |Units|
    ensures exists j :: k <= j < |Units| && Units[j].seconds <= d
              && (forall i :: k <= i < j ==> d < Units[i].seconds)
              && PickUnit(d, k) == Phrase(d / Units[j].seconds, Units[j].name)
    decreases |Units| - k
  {
    var u := Units[k];
    if k == |Units| - 1 {
      assert u.seconds == 1;
    }
    DivAtLeastOne(d, u.seconds);
    if d / u.seconds >= 1 {
      assert PickUnit(d, k) == Phrase(d / u.seconds, u.name);
    } else {
      assert PickUnit(d, k) == PickUnit(d, k + 1);
      PickUnitFirstFit(d, k + 1);
      var j :| k + 1 <= j < |Units| && Units[j].seconds <= d
              && (forall i :: k + 1 <= i < j ==> d < Units[i].seconds)
              && PickUnit(d, k + 1) == Phrase(d / Units[j].seconds, Units[j].name);
      assert forall i :: k <= i < j ==> d < Units[i].seconds;
    }
  }

  /** A phrase begins with the digits of its count. */
  lemma PhraseLeadsWithDigit(value: nat, unitName: string)
    ensures |Phrase(value, unitName)| >= 1 && IsDigit(Phrase(value, unitName)[0])
  {
    var n := NatToString(value);
    assert Phrase(value, unitName)[0] == n[0];
  }

  /** "just now" exactly when less than one whole second has elapsed. */
  lemma TimeAgoJustNow(epochMs: int, nowMs: int)
    ensures TimeAgoFromMs(epochMs, nowMs) == "just now" <==> DiffSeconds(epochMs, nowMs) < 1
  {
    var d := DiffSeconds(epochMs, nowMs);
    if d < 1 {
      PickUnitNothingElapsed(d, 0);
    } else {
      PickUnitFirstFit(d, 0);
      var j :| 0 <= j < |Units| && TimeAgoFromMs(epochMs, nowMs) == Phrase(d / Units[j].seconds, Units[j].name);
      PhraseLeadsWithDigit(d / Units[j].seconds, Units[j].name);
      assert !IsDigit("just now"[0]);
    }
  }

  /**
   * Otherwise the phrase counts the largest unit that fits into the elapsed
   * time, with the plural "s" exactly when that count exceeds one.
   */
  lemma TimeAgoLargestUnit(epochMs: int, nowMs: int)
    requires DiffSeconds(epochMs, nowMs) >= 1
    ensures exists k :: 0 <= k < |Units|
              && Units[k].seconds <= DiffSeconds(epochMs, nowMs)
              && (forall j :: 0 <= j < k ==> DiffSeconds(epochMs, nowMs) < Units[j].seconds)
              && TimeAgoFromMs(epochMs, nowMs)
                 == NatToString(DiffSeconds(epochMs, nowMs) / Units[k].seconds) + " " + Units[k].name
                    + (if DiffSeconds(epochMs, nowMs) / Units[k].seconds > 1 then "s" else "") + " ago"
  {
    PickUnitFirstFit(DiffSeconds(epochMs, nowMs), 0);
  }

  /** The formatter never yields the leaderboard's "unknown" fallback word. */
  lemma TimeAgoNeverUnknown(epochMs: int, nowMs: int)
    ensures TimeAgoFromMs(epochMs, nowMs) != "unknown"
  {
    PickUnitShape(DiffSeconds(epochMs, nowMs), 0);
    assert "just now"[0] != "unknown"[0];
    assert !IsDigit("unknown"[0]);
  }

  /** The loop yields either "just now" or a phrase led by a digit. */
  lemma {:induction false} PickUnitShape(d: int, k: nat)
    requires k <= |Units|
    ensures var t := PickUnit(d, k); t == "just now" || (|t| >= 1 && IsDigit(t[0]))
    decreases |Units| - k
  {
    if k < |Units| {
      var value := d / Units[k].seconds;
      if value >= 1 {
        PhraseLeadsWithDigit(value, Units[k].name);
      } else {
        PickUnitShape(d, k + 1);
      }
    }
  }
}
