/**
 * The replay page's pure helpers (time formatting, validation of the `time`
 * URL argument) and its player state (speed multiplier and progress).
 */
module ReplayView {
  import opened Common

  // ------------------------------------------------------------ formatTime

  /** JavaScript's `%` for a positive divisor: the remainder takes the dividend's sign. */
  function JsRem(a: int, b: int): (r: int)
    requires b > 0
    ensures a >= 0 ==> r == a % b
    ensures -b < r < b
  {
    if a >= 0 then a % b else -((-a) % b)
  }

  /** `s.padStart(2, "0")` */
  function PadStart2(s: string): (r: string)
    ensures |r| >= 2
  {
    if |s| == 0 then "00" else if |s| == 1 then "0" + s else s
  }

  /** `formatTime`: "minutes:seconds", the seconds padded to two characters. */
  function FormatTime(milliseconds: int): string
  {
    var seconds := milliseconds / 1000;   // Math.floor(ms / 1000): Euclidean division by a positive divisor
    var mins := seconds / 60;
    var secs := JsRem(seconds, 60);
    IntString(mins) + ":" + PadStart2(IntString(secs))
  }

  /** Two decimal digits of a number below 100. */
  function TwoDigits(n: nat): (s: string)
    requires n < 100
    ensures |s| == 2 && IsDigit(s[0]) && IsDigit(s[1])
  {
    [DigitChar(n / 10), DigitChar(n % 10)]
  }

  lemma PaddedSeconds(s: nat)
    requires s < 60
    ensures PadStart2(IntString(s)) == TwoDigits(s)
  {
    if s >= 10 {
      assert Decimal(s) == Decimal(s / 10) + [DigitChar(s % 10)];
    }
  }

  /** For a non-negative time: whole minutes, then the remaining seconds as two digits. */
  lemma FormatTimeShape(ms: int)
    requires ms >= 0
    ensures FormatTime(ms) == Decimal(ms / 1000 / 60) + ":" + TwoDigits(ms / 1000 % 60)
    ensures (ms / 1000 / 60) * 60 + ms / 1000 % 60 == ms / 1000
  {
    PaddedSeconds(ms / 1000 % 60);
  }

  /** Two concatenations with equally long tails are equal exactly piecewise. */
  lemma SplitAtLength(x: string, y: string, u: string, v: string)
    requires |y| == |v| && x + y == u + v
    ensures x == u && y == v
  {
    assert x == (x + y)[..|x|];
    assert u == (u + v)[..|u|];
    assert y == (x + y)[|x|..];
    assert v == (u + v)[|u|..];
  }

  /** Two non-negative times print the same exactly when they fall in the same second. */
  lemma FormatTimeInjective(a: int, b: int)
    requires a >= 0 && b >= 0
    ensures FormatTime(a) == FormatTime(b) <==> a / 1000 == b / 1000
  {
    FormatTimeShape(a);
    FormatTimeShape(b);
    if FormatTime(a) == FormatTime(b) {
      var da, db := Decimal(a / 1000 / 60), Decimal(b / 1000 / 60);
      var ta, tb := TwoDigits(a / 1000 % 60), TwoDigits(b / 1000 % 60);
      SplitAtLength(da + ":", ta, db + ":", tb);
      SplitAtLength(da, ":", db, ":");
      DecimalInjective(a / 1000 / 60, b / 1000 / 60);
      assert ta[0] == tb[0] && ta[1] == tb[1];
    }
  }

  // ------------------------------------------------------------ time argument

  /** Leading white space skipped by `parseInt`. */
  function TrimStart(s: string): (r: string)
    ensures |r| <= |s| && r == s[|s| - |r|..]
    ensures |r| > 0 ==> !IsJsWhitespace(r[0])
  {
    if |s| > 0 && IsJsWhitespace(s[0]) then TrimStart(s[1..]) else s
  }

  /** The longest prefix made of decimal digits. */
  function DigitPrefix(s: string): (d: string)
    ensures |d| <= |s| && d == s[..|d|]
    ensures forall i :: 0 <= i < |d| ==> IsDigit(d[i])
    ensures |d| < |s| ==> !IsDigit(s[|d|])
  {
    if |s| > 0 && IsDigit(s[0]) then [s[0]] + DigitPrefix(s[1..]) else []
  }

  /** `parseInt(s, 10)`: `None` stands for NaN. */
  function ParseInt(s: string): Option<int>
  {
    var t := TrimStart(s);
    var negative := |t| > 0 && t[0] == '-';
    var body := if |t| > 0 && (t[0] == '-' || t[0] == '+') then t[1..] else t;
    var digits := DigitPrefix(body);
    if |digits| == 0 then None
    else
      var value: int := DigitsValue(digits);
      Some(if negative then -value else value)
  }

  /** The check applied to the `time` argument before it is used. */
  predicate TimeArgAccepted(timeArg: string)
  {
    timeArg != "" &&
    var time := ParseInt(timeArg);
    time.Some? && time.value > 0 && IntString(time.value) == timeArg
  }

  lemma {:induction false} DigitPrefixAllDigits(s: string)
    requires forall i :: 0 <= i < |s| ==> IsDigit(s[i])
    ensures DigitPrefix(s) == s
  {
    if |s| > 0 {
      DigitPrefixAllDigits(s[1..]);
    }
  }

  /** An accepted argument is the decimal form of the positive integer it parses to. */
  lemma AcceptedIsDecimal(timeArg: string)
    requires TimeArgAccepted(timeArg)
    ensures ParseInt(timeArg).value > 0 && timeArg == Decimal(ParseInt(timeArg).value)
  {
  }

  /** A non-empty string of digits parses to its value. */
  lemma ParseDigits(s: string)
    requires |s| >= 1 && forall i :: 0 <= i < |s| ==> IsDigit(s[i])
    ensures ParseInt(s) == Some(DigitsValue(s))
  {
    var t := TrimStart(s);
    assert t == s by { assert IsDigit(s[0]); }
    assert DigitPrefix(s) == s by { DigitPrefixAllDigits(s); }
    // neither a sign nor white space: the digits are read from the first character
    assert !(|t| > 0 && (t[0] == '-' || t[0] == '+')) by { assert IsDigit(s[0]); }
  }

  /** The decimal form of a positive integer is accepted, and parses back to it. */
  lemma DecimalAccepted(n: nat)
    requires n > 0
    ensures ParseInt(Decimal(n)) == Some(n) && TimeArgAccepted(Decimal(n))
  {
    ParseDigits(Decimal(n));
    DigitsValueOfDecimal(n);
    assert IntString(n) == Decimal(n);
  }

  /** The argument is accepted exactly when it is the canonical decimal form of a positive integer. */
  lemma TimeArgCanonical(timeArg: string)
    ensures TimeArgAccepted(timeArg) <==> exists n: nat :: n > 0 && timeArg == Decimal(n)
  {
    if TimeArgAccepted(timeArg) {
      AcceptedIsDecimal(timeArg);
      var n: nat := ParseInt(timeArg).value;
      assert n > 0 && timeArg == Decimal(n);
    }
    if exists n: nat :: n > 0 && timeArg == Decimal(n) {
      var n: nat :| n > 0 && timeArg == Decimal(n);
      DecimalAccepted(n);
    }
  }

  // ------------------------------------------------------------ player state

  predicate AllowedSpeed(speed: real) { speed == 0.5 || speed == 1.0 || speed == 1.5 || speed == 2.0 }

  function Min(a: real, b: real): real { if a <= b then a else b }

  class ReplayPlayer {
    var timeMultiplier: real
    /** The progress bar's value, in milliseconds. */
    var progress: real
    var previousTime: real
    var isUserInteracting: bool
    /** The loaded replay's duration, `None` until the replay has been fetched. */
    var gameDuration: Option<int>

    predicate Valid()
      reads this
    {
      AllowedSpeed(timeMultiplier)
    }

    /** `setupReplay`: normal speed, nothing loaded yet. */
    constructor (now: real)
      ensures Valid()
      ensures timeMultiplier == 1.0 && gameDuration.None? && progress == 0.0
      ensures previousTime == now && !isUserInteracting
    {
      timeMultiplier := 1.0;
      progress := 0.0;
      previousTime := now;
      isUserInteracting := false;
      gameDuration := None;
    }

    /** Once the replay is fetched: an accepted `time` argument (in seconds) sets the progress, clamped to the duration. */
    method Load(duration: int, timeArg: Option<string>)
      modifies this`gameDuration, this`progress
      ensures gameDuration == Some(duration)
      ensures timeArg.Some? && TimeArgAccepted(timeArg.value) ==>
                progress == Min(ParseInt(timeArg.value).value as real * 1000.0, duration as real) &&
                progress <= duration as real
      ensures !(timeArg.Some? && TimeArgAccepted(timeArg.value)) ==> progress == old(progress)
    {
      gameDuration := Some(duration);
      if timeArg.Some? && timeArg.value != "" {
        var time := ParseInt(timeArg.value);
        if time.Some? && time.value > 0 && IntString(time.value) == timeArg.value {
          progress := Min(time.value as real * 1000.0, duration as real);
        }
      }
    }

    /** `setReplaySpeed`: only the four offered speeds are taken. */
    method SetReplaySpeed(speed: real)
      modifies this`timeMultiplier
      requires Valid()
      ensures Valid()
      ensures timeMultiplier == (if AllowedSpeed(speed) then speed else old(timeMultiplier))
    {
      if speed == 0.5 || speed == 1.0 || speed == 1.5 || speed == 2.0 {
        timeMultiplier := speed;
      }
    }

    /** One tick of the playback interval: advance by the scaled elapsed time, never past the end. */
    method Tick(currentTime: real)
      modifies this`progress, this`previousTime
      requires Valid()
      ensures Valid()
      ensures previousTime == currentTime
      ensures !isUserInteracting && gameDuration.Some? ==>
                progress == Min(old(progress) + (currentTime - old(previousTime)) * timeMultiplier,
                                gameDuration.value as real)
      ensures isUserInteracting || gameDuration.None? ==> progress == old(progress)
      ensures gameDuration.Some? && !isUserInteracting ==> progress <= gameDuration.value as real
      ensures (gameDuration.Some? && !isUserInteracting && currentTime >= old(previousTime) &&
               old(progress) <= gameDuration.value as real) ==> progress >= old(progress)
    {
      var deltaTime := (currentTime - previousTime) * timeMultiplier;
      assert currentTime >= previousTime ==> deltaTime >= 0.0 by {
        if timeMultiplier == 0.5 {
        } else if timeMultiplier == 1.0 {
        } else if timeMultiplier == 1.5 {
        } else {
          assert timeMultiplier == 2.0;
        }
      }
      previousTime := currentTime;
      if !isUserInteracting && gameDuration.Some? {
        progress := Min(progress + deltaTime, gameDuration.value as real);
      }
    }
  }
}
