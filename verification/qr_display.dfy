/** The attendance QR screen: the `m:ss` countdown text and the per-second countdown step. */
module QrDisplay {
  import opened Text

  /** `s.padStart(n, c)`: `c` repeated in front of `s` up to length `n`. */
  function PadStart(s: string, n: nat, c: char): (r: string)
    ensures |r| == if |s| < n then n else |s|
    ensures forall i :: 0 <= i < |r| - |s| ==> r[i] == c
    ensures r[|r| - |s|..] == s
  {
    if |s| < n then seq(n - |s|, _ => c) + s else s
  }

  /** `seconds % 60` with JavaScript's sign rule: the remainder takes the sign of `seconds`. */
  function JsRem60(seconds: int): (r: int)
    ensures -60 < r < 60
    ensures seconds >= 0 ==> r == seconds % 60
    ensures seconds < 0 ==> r == -((-seconds) % 60)
  {
    if seconds >= 0 then seconds % 60 else -((-seconds) % 60)
  }

  /** `formatTime`: `Math.floor(seconds / 60)`, a colon, and the remainder padded to two characters. */
  function FormatTime(seconds: int): (r: string)
    ensures var mins := IntToString(seconds / 60);
      |r| >= |mins| + 3 && r[..|mins|] == mins && r[|mins|] == ':'
  {
    var mins := IntToString(seconds / 60);
    var secs := PadStart(IntToString(JsRem60(seconds)), 2, '0');
    assert |secs| >= 2;
    mins + ":" + secs
  }

  /** A remainder below 60 padded to two characters is its two decimal digits. */
  lemma TwoDigits(secs: nat)
    requires secs < 60
    ensures PadStart(NatToString(secs), 2, '0') == [Digit(secs / 10), Digit(secs % 10)]
  {
    if secs >= 10 {
      assert NatToString(secs) == NatToString(secs / 10) + [Digit(secs % 10)];
    }
  }

  lemma DigitRoundTrip(d: nat)
    requires d < 10
    ensures IsDigit(Digit(d)) && DigitValue(Digit(d)) == d
  {
  }

  /**
   * For a non-negative count the minutes are written without padding, the
   * seconds as exactly two digits, and reading both back gives the count.
   */
  lemma FormatTimeReadBack(seconds: nat)
    ensures var r := FormatTime(seconds);
      var mins := NatToString(seconds / 60);
      |r| == |mins| + 3 && r[..|mins|] == mins && r[|mins|] == ':' &&
      IsDigit(r[|mins| + 1]) && IsDigit(r[|mins| + 2]) &&
      ParseNat(mins) * 60 + DigitValue(r[|mins| + 1]) * 10 + DigitValue(r[|mins| + 2]) == seconds
  {
    var mins := NatToString(seconds / 60);
    var secs := seconds % 60;
    assert JsRem60(seconds) == secs;
    TwoDigits(secs);
    var tail := [Digit(secs / 10), Digit(secs % 10)];
    assert FormatTime(seconds) == mins + ":" + tail;
    DigitRoundTrip(secs / 10);
    DigitRoundTrip(secs % 10);
    ParseNatToString(seconds / 60);
  }

  /** One second of the countdown: the new value and whether a fresh token is fetched. */
  datatype Tick = Tick(timeLeft: int, refetch: bool)

  /** `prev <= 1 ? (fetch, 0) : prev - 1`. */
  function CountdownStep(prev: int): (t: Tick)
    ensures t.refetch <==> prev <= 1
    ensures t.timeLeft == if prev > 1 then prev - 1 else 0
    ensures t.timeLeft >= 0
  {
    if prev <= 1 then Tick(0, true) else Tick(prev - 1, false)
  }

  /** The countdown state: the seconds shown and the token fetches requested so far. */
  datatype Countdown = Countdown(timeLeft: int, fetches: nat)

  /** What happens to the countdown: a second passes, or a new token arrives with its own lifetime. */
  datatype Event = Second | TokenArrived(timeLeft: int)

  function Step(c: Countdown, e: Event): (n: Countdown)
    ensures e.TokenArrived? ==> n == Countdown(e.timeLeft, c.fetches)
    ensures e.Second? ==> n.timeLeft == CountdownStep(c.timeLeft).timeLeft
    ensures e.Second? ==> n.fetches == c.fetches + (if c.timeLeft <= 1 then 1 else 0)
  {
    match e
    case TokenArrived(t) => Countdown(t, c.fetches)
    case Second =>
      var t := CountdownStep(c.timeLeft);
      Countdown(t.timeLeft, c.fetches + if t.refetch then 1 else 0)
  }

  /** `n` seconds without a new token. */
  function Seconds(c: Countdown, n: nat): Countdown {
    if n == 0 then c else Step(Seconds(c, n - 1), Second)
  }

  /**
   * After `n` seconds from `t` the countdown shows `max(t − n, 0)`; a fetch is
   * requested on each second that starts at 1 or less.
   */
  lemma {:induction false} SecondsFromStart(t: int, fetches: nat, n: nat)
    requires n >= 1 || t >= 0
    ensures Seconds(Countdown(t, fetches), n).timeLeft == if t - n > 0 then t - n else 0
    ensures Seconds(Countdown(t, fetches), n).fetches ==
      fetches + (if t >= 1 then (if n > t - 1 then n - (t - 1) else 0) else n)
  {
    if n > 0 {
      if n - 1 >= 1 || t >= 0 {
        SecondsFromStart(t, fetches, n - 1);
      } else {
        assert n == 1;
      }
    }
  }

  /** The countdown never goes below zero once it has run for a second or started at zero or more. */
  lemma NeverNegative(c: Countdown, n: nat)
    requires n >= 1 || c.timeLeft >= 0
    ensures Seconds(c, n).timeLeft >= 0
  {
    SecondsFromStart(c.timeLeft, c.fetches, n);
  }
}
