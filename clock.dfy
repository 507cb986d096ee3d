/*
 * The `M:SS` clock label that both the quiz card (remaining time) and the
 * video player (elapsed time) render from a number of seconds.
 *
 * The two components carry their own copy of formatTime; on whole,
 * non-negative seconds the copies agree (the player's extra Math.floor is the
 * identity there), so the label is defined once here.
 *
 * The string functions below carry few postconditions of their own; what they
 * guarantee is stated by the lemmas next to them, which callers invoke where
 * they need it.
 */
module Clock {

  datatype Option<T> = None | Some(value: T)

  predicate IsDigit(c: char) {
    '0' <= c <= '9'
  }

  /** Every character of `s` is a decimal digit. */
  predicate AllDigits(s: string) {
    s == [] || (IsDigit(s[|s| - 1]) && AllDigits(s[..|s| - 1]))
  }

  function DigitValue(c: char): nat
    requires IsDigit(c)
  {
    c as int - '0' as int
  }

  function DigitChar(d: nat): (c: char)
    requires d < 10
    ensures IsDigit(c) && DigitValue(c) == d
  {
    ('0' as int + d) as char
  }

  /**
   * The decimal digits of `n` without leading zeros: what `n.toString()` gives
   * for a whole number below 10^21 (JavaScript switches to exponent form from
   * there on).
   */
  function DecimalString(n: nat): string {
    if n < 10 then [DigitChar(n)] else DecimalString(n / 10) + [DigitChar(n % 10)]
  }

  /** The number a string of decimal digits denotes (most significant digit first). */
  function DecimalValue(s: string): nat
    requires AllDigits(s)
  {
    if s == [] then 0 else 10 * DecimalValue(s[..|s| - 1]) + DigitValue(s[|s| - 1])
  }

  /**
   * `n.toString()` is a non-empty digit string that reads back as `n`; it has
   * one digit exactly when `n < 10`, and it starts with '0' only for 0 itself.
   */
  lemma {:induction false} DecimalStringFacts(n: nat)
    ensures 1 <= |DecimalString(n)|
    ensures |DecimalString(n)| == 1 <==> n < 10
    ensures AllDigits(DecimalString(n)) && DecimalValue(DecimalString(n)) == n
    ensures DecimalString(n)[0] == '0' ==> n == 0
  {
    var s := DecimalString(n);
    if n < 10 {
      assert s[..0] == [];
    } else {
      DecimalStringFacts(n / 10);
      assert s[..|s| - 1] == DecimalString(n / 10);
      assert s[0] == DecimalString(n / 10)[0];
    }
  }

  /** `s.padStart(width, fill)` for a one-character fill string. */
  function PadStart(s: string, width: nat, fill: char): string {
    if |s| >= width then s else seq(width - |s|, _ => fill) + s
  }

  /** The seconds field of the label: `remainingSeconds.toString().padStart(2, '0')`. */
  function TwoDigits(n: nat): string
    requires n < 60
  {
    PadStart(DecimalString(n), 2, '0')
  }

  /** The seconds field is exactly two digits and reads back as `n`. */
  lemma TwoDigitsFacts(n: nat)
    requires n < 60
    ensures |TwoDigits(n)| == 2 && AllDigits(TwoDigits(n)) && DecimalValue(TwoDigits(n)) == n
  {
    DecimalStringFacts(n);
    var p := TwoDigits(n);
    if n < 10 {
      assert p == ['0', DigitChar(n)];
      assert p[..1] == ['0'] && ['0'][..0] == [];
    }
  }

  /** The label for `minutes` whole minutes and `secs` further seconds. */
  function Label(minutes: nat, secs: nat): string
    requires secs < 60
  {
    DecimalString(minutes) + ":" + TwoDigits(secs)
  }

  /** formatTime(seconds): the `M:SS` label, minutes unpadded. */
  function FormatTime(seconds: nat): string {
    Label(seconds / 60, seconds % 60)
  }

  lemma SplitLabel(m: string, s: string)
    requires |s| == 2
    ensures var r := m + ":" + s; |r| == |m| + 3 && r[|r| - 3] == ':'
    ensures var r := m + ":" + s; r[..|r| - 3] == m && r[|r| - 2..] == s
  {
    var r := m + ":" + s;
    assert r[..|r| - 3] == m;
    assert r[|r| - 2..] == s;
  }

  /**
   * The label is the unpadded decimal minutes, a ':' and exactly two digits
   * for the seconds.
   */
  lemma LabelFields(minutes: nat, secs: nat)
    requires secs < 60
    ensures var r := Label(minutes, secs);
      && |r| >= 4 && r[|r| - 3] == ':'
      && r[..|r| - 3] == DecimalString(minutes)
      && AllDigits(r[..|r| - 3]) && DecimalValue(r[..|r| - 3]) == minutes
      && AllDigits(r[|r| - 2..]) && DecimalValue(r[|r| - 2..]) == secs
  {
    DecimalStringFacts(minutes);
    TwoDigitsFacts(secs);
    SplitLabel(DecimalString(minutes), TwoDigits(secs));
  }

  lemma SplitAt60(seconds: nat)
    ensures seconds % 60 < 60 && (seconds / 60) * 60 + seconds % 60 == seconds
  {
  }

  /**
   * formatTime(seconds): the minutes field reads as seconds / 60, the seconds
   * field is two digits reading as seconds % 60 (below 60), and together they
   * give back `seconds`.
   */
  lemma FormatTimeFields(seconds: nat)
    ensures var r := FormatTime(seconds);
      && |r| >= 4 && r[|r| - 3] == ':'
      && AllDigits(r[..|r| - 3]) && DecimalValue(r[..|r| - 3]) == seconds / 60
      && AllDigits(r[|r| - 2..]) && DecimalValue(r[|r| - 2..]) == seconds % 60 < 60
      && DecimalValue(r[..|r| - 3]) * 60 + DecimalValue(r[|r| - 2..]) == seconds
  {
    SplitAt60(seconds);
    LabelFields(seconds / 60, seconds % 60);
  }

  /** Reads an `M:SS` label back into seconds; the inverse of FormatTime. */
  function ParseTime(t: string): Option<nat> {
    if |t| >= 4 && t[|t| - 3] == ':' && AllDigits(t[..|t| - 3]) && AllDigits(t[|t| - 2..])
       && DecimalValue(t[|t| - 2..]) < 60
    then Some(DecimalValue(t[..|t| - 3]) * 60 + DecimalValue(t[|t| - 2..]))
    else None
  }

  /** A label reads back as the minutes and seconds it was made from. */
  lemma LabelRoundTrip(minutes: nat, secs: nat)
    requires secs < 60
    ensures ParseTime(Label(minutes, secs)) == Some(minutes * 60 + secs)
  {
    LabelFields(minutes, secs);
  }

  /** The label determines the seconds it was made from. */
  lemma FormatTimeRoundTrip(seconds: nat)
    ensures ParseTime(FormatTime(seconds)) == Some(seconds)
  {
    SplitAt60(seconds);
    LabelRoundTrip(seconds / 60, seconds % 60);
  }

  lemma WholeMinutesDivMod(minutes: nat)
    ensures (minutes * 60) / 60 == minutes && (minutes * 60) % 60 == 0
  {
  }

  /** A whole number of minutes shows as the minutes followed by ":00". */
  lemma WholeMinutesLabel(minutes: nat)
    ensures FormatTime(minutes * 60) == DecimalString(minutes) + ":00"
  {
    WholeMinutesDivMod(minutes);
    assert TwoDigits(0) == "00";
  }
}
