/**
 * The MM:SS text the recording timer shows: the elapsed milliseconds are
 * split into whole minutes and whole seconds, each written in decimal and
 * left-padded with '0' to two characters.
 */
module ElapsedTime {
  import opened Numerals

  /**
   * `s.padStart(width, fill)`: fill characters in front until the string is
   * `width` long; never truncates, so the result is max(|s|, width) long.
   */
  function PadStart(s: string, width: nat, fill: char): (r: string)
    ensures |r| == if |s| >= width then |s| else width
    ensures r[|r| - |s|..] == s
    ensures forall i :: 0 <= i < |r| - |s| ==> r[i] == fill
  {
    if |s| >= width then s else Repeat(fill, width - |s|) + s
  }

  /** n copies of c. */
  function Repeat(c: char, n: nat): (r: string)
    ensures |r| == n && forall i :: 0 <= i < n ==> r[i] == c
  {
    if n == 0 then [] else [c] + Repeat(c, n - 1)
  }

  /** Integer division truncated toward zero, the quotient JavaScript's `%` goes with. */
  function TruncDiv(a: int, b: int): int
    requires b > 0
  {
    if a >= 0 then a / b else -((-a) / b)
  }

  /**
   * JavaScript's `a % b`: the remainder of division truncated toward zero,
   * so it takes the sign of `a` (Dafny's `%` never goes negative), and `a`
   * is the truncated quotient times `b` plus the remainder.
   */
  function JsRemainder(a: int, b: int): (r: int)
    requires b > 0
    ensures -b < r < b
    ensures a == TruncDiv(a, b) * b + r
    ensures a >= 0 ==> r == a % b
    ensures a < 0 ==> r <= 0
  {
    if a >= 0 then a % b else -((-a) % b)
  }

  /**
   * `Math.floor(elapsed / 60000)`. Dafny's `/` with a positive divisor already
   * rounds toward negative infinity, as Math.floor does.
   */
  function Minutes(elapsed: int): (m: int)
    ensures m * 60000 <= elapsed < m * 60000 + 60000
  {
    elapsed / 60000
  }

  /** `Math.floor((elapsed % 60000) / 1000)` with JavaScript's remainder. */
  function Seconds(elapsed: int): (s: int)
    ensures -60 <= s < 60
    ensures elapsed >= 0 ==> 0 <= s < 60 && s == (elapsed % 60000) / 1000
    ensures elapsed >= 0 ==> elapsed == Minutes(elapsed) * 60000 + s * 1000 + elapsed % 1000
  {
    JsRemainder(elapsed, 60000) / 1000
  }

  /**
   * One field of the text, `n.toString().padStart(2, '0')`: for a
   * non-negative number, at least two digits and exactly two below 100,
   * never shorter than the numeral, reading back as the number; a field
   * longer than two characters is the bare numeral, with no leading zero.
   */
  function Field(n: int): (p: string)
    ensures n >= 0 ==>
      |p| >= 2 && |p| >= |NatToString(n)| && (n < 100 ==> |p| == 2) &&
      AllDigits(p) && DecimalValue(p) == n
    ensures n >= 0 ==> |p| == 2 || p[0] != '0'
  {
    if n >= 0 then
      FieldOfNat(n);
      PadStart(IntToString(n), 2, '0')
    else
      PadStart(IntToString(n), 2, '0')
  }

  lemma FieldOfNat(n: nat)
    ensures var p := PadStart(IntToString(n), 2, '0');
      |p| >= 2 && |p| >= |NatToString(n)| && (n < 100 ==> |p| == 2) &&
      AllDigits(p) && DecimalValue(p) == n
  {
    var s := NatToString(n);
    var p := PadStart(IntToString(n), 2, '0');
    NatToStringRoundTrip(n);
    if n < 100 {
      ShortNumeral(n);
    }
    if |s| < 2 {
      assert p == ['0'] + s;
      LeadingZero(s);
    } else {
      assert p == s;
    }
  }

  /**
   * The timer text for `elapsed` milliseconds (`Date.now() - startTime`):
   * for a non-negative time, two fields of digits around one colon that
   * sits three characters from the end.
   */
  function Format(elapsed: int): (r: string)
    ensures elapsed >= 0 ==>
      && |r| >= 5 && r[|r| - 3] == ':'
      && AllDigits(MinutesField(r)) && AllDigits(SecondsField(r))
  {
    var pm := Field(Minutes(elapsed));
    var ps := Field(Seconds(elapsed));
    if elapsed >= 0 then
      FieldsFit(elapsed);
      Layout(pm, ps);
      pm + ":" + ps
    else
      pm + ":" + ps
  }

  /** For a non-negative time the minutes field has at least two digits and the seconds field exactly two. */
  lemma FieldsFit(elapsed: int)
    requires elapsed >= 0
    ensures var pm, ps := Field(Minutes(elapsed)), Field(Seconds(elapsed));
      |pm| >= 2 && |ps| == 2 && AllDigits(pm) && AllDigits(ps)
  {
    var m, sec := Minutes(elapsed), Seconds(elapsed);
    assert m >= 0 && 0 <= sec < 60;
  }

  /**
   * The text one tick of the timer writes at wall-clock time `now`: when
   * `now` is not before the start, two fields of digits around a colon, the
   * minutes field reading back as the whole minutes since the start and the
   * two-digit seconds field as the whole seconds within the current minute.
   */
  function TimerText(now: int, startTime: int): (r: string)
    ensures now >= startTime ==>
      && |r| >= 5 && r[|r| - 3] == ':'
      && AllDigits(MinutesField(r)) && AllDigits(SecondsField(r))
      && DecimalValue(MinutesField(r)) == (now - startTime) / 60000
      && |SecondsField(r)| == 2
      && DecimalValue(SecondsField(r)) == ((now - startTime) % 60000) / 1000
  {
    var elapsed := now - startTime;
    if elapsed >= 0 then
      FormatMinutes(elapsed);
      FormatSeconds(elapsed);
      Format(elapsed)
    else
      Format(elapsed)
  }

  /** A tick's text depends only on the time elapsed since the start. */
  lemma TimerTextIsFormat(now: int, startTime: int)
    ensures TimerText(now, startTime) == Format(now - startTime)
  {
  }

  /** The text is the minutes field, a colon and the seconds field. */
  lemma FormatIs(elapsed: int)
    ensures Format(elapsed) == Field(Minutes(elapsed)) + ":" + Field(Seconds(elapsed))
  {
  }

  /** Where the two fields and the colon sit in "<minutes>:<seconds>", and what they read back as. */
  lemma Layout(pm: string, ps: string)
    requires |pm| >= 2 && |ps| == 2 && AllDigits(pm) && AllDigits(ps)
    ensures var r := pm + ":" + ps;
      && |r| >= 5 && r[|r| - 3] == ':'
      && MinutesField(r) == pm && SecondsField(r) == ps
  {
    var r := pm + ":" + ps;
    assert MinutesField(r) == pm;
    assert SecondsField(r) == ps;
  }

  /** The text before the colon of a timer text "<minutes>:<SS>". */
  function MinutesField(r: string): string
  {
    if |r| >= 3 then r[..|r| - 3] else r
  }

  /** The last two characters of a timer text. */
  function SecondsField(r: string): string
  {
    if |r| >= 2 then r[|r| - 2..] else r
  }

  /** The two fields of the text and the colon between them. */
  lemma FormatLayout(elapsed: int)
    requires elapsed >= 0
    ensures var r := Format(elapsed);
      && |r| >= 5 && r[|r| - 3] == ':'
      && MinutesField(r) == Field(Minutes(elapsed)) && SecondsField(r) == Field(Seconds(elapsed))
  {
    Layout(Field(Minutes(elapsed)), Field(Seconds(elapsed)));
  }

  /** The minutes field reads back as the whole minutes and is never shorter than their numeral. */
  lemma FormatMinutes(elapsed: int)
    requires elapsed >= 0
    ensures var r := Format(elapsed);
      && DecimalValue(MinutesField(r)) == Minutes(elapsed) == elapsed / 60000
      && |MinutesField(r)| >= |NatToString(Minutes(elapsed))|
  {
    FormatLayout(elapsed);
  }

  /** The seconds field is two digits that read back as the seconds within the minute, 0 to 59. */
  lemma FormatSeconds(elapsed: int)
    requires elapsed >= 0
    ensures var r := Format(elapsed);
      && |SecondsField(r)| == 2
      && DecimalValue(SecondsField(r)) == Seconds(elapsed) == (elapsed % 60000) / 1000
      && Seconds(elapsed) < 60
  {
    FormatLayout(elapsed);
  }

  /** Under 100 minutes the text is exactly five characters. */
  lemma UnderHundredMinutes(elapsed: int)
    requires 0 <= elapsed < 100 * 60000
    ensures |Format(elapsed)| == 5
  {
    FormatLayout(elapsed);
  }

  /** No time elapsed reads "00:00". */
  lemma FormatZero()
    ensures Format(0) == "00:00"
  {
    assert NatToString(0) == "0";
    assert IntToString(0) == "0";
    assert PadStart("0", 2, '0') == "00";
  }
}
