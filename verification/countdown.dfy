/**
  The live countdown to the payout deadline (`utcCountdown`): the remaining
  time, clamped at zero, split into whole days, hours, minutes and seconds,
  and the human-readable label built from them. Instants are integer
  milliseconds since the Unix epoch.
*/
module Countdown {
  import Decimal
  import opened Wrappers

  const MillisPerSecond: nat := 1000
  const MillisPerMinute: nat := 60000
  const MillisPerHour: nat := 3600000
  const MillisPerDay: nat := 86400000

  /** Days, hours, minutes and seconds of a remaining duration. */
  datatype Parts = Parts(days: nat, hours: nat, minutes: nat, seconds: nat)

  /** The `countdownUTC` object of the payload; `labelText` is its `label` (`label` is a reserved word in Dafny). */
  datatype CountdownUtc = CountdownUtc(days: nat, hours: nat, minutes: nat, seconds: nat, labelText: string)

  /** Hours, minutes and seconds below their carry points. */
  predicate Normal(p: Parts) {
    p.hours < 24 && p.minutes < 60 && p.seconds < 60
  }

  /** The whole milliseconds that a set of parts stands for. */
  function Millis(p: Parts): nat {
    p.days * MillisPerDay + p.hours * MillisPerHour + p.minutes * MillisPerMinute + p.seconds * MillisPerSecond
  }

  /** The remaining time from `now` to `end`, never negative. */
  function Remaining(now: int, end: int): (ms: nat)
    ensures ms >= end - now
    ensures ms == 0 || ms == end - now
  {
    if end - now > 0 then end - now else 0
  }

  /**
    Floor-divides the remaining time by a day, subtracts what was consumed,
    and repeats with an hour, a minute and a second; the sub-second rest is
    dropped.
  */
  function Split(ms: nat): (p: Parts)
    ensures Normal(p)
    ensures Millis(p) <= ms < Millis(p) + MillisPerSecond
  {
    var d := ms / MillisPerDay;
    var afterDays := ms - d * MillisPerDay;
    var h := afterDays / MillisPerHour;
    var afterHours := afterDays - h * MillisPerHour;
    var m := afterHours / MillisPerMinute;
    var afterMinutes := afterHours - m * MillisPerMinute;
    var s := afterMinutes / MillisPerSecond;
    Parts(d, h, m, s)
  }

  const LabelPrefix: string := "Payout in "

  /** The template `Payout in {d}d {h}h {m}m {s}s`. */
  function LabelText(p: Parts): string {
    var secs := " " + Decimal.Show(p.seconds) + "s";
    var mins := " " + Decimal.Show(p.minutes) + "m" + secs;
    var hrs := " " + Decimal.Show(p.hours) + "h" + mins;
    LabelPrefix + (Decimal.Show(p.days) + "d" + hrs)
  }

  /** The label carries the parts exactly: `ParseLabel` reads them back. */
  function Label(p: Parts): (r: string)
    ensures ParseLabel(r) == Some(p)
  {
    LabelRoundTrip(p);
    LabelText(p)
  }

  lemma LabelRoundTrip(p: Parts)
    ensures ParseLabel(LabelText(p)) == Some(p)
  {
    var secs := " " + Decimal.Show(p.seconds) + "s";
    var mins := " " + Decimal.Show(p.minutes) + "m" + secs;
    var hrs := " " + Decimal.Show(p.hours) + "h" + mins;
    var fields := Decimal.Show(p.days) + "d" + hrs;
    ParseLabelOfFields(p, hrs, mins, secs, fields);
  }

  /** `utcCountdown`, with the clock reading and the parsed deadline as inputs. */
  function CountdownAt(now: int, end: int): (c: CountdownUtc)
    ensures var p := Parts(c.days, c.hours, c.minutes, c.seconds);
      && Normal(p)
      && Millis(p) <= Remaining(now, end) < Millis(p) + MillisPerSecond
      && c.labelText == Label(p)
    ensures now >= end ==> c == CountdownUtc(0, 0, 0, 0, "Payout in 0d 0h 0m 0s")
  {
    var p := Split(Remaining(now, end));
    ZeroCountdown(Remaining(now, end));
    CountdownUtc(p.days, p.hours, p.minutes, p.seconds, Label(p))
  }

  /** No time left splits into zeros, labelled `Payout in 0d 0h 0m 0s`. */
  lemma ZeroCountdown(ms: nat)
    ensures ms == 0 ==> Split(ms) == Parts(0, 0, 0, 0)
    ensures ms == 0 ==> LabelText(Split(ms)) == "Payout in 0d 0h 0m 0s"
  {
  }

  // ---------------------------------------------------------------------------
  // Properties
  // ---------------------------------------------------------------------------

  /** A later clock reading never leaves more time. */
  lemma RemainingMonotone(now1: int, now2: int, end: int)
    requires now1 <= now2
    ensures Remaining(now1, end) >= Remaining(now2, end)
  {
  }

  /** Normal parts are determined by the time they stand for: `Split` is the only split. */
  lemma {:induction false} SplitUnique(ms: nat, p: Parts)
    requires Normal(p)
    requires Millis(p) <= ms < Millis(p) + MillisPerSecond
    ensures Split(ms) == p
  {
    // Each quotient is pinned by a remainder that the bounds on the smaller parts keep below the divisor.
    var belowDay := p.hours * MillisPerHour + p.minutes * MillisPerMinute + p.seconds * MillisPerSecond;
    assert belowDay + MillisPerSecond <= MillisPerDay;
    DivUnique(ms, MillisPerDay, p.days, ms - p.days * MillisPerDay);
    var afterDays := ms - p.days * MillisPerDay;
    DivUnique(afterDays, MillisPerHour, p.hours, afterDays - p.hours * MillisPerHour);
    var afterHours := afterDays - p.hours * MillisPerHour;
    DivUnique(afterHours, MillisPerMinute, p.minutes, afterHours - p.minutes * MillisPerMinute);
    var afterMinutes := afterHours - p.minutes * MillisPerMinute;
    DivUnique(afterMinutes, MillisPerSecond, p.seconds, afterMinutes - p.seconds * MillisPerSecond);
  }

  /** Floor division is the only quotient that leaves a remainder below the divisor. */
  lemma DivUnique(n: nat, d: nat, q: nat, r: nat)
    requires 0 < d
    requires n == q * d + r && r < d
    ensures n / d == q
  {
    var k := n / d - q;
    assert k * d == r - n % d;
    if k >= 1 {
      MulAtLeast(k, d);
    } else if k <= -1 {
      MulAtLeast(-k, d);
    }
  }

  lemma MulAtLeast(k: int, d: int)
    requires 1 <= k && 0 < d
    ensures k * d >= d
  {
    assert k * d == (k - 1) * d + d;
  }

  /** Splitting the time that normal parts stand for, plus less than a second, gives the parts back. */
  lemma SplitOfMillis(p: Parts, sub: nat)
    requires Normal(p)
    requires sub < MillisPerSecond
    ensures Split(Millis(p) + sub) == p
  {
    SplitUnique(Millis(p) + sub, p);
  }

  /** Less remaining time never shows more whole seconds. */
  lemma {:induction false} SplitMonotone(ms1: nat, ms2: nat)
    requires ms2 <= ms1
    ensures Millis(Split(ms2)) <= Millis(Split(ms1))
  {
    var p1 := Split(ms1);
    var p2 := Split(ms2);
    WholeSeconds(p1);
    WholeSeconds(p2);
    WholeSecondsOrdered(p1.days * 86400 + p1.hours * 3600 + p1.minutes * 60 + p1.seconds,
                        p2.days * 86400 + p2.hours * 3600 + p2.minutes * 60 + p2.seconds, ms1, ms2);
  }

  lemma WholeSecondsOrdered(k1: int, k2: int, ms1: int, ms2: int)
    requires k1 * 1000 <= ms1 < k1 * 1000 + 1000
    requires k2 * 1000 <= ms2 < k2 * 1000 + 1000
    requires ms2 <= ms1
    ensures k2 * 1000 <= k1 * 1000
  {
  }

  /** The time shown never grows as the clock advances. */
  lemma ShownMonotone(now1: int, now2: int, end: int)
    requires now1 <= now2
    ensures var c1 := CountdownAt(now1, end);
            var c2 := CountdownAt(now2, end);
            Millis(Parts(c2.days, c2.hours, c2.minutes, c2.seconds))
              <= Millis(Parts(c1.days, c1.hours, c1.minutes, c1.seconds))
  {
    SplitMonotone(Remaining(now1, end), Remaining(now2, end));
  }

  lemma WholeSeconds(p: Parts)
    ensures Millis(p) == (p.days * 86400 + p.hours * 3600 + p.minutes * 60 + p.seconds) * 1000
  {
  }

  // ---------------------------------------------------------------------------
  // Reading the label back
  // ---------------------------------------------------------------------------

  /**
    Reads a digit run with no leading zero ending in `unit`, returning its
    value and what follows the unit.
  */
  function ReadField(s: string, unit: char): Option<(nat, string)> {
    var k := Decimal.DigitSpan(s);
    if k == 0 || k == |s| || s[k] != unit || (k > 1 && s[0] == '0') then None
    else Some((Decimal.Value(s[..k]), s[k + 1..]))
  }

  /** Reads ` ` followed by a field. */
  function ReadSpacedField(s: string, unit: char): Option<(nat, string)> {
    if |s| == 0 || s[0] != ' ' then None else ReadField(s[1..], unit)
  }

  /** Recovers the parts from a label; `None` when the text is not shaped like one. */
  function ParseLabel(s: string): Option<Parts> {
    if |s| < |LabelPrefix| || s[..|LabelPrefix|] != LabelPrefix then None
    else
      match ReadField(s[|LabelPrefix|..], 'd')
      case None => None
      case Some((d, r1)) =>
        match ReadSpacedField(r1, 'h')
        case None => None
        case Some((h, r2)) =>
          match ReadSpacedField(r2, 'm')
          case None => None
          case Some((m, r3)) =>
            match ReadSpacedField(r3, 's')
            case None => None
            case Some((sec, r4)) =>
              if r4 == [] then Some(Parts(d, h, m, sec)) else None
  }

  lemma SpacedFieldOfShow(n: nat, unit: char, rest: string)
    requires !Decimal.IsDigit(unit)
    ensures ReadSpacedField(" " + Decimal.Show(n) + [unit] + rest, unit) == Some((n, rest))
  {
    var s := " " + Decimal.Show(n) + [unit] + rest;
    assert s[1..] == Decimal.Show(n) + [unit] + rest;
    ReadFieldOfShow(n, unit, rest);
  }

  lemma ReadFieldOfShow(n: nat, unit: char, rest: string)
    requires !Decimal.IsDigit(unit)
    ensures ReadField(Decimal.Show(n) + [unit] + rest, unit) == Some((n, rest))
  {
    var digits := Decimal.Show(n);
    var s := digits + [unit] + rest;
    assert s == digits + ([unit] + rest);
    Decimal.DigitSpanOfRun(digits, [unit] + rest);
    assert s[..|digits|] == digits;
    assert s[|digits| + 1..] == rest;
    Decimal.ValueOfShow(n);
  }

  /** Parsing the prefix followed by the printed fields gives the parts back. */
  lemma ParseLabelOfFields(p: Parts, r1: string, r2: string, r3: string, fields: string)
    requires r3 == " " + Decimal.Show(p.seconds) + "s"
    requires r2 == " " + Decimal.Show(p.minutes) + "m" + r3
    requires r1 == " " + Decimal.Show(p.hours) + "h" + r2
    requires fields == Decimal.Show(p.days) + "d" + r1
    ensures ParseLabel(LabelPrefix + fields) == Some(p)
  {
    var s := LabelPrefix + fields;
    assert s[..|LabelPrefix|] == LabelPrefix;
    assert s[|LabelPrefix|..] == fields;
    ReadFieldOfShow(p.days, 'd', r1);
    SpacedFieldOfShow(p.hours, 'h', r2);
    SpacedFieldOfShow(p.minutes, 'm', r3);
    assert r3 == " " + Decimal.Show(p.seconds) + "s" + [];
    SpacedFieldOfShow(p.seconds, 's', []);
  }

  /** A field `ReadField` accepts is spelled exactly as `Show` prints its value. */
  lemma ReadFieldCanonical(s: string, unit: char, n: nat, rest: string)
    ensures ReadField(s, unit) == Some((n, rest)) ==> s == Decimal.Show(n) + [unit] + rest
  {
    if ReadField(s, unit) == Some((n, rest)) {
      var k := Decimal.DigitSpan(s);
      Decimal.ShowOfValue(s[..k]);
      assert s == s[..k] + [unit] + rest;
    }
  }

  lemma SpacedFieldCanonical(s: string, unit: char, n: nat, rest: string)
    ensures ReadSpacedField(s, unit) == Some((n, rest)) ==> s == " " + Decimal.Show(n) + [unit] + rest
  {
    if ReadSpacedField(s, unit) == Some((n, rest)) {
      ReadFieldCanonical(s[1..], unit, n, rest);
      assert s == " " + s[1..];
    }
  }

  /**
    `ParseLabel` accepts exactly the labels: a text parses into `p` if and
    only if it is `Label(p)`, so the label spells each part canonically.
  */
  lemma ParseLabelExact(s: string, p: Parts)
    ensures ParseLabel(s) == Some(p) <==> s == Label(p)
  {
    if ParseLabel(s) == Some(p) {
      ParsedIsLabelText(s, p);
    }
  }

  /** Only the template text parses into `p`. */
  lemma ParsedIsLabelText(s: string, p: Parts)
    requires ParseLabel(s) == Some(p)
    ensures s == LabelText(p)
  {
    var fields := s[|LabelPrefix|..];
    assert s == LabelPrefix + fields;
    var Some((d, r1)) := ReadField(fields, 'd');
    var Some((h, r2)) := ReadSpacedField(r1, 'h');
    var Some((m, r3)) := ReadSpacedField(r2, 'm');
    var Some((sec, r4)) := ReadSpacedField(r3, 's');
    assert r4 == [];
    ReadFieldCanonical(fields, 'd', d, r1);
    SpacedFieldCanonical(r1, 'h', h, r2);
    SpacedFieldCanonical(r2, 'm', m, r3);
    SpacedFieldCanonical(r3, 's', sec, r4);
    var secs := " " + Decimal.Show(p.seconds) + "s";
    assert r3 == secs;
  }

  /** Two different splits never share a label. */
  lemma LabelInjective(p: Parts, q: Parts)
    ensures Label(p) == Label(q) ==> p == q
  {
  }
}
