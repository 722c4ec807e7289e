/**
 * The runtime label of the movie details screen: a number of minutes
 * written as "<m> mins", "<h> hr" or "<h> hr <m> mins" with Swift's
 * truncating integer division.
 */
module RuntimeFormat {
  import opened Wrappers
  import opened Decimal

  /** Swift's `a / b` for a positive divisor: the quotient is truncated toward zero. */
  function SwiftDiv(a: int, b: int): int
    requires b > 0
  {
    if a >= 0 then a / b else -((-a) / b)
  }

  /** Swift's `a % b` for a positive divisor: the remainder takes the sign of `a`. */
  function SwiftRem(a: int, b: int): int
    requires b > 0
  {
    if a >= 0 then a % b else -((-a) % b)
  }

  /**
   * Hours and remaining minutes rebuild the minutes; the remainder is
   * under an hour and has the sign of the minutes, so it lies in [0, 60)
   * for a runtime that is not negative, and the hours are zero exactly
   * for runtimes under an hour either way.
   */
  lemma SplitMinutes(minutes: int)
    ensures SwiftDiv(minutes, 60) * 60 + SwiftRem(minutes, 60) == minutes
    ensures -60 < SwiftRem(minutes, 60) < 60
    ensures minutes >= 0 ==> 0 <= SwiftRem(minutes, 60) < 60 && SwiftDiv(minutes, 60) >= 0
    ensures minutes < 0 ==> SwiftRem(minutes, 60) <= 0 && SwiftDiv(minutes, 60) <= 0
    ensures SwiftDiv(minutes, 60) == 0 <==> -60 < minutes < 60
  {
  }

  /** `convertMinutesToTimeString`: split into hours and remaining minutes, then label. */
  function ConvertMinutesToTimeString(minutes: int): string {
    RuntimeLabel(SwiftDiv(minutes, 60), SwiftRem(minutes, 60))
  }

  /** The three-way branch of `convertMinutesToTimeString` on hours and remaining minutes. */
  function RuntimeLabel(hours: int, remainingMinutes: int): string {
    if hours == 0 then
      IntToString(remainingMinutes) + " mins"
    else if remainingMinutes == 0 then
      IntToString(hours) + " hr"
    else
      IntToString(hours) + " hr " + IntToString(remainingMinutes) + " mins"
  }

  // ------------------------------------------------------------ reading back

  /** Index of the first space in `s`. */
  function FirstSpace(s: string): (i: nat)
    requires ' ' in s
    ensures i < |s| && s[i] == ' ' && ' ' !in s[..i]
  {
    if s[0] == ' ' then 0 else 1 + FirstSpace(s[1..])
  }

  /** The words of `s`: the pieces between single spaces. */
  function Words(s: string): (w: seq<string>)
    ensures |w| >= 1
    decreases |s|
  {
    if ' ' in s then
      var i := FirstSpace(s);
      [s[..i]] + Words(s[i + 1..])
    else [s]
  }

  /** A space-free word followed by a space starts the words of the joined text. */
  lemma WordsOfJoin(x: string, rest: string)
    requires ' ' !in x
    ensures Words(x + " " + rest) == [x] + Words(rest)
  {
    var s := x + " " + rest;
    assert s[|x|] == ' ';
    FirstSpaceAfter(x, rest);
    assert s[..|x|] == x;
    assert s[|x| + 1..] == rest;
  }

  lemma {:induction false} FirstSpaceAfter(x: string, rest: string)
    requires ' ' !in x
    ensures ' ' in x + " " + rest && FirstSpace(x + " " + rest) == |x|
  {
    var s := x + " " + rest;
    assert s[|x|] == ' ';
    if x != [] {
      assert s[1..] == x[1..] + " " + rest;
      FirstSpaceAfter(x[1..], rest);
    }
  }

  /**
   * The inverse of the label: "<m> mins" is m, "<h> hr" is h hours and
   * "<h> hr <m> mins" is h hours and m minutes.
   */
  function ParseRuntime(s: string): Option<int> {
    var w := Words(s);
    if |w| == 2 && w[1] == "mins" then
      ParseInt(w[0])
    else if |w| == 2 && w[1] == "hr" then
      match ParseInt(w[0])
      case Some(h) => Some(h * 60)
      case None => None
    else if |w| == 4 && w[1] == "hr" && w[3] == "mins" then
      match (ParseInt(w[0]), ParseInt(w[2]))
      case (Some(h), Some(m)) => Some(h * 60 + m)
      case _ => None
    else None
  }

  /** Words joined by single spaces. */
  function Join(ws: seq<string>): string
    requires |ws| >= 1
  {
    if |ws| == 1 then ws[0] else ws[0] + " " + Join(ws[1..])
  }

  /** Splitting space-free words joined by single spaces gives the words back. */
  lemma {:induction false} WordsOfJoined(ws: seq<string>)
    requires |ws| >= 1 && forall i :: 0 <= i < |ws| ==> ' ' !in ws[i]
    ensures Words(Join(ws)) == ws
  {
    if |ws| > 1 {
      WordsOfJoined(ws[1..]);
      WordsOfJoin(ws[0], Join(ws[1..]));
      assert ws == [ws[0]] + ws[1..];
    }
  }

  /** Every 64-bit number of minutes is read back from its label. */
  lemma RuntimeRoundTrip(minutes: int)
    requires InIntRange(minutes)
    ensures ParseRuntime(ConvertMinutesToTimeString(minutes)) == Some(minutes)
  {
    SplitMinutes(minutes);
    RuntimeLabelRoundTrip(SwiftDiv(minutes, 60), SwiftRem(minutes, 60));
  }

  /** A label is read back as hours * 60 + minutes. */
  lemma RuntimeLabelRoundTrip(hours: int, rem: int)
    requires InIntRange(hours) && InIntRange(rem)
    ensures ParseRuntime(RuntimeLabel(hours, rem)) == Some(hours * 60 + rem)
  {
    ParseIntRoundTrip(hours);
    ParseIntRoundTrip(rem);
    IntToStringHasNoSpace(hours);
    IntToStringHasNoSpace(rem);
    if hours == 0 {
      ReadMinutesLabel(IntToString(rem), rem);
    } else if rem == 0 {
      ReadHoursLabel(IntToString(hours), hours);
    } else {
      ReadFullLabel(IntToString(hours), hours, IntToString(rem), rem);
    }
  }

  lemma ReadMinutesLabel(m: string, mv: int)
    requires ' ' !in m && ParseInt(m) == Some(mv)
    ensures ParseRuntime(m + " mins") == Some(mv)
  {
    JoinMinutes(m);
    WordsOfJoined([m, "mins"]);
  }

  lemma ReadHoursLabel(h: string, hv: int)
    requires ' ' !in h && ParseInt(h) == Some(hv)
    ensures ParseRuntime(h + " hr") == Some(hv * 60)
  {
    JoinHours(h);
    WordsOfJoined([h, "hr"]);
  }

  lemma ReadFullLabel(h: string, hv: int, m: string, mv: int)
    requires ' ' !in h && ParseInt(h) == Some(hv)
    requires ' ' !in m && ParseInt(m) == Some(mv)
    ensures ParseRuntime(h + " hr " + m + " mins") == Some(hv * 60 + mv)
  {
    JoinFour(h, m);
    WordsOfJoined([h, "hr", m, "mins"]);
  }

  lemma JoinMinutes(m: string)
    ensures Join([m, "mins"]) == m + " mins"
  {
    assert [m, "mins"][1..] == ["mins"];
    assert " mins" == " " + "mins";
  }

  lemma JoinHours(h: string)
    ensures Join([h, "hr"]) == h + " hr"
  {
    assert [h, "hr"][1..] == ["hr"];
    assert " hr" == " " + "hr";
  }

  lemma JoinFour(h: string, m: string)
    ensures Join([h, "hr", m, "mins"]) == h + " hr " + m + " mins"
  {
    JoinMinutes(m);
    assert [h, "hr", m, "mins"][1..] == ["hr", m, "mins"];
    assert ["hr", m, "mins"][1..] == [m, "mins"];
    assert Join(["hr", m, "mins"]) == "hr" + " " + (m + " mins");
    assert Join([h, "hr", m, "mins"]) == h + " " + ("hr" + " " + (m + " mins"));
    assert " hr " == " " + "hr" + " ";
  }

  /** Distinct 64-bit runtimes get distinct labels. */
  lemma RuntimeLabelInjective(a: int, b: int)
    requires InIntRange(a) && InIntRange(b)
    ensures ConvertMinutesToTimeString(a) == ConvertMinutesToTimeString(b) <==> a == b
  {
    RuntimeRoundTrip(a);
    RuntimeRoundTrip(b);
  }

  /**
   * The label's form follows the split: under an hour (either sign) only
   * minutes are shown, a whole number of hours shows no minutes, and
   * otherwise both parts are shown, the minutes in (-60, 60) with the sign
   * of the runtime, so a negative runtime of an hour or more shows two
   * minus signs.
   */
  lemma RuntimeLabelForm(minutes: int)
    ensures var s := ConvertMinutesToTimeString(minutes);
      && (-60 < minutes < 60 ==> s == IntToString(minutes) + " mins")
      && (minutes != 0 && minutes % 60 == 0 ==> s == IntToString(SwiftDiv(minutes, 60)) + " hr")
      && (minutes >= 60 && minutes % 60 != 0 ==>
            s == IntToString(minutes / 60) + " hr " + IntToString(minutes % 60) + " mins")
      && (minutes <= -60 && (-minutes) % 60 != 0 ==>
            s == IntToString(-((-minutes) / 60)) + " hr " + IntToString(-((-minutes) % 60)) + " mins")
  {
    SplitMinutes(minutes);
    if minutes < 0 && minutes % 60 == 0 {
      assert (-minutes) % 60 == 0;
    }
  }

  /** Worked labels: 90 minutes is "1 hr 30 mins", and -90 minutes is "-1 hr -30 mins". */
  lemma NinetyMinutesLabels()
    ensures ConvertMinutesToTimeString(90) == "1 hr 30 mins"
    ensures ConvertMinutesToTimeString(-90) == "-1 hr -30 mins"
  {
    assert SwiftDiv(90, 60) == 1 && SwiftRem(90, 60) == 30;
    assert SwiftDiv(-90, 60) == -1 && SwiftRem(-90, 60) == -30;
    assert NatToString(1) == "1";
    assert NatToString(30) == "30" by {
      assert NatToString(3) == "3";
    }
  }
}
