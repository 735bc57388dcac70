/** The live preview card (src/components/DiscordPreview.tsx): the elapsed
    time label, the fallback lines for empty details and state, the
    two-character badge of the small image, and which buttons are shown.
    The wall clock is the parameter `now` (epoch milliseconds). */
module Preview {
  import opened Wrappers
  import opened JsText
  import opened RpcTypes

  // ----------------------------------------------------------- elapsed time

  datatype Hms = Hms(hours: nat, minutes: nat, seconds: nat)

  /** `Math.floor((now - start) / 1000)`: whole seconds since `start`. */
  function ElapsedSeconds(start: int, now: int): (e: nat)
    requires now >= start
    ensures e * 1000 <= now - start < (e + 1) * 1000
  {
    (now - start) / 1000
  }

  /** Hours, minutes and seconds of a number of seconds, as the formatter
      derives them with floor division and remainders. */
  function Split(e: nat): (t: Hms)
    ensures t.hours * 3600 + t.minutes * 60 + t.seconds == e
    ensures t.minutes < 60 && t.seconds < 60
  {
    var hours, rest := e / 3600, e % 3600;
    var minutes, seconds := rest / 60, rest % 60;
    assert e == 3600 * hours + rest && rest == 60 * minutes + seconds;
    assert e == 60 * (60 * hours + minutes) + seconds && seconds < 60;
    assert e % 60 == seconds;
    Hms(e / 3600, (e % 3600) / 60, e % 60)
  }

  /** `n.toString().padStart(2, "0")`. */
  function Pad2(n: nat): string
  {
    PadStart(NatToString(n), 2, '0')
  }

  /** The two decimal digits of a number below 100: a reference for `Pad2`. */
  function TwoDigits(n: nat): (r: string)
    requires n < 100
    ensures |r| == 2 && AllDigitsIn(r, 10) && RadixValue(r, 10) == n
  {
    var high, low := DigitChar(n / 10), DigitChar(n % 10);
    RadixValueSnoc([], high, 10);
    assert [] + [high] == [high];
    RadixValueSnoc([high], low, 10);
    [high] + [low]
  }

  /** Below 100, padding to two places gives exactly the two digits. */
  lemma Pad2Small(n: nat)
    requires n < 100
    ensures Pad2(n) == TwoDigits(n)
  {
    if n < 10 {
      assert NatToString(n) == [DigitChar(n)];
      assert Pad2(n) == ['0'] + [DigitChar(n)];
    } else {
      assert NatToString(n / 10) == [DigitChar(n / 10)];
    }
  }

  /** A padded field is at least two digits long and stands for its number;
      from 10 on it is the plain decimal rendering. */
  lemma Pad2Value(n: nat)
    ensures |Pad2(n)| >= 2 && AllDigitsIn(Pad2(n), 10) && RadixValue(Pad2(n), 10) == n
    ensures n >= 10 ==> Pad2(n) == NatToString(n)
  {
    if n < 10 {
      assert Pad2(n) == "0" + NatToString(n);
      RadixValueLeadingZero(NatToString(n), 10);
    }
  }

  /** `formatElapsedTime(startTimestamp)` read at time `now`. A falsy start
      (absent, or 0) gives the fixed label; otherwise the label of the whole
      seconds elapsed since the start. */
  function FormatElapsed(start: Option<int>, now: int): (r: string)
    requires start.Some? && start.value != 0 ==> now >= start.value
    ensures start.None? || start.value == 0 ==> r == "00:00 elapsed"
  {
    if start.None? || start.value == 0 then "00:00 elapsed"
    else HmsLabel(Split(ElapsedSeconds(start.value, now)))
  }

  /** The label of a duration: the hours field is present only when at
      least one hour has passed, and every field is padded to two places,
      the hours included. */
  function HmsLabel(t: Hms): (r: string)
  {
    if t.hours > 0 then
      Pad2(t.hours) + ":" + Pad2(t.minutes) + ":" + Pad2(t.seconds) + " elapsed"
    else
      Pad2(t.minutes) + ":" + Pad2(t.seconds) + " elapsed"
  }

  /** The part of the label after the hours: minutes and seconds, two digits
      each. */
  function MinutesSeconds(t: Hms): (r: string)
    requires t.minutes < 60 && t.seconds < 60
    ensures |r| == 13
  {
    TwoDigits(t.minutes) + ":" + TwoDigits(t.seconds) + " elapsed"
  }

  /** What the label of a duration is made of: "MM:SS elapsed" below one
      hour, and otherwise the padded hours, a colon, then "MM:SS elapsed". */
  lemma HmsLabelShape(t: Hms)
    requires t.minutes < 60 && t.seconds < 60
    ensures t.hours == 0 ==> HmsLabel(t) == MinutesSeconds(t)
    ensures t.hours > 0 ==> HmsLabel(t) == Pad2(t.hours) + ":" + MinutesSeconds(t)
  {
    Pad2Small(t.minutes);
    Pad2Small(t.seconds);
  }

  /** From one hour on, everything before the last 14 characters is the
      hours field: at least two digits, reading as the number of hours, and
      the plain decimal rendering from 10 hours on. */
  lemma HmsLabelHoursField(t: Hms)
    requires t.minutes < 60 && t.seconds < 60 && t.hours > 0
    ensures |HmsLabel(t)| >= 16
    ensures HmsLabel(t)[|HmsLabel(t)| - 14..] == ":" + MinutesSeconds(t)
    ensures AllDigitsIn(HmsLabel(t)[..|HmsLabel(t)| - 14], 10)
    ensures RadixValue(HmsLabel(t)[..|HmsLabel(t)| - 14], 10) == t.hours
    ensures t.hours >= 10 ==> HmsLabel(t)[..|HmsLabel(t)| - 14] == NatToString(t.hours)
  {
    HmsLabelShape(t);
    Pad2Value(t.hours);
    var hoursField, rest := Pad2(t.hours), ":" + MinutesSeconds(t);
    SplitConcat(hoursField, rest);
    assert |HmsLabel(t)| - 14 == |hoursField|;
    assert HmsLabel(t)[..|HmsLabel(t)| - 14] == hoursField;
  }

  lemma SplitConcat(a: string, b: string)
    ensures (a + b)[..|a|] == a && (a + b)[|a|..] == b
  {
  }

  /** Two digit fields that print the same hold the same number. */
  lemma TwoDigitsInjective(a: nat, b: nat)
    requires a < 100 && b < 100 && TwoDigits(a) == TwoDigits(b)
    ensures a == b
  {
  }

  /** The minutes-and-seconds part determines the minutes and the seconds. */
  lemma MinutesSecondsInjective(t: Hms, u: Hms)
    requires t.minutes < 60 && t.seconds < 60 && u.minutes < 60 && u.seconds < 60
    requires MinutesSeconds(t) == MinutesSeconds(u)
    ensures t.minutes == u.minutes && t.seconds == u.seconds
  {
    assert MinutesSeconds(t)[..2] == TwoDigits(t.minutes);
    assert MinutesSeconds(u)[..2] == TwoDigits(u.minutes);
    assert MinutesSeconds(t)[3..5] == TwoDigits(t.seconds);
    assert MinutesSeconds(u)[3..5] == TwoDigits(u.seconds);
    TwoDigitsInjective(t.minutes, u.minutes);
    TwoDigitsInjective(t.seconds, u.seconds);
  }

  /** No information is lost in a duration's label: equal labels mean equal
      hours, minutes and seconds. */
  lemma HmsLabelInjective(t: Hms, u: Hms)
    requires t.minutes < 60 && t.seconds < 60 && u.minutes < 60 && u.seconds < 60
    requires HmsLabel(t) == HmsLabel(u)
    ensures t == u
  {
    HmsLabelShape(t);
    HmsLabelShape(u);
    if t.hours == 0 && u.hours == 0 {
      MinutesSecondsInjective(t, u);
    } else if t.hours > 0 && u.hours > 0 {
      HmsLabelHoursField(t);
      HmsLabelHoursField(u);
      assert ":" + MinutesSeconds(t) == ":" + MinutesSeconds(u);
      assert MinutesSeconds(t) == (":" + MinutesSeconds(t))[1..];
      assert MinutesSeconds(u) == (":" + MinutesSeconds(u))[1..];
      MinutesSecondsInjective(t, u);
    }
  }

  /** Equal labels after a start time mean equal numbers of elapsed seconds. */
  lemma FormatElapsedInjective(start1: int, now1: int, start2: int, now2: int)
    requires start1 != 0 && now1 >= start1 && start2 != 0 && now2 >= start2
    requires FormatElapsed(Some(start1), now1) == FormatElapsed(Some(start2), now2)
    ensures ElapsedSeconds(start1, now1) == ElapsedSeconds(start2, now2)
  {
    HmsLabelInjective(Split(ElapsedSeconds(start1, now1)), Split(ElapsedSeconds(start2, now2)));
  }

  /** The labels at 0 s, 65 s and 3661 s after a start time. */
  lemma FormatElapsedExamples(start: int)
    requires start != 0
    ensures FormatElapsed(Some(start), start) == "00:00 elapsed"
    ensures FormatElapsed(Some(start), start + 65_000) == "01:05 elapsed"
    ensures FormatElapsed(Some(start), start + 3_661_999) == "01:01:01 elapsed"
  {
    assert ElapsedSeconds(start, start) == 0;
    assert ElapsedSeconds(start, start + 65_000) == 65;
    assert ElapsedSeconds(start, start + 3_661_999) == 3661;
    assert Split(0) == Hms(0, 0, 0);
    assert Split(65) == Hms(0, 1, 5);
    assert Split(3661) == Hms(1, 1, 1);
    Pad2Small(0);
    Pad2Small(1);
    Pad2Small(5);
    assert TwoDigits(0) == "00" && TwoDigits(1) == "01" && TwoDigits(5) == "05";
  }

  // ------------------------------------------------------------------- card

  /** The details line: the text itself, or a placeholder when it is empty. */
  function DetailsLine(c: RpcConfig): (r: string)
    ensures r != ""
    ensures c.details != "" ==> r == c.details
    ensures c.details == "" ==> r == "No details set"
  {
    if c.details != "" then c.details else "No details set"
  }

  /** The state line: the text itself, or a placeholder when it is empty. */
  function StateLine(c: RpcConfig): (r: string)
    ensures r != ""
    ensures c.state != "" ==> r == c.state
    ensures c.state == "" ==> r == "No state set"
  {
    if c.state != "" then c.state else "No state set"
  }

  /** The badge on the small image: `smallImageKey.slice(0, 2)`. */
  function BadgeText(c: RpcConfig): (r: string)
    ensures |r| == if |c.smallImageKey| < 2 then |c.smallImageKey| else 2
    ensures r == c.smallImageKey[..|r|]
  {
    SliceTo(c.smallImageKey, 2)
  }

  /** The labels of the buttons the card draws: each button whose label is
      not empty, in the order of the array. The url plays no part. */
  function ShownLabels(buttons: seq<RpcButton>): (r: seq<string>)
    ensures |r| <= |buttons|
    ensures forall l :: l in r ==> l != ""
    ensures forall b :: b in buttons && b.caption != "" ==> b.caption in r
    ensures forall l :: l in r ==> exists b :: b in buttons && b.caption == l
  {
    if buttons == [] then []
    else
      var rest := ShownLabels(buttons[1..]);
      assert forall b :: b in buttons[1..] ==> b in buttons;
      if buttons[0].caption != "" then [buttons[0].caption] + rest else rest
  }

  /** Order is kept: the buttons of a concatenation are those of the first
      part, then those of the second. */
  lemma {:induction false} ShownLabelsAppend(a: seq<RpcButton>, b: seq<RpcButton>)
    ensures ShownLabels(a + b) == ShownLabels(a) + ShownLabels(b)
    decreases |a|
  {
    if a == [] {
      assert a + b == b;
    } else {
      assert (a + b)[1..] == a[1..] + b;
      ShownLabelsAppend(a[1..], b);
    }
  }

  /** Only the labels decide what is drawn: changing any url changes nothing. */
  lemma {:induction false} ShownLabelsIgnoresUrls(a: seq<RpcButton>, b: seq<RpcButton>)
    requires |a| == |b|
    requires forall i :: 0 <= i < |a| ==> a[i].caption == b[i].caption
    ensures ShownLabels(a) == ShownLabels(b)
    decreases |a|
  {
    if a != [] {
      ShownLabelsIgnoresUrls(a[1..], b[1..]);
    }
  }

  /** An empty label hides a button that has a url; a label shows a button
      that has none. */
  lemma ShownLabelsExample(url: string)
    requires url != ""
    ensures ShownLabels([RpcButton("", url), RpcButton("Join", "")]) == ["Join"]
  {
    var bs := [RpcButton("", url), RpcButton("Join", "")];
    assert bs[1..][1..] == [];
  }

  /** `buttonsEnabled && buttons.some(b => b.label)`: whether the card has a
      button section. It has one exactly when some button would be drawn. */
  function ShowsButtons(c: RpcConfig): (r: bool)
    ensures r <==> c.buttonsEnabled && ShownLabels(c.buttons) != []
  {
    var shown := ShownLabels(c.buttons);
    assert shown != [] ==> shown[0] in shown;
    c.buttonsEnabled && exists b :: b in c.buttons && b.caption != ""
  }

  /** What the card shows, field by field. */
  datatype Card = Card(
    largeImage: string,
    badge: string,
    details: string,
    state: string,
    elapsed: Option<string>,
    buttons: Option<seq<string>>)

  /** The card for `c` when the elapsed-time label was last recomputed at
      time `now`. */
  function Render(c: RpcConfig, now: int): (card: Card)
    requires c.showElapsedTime && c.startTimestamp.Some? && c.startTimestamp.value != 0
             ==> now >= c.startTimestamp.value
    ensures card.largeImage == c.largeImageKey
    ensures card.badge == BadgeText(c) && |card.badge| <= 2
    ensures card.details == DetailsLine(c) && card.state == StateLine(c)
    ensures card.details != "" && card.state != ""
    ensures card.elapsed.Some? <==> c.showElapsedTime
    ensures c.showElapsedTime ==> card.elapsed == Some(FormatElapsed(c.startTimestamp, now))
    ensures card.buttons.Some? <==> c.buttonsEnabled && exists b :: b in c.buttons && b.caption != ""
    ensures card.buttons.Some? ==> card.buttons.value != [] && card.buttons.value == ShownLabels(c.buttons)
  {
    Card(
      c.largeImageKey,
      BadgeText(c),
      DetailsLine(c),
      StateLine(c),
      if c.showElapsedTime then Some(FormatElapsed(c.startTimestamp, now)) else None,
      if ShowsButtons(c) then Some(ShownLabels(c.buttons)) else None)
  }
}
