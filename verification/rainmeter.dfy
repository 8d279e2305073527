/** `updateRainmeter`: the variables and the recent-measurement meters the
    client derives for the Rainmeter skin from the recent and the active
    list. Writing them to files is not modelled. */
module Rainmeter {
  import opened Options
  import opened Text
  import opened Duration
  import opened ListView
  import opened IniText

  /** The `Variables` section. The client writes the two hidden flags
      as numbers and the rest as strings. */
  datatype Vars = Vars(
    serverUrl: string,
    activeRecording: string,
    activeHrs: string,
    activeMins: string,
    activeRunning: string,
    measurementid: string,
    startHidden: nat,
    stopHidden: nat)

  const NoActiveRecording := "No active recording"

  /** The text shown for an entry: "project - activity". */
  function EntryTitle(e: Element): string {
    e.project.name + " - " + e.activity.name
  }

  /** The variables for the skin. Only the first active entry is shown. The
      first recent entry's id is the default measurement; with no recent
      entry, reading it throws and nothing is derived (`None`).
      The client calls `formattedDuration` once for the hours and once more
      for the minutes, and each call reads the clock: the hours come from
      the active entry's `sinceBeginMs`, the minutes from the reading
      `laterMs` milliseconds after it. */
  function RainmeterVariables(kimaiurl: string, recent: seq<Element>, active: seq<Element>, laterMs: nat): (v: Option<Vars>)
    ensures v.None? <==> recent == []
    ensures v.Some? ==> v.value.serverUrl == kimaiurl && v.value.measurementid == recent[0].id
    ensures v.Some? ==> v.value.startHidden + v.value.stopHidden == 1
    ensures v.Some? ==> (v.value.startHidden == 1 <==> active != [])
    ensures v.Some? ==> (v.value.activeRunning == "1" <==> active != [])
    ensures v.Some? ==> (v.value.activeRunning == "0" <==> active == [])
    ensures v.Some? && active == [] ==>
              v.value.activeRecording == NoActiveRecording && v.value.activeHrs == "" && v.value.activeMins == ""
    ensures v.Some? && active != [] ==>
              && v.value.activeRecording == EntryTitle(active[0])
              && v.value.activeHrs == FormattedDuration(active[0].sinceBeginMs)[..2]
              && v.value.activeMins == FormattedDuration(active[0].sinceBeginMs + laterMs)[3..]
              && ParseDigits(v.value.activeHrs) == Hours(active[0].sinceBeginMs)
              && ParseDigits(v.value.activeMins) == Minutes(active[0].sinceBeginMs + laterMs)
  {
    if recent == [] then None
    else
      var running := active != [];
      var ms := if running then active[0].sinceBeginMs else 0;
      var hrs := if running then DurationParts(ms).0 else "";
      var mins := if running then DurationParts(ms + laterMs).1 else "";
      Some(Vars(
        kimaiurl,
        if running then EntryTitle(active[0]) else NoActiveRecording,
        hrs,
        mins,
        if running then "1" else "0",
        recent[0].id,
        if running then 1 else 0,
        if running then 0 else 1))
  }

  /** When the clock does not move between the two readings, the skin shows
      the entry's formatted duration. */
  lemma RainmeterShowsDurationOfOneReading(kimaiurl: string, recent: seq<Element>, active: seq<Element>)
    requires recent != [] && active != []
    ensures var v := RainmeterVariables(kimaiurl, recent, active, 0).value;
            v.activeHrs + ":" + v.activeMins == FormattedDuration(active[0].sinceBeginMs)
  {
    var text := FormattedDuration(active[0].sinceBeginMs);
    assert text == text[..2] + ":" + text[3..];
  }

  /** The two readings can straddle a full hour: one millisecond before it,
      the hours still read "00" while the minutes already read "00", so the
      skin shows a time that neither reading gives. */
  lemma RainmeterTornReading(kimaiurl: string, recent: seq<Element>, active: seq<Element>)
    requires recent != [] && active != [] && active[0].sinceBeginMs == MsPerHour - 1
    ensures var v := RainmeterVariables(kimaiurl, recent, active, 1).value;
            var shown := v.activeHrs + ":" + v.activeMins;
            && ParseDigits(v.activeHrs) == 0 && ParseDigits(v.activeMins) == 0
            && shown != FormattedDuration(MsPerHour - 1)
            && shown != FormattedDuration(MsPerHour)
  {
    HourBoundary();
    var v := RainmeterVariables(kimaiurl, recent, active, 1).value;
    var shown := v.activeHrs + ":" + v.activeMins;
    var before, after := FormattedDuration(MsPerHour - 1), FormattedDuration(MsPerHour);
    assert shown[3..] == v.activeMins && ParseDigits(before[3..]) == 59;
    assert shown[3..] != before[3..];
    assert shown[..2] == v.activeHrs && ParseDigits(after[..2]) == 1;
    assert shown[..2] != after[..2];
  }

  /** Everything after the first active entry is ignored. */
  lemma RainmeterShowsFirstActiveOnly(kimaiurl: string, recent: seq<Element>, a: Element, rest1: seq<Element>, rest2: seq<Element>, laterMs: nat)
    ensures RainmeterVariables(kimaiurl, recent, [a] + rest1, laterMs) == RainmeterVariables(kimaiurl, recent, [a] + rest2, laterMs)
  {
  }

  /** One meter of the data file. */
  datatype Meter = Meter(
    meter: string,
    meterStyle: string,
    dynamicVariables: string,
    hidden: string,
    text: string,
    leftMouseUpAction: string)

  /** The text of the click action: select the entry's id as the
      measurement, then run the start measure. */
  function ActionText(id: string): string {
    ActionHead + id + ActionTail
  }

  const ActionHead := "[!SetVariable " + "measurementid \""
  const ActionTail := "\"][!UpdateMeasure " + "MeasureStart]" + "[!CommandMeasure " + "MeasureStart \"Run\"]"

  /** The click action as the meter holds it: the text after `ini.unsafe`. */
  function StartAction(id: string): string {
    Unsafe(ActionText(id))
  }

  lemma ActionParts()
    ensures Plain(ActionHead) && Plain(ActionTail)
    ensures |ActionHead| > 0 && ActionHead[0] == '['
    ensures |ActionTail| > 0 && ActionTail[|ActionTail| - 1] == ']'
  {
    var h1, h2 := "[!SetVariable ", "measurementid \"";
    var t1, t2, t3, t4 := "\"][!UpdateMeasure ", "MeasureStart]", "[!CommandMeasure ", "MeasureStart \"Run\"]";
    assert Plain(h1) && Plain(h2) && Plain(t1) && Plain(t2) && Plain(t3) && Plain(t4);
    PlainConcat(h1, h2);
    PlainConcat(t1, t2);
    PlainConcat(t1 + t2, t3);
    PlainConcat(t1 + t2 + t3, t4);
  }

  /** An id without `;`, `#` or `\` reaches the meter unchanged: the action
      is exactly its text. */
  lemma StartActionOfPlainId(id: string)
    requires Plain(id)
    ensures StartAction(id) == ActionText(id)
  {
    ActionParts();
    UnsafeOfFramedPlain(ActionHead, id, ActionTail);
  }

  /** An unescaped `;` or `#` in an id starts an inline comment: the action
      keeps only the text before it, with trailing white space trimmed, and
      loses its closing part. */
  lemma StartActionCutAtComment(front: string, c: char, back: string)
    requires Plain(front)
    requires c == ';' || c == '#'
    ensures StartAction(front + [c] + back) == TrimEnd(ActionHead + front)
  {
    ActionParts();
    UnsafeOfFramedCut(ActionHead, front, c, back, ActionTail);
  }

  function SectionName(i: nat): string {
    "MeterRecent" + NatToString(i)
  }

  /** The data file's sections, one per recent entry, in list order. */
  function RecentMeters(meterstyle: string, recent: seq<Element>): (meters: seq<(string, Meter)>)
    ensures |meters| == |recent|
    ensures forall i :: 0 <= i < |recent| ==>
              && meters[i].0 == SectionName(i)
              && meters[i].1 == Meter("String", meterstyle, "1", "#MenuVis#", EntryTitle(recent[i]), StartAction(recent[i].id))
  {
    seq(|recent|, i requires 0 <= i < |recent| =>
      (SectionName(i), Meter("String", meterstyle, "1", "#MenuVis#", EntryTitle(recent[i]), StartAction(recent[i].id))))
  }

  /** The section names read back as the entry's position. */
  lemma SectionNameDeterminesPosition(i: nat, j: nat)
    requires SectionName(i) == SectionName(j)
    ensures i == j
  {
    var prefix := "MeterRecent";
    assert SectionName(i)[|prefix|..] == NatToString(i);
    assert SectionName(j)[|prefix|..] == NatToString(j);
    ParseNatToString(i);
    ParseNatToString(j);
  }

  /** Each recent entry gets its own section: no meter overwrites another. */
  lemma RecentMetersHaveDistinctSections(meterstyle: string, recent: seq<Element>)
    ensures var meters := RecentMeters(meterstyle, recent);
            forall i, j :: 0 <= i < j < |meters| ==> meters[i].0 != meters[j].0
  {
    var meters := RecentMeters(meterstyle, recent);
    forall i, j | 0 <= i < j < |meters|
      ensures meters[i].0 != meters[j].0
    {
      if meters[i].0 == meters[j].0 {
        SectionNameDeterminesPosition(i, j);
      }
    }
  }
}
