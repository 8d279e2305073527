/** `formattedDuration`: the hours and minutes components of a duration,
    each zero-padded to two characters, as "HH:MM" or as the pair [HH, MM].
    A duration is a non-negative number of milliseconds. The components are
    those the date library reports: minutes within the hour (0-59) and
    hours within the day (0-23), so the hours wrap at 24. */
module Duration {
  import opened Text

  const MsPerMinute: nat := 60000
  const MsPerHour: nat := 3600000
  const MsPerDay: nat := 86400000

  /** The library's `hours()` component: whole hours within the day. */
  function Hours(ms: nat): nat {
    (ms / MsPerHour) % 24
  }

  /** The library's `minutes()` component: whole minutes within the hour. */
  function Minutes(ms: nat): nat {
    (ms / MsPerMinute) % 60
  }

  /** A component's text, with "0" in front when it is one character long. */
  function Pad(text: string): string {
    if |text| == 1 then "0" + text else text
  }

  /** Reading a padded component back: "0" in front of a one-digit text does
      not change its value. */
  lemma PadKeepsValue(n: nat)
    requires n < 100
    ensures |Pad(NatToString(n))| == 2
    ensures IsDigits(Pad(NatToString(n)))
    ensures ParseDigits(Pad(NatToString(n))) == n
  {
    var t := NatToString(n);
    ParseNatToString(n);
    if |t| == 1 {
      var p := "0" + t;
      assert p[..|p| - 1] == "0";
      assert ParseDigits("0") == 0 by {
        assert "0"[..0] == [];
      }
    }
  }

  /** The array form `[hrs, mins]`: each part is the component's decimal
      text, prefixed with "0" exactly when that text is one character long;
      both parts are two digits and read back as the components. */
  function DurationParts(ms: nat): (parts: (string, string))
    ensures parts.0 == "0" + NatToString(Hours(ms)) <==> |NatToString(Hours(ms))| == 1
    ensures |NatToString(Hours(ms))| != 1 ==> parts.0 == NatToString(Hours(ms))
    ensures parts.1 == "0" + NatToString(Minutes(ms)) <==> |NatToString(Minutes(ms))| == 1
    ensures |NatToString(Minutes(ms))| != 1 ==> parts.1 == NatToString(Minutes(ms))
    ensures |parts.0| == 2 && |parts.1| == 2
    ensures IsDigits(parts.0) && IsDigits(parts.1)
    ensures ParseDigits(parts.0) == Hours(ms) < 24
    ensures ParseDigits(parts.1) == Minutes(ms) < 60
  {
    PadKeepsValue(Hours(ms));
    PadKeepsValue(Minutes(ms));
    (Pad(NatToString(Hours(ms))), Pad(NatToString(Minutes(ms))))
  }

  /** The text form "HH:MM": the array form joined by ':'. */
  function FormattedDuration(ms: nat): (text: string)
    ensures |text| == 5 && text[2] == ':'
    ensures text[..2] == DurationParts(ms).0 && text[3..] == DurationParts(ms).1
    ensures ParseDigits(text[..2]) == Hours(ms) && ParseDigits(text[3..]) == Minutes(ms)
  {
    var parts := DurationParts(ms);
    var text := parts.0 + ":" + parts.1;
    assert text[..2] == parts.0 && text[3..] == parts.1;
    text
  }

  /** The text form is the array form joined by ':'. */
  lemma FormattedDurationJoinsParts(ms: nat)
    ensures FormattedDuration(ms) == DurationParts(ms).0 + ":" + DurationParts(ms).1
  {
  }

  /** The hours component wraps at a day: a duration and the same duration
      plus 24 hours format alike. */
  lemma FormattedDurationWrapsAtDay(ms: nat)
    ensures FormattedDuration(ms + MsPerDay) == FormattedDuration(ms)
  {
    HoursWrapAtDay(ms);
    MinutesWrapAtDay(ms);
    assert DurationParts(ms + MsPerDay) == DurationParts(ms);
  }

  lemma HoursWrapAtDay(ms: nat)
    ensures Hours(ms + MsPerDay) == Hours(ms)
  {
    var q, r := ms / 3600000, ms % 3600000;
    assert ms + 86400000 == (q + 24) * 3600000 + r;
    assert (ms + MsPerDay) / MsPerHour == q + 24;
  }

  lemma MinutesWrapAtDay(ms: nat)
    ensures Minutes(ms + MsPerDay) == Minutes(ms)
  {
    var q, r := ms / 60000, ms % 60000;
    assert ms + 86400000 == (q + 1440) * 60000 + r;
    assert (ms + MsPerDay) / MsPerMinute == q + 1440;
  }

  /** The components on either side of the first full hour. */
  lemma HourBoundary()
    ensures Hours(MsPerHour - 1) == 0 && Minutes(MsPerHour - 1) == 59
    ensures Hours(MsPerHour) == 1 && Minutes(MsPerHour) == 0
  {
  }

  /** Two durations that format alike have the same hours-within-day and
      minutes-within-hour components: the text loses nothing else. */
  lemma FormattedDurationDeterminesComponents(a: nat, b: nat)
    requires FormattedDuration(a) == FormattedDuration(b)
    ensures Hours(a) == Hours(b) && Minutes(a) == Minutes(b)
  {
    assert FormattedDuration(a)[..2] == FormattedDuration(b)[..2];
    assert FormattedDuration(a)[3..] == FormattedDuration(b)[3..];
  }
}
