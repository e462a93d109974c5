/** The text of the two list panes (ui.go): the time slices shown, most
    recent first, each with its "t" number and clock times, and the active
    activities, each with its "a" number. */
module Ui {
  import opened Text
  import opened Data
  import Input

  /** The separator between a list number and its description: space, em
      dash, space. */
  const Separator := " \U{2014} "

  // ---------------------------------------------------------------------
  // timeDisplayFor

  /** Minutes past the hour as displayed: "00" for zero, the plain number
      otherwise. */
  function MinuteText(minutes: nat): string
  {
    if minutes == 0 then "00" else NatToString(minutes)
  }

  /** The clock time `minutes` after midnight, as `H:MM`. */
  function ClockText(minutes: nat): string
  {
    NatToString(minutes / 60) + ":" + MinuteText(minutes % 60)
  }

  lemma HourAndMinute(n: nat, q: nat, r: nat)
    requires n == 60 * q + r && r < 60
    ensures n / 60 == q && n % 60 == r
  {
  }

  /** The clock time of quarter `quarter` of hour `hour`. */
  lemma QuarterClock(minutes: nat, hour: nat, quarter: nat)
    requires minutes == 60 * hour + 15 * quarter && quarter < 4
    ensures ClockText(minutes) == NatToString(hour) + ":" + (if quarter == 0 then "00" else NatToString(quarter * 15))
  {
    var m := 15 * quarter;
    assert quarter * 15 == m && (quarter == 0 <==> m == 0);
    HourAndMinute(minutes, hour, m);
  }

  /** `timeDisplayFor`: the start and end clock times of a slice, joined by
      " - ", with the trailing space the format string leaves. */
  function TimeDisplayFor(timeSlice: TimeSlice): string
  {
    var startHour := timeSlice.slice / 4;
    var startMinute := timeSlice.slice % 4;
    var endHour := if startMinute == 3 then startHour + 1 else startHour;
    var startMinuteString := if startMinute == 0 then "00" else NatToString(startMinute * 15);
    var endMinute := if timeSlice.slice % 4 + 1 == 4 then 0 else timeSlice.slice % 4 + 1;
    var endMinuteString := if endMinute == 0 then "00" else NatToString(endMinute * 15);
    (NatToString(startHour) + ":" + startMinuteString) + " - " + (NatToString(endHour) + ":" + endMinuteString) + " "
  }

  /** A slice is displayed as the clock times of its first minute and of the
      minute after its last, `15 * slice` and `15 * slice + 15` minutes after
      midnight. */
  lemma TimeDisplayClock(timeSlice: TimeSlice)
    ensures TimeDisplayFor(timeSlice)
            == ClockText(15 * timeSlice.slice) + " - " + ClockText(15 * timeSlice.slice + 15) + " "
  {
    var startHour := timeSlice.slice / 4;
    var startMinute := timeSlice.slice % 4;
    var endHour := if startMinute == 3 then startHour + 1 else startHour;
    var endMinute := if timeSlice.slice % 4 + 1 == 4 then 0 else timeSlice.slice % 4 + 1;
    var start := NatToString(startHour) + ":" + (if startMinute == 0 then "00" else NatToString(startMinute * 15));
    var end := NatToString(endHour) + ":" + (if endMinute == 0 then "00" else NatToString(endMinute * 15));
    assert start == ClockText(15 * timeSlice.slice) by {
      QuarterClock(15 * timeSlice.slice, startHour, startMinute);
    }
    assert end == ClockText(15 * timeSlice.slice + 15) by {
      QuarterClock(15 * timeSlice.slice + 15, endHour, endMinute);
    }

  }

  /** The first slice of the day reads "0:00 - 0:15 ". */
  lemma FirstSliceLabel(timeSlice: TimeSlice)
    requires timeSlice.slice == 0
    ensures TimeDisplayFor(timeSlice) == "0:00 - 0:15 "
  {
    assert NatToString(15) == "15";
  }

  /** The last slice of the day ends at "24:00", not "0:00". */
  lemma LastSliceLabel(timeSlice: TimeSlice)
    requires timeSlice.slice == SlicesPerDay - 1
    ensures TimeDisplayFor(timeSlice) == "23:45 - 24:00 "
  {
    assert NatToString(23) == "23";
    assert NatToString(24) == "24";
    assert NatToString(45) == "45";
  }

  predicate StartsWith(s: string, prefix: string)
  {
    |prefix| <= |s| && s[..|prefix|] == prefix
  }

  predicate EndsWith(s: string, suffix: string)
  {
    |suffix| <= |s| && s[|s| - |suffix|..] == suffix
  }

  /** Consecutive slices meet: the display of a slice ends with the clock
      time the display of the next one starts with. */
  lemma LabelsMeet(earlier: TimeSlice, later: TimeSlice)
    requires later.slice == earlier.slice + 1
    ensures EndsWith(TimeDisplayFor(earlier), ClockText(15 * later.slice) + " ")
    ensures StartsWith(TimeDisplayFor(later), ClockText(15 * later.slice) + " - ")
  {
    var meet := ClockText(15 * later.slice);
    assert EndsWith(TimeDisplayFor(earlier), meet + " ") by {
      TimeDisplayClock(earlier);
      SuffixOf(ClockText(15 * earlier.slice) + " - ", meet);
    }
    assert StartsWith(TimeDisplayFor(later), meet + " - ") by {
      TimeDisplayClock(later);
      PrefixOf(meet + " - ", ClockText(15 * later.slice + 15));
    }
  }

  lemma SuffixOf(front: string, meet: string)
    ensures EndsWith(front + meet + " ", meet + " ")
  {
    ConcatAssoc(front, meet, " ");
  }

  lemma PrefixOf(prefix: string, back: string)
    ensures StartsWith(prefix + back + " ", prefix)
  {
    ConcatAssoc(prefix, back, " ");
  }

  // ---------------------------------------------------------------------
  // The lines of both panes

  /** One line of a pane: a letter, a number counted from 1, the separator,
      a description, and a newline. */
  function NumberedLine(letter: string, number: nat, text: string): string
  {
    letter + NatToString(number) + Separator + text + "\n"
  }

  /** The descriptions `texts` numbered from 1 in order, one line each. */
  function NumberedLines(letter: string, texts: seq<string>): (lines: seq<string>)
    ensures |lines| == |texts|
  {
    if texts == [] then []
    else
      var last := |texts| - 1;
      NumberedLines(letter, texts[..last]) + [NumberedLine(letter, |texts|, texts[last])]
  }

  lemma NumberedLinesSnoc(letter: string, texts: seq<string>, text: string)
    ensures NumberedLines(letter, texts + [text]) == NumberedLines(letter, texts) + [NumberedLine(letter, |texts| + 1, text)]
  {
    assert (texts + [text])[..|texts|] == texts;
  }

  lemma {:induction false} NumberedLinesAt(letter: string, texts: seq<string>, i: nat)
    requires i < |texts|
    ensures NumberedLines(letter, texts)[i] == NumberedLine(letter, i + 1, texts[i])
    decreases |texts|
  {
    var init := texts[..|texts| - 1];
    if i < |init| {
      NumberedLinesAt(letter, init, i);
    }
  }

  // ---------------------------------------------------------------------
  // setTimeSliceTextFor

  /** One line of the time-slice pane. */
  function TimeSliceLine(number: nat, timeSlice: TimeSlice): string
  {
    NumberedLine("t", number, TimeDisplayFor(timeSlice))
  }

  /** The displays of the window's slices, latest first. */
  function LatestDisplays(window: seq<TimeSlice>): (texts: seq<string>)
    ensures |texts| == |window|
    ensures forall i :: 0 <= i < |window| ==> texts[i] == TimeDisplayFor(window[|window| - 1 - i])
  {
    seq(|window|, i requires 0 <= i < |window| => TimeDisplayFor(window[|window| - 1 - i]))
  }

  /** The lines of the time-slice pane: line `i` is numbered `i + 1` and
      shows the window's slices from the last back to the first. */
  function TimeSliceLines(window: seq<TimeSlice>): (lines: seq<string>)
    ensures |lines| == |window|
  {
    NumberedLines("t", LatestDisplays(window))
  }

  lemma TimeSliceLinesAt(window: seq<TimeSlice>, i: nat)
    requires i < |window|
    ensures TimeSliceLines(window)[i] == TimeSliceLine(i + 1, window[|window| - 1 - i])
  {
    NumberedLinesAt("t", LatestDisplays(window), i);
  }

  /** `setTimeSliceTextFor`: the text of the time-slice pane for a day at
      clock time `hour:minute`, with `W` slices displayed. */
  method SetTimeSliceTextFor(thisDay: Day, W: nat, hour: nat, minute: nat) returns (timeSliceText: string)
    requires 1 <= W <= SlicesPerDay
    ensures timeSliceText == Concat(TimeSliceLines(CurrentTimeSlicesFor(thisDay, W, hour, minute)))
  {
    var currentTimeSlices := CurrentTimeSlicesFor(thisDay, W, hour, minute);
    ghost var lines := TimeSliceLines(currentTimeSlices);
    timeSliceText := "";
    for i := 0 to |currentTimeSlices|
      invariant timeSliceText == Concat(lines[..i])
    {
      var k := |currentTimeSlices| - i - 1;
      var timeSlice := currentTimeSlices[k];
      var line := TimeSliceLine(i + 1, timeSlice);
      TimeSliceLinesAt(currentTimeSlices, i);
      PrefixSnoc(lines, i);
      ConcatSnoc(lines[..i], line);
      timeSliceText := timeSliceText + line;
    }
    assert lines[..|currentTimeSlices|] == lines;
  }

  /** Line `n` of the time-slice pane is the one an entry addresses as `tn`:
      it shows the `n`-th slice counted back from the end of the window. */
  lemma LabelledSlice(thisDay: Day, W: nat, hour: nat, minute: nat, n: nat)
    requires 1 <= W <= SlicesPerDay && 1 <= n <= W
    ensures TimeSliceLines(CurrentTimeSlicesFor(thisDay, W, hour, minute))[n - 1]
            == TimeSliceLine(n, thisDay.timeSlices[WindowStart(W, hour, minute) + W - n])
  {
    var window := CurrentTimeSlicesFor(thisDay, W, hour, minute);
    var k := W - n;
    assert TimeSliceLines(window)[n - 1] == TimeSliceLine(n, window[k]) by {
      TimeSliceLinesAt(window, n - 1);
    }
    assert window[k] == thisDay.timeSlices[WindowStart(W, hour, minute) + k];
  }

  /** When the window is not moved to fit the day, the first line, "t1",
      shows the slice the clock is in. */
  lemma FirstLineIsNow(thisDay: Day, W: nat, hour: nat, minute: nat)
    requires 1 <= W <= SlicesPerDay && hour < 24 && minute < 60
    requires NominalStart(W, hour, minute) >= 0
    ensures TimeSliceLines(CurrentTimeSlicesFor(thisDay, W, hour, minute))[0]
            == TimeSliceLine(1, thisDay.timeSlices[NowSlice(hour, minute)])
  {
    WindowEndsAtNow(W, hour, minute);
    LabelledSlice(thisDay, W, hour, minute, 1);
  }

  /** On a day whose slices know their index, the pane lists the slices
      latest first. */
  lemma LinesLatestFirst(thisDay: Day, W: nat, hour: nat, minute: nat, m: nat, n: nat)
    requires 1 <= W <= SlicesPerDay && Indexed(thisDay.timeSlices)
    requires 1 <= m < n <= W
    ensures var window := CurrentTimeSlicesFor(thisDay, W, hour, minute);
            window[W - m].slice == window[W - n].slice + (n - m)
  {
    WindowIsConsecutive(thisDay, W, hour, minute);
  }

  predicate NoNewline(s: string)
  {
    forall i :: 0 <= i < |s| ==> s[i] != '\n'
  }

  lemma NumeralNoNewline(s: string)
    requires IsNumeral(s)
    ensures NoNewline(s)
  {
    assert forall i :: 0 <= i < |s| ==> IsDigit(s[i]);
  }

  lemma NoNewlineAppend(a: string, b: string)
    requires NoNewline(a) && NoNewline(b)
    ensures NoNewline(a + b)
  {
    assert forall i :: |a| <= i < |a + b| ==> (a + b)[i] == b[i - |a|];
  }

  lemma LineOf(s: string)
    requires NoNewline(s)
    ensures IsLine(s + "\n")
  {
    assert (s + "\n")[..|s|] == s;
  }

  lemma ClockTextNoNewline(minutes: nat)
    ensures NoNewline(ClockText(minutes))
  {
    NumeralNoNewline(NatToString(minutes / 60));
    NumeralNoNewline(NatToString(minutes % 60));
    NoNewlineAppend(NatToString(minutes / 60), ":");
    NoNewlineAppend(NatToString(minutes / 60) + ":", MinuteText(minutes % 60));
  }

  lemma DisplayNoNewline(timeSlice: TimeSlice)
    ensures NoNewline(TimeDisplayFor(timeSlice))
  {
    var start := ClockText(15 * timeSlice.slice);
    var end := ClockText(15 * timeSlice.slice + 15);
    ClockTextNoNewline(15 * timeSlice.slice);
    ClockTextNoNewline(15 * timeSlice.slice + 15);
    NoNewlineAppend(start, " - ");
    NoNewlineAppend(start + " - ", end);
    NoNewlineAppend(start + " - " + end, " ");
    TimeDisplayClock(timeSlice);
  }

  lemma NumberedLineIsLine(letter: string, number: nat, text: string)
    requires NoNewline(letter) && NoNewline(text)
    ensures IsLine(NumberedLine(letter, number, text))
  {
    var prefix := letter + NatToString(number);
    assert NoNewline(prefix + Separator) by {
      NumeralNoNewline(NatToString(number));
      NoNewlineAppend(letter, NatToString(number));
      NoNewlineAppend(prefix, Separator);
    }
    NoNewlineAppend(prefix + Separator, text);
    LineOf(prefix + Separator + text);
  }

  lemma TimeSliceLineIsLine(number: nat, timeSlice: TimeSlice)
    ensures IsLine(TimeSliceLine(number, timeSlice))
  {
    DisplayNoNewline(timeSlice);
    NumberedLineIsLine("t", number, TimeDisplayFor(timeSlice));
  }

  /** The time-slice pane has exactly one line per displayed slice. */
  lemma TimeSliceTextLineCount(thisDay: Day, W: nat, hour: nat, minute: nat)
    requires 1 <= W <= SlicesPerDay
    ensures Occurrences(Concat(TimeSliceLines(CurrentTimeSlicesFor(thisDay, W, hour, minute))), '\n') == W
  {
    var window := CurrentTimeSlicesFor(thisDay, W, hour, minute);
    var lines := TimeSliceLines(window);
    forall i | 0 <= i < |lines|
      ensures IsLine(lines[i])
    {
      TimeSliceLinesAt(window, i);
      TimeSliceLineIsLine(i + 1, window[|window| - 1 - i]);
    }
    ConcatLines(lines);
  }

  // ---------------------------------------------------------------------
  // setActivitiesFor

  /** One line of the activity pane. */
  function ActivityLine(number: nat, activity: Activity): string
  {
    NumberedLine("a", number, activity.name)
  }

  function Names(activities: seq<Activity>): (names: seq<string>)
    ensures |names| == |activities|
  {
    seq(|activities|, i requires 0 <= i < |activities| => activities[i].name)
  }

  /** The lines of the activity pane: the `n`-th activity is numbered `n`. */
  function ActivityLines(activities: seq<Activity>): (lines: seq<string>)
    ensures |lines| == |activities|
  {
    NumberedLines("a", Names(activities))
  }

  lemma ActivityLinesSnoc(activities: seq<Activity>, activity: Activity)
    ensures ActivityLines(activities + [activity]) == ActivityLines(activities) + [ActivityLine(|activities| + 1, activity)]
  {
    assert Names(activities + [activity]) == Names(activities) + [activity.name];
    NumberedLinesSnoc("a", Names(activities), activity.name);
  }

  lemma ActivityLinesAt(activities: seq<Activity>, i: nat)
    requires i < |activities|
    ensures ActivityLines(activities)[i] == ActivityLine(i + 1, activities[i])
  {
    NumberedLinesAt("a", Names(activities), i);
  }

  lemma ConcatSnoc(parts: seq<string>, part: string)
    ensures Concat(parts + [part]) == Concat(parts) + part
  {
    assert (parts + [part])[..|parts|] == parts;
  }

  /** `setActivitiesFor`: the text of the activity pane, numbering the
      active activities from 1 in the order of the configuration. */
  method SetActivitiesFor(config: Config) returns (activityText: string)
    ensures activityText == Concat(ActivityLines(ActiveOf(config.activities)))
  {
    var activeActivityCount := 1;
    activityText := "";
    for i := 0 to |config.activities|
      invariant activeActivityCount == |ActiveOf(config.activities[..i])| + 1
      invariant activityText == Concat(ActivityLines(ActiveOf(config.activities[..i])))
    {
      var activity := config.activities[i];
      ghost var before := ActiveOf(config.activities[..i]);
      ghost var after := ActiveOf(config.activities[..i + 1]);
      assert after == before + (if activity.active then [activity] else []) by {
        assert config.activities[..i + 1][..i] == config.activities[..i];
      }
      if activity.active {
        var line := ActivityLine(activeActivityCount, activity);
        assert ActivityLines(after) == ActivityLines(before) + [line] by {
          ActivityLinesSnoc(before, activity);
        }
        assert Concat(ActivityLines(after)) == Concat(ActivityLines(before)) + line by {
          ConcatSnoc(ActivityLines(before), line);
        }
        activityText := activityText + line;
        activeActivityCount := activeActivityCount + 1;
      } else {
        assert after == before;
      }
    }
    assert config.activities[..|config.activities|] == config.activities;
  }

  /** The activity numbers the pane shows are exactly the ones an entry may
      use: `validActivity` accepts `n` precisely when line `n` exists, and
      that line names the `n`-th active activity. */
  lemma ShownActivityIsValid(config: Config, n: nat)
    ensures var active := ActiveOf(config.activities);
            Input.ValidActivity(NatToString(n), |active|) <==> 1 <= n <= |ActivityLines(active)|
    ensures var active := ActiveOf(config.activities);
            1 <= n <= |active| ==> ActivityLines(active)[n - 1] == ActivityLine(n, active[n - 1])
  {
    NatToStringValue(n);
    var active := ActiveOf(config.activities);
    if 1 <= n <= |active| {
      ActivityLinesAt(active, n - 1);
    }
  }

  /** When no activity name holds a newline, the activity pane has one line
      per active activity. */
  lemma ActivityTextLineCount(config: Config)
    requires forall a :: a in config.activities ==> NoNewline(a.name)
    ensures Occurrences(Concat(ActivityLines(ActiveOf(config.activities))), '\n') == |ActiveOf(config.activities)|
  {
    var active := ActiveOf(config.activities);
    var lines := ActivityLines(active);
    forall i | 0 <= i < |lines|
      ensures IsLine(lines[i])
    {
      ActivityLinesAt(active, i);
      assert active[i] in config.activities;
      NumberedLineIsLine("a", i + 1, active[i].name);
    }
    ConcatLines(lines);
  }
}
