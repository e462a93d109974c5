/** The day grid (data.go): a day of 96 fifteen-minute slices, the window
    of slices shown on screen, the activities of the configuration, and the
    sparse map a day is stored as. */
module Data {
  import opened Text

  /** Slices in a day: one per fifteen minutes. */
  const SlicesPerDay: nat := 96

  /** One unit of time, unassigned (`activityID == ""`) or assigned to an
      activity. */
  datatype TimeSlice = TimeSlice(slice: nat, activityID: string)

  /** The fixed array of a day's slices. */
  type DaySlices = s: seq<TimeSlice> | |s| == 96 witness seq(96, _ => TimeSlice(0, ""))

  /** A day: its ISO 8601 date and its 96 slices; slice `i` covers the
      minutes `15 * i` to `15 * i + 15`. */
  datatype Day = Day(date: string, timeSlices: DaySlices)

  /** Every slice knows its own index, as `loadData` leaves them. */
  predicate Indexed(timeSlices: seq<TimeSlice>)
  {
    forall i :: 0 <= i < |timeSlices| ==> timeSlices[i].slice == i
  }

  /** An activity of the configuration. */
  datatype Activity = Activity(id: string, name: string, color: string, active: bool)

  /** The user configuration: identity, storage project and activities, in
      the order the user listed them. */
  datatype Config = Config(userID: string, name: string, email: string, projectID: string, activities: seq<Activity>)

  /** The zero value of `Activity`. */
  const ZeroActivity := Activity("", "", "", false)

  // ---------------------------------------------------------------------
  // currentTimeSlicesFor

  /** The slice the clock time `hour:minute` falls in. */
  function NowSlice(hour: nat, minute: nat): nat
  {
    hour * 4 + minute / 15
  }

  /** Where a window of `W` slices ending at "now" would start, before it is
      moved to fit the day. */
  function NominalStart(W: nat, hour: nat, minute: nat): int
  {
    NowSlice(hour, minute) + 1 - W
  }

  /** The first slice of the window `currentTimeSlicesFor` shows: the `W`
      slices up to and including "now", kept inside the day. */
  function WindowStart(W: nat, hour: nat, minute: nat): (start: nat)
    requires 1 <= W <= SlicesPerDay
    ensures start <= SlicesPerDay - W
    ensures 0 <= NominalStart(W, hour, minute) <= SlicesPerDay - W ==> start == NominalStart(W, hour, minute)
    ensures NominalStart(W, hour, minute) < 0 ==> start == 0
    ensures NominalStart(W, hour, minute) > SlicesPerDay - W ==> start == SlicesPerDay - W
  {
    var thisHourSlices := minute / 15 + 1;
    var priorHourSlices := W - thisHourSlices;
    var startingTimeSlice := hour * 4 - priorHourSlices;
    if startingTimeSlice < 0 then 0
    else if startingTimeSlice > SlicesPerDay - W then SlicesPerDay - W
    else startingTimeSlice
  }

  /** `currentTimeSlicesFor`: the `W` consecutive slices of the day from
      `WindowStart`. */
  function CurrentTimeSlicesFor(day: Day, W: nat, hour: nat, minute: nat): (window: seq<TimeSlice>)
    requires 1 <= W <= SlicesPerDay
    ensures |window| == W
    ensures forall k :: 0 <= k < W ==> window[k] == day.timeSlices[WindowStart(W, hour, minute) + k]
  {
    var start := WindowStart(W, hour, minute);
    day.timeSlices[start..start + W]
  }

  /** On a real clock the window never reaches past the end of the day, so
      the upper adjustment of data.go:99-100 is never taken. */
  lemma UpperClampUnreachable(W: nat, hour: nat, minute: nat)
    requires 1 <= W <= SlicesPerDay && hour < 24 && minute < 60
    ensures NominalStart(W, hour, minute) <= SlicesPerDay - W
  {
  }

  /** On a real clock the window contains "now". */
  lemma NowInWindow(W: nat, hour: nat, minute: nat)
    requires 1 <= W <= SlicesPerDay && hour < 24 && minute < 60
    ensures var start := WindowStart(W, hour, minute);
            start <= NowSlice(hour, minute) < start + W
  {
    UpperClampUnreachable(W, hour, minute);
  }

  /** When the window is not moved, its last slice is the "now" slice. */
  lemma WindowEndsAtNow(W: nat, hour: nat, minute: nat)
    requires 1 <= W <= SlicesPerDay && hour < 24 && minute < 60
    requires NominalStart(W, hour, minute) >= 0
    ensures WindowStart(W, hour, minute) + W - 1 == NowSlice(hour, minute)
  {
    UpperClampUnreachable(W, hour, minute);
  }

  /** On a day whose slices know their index, the window is the run of
      consecutive indices from its start, in ascending order. */
  lemma WindowIsConsecutive(day: Day, W: nat, hour: nat, minute: nat)
    requires 1 <= W <= SlicesPerDay && Indexed(day.timeSlices)
    ensures var window := CurrentTimeSlicesFor(day, W, hour, minute);
            forall k :: 0 <= k < W ==> window[k].slice == WindowStart(W, hour, minute) + k
  {
  }

  // ---------------------------------------------------------------------
  // activeActivities and activityByID

  /** The active activities of `activities`, in their order. */
  function ActiveOf(activities: seq<Activity>): (active: seq<Activity>)
    ensures |active| <= |activities|
    ensures forall a :: a in active <==> a in activities && a.active
  {
    if activities == [] then []
    else
      var last := activities[|activities| - 1];
      assert activities == activities[..|activities| - 1] + [last];
      ActiveOf(activities[..|activities| - 1]) + (if last.active then [last] else [])
  }

  /** Filtering commutes with concatenation: the order of the configuration
      is kept. */
  lemma {:induction false} ActiveOfAppend(xs: seq<Activity>, ys: seq<Activity>)
    ensures ActiveOf(xs + ys) == ActiveOf(xs) + ActiveOf(ys)
    decreases |ys|
  {
    if ys == [] {
      assert xs + ys == xs;
    } else {
      var init := ys[..|ys| - 1];
      var last := ys[|ys| - 1];
      var tail := if last.active then [last] else [];
      assert ActiveOf(xs + ys) == ActiveOf(xs + init) + tail by {
        assert (xs + ys)[..|xs + ys| - 1] == xs + init;
        assert (xs + ys)[|xs + ys| - 1] == last;
      }
      assert ActiveOf(ys) == ActiveOf(init) + tail;
      ActiveOfAppend(xs, init);
      assert (ActiveOf(xs) + ActiveOf(init)) + tail == ActiveOf(xs) + (ActiveOf(init) + tail);
    }
  }

  /** `activeActivities`: appends each active activity in turn. */
  method ActiveActivities(config: Config) returns (activeActivities: seq<Activity>)
    ensures activeActivities == ActiveOf(config.activities)
  {
    activeActivities := [];
    var i := 0;
    while i < |config.activities|
      invariant 0 <= i <= |config.activities|
      invariant activeActivities == ActiveOf(config.activities[..i])
    {
      var activity := config.activities[i];
      assert config.activities[..i + 1][..i] == config.activities[..i];
      if activity.active {
        activeActivities := activeActivities + [activity];
      }
      i := i + 1;
    }
    assert config.activities[..i] == config.activities;
  }

  /** `activityByID`: the first activity with the given id, or the zero
      activity when there is none. */
  method ActivityByID(config: Config, id: string) returns (matchingActivity: Activity)
    ensures (forall i :: 0 <= i < |config.activities| ==> config.activities[i].id != id) ==> matchingActivity == ZeroActivity
    ensures (exists i :: 0 <= i < |config.activities| && config.activities[i].id == id) ==>
              exists i :: 0 <= i < |config.activities| && config.activities[i] == matchingActivity && matchingActivity.id == id
                       && forall j :: 0 <= j < i ==> config.activities[j].id != id
  {
    matchingActivity := ZeroActivity;
    var i := 0;
    while i < |config.activities|
      invariant 0 <= i <= |config.activities|
      invariant forall j :: 0 <= j < i ==> config.activities[j].id != id
      invariant matchingActivity == ZeroActivity
    {
      var activity := config.activities[i];
      if activity.id == id {
        matchingActivity := activity;
        return;
      }
      i := i + 1;
    }
  }

  // ---------------------------------------------------------------------
  // The stored form of a day: sparseTimeSliceActivityMap and loadData

  /** A stored day: slice number (as decimal text) to a record whose
      `activity_id` field holds the activity. */
  type Document = map<string, map<string, string>>

  const ActivityIDField := "activity_id"

  /** The sparse map of the first `n` slices: one entry per assigned slice. */
  function SparseOf(timeSlices: seq<TimeSlice>, n: nat): Document
    requires n <= |timeSlices|
  {
    if n == 0 then map[]
    else if timeSlices[n - 1].activityID != "" then
      SparseOf(timeSlices, n - 1)[NatToString(n - 1) := map[ActivityIDField := timeSlices[n - 1].activityID]]
    else SparseOf(timeSlices, n - 1)
  }

  /** The sparse map of a whole day. */
  function SparseMap(timeSlices: seq<TimeSlice>): Document
  {
    SparseOf(timeSlices, |timeSlices|)
  }

  /** Index keys of different slices are different. */
  lemma OtherKey(i: nat, n: nat)
    requires i < n
    ensures NatToString(i) != NatToString(n)
  {
    if NatToString(i) == NatToString(n) {
      NatToStringInjective(i, n);
    }
  }

  /** Key `i` is in `SparseOf(timeSlices, n)` exactly when slice `i` is
      assigned, and then holds its activity. */
  lemma {:induction false} SparseOfSlice(timeSlices: seq<TimeSlice>, n: nat, i: nat)
    requires i < n <= |timeSlices|
    ensures NatToString(i) in SparseOf(timeSlices, n) <==> timeSlices[i].activityID != ""
    ensures timeSlices[i].activityID != "" ==>
              SparseOf(timeSlices, n)[NatToString(i)] == map[ActivityIDField := timeSlices[i].activityID]
  {
    if i < n - 1 {
      OtherKey(i, n - 1);
      SparseOfSlice(timeSlices, n - 1, i);
    } else {
      SparseOfKeys(timeSlices, n - 1);
      if NatToString(i) in SparseOf(timeSlices, n - 1) {
        var j :| 0 <= j < n - 1 && NatToString(i) == NatToString(j);
        OtherKey(j, i);
        assert false;
      }
    }
  }

  /** Every key of `SparseOf(timeSlices, n)` is the index of an assigned
      slice below `n`. */
  lemma {:induction false} SparseOfKeys(timeSlices: seq<TimeSlice>, n: nat)
    requires n <= |timeSlices|
    ensures forall key :: key in SparseOf(timeSlices, n) ==>
              exists i :: 0 <= i < n && key == NatToString(i) && timeSlices[i].activityID != ""
  {
    if n > 0 {
      SparseOfKeys(timeSlices, n - 1);
    }
  }

  /** The keys of `SparseOf(timeSlices, n)` are exactly the assigned slices
      below `n`, each holding its activity. */
  lemma SparseOfEntries(timeSlices: seq<TimeSlice>, n: nat)
    requires n <= |timeSlices|
    ensures forall i :: 0 <= i < n ==>
              (NatToString(i) in SparseOf(timeSlices, n) <==> timeSlices[i].activityID != "")
    ensures forall i :: 0 <= i < n && timeSlices[i].activityID != "" ==>
              SparseOf(timeSlices, n)[NatToString(i)] == map[ActivityIDField := timeSlices[i].activityID]
    ensures forall key :: key in SparseOf(timeSlices, n) ==>
              exists i :: 0 <= i < n && key == NatToString(i) && timeSlices[i].activityID != ""
  {
    forall i | 0 <= i < n
      ensures NatToString(i) in SparseOf(timeSlices, n) <==> timeSlices[i].activityID != ""
      ensures timeSlices[i].activityID != "" ==>
                SparseOf(timeSlices, n)[NatToString(i)] == map[ActivityIDField := timeSlices[i].activityID]
    {
      SparseOfSlice(timeSlices, n, i);
    }
    SparseOfKeys(timeSlices, n);
  }

  /** `sparseTimeSliceActivityMap`: stores every assigned slice under its
      index. */
  method SparseTimeSliceActivityMap(timeSlices: seq<TimeSlice>) returns (timeSliceMap: Document)
    ensures timeSliceMap == SparseMap(timeSlices)
    ensures forall i :: 0 <= i < |timeSlices| ==>
              (NatToString(i) in timeSliceMap <==> timeSlices[i].activityID != "")
    ensures forall i :: 0 <= i < |timeSlices| && timeSlices[i].activityID != "" ==>
              timeSliceMap[NatToString(i)] == map[ActivityIDField := timeSlices[i].activityID]
  {
    timeSliceMap := map[];
    var i := 0;
    while i < |timeSlices|
      invariant 0 <= i <= |timeSlices|
      invariant timeSliceMap == SparseOf(timeSlices, i)
    {
      if timeSlices[i].activityID != "" {
        timeSliceMap := timeSliceMap[NatToString(i) := map[ActivityIDField := timeSlices[i].activityID]];
      }
      i := i + 1;
    }
    SparseOfEntries(timeSlices, |timeSlices|);
  }

  /** The activity stored for slice `i`: none when the slice or its
      `activity_id` field is missing. */
  function StoredActivityID(doc: Document, i: nat): string
  {
    var key := NatToString(i);
    if key in doc && ActivityIDField in doc[key] then doc[key][ActivityIDField] else ""
  }

  /** The day `loadData` builds from a stored document. */
  function DecodeDay(date: string, doc: Document): Day
  {
    Day(date, seq(SlicesPerDay, i requires 0 <= i < SlicesPerDay => TimeSlice(i, StoredActivityID(doc, i))))
  }

  /** The rebuild loop of `loadData`: every slice of a zero day gets its
      index, and its activity when the document holds one. */
  method LoadDay(date: string, timeSliceMap: Document) returns (day: Day)
    ensures day == DecodeDay(date, timeSliceMap)
    ensures Indexed(day.timeSlices)
  {
    var timeSlices := new TimeSlice[SlicesPerDay](_ => TimeSlice(0, ""));
    for i := 0 to SlicesPerDay
      invariant forall j :: 0 <= j < i ==> timeSlices[j] == TimeSlice(j, StoredActivityID(timeSliceMap, j))
      invariant forall j :: i <= j < SlicesPerDay ==> timeSlices[j] == TimeSlice(0, "")
    {
      var slice := timeSlices[i];
      slice := slice.(slice := i);
      var key := NatToString(i);
      if key in timeSliceMap {
        var loadedData := timeSliceMap[key];
        if ActivityIDField in loadedData {
          slice := slice.(activityID := loadedData[ActivityIDField]);
        }
      }
      timeSlices[i] := slice;
    }
    day := Day(date, timeSlices[..]);
  }

  /** Storing a day and loading it back gives every slice its index and
      restores every activity. */
  lemma DecodeSparseMap(day: Day)
    ensures forall i :: 0 <= i < SlicesPerDay ==>
              DecodeDay(day.date, SparseMap(day.timeSlices)).timeSlices[i] == TimeSlice(i, day.timeSlices[i].activityID)
  {
    SparseOfEntries(day.timeSlices, SlicesPerDay);
  }

  /** A day whose slices know their index survives a store and a load
      unchanged. */
  lemma SparseMapRoundTrip(day: Day)
    requires Indexed(day.timeSlices)
    ensures DecodeDay(day.date, SparseMap(day.timeSlices)) == day
  {
    DecodeSparseMap(day);
    assert DecodeDay(day.date, SparseMap(day.timeSlices)).timeSlices == day.timeSlices;
  }
}
