/** The command line of the day planner (input.go): the validators, the
    extraction of slice numbers, range expansion, the two entry parsers and
    the dispatcher, which here returns the command it would run. */
module Input {
  import opened Text
  import opened Grammar

  // ---------------------------------------------------------------------
  // Results of the two entry parsers

  /** What `parseTimeEntry` returns: the slice set, the range `[start, end]`
      (`(0, 0)` when absent), the activity index and the error flag. */
  datatype TimeEntry = TimeEntry(timeSlices: seq<nat>, timeRange: (nat, nat), activity: nat, err: bool)

  /** What `parseUnassignment` returns. */
  datatype Unassignment = Unassignment(timeSlices: seq<nat>, timeRange: (nat, nat), err: bool)

  /** Every rejected time entry looks the same: nothing assigned. */
  const RejectedEntry := TimeEntry([], (0, 0), 0, true)

  const RejectedUnassignment := Unassignment([], (0, 0), true)

  // ---------------------------------------------------------------------
  // Validators

  /** `validRange`: no range at all is valid; otherwise both ends must
      address displayed slices, the start strictly before the end. */
  function ValidRange(startString: string, endString: string, W: nat): (valid: bool)
    ensures startString == [] ==> valid
    ensures startString != [] ==> (valid <==> 0 < Atoi(startString) < Atoi(endString) <= W)
  {
    if startString != [] then
      var start := Atoi(startString);
      var end := Atoi(endString);
      !(start <= 0 || end <= 0 || start >= end || end > W)
    else true
  }

  /** `validActivity`: the index must name one of the `N` active activities. */
  function ValidActivity(activity: string, N: nat): (valid: bool)
    ensures valid <==> 1 <= Atoi(activity) <= N
  {
    var index := Atoi(activity);
    !(index < 1 || index > N)
  }

  // ---------------------------------------------------------------------
  // expandRange

  /** The ascending run `start, start + 1, ..., end`. */
  function Interval(start: nat, end: nat): (r: seq<nat>)
    ensures |r| == if start <= end then end - start + 1 else 0
    ensures forall k :: 0 <= k < |r| ==> r[k] == start + k
    decreases end + 1 - start
  {
    if start > end then [] else [start] + Interval(start + 1, end)
  }

  /** `expandRange`: appends `i` for every `i` from `start` up to `end`. */
  method ExpandRange(start: nat, end: nat) returns (expanded: seq<nat>)
    ensures expanded == Interval(start, end)
    ensures start <= end ==> |expanded| == end - start + 1 && expanded[0] == start && expanded[|expanded| - 1] == end
  {
    expanded := [];
    var i := start;
    while i <= end
      invariant start <= i <= if start <= end then end + 1 else start
      invariant |expanded| == i - start
      invariant forall k :: 0 <= k < |expanded| ==> expanded[k] == start + k
      decreases end + 1 - i
    {
      expanded := expanded + [i];
      i := i + 1;
    }
  }

  // ---------------------------------------------------------------------
  // parseTimeSlices

  /** Characters the regexp `\s*,*` of input.go:182 matches. */
  predicate IsDelimiter(c: char) { IsSpace(c) || c == ',' }

  /** Replacing every match of `\s*,*` by nothing: all white space and
      commas disappear, everything else stays in order. */
  function Compact(s: string): (r: string)
    ensures forall i :: 0 <= i < |r| ==> !IsDelimiter(r[i])
    ensures |r| <= |s|
  {
    if s == [] then []
    else if IsDelimiter(s[0]) then Compact(s[1..])
    else [s[0]] + Compact(s[1..])
  }

  /** Splitting on every occurrence of `c`, empty pieces kept (Go's
      `Regexp.Split(s, -1)` for a one-letter pattern). */
  function SplitOn(s: string, c: char): (pieces: seq<string>)
    ensures |pieces| >= 1
  {
    if s == [] then [""]
    else
      var rest := SplitOn(s[1..], c);
      if s[0] == c then [""] + rest else [[s[0]] + rest[0]] + rest[1..]
  }

  /** The numbers a slice-set text addresses, read off its grammar: the
      `t#` values in written order, duplicates kept; nothing when the text
      is not a slice set. */
  function SliceNumbers(entry: string): seq<nat>
  {
    if MatchesSliceSet(entry) then Values(ScanTokens(entry).0) else []
  }

  /** `parseTimeSlices`: after the guard regexp, strip delimiters, split on
      `t`, and convert every piece after the first. */
  method ParseTimeSlices(entry: string) returns (timeSlices: seq<nat>)
    ensures timeSlices == SliceNumbers(entry)
  {
    timeSlices := [];
    if MatchesSliceSet(entry) {
      var compactEntry := Compact(entry);
      var timeSliceStrings := SplitOn(compactEntry, 't');
      ghost var values := SliceNumbers(entry);
      PieceCount(entry);
      var i := 1;
      while i < |timeSliceStrings|
        invariant 1 <= i <= |timeSliceStrings| == |values| + 1
        invariant timeSlices == values[..i - 1]
      {
        var timeSlice := Atoi(timeSliceStrings[i]);
        NextSliceNumber(entry, i);
        timeSlices := timeSlices + [timeSlice];
        i := i + 1;
      }
      assert values[..|values|] == values;
    }
  }

  lemma PieceCount(entry: string)
    requires MatchesSliceSet(entry)
    ensures |SplitOn(Compact(entry), 't')| == |SliceNumbers(entry)| + 1
  {
    PiecesOfSliceSet(entry);
  }

  /** Converting piece `i` extends the numbers read so far by the next one. */
  lemma NextSliceNumber(entry: string, i: nat)
    requires MatchesSliceSet(entry)
    requires 1 <= i < |SplitOn(Compact(entry), 't')|
    ensures i - 1 < |SliceNumbers(entry)|
    ensures SliceNumbers(entry)[..i] == SliceNumbers(entry)[..i - 1] + [Atoi(SplitOn(Compact(entry), 't')[i])]
  {
    PiecesOfSliceSet(entry);
    PrefixSnoc(SliceNumbers(entry), i - 1);
  }

  lemma {:induction false} CompactAppend(a: string, b: string)
    ensures Compact(a + b) == Compact(a) + Compact(b)
  {
    if a != [] {
      assert (a + b)[1..] == a[1..] + b;
      CompactAppend(a[1..], b);
    } else {
      assert a + b == b;
    }
  }

  lemma {:induction false} CompactKeeps(s: string)
    requires forall i :: 0 <= i < |s| ==> !IsDelimiter(s[i])
    ensures Compact(s) == s
  {
    if s != [] {
      CompactKeeps(s[1..]);
    }
  }

  lemma {:induction false} CompactDrops(s: string)
    requires forall i :: 0 <= i < |s| ==> IsDelimiter(s[i])
    ensures Compact(s) == []
  {
    if s != [] {
      CompactDrops(s[1..]);
    }
  }

  /** The compacted text of a slice set: `t` and the digits of each token. */
  function Compacted(ts: seq<Token>): string
  {
    if ts == [] then "" else "t" + (ts[0].digits + Compacted(ts[1..]))
  }

  lemma CompactToken(t: Token)
    requires WfToken(t)
    ensures Compact(RenderToken(t)) == "t" + t.digits
  {
    var c := CommaText(t.comma);
    CompactAppend("t" + t.digits + c, t.space);
    CompactAppend("t" + t.digits, c);
    CompactAppend("t", t.digits);
    CompactKeeps("t");
    CompactKeeps(t.digits);
    CompactDrops(c);
    CompactDrops(t.space);
  }

  lemma {:induction false} CompactTokens(ts: seq<Token>)
    requires WfTokens(ts)
    ensures Compact(RenderTokens(ts)) == Compacted(ts)
  {
    if ts != [] {
      CompactAppend(RenderToken(ts[0]), RenderTokens(ts[1..]));
      CompactToken(ts[0]);
      CompactTokens(ts[1..]);
      ConcatAssoc("t", ts[0].digits, Compacted(ts[1..]));
    }
  }

  lemma {:induction false} SplitAfterPiece(d: string, s: string, c: char)
    requires forall i :: 0 <= i < |d| ==> d[i] != c
    ensures SplitOn(d + s, c) == [d + SplitOn(s, c)[0]] + SplitOn(s, c)[1..]
  {
    if d == [] {
      assert d + s == s;
      assert d + SplitOn(s, c)[0] == SplitOn(s, c)[0];
    } else {
      assert (d + s)[1..] == d[1..] + s;
      SplitAfterPiece(d[1..], s, c);
      ConcatAssoc([d[0]], d[1..], SplitOn(s, c)[0]);
      assert [d[0]] + d[1..] == d;
    }
  }

  lemma {:induction false} SplitCompacted(ts: seq<Token>)
    requires WfTokens(ts)
    ensures SplitOn(Compacted(ts), 't') == [""] + DigitStrings(ts)
  {
    if ts != [] {
      var d := ts[0].digits;
      var tail := Compacted(ts[1..]);
      assert ("t" + (d + tail))[1..] == d + tail;
      SplitCompacted(ts[1..]);
      SplitAfterPiece(d, tail, 't');
      assert d + "" == d;
      assert DigitStrings(ts) == [d] + DigitStrings(ts[1..]);
    }
  }

  /** The pieces `parseTimeSlices` converts are the tokens' digit strings. */
  lemma SplitCompactedTokens(ts: seq<Token>)
    requires WfTokens(ts)
    ensures SplitOn(Compact(RenderTokens(ts)), 't') == [""] + DigitStrings(ts)
  {
    CompactTokens(ts);
    SplitCompacted(ts);
  }

  /** The pieces `parseTimeSlices` converts are the written numerals of a
      text the guard regexp accepts. */
  lemma PiecesOfSliceSet(entry: string)
    requires MatchesSliceSet(entry)
    ensures var pieces := SplitOn(Compact(entry), 't');
            && |pieces| == |SliceNumbers(entry)| + 1
            && forall i :: 1 <= i < |pieces| ==> Atoi(pieces[i]) == SliceNumbers(entry)[i - 1]
  {
    var ts := ScanTokens(entry).0;
    assert entry == RenderTokens(ts) by {
      assert RenderTokens(ts) + [] == RenderTokens(ts);
    }
    SplitCompactedTokens(ts);
  }

  /** The separator style between `t#` tokens makes no difference: the
      numbers come back in written order. */
  lemma SliceNumbersOfTokens(ts: seq<Token>)
    requires WfTokens(ts)
    ensures SliceNumbers(RenderTokens(ts)) == Values(ts)
  {
    MatchesSliceSetRendered(ts);
  }

  lemma ValuesOfDigitStrings(ts: seq<Token>, us: seq<Token>)
    requires WfTokens(ts) && WfTokens(us) && DigitStrings(ts) == DigitStrings(us)
    ensures Values(ts) == Values(us)
  {
    assert forall i :: 0 <= i < |ts| ==> ts[i].digits == DigitStrings(us)[i];
  }

  lemma SliceNumbersOfRange(t: TimeSyntax)
    requires WfTime(t) && t.SliceRange?
    ensures SliceNumbers(RenderTime(t)) == []
  {
    RangeIsNotSliceSet(t);
  }

  // ---------------------------------------------------------------------
  // Submatches of the two entry regexps

  /** The capture groups `parseTimeEntry` reads: 1 (the whole time part),
      3 and 4 (the range ends) and 5 (the activity). An unused group
      captures the empty string. */
  datatype EntryMatch = EntryMatch(time: string, range1: string, range2: string, activity: string)

  function EntryGroups(e: EntrySyntax): EntryMatch
  {
    match e.time
    case SliceSet(ts) => EntryMatch(RenderTokens(ts), "", "", e.activity)
    case SliceRange(a, _, b) => EntryMatch(RenderTime(e.time), a, b, e.activity)
  }

  /** `timeEntryRegExp.FindStringSubmatch`: `None` when the entry does not
      match. */
  function MatchEntry(entry: string): (m: Option<EntryMatch>)
    ensures m.Some? ==> IsNumeral(m.value.activity)
    ensures m.Some? ==> (m.value.range1 == [] && m.value.range2 == []) || (IsNumeral(m.value.range1) && IsNumeral(m.value.range2))
  {
    match ScanEntry(entry)
    case None => None
    case Some(e) => Some(EntryGroups(e))
  }

  /** The capture groups `parseUnassignment` reads: 1, 3 and 4. */
  datatype UnassignMatch = UnassignMatch(time: string, range1: string, range2: string)

  function UnassignGroups(u: UnassignSyntax): UnassignMatch
  {
    match u.time
    case SliceSet(ts) => UnassignMatch(RenderTokens(ts), "", "")
    case SliceRange(a, _, b) => UnassignMatch(RenderTime(u.time), a, b)
  }

  function MatchUnassign(entry: string): (m: Option<UnassignMatch>)
    ensures m.Some? ==> (m.value.range1 == [] && m.value.range2 == []) || (IsNumeral(m.value.range1) && IsNumeral(m.value.range2))
  {
    match ScanUnassign(entry)
    case None => None
    case Some(u) => Some(UnassignGroups(u))
  }

  // ---------------------------------------------------------------------
  // parseTimeEntry and parseUnassignment

  /** When the range groups captured something, group 1 holds a range, from
      which `parseTimeSlices` extracts nothing. */
  lemma MatchedRangeHasNoSet(entry: string)
    ensures var m := MatchEntry(entry);
            m.Some? && m.value.range1 != [] ==> SliceNumbers(m.value.time) == []
  {
    var e := ScanEntry(entry);
    if e.Some? && e.value.time.SliceRange? {
      SliceNumbersOfRange(e.value.time);
    }
  }

  lemma MatchedUnassignRangeHasNoSet(entry: string)
    ensures var m := MatchUnassign(entry);
            m.Some? && m.value.range1 != [] ==> SliceNumbers(m.value.time) == []
  {
    var u := ScanUnassign(entry);
    if u.Some? && u.value.time.SliceRange? {
      SliceNumbersOfRange(u.value.time);
    }
  }

  /** `parseTimeEntry` with `W` slices displayed and `N` active activities. */
  function ParseTimeEntry(entry: string, W: nat, N: nat): (r: TimeEntry)
    ensures r.err ==> r == RejectedEntry
    ensures !r.err ==> 1 <= r.activity <= N
    ensures !r.err ==> r.timeRange == (0, 0) || (r.timeSlices == [] && 0 < r.timeRange.0 < r.timeRange.1 <= W)
  {
    match MatchEntry(entry)
    case None => RejectedEntry
    case Some(m) =>
      MatchedRangeHasNoSet(entry);
      EntryVerdict(m, W, N)
  }

  /** The checks `parseTimeEntry` makes on the submatches of its regexp. */
  function EntryVerdict(m: EntryMatch, W: nat, N: nat): TimeEntry
  {
    if !ValidRange(m.range1, m.range2, W) || !ValidActivity(m.activity, N) then RejectedEntry
    else TimeEntry(SliceNumbers(m.time), (Atoi(m.range1), Atoi(m.range2)), Atoi(m.activity), false)
  }

  lemma SetVerdict(m: EntryMatch, W: nat, N: nat)
    requires m.range1 == [] && m.range2 == [] && IsNumeral(m.activity)
    ensures EntryVerdict(m, W, N)
         == if 1 <= Atoi(m.activity) <= N
            then TimeEntry(SliceNumbers(m.time), (0, 0), Atoi(m.activity), false)
            else RejectedEntry
  {
  }

  lemma RangeVerdict(m: EntryMatch, W: nat, N: nat)
    requires IsNumeral(m.range1) && IsNumeral(m.range2) && IsNumeral(m.activity) && SliceNumbers(m.time) == []
    ensures EntryVerdict(m, W, N)
         == if 0 < Atoi(m.range1) < Atoi(m.range2) <= W && 1 <= Atoi(m.activity) <= N
            then TimeEntry([], (Atoi(m.range1), Atoi(m.range2)), Atoi(m.activity), false)
            else RejectedEntry
  {
  }

  /** `parseUnassignment` with `W` slices displayed; no activity is read. */
  function ParseUnassignment(entry: string, W: nat): (r: Unassignment)
    ensures r.err ==> r == RejectedUnassignment
    ensures !r.err ==> r.timeRange == (0, 0) || (r.timeSlices == [] && 0 < r.timeRange.0 < r.timeRange.1 <= W)
  {
    match MatchUnassign(entry)
    case None => RejectedUnassignment
    case Some(m) =>
      MatchedUnassignRangeHasNoSet(entry);
      UnassignVerdict(m, W)
  }

  /** The check `parseUnassignment` makes on the submatches of its regexp. */
  function UnassignVerdict(m: UnassignMatch, W: nat): Unassignment
  {
    if !ValidRange(m.range1, m.range2, W) then RejectedUnassignment
    else Unassignment(SliceNumbers(m.time), (Atoi(m.range1), Atoi(m.range2)), false)
  }

  lemma RangeUnassignVerdict(m: UnassignMatch, W: nat)
    requires IsNumeral(m.range1) && IsNumeral(m.range2) && SliceNumbers(m.time) == []
    ensures UnassignVerdict(m, W)
         == if 0 < Atoi(m.range1) < Atoi(m.range2) <= W
            then Unassignment([], (Atoi(m.range1), Atoi(m.range2)), false)
            else RejectedUnassignment
  {
  }

  /** A slice-set entry is accepted exactly when its activity is valid; the
      slice numbers are not checked against `W`. */
  lemma ParseSetEntry(ts: seq<Token>, gap: string, activity: string, W: nat, N: nat)
    requires WfEntry(EntrySyntax(SliceSet(ts), gap, activity))
    ensures var r := ParseTimeEntry(RenderEntry(EntrySyntax(SliceSet(ts), gap, activity)), W, N);
            r == if 1 <= Atoi(activity) <= N
                 then TimeEntry(Values(ts), (0, 0), Atoi(activity), false)
                 else RejectedEntry
  {
    var e := EntrySyntax(SliceSet(ts), gap, activity);
    var n := Normalize(e);
    var m := EntryMatch(RenderTokens(n.time.tokens), "", "", activity);
    assert MatchEntry(RenderEntry(e)) == Some(m) by {
      ScanEntryRendered(e);
    }
    assert SliceNumbers(m.time) == Values(ts) by {
      SliceNumbersOfTokens(n.time.tokens);
      ValuesOfDigitStrings(n.time.tokens, ts);
    }
    SetVerdict(m, W, N);
  }

  /** A range entry is accepted exactly when `0 < start < end <= W` and its
      activity is valid; whether the second `t` is written makes no
      difference. */
  lemma ParseRangeEntry(a: string, secondT: bool, b: string, gap: string, activity: string, W: nat, N: nat)
    requires WfEntry(EntrySyntax(SliceRange(a, secondT, b), gap, activity))
    ensures var r := ParseTimeEntry(RenderEntry(EntrySyntax(SliceRange(a, secondT, b), gap, activity)), W, N);
            r == if 0 < Atoi(a) < Atoi(b) <= W && 1 <= Atoi(activity) <= N
                 then TimeEntry([], (Atoi(a), Atoi(b)), Atoi(activity), false)
                 else RejectedEntry
  {
    var e := EntrySyntax(SliceRange(a, secondT, b), gap, activity);
    var m := EntryMatch(RenderTime(e.time), a, b, activity);
    assert MatchEntry(RenderEntry(e)) == Some(m) by {
      ScanEntryRendered(e);
    }
    assert SliceNumbers(m.time) == [] by {
      SliceNumbersOfRange(e.time);
    }
    RangeVerdict(m, W, N);
  }

  /** An accepted time entry was written in the grammar of input.go:47. */
  lemma ParseTimeEntryInGrammar(entry: string, W: nat, N: nat)
    requires !ParseTimeEntry(entry, W, N).err
    ensures exists e :: WfEntry(e) && RenderEntry(e) == entry
  {
    var e := ScanEntry(entry).value;
    assert WfEntry(e) && RenderEntry(e) == entry;
  }

  lemma ParseSetUnassignment(gap: string, ts: seq<Token>, W: nat)
    requires WfUnassign(UnassignSyntax(gap, SliceSet(ts)))
    ensures ParseUnassignment(RenderUnassign(UnassignSyntax(gap, SliceSet(ts))), W)
         == Unassignment(if ts == [] then [] else Values(ts), (0, 0), false)
  {
    var u := UnassignSyntax(gap, SliceSet(ts));
    var m := UnassignMatch(RenderTokens(ts), "", "");
    assert MatchUnassign(RenderUnassign(u)) == Some(m) by {
      ScanUnassignRendered(u);
    }
    assert UnassignVerdict(m, W) == Unassignment(SliceNumbers(m.time), (0, 0), false);
    MatchesSliceSetRendered(ts);
  }

  lemma ParseRangeUnassignment(gap: string, a: string, secondT: bool, b: string, W: nat)
    requires WfUnassign(UnassignSyntax(gap, SliceRange(a, secondT, b)))
    ensures var r := ParseUnassignment(RenderUnassign(UnassignSyntax(gap, SliceRange(a, secondT, b))), W);
            r == if 0 < Atoi(a) < Atoi(b) <= W
                 then Unassignment([], (Atoi(a), Atoi(b)), false)
                 else RejectedUnassignment
  {
    var u := UnassignSyntax(gap, SliceRange(a, secondT, b));
    var m := UnassignMatch(RenderTime(u.time), a, b);
    assert MatchUnassign(RenderUnassign(u)) == Some(m) by {
      ScanUnassignRendered(u);
    }
    assert SliceNumbers(m.time) == [] by {
      SliceNumbersOfRange(u.time);
    }
    RangeUnassignVerdict(m, W);
  }

  lemma ParseUnassignmentInGrammar(entry: string, W: nat)
    requires !ParseUnassignment(entry, W).err
    ensures exists u :: WfUnassign(u) && RenderUnassign(u) == entry
  {
    var u := ScanUnassign(entry).value;
    assert WfUnassign(u) && RenderUnassign(u) == entry;
  }

  // ---------------------------------------------------------------------
  // parseInput

  /** What `parseInput` does with a line: the command it runs, if any. */
  datatype Command =
    | Quit
    | TimeForward
    | TimeBackward
    | DayForward
    | DayBackward
    | DayTodayTimeNow
    | DayYesterday
    | AssignTime(slices: seq<nat>, activity: nat)
    | UnassignTime(slices: seq<nat>)
    | NoCommand

  /** The slices an accepted entry addresses: the expanded range when a
      range was given (its start is positive), the slice set otherwise. */
  function AddressedSlices(timeSlices: seq<nat>, timeRange: (nat, nat)): seq<nat>
  {
    if timeRange.0 > 0 then Interval(timeRange.0, timeRange.1) else timeSlices
  }

  /** The literal commands, matched exactly after lower-casing. */
  function Keyword(input: string): Option<Command>
  {
    if input == "q" || input == "quit" then Some(Quit)
    else if input == "+" then Some(TimeForward)
    else if input == "-" then Some(TimeBackward)
    else if input == "n" || input == "next" then Some(DayForward)
    else if input == "p" || input == "prior" then Some(DayBackward)
    else if input == "t" || input == "today" || input == "r" || input == "refresh" || input == "reset" then Some(DayTodayTimeNow)
    else if input == "y" || input == "yesterday" then Some(DayYesterday)
    else None
  }

  /** `parseInput` on the text of the command line, with `W` slices
      displayed and `N` active activities. */
  function ParseInput(text: string, W: nat, N: nat): (c: Command)
    ensures c.AssignTime? ==> 1 <= c.activity <= N && |c.slices| > 0
    ensures (c.AssignTime? || c.UnassignTime?) ==> Keyword(Lower(text)).None?
  {
    var input := Lower(text);
    match Keyword(input)
    case Some(command) => command
    case None =>
      if |input| > 0 && input[0] == 't' then
        var entry := ParseTimeEntry(input, W, N);
        if entry.err then NoCommand
        else
          assert |AddressedSlices(entry.timeSlices, entry.timeRange)| > 0 by {
            AssignedSlicesNonEmpty(input, W, N);
          }
          AssignTime(AddressedSlices(entry.timeSlices, entry.timeRange), entry.activity)
      else if |input| > 0 && input[0] == 'u' then
        var unassignment := ParseUnassignment(input, W);
        if unassignment.err then NoCommand
        else UnassignTime(AddressedSlices(unassignment.timeSlices, unassignment.timeRange))
      else NoCommand
  }

  /** An entry that starts with `t` and is accepted addresses at least one
      slice: the first alternative cannot match an empty slice set there. */
  lemma AssignedSlicesNonEmpty(input: string, W: nat, N: nat)
    requires |input| > 0 && input[0] == 't'
    requires !ParseTimeEntry(input, W, N).err
    ensures |AddressedSlices(ParseTimeEntry(input, W, N).timeSlices, ParseTimeEntry(input, W, N).timeRange)| > 0
  {
    var e := ScanEntry(input).value;
    match e.time
    case SliceSet(ts) =>
      if ts == [] {
        assert false;
      }
      SliceNumbersOfTokens(ts);
    case SliceRange(_, _, _) =>
  }

  /** Upper and lower case are the same to the dispatcher. */
  lemma ParseInputIgnoresCase(text: string, W: nat, N: nat)
    ensures ParseInput(text, W, N) == ParseInput(Lower(text), W, N)
  {
    LowerIdempotent(text);
  }

  /** A range the user assigns is expanded to every slice between its ends,
      all of them displayed slices. */
  lemma AssignedRangeDisplayed(text: string, W: nat, N: nat)
    requires ParseInput(text, W, N).AssignTime?
    requires ParseTimeEntry(Lower(text), W, N).timeRange.0 > 0
    ensures forall k :: 0 <= k < |ParseInput(text, W, N).slices| ==> 1 <= ParseInput(text, W, N).slices[k] <= W
  {
  }

  /** A rendered entry is never one of the literal commands: those do not
      end in a digit. */
  lemma EntryIsNotKeyword(e: EntrySyntax)
    requires WfEntry(e)
    ensures Keyword(RenderEntry(e)).None?
  {
    RenderEntryShape(e);
  }

  /** End to end: a line that reads, ignoring case, as a slice-set entry
      assigns exactly its written slices, when the activity is valid. */
  lemma ParseInputSetEntry(text: string, ts: seq<Token>, gap: string, activity: string, W: nat, N: nat)
    requires WfEntry(EntrySyntax(SliceSet(ts), gap, activity)) && ts != []
    requires Lower(text) == RenderEntry(EntrySyntax(SliceSet(ts), gap, activity))
    ensures ParseInput(text, W, N)
         == if 1 <= Atoi(activity) <= N then AssignTime(Values(ts), Atoi(activity)) else NoCommand
  {
    var e := EntrySyntax(SliceSet(ts), gap, activity);
    EntryIsNotKeyword(e);
    RenderTokensStart(ts);
    assert RenderEntry(e)[0] == 't';
    ParseSetEntry(ts, gap, activity, W, N);
  }

  /** End to end: a line that reads, ignoring case, as a range entry assigns
      every slice of the range, when the range and the activity are valid. */
  lemma ParseInputRangeEntry(text: string, a: string, secondT: bool, b: string, gap: string, activity: string, W: nat, N: nat)
    requires WfEntry(EntrySyntax(SliceRange(a, secondT, b), gap, activity))
    requires Lower(text) == RenderEntry(EntrySyntax(SliceRange(a, secondT, b), gap, activity))
    ensures ParseInput(text, W, N)
         == if 0 < Atoi(a) < Atoi(b) <= W && 1 <= Atoi(activity) <= N
            then AssignTime(Interval(Atoi(a), Atoi(b)), Atoi(activity))
            else NoCommand
  {
    var e := EntrySyntax(SliceRange(a, secondT, b), gap, activity);
    EntryIsNotKeyword(e);
    RenderRangeSplit(a, secondT, b, e.gap + "a" + e.activity);
    assert RenderEntry(e)[0] == 't';
    ParseRangeEntry(a, secondT, b, gap, activity, W, N);
  }

  lemma UnassignIsNotKeyword(s: string)
    requires |s| > 0 && s[0] == 'u'
    ensures Keyword(s).None?
  {
  }

  /** End to end: a line that reads, ignoring case, as an unassignment of a
      slice set releases exactly its written slices (none for a bare `u`). */
  lemma ParseInputSetUnassignment(text: string, gap: string, ts: seq<Token>, W: nat, N: nat)
    requires WfUnassign(UnassignSyntax(gap, SliceSet(ts)))
    requires Lower(text) == RenderUnassign(UnassignSyntax(gap, SliceSet(ts)))
    ensures ParseInput(text, W, N) == UnassignTime(Values(ts))
  {
    var u := UnassignSyntax(gap, SliceSet(ts));
    assert Lower(text)[0] == 'u';
    ParseInputUnassign(text, W, N);
    ParseSetUnassignment(gap, ts, W);
    assert Values(ts) == [] <== ts == [];
  }

  /** A line that starts with `u` after lower-casing goes to `parseUnassignment`. */
  lemma ParseInputUnassign(text: string, W: nat, N: nat)
    requires |Lower(text)| > 0 && Lower(text)[0] == 'u'
    ensures var unassignment := ParseUnassignment(Lower(text), W);
            ParseInput(text, W, N)
            == if unassignment.err then NoCommand
               else UnassignTime(AddressedSlices(unassignment.timeSlices, unassignment.timeRange))
  {
    UnassignIsNotKeyword(Lower(text));
  }

  /** End to end: an unassignment of a range releases every slice of it when
      the range is valid, and nothing happens otherwise. */
  lemma ParseInputRangeUnassignment(text: string, gap: string, a: string, secondT: bool, b: string, W: nat, N: nat)
    requires WfUnassign(UnassignSyntax(gap, SliceRange(a, secondT, b)))
    requires Lower(text) == RenderUnassign(UnassignSyntax(gap, SliceRange(a, secondT, b)))
    ensures ParseInput(text, W, N)
         == if 0 < Atoi(a) < Atoi(b) <= W
            then UnassignTime(Interval(Atoi(a), Atoi(b)))
            else NoCommand
  {
    var u := UnassignSyntax(gap, SliceRange(a, secondT, b));
    assert Lower(text)[0] == 'u';
    ParseInputUnassign(text, W, N);
    ParseRangeUnassignment(gap, a, secondT, b, W);
  }
}
