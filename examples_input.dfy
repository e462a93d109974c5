/** The cases of input_test.go and of the comments in input.go, as lemmas
    about the model of the parsers. */
module InputExamples {
  import opened Text
  import opened Grammar
  import opened Input

  /** Every accepted entry contains an `a` and ends in a digit. */
  lemma EntryShape(s: string)
    requires ScanEntry(s).Some?
    ensures 'a' in s && |s| > 0 && IsDigit(s[|s| - 1])
  {
    RenderEntryShape(ScanEntry(s).value);
  }

  /** An input without an `a`, or not ending in a digit, is rejected. */
  lemma ShapeRejects(s: string, W: nat, N: nat)
    requires 'a' !in s || |s| == 0 || !IsDigit(s[|s| - 1])
    ensures ParseTimeEntry(s, W, N) == RejectedEntry
  {
    if ScanEntry(s).Some? {
      EntryShape(s);
      assert false;
    }
  }

  /** An input whose first character neither starts a `t#` token nor the
      activity tail is rejected. */
  lemma NoTokenRejects(s: string, W: nat, N: nat)
    requires |s| > 0 && !StartsToken(s) && s[0] != 'a' && !IsSpace(s[0])
    ensures ParseTimeEntry(s, W, N) == RejectedEntry
  {
    assert ScanToken(s) == None;
    assert ScanTokens(s) == ([], s);
    assert SpaceRun(s) == 0;
    assert s[0..] == s;
  }

  /** Inputs outside the grammar of input.go:47 are rejected
      (input_test.go:26-31). */
  lemma MalformedEntriesRejected(text: string, W: nat, N: nat)
    requires text == "t1" || text == "t1 a" || text == "t1a" || text == "t a1" || text == "ta1" || text == "ta"
    ensures ParseTimeEntry(text, W, N) == RejectedEntry
  {
    if text == "t1" || text == "t1 a" || text == "t1a" {
      ShapeRejects(text, W, N);
    } else {
      NoTokenRejects(text, W, N);
    }
  }

  lemma AcceptsSet(s: string, ts: seq<Token>, gap: string, act: string, values: seq<nat>, activity: nat, W: nat, N: nat)
    requires WfEntry(EntrySyntax(SliceSet(ts), gap, act)) && s == RenderEntry(EntrySyntax(SliceSet(ts), gap, act))
    requires Values(ts) == values && DecimalValue(act) == activity && 1 <= activity <= N
    ensures ParseTimeEntry(s, W, N) == TimeEntry(values, (0, 0), activity, false)
  {
    ParseSetEntry(ts, gap, act, W, N);
  }

  lemma AcceptsRange(s: string, a: string, secondT: bool, b: string, gap: string, act: string, W: nat, N: nat)
    requires WfEntry(EntrySyntax(SliceRange(a, secondT, b), gap, act))
    requires s == RenderEntry(EntrySyntax(SliceRange(a, secondT, b), gap, act))
    requires 0 < DecimalValue(a) < DecimalValue(b) <= W && 1 <= DecimalValue(act) <= N
    ensures ParseTimeEntry(s, W, N) == TimeEntry([], (DecimalValue(a), DecimalValue(b)), DecimalValue(act), false)
  {
    ParseRangeEntry(a, secondT, b, gap, act, W, N);
  }

  lemma RejectsRange(s: string, a: string, secondT: bool, b: string, gap: string, act: string, W: nat, N: nat)
    requires WfEntry(EntrySyntax(SliceRange(a, secondT, b), gap, act))
    requires s == RenderEntry(EntrySyntax(SliceRange(a, secondT, b), gap, act))
    requires !(0 < DecimalValue(a) < DecimalValue(b) <= W)
    ensures ParseTimeEntry(s, W, N) == RejectedEntry
  {
    ParseRangeEntry(a, secondT, b, gap, act, W, N);
  }

  lemma RejectsRangeOf(text: string, a: string, b: string, W: nat, N: nat)
    requires IsNumeral(a) && IsNumeral(b) && !(0 < DecimalValue(a) < DecimalValue(b) <= W)
    requires text == RenderEntry(EntrySyntax(SliceRange(a, true, b), " ", "1"))
    ensures ParseTimeEntry(text, W, N) == RejectedEntry
  {
    RejectsRange(text, a, true, b, " ", "1", W, N);
  }

  /** A range must not be empty (input_test.go:32). */
  lemma SingleSliceRangeRejected(text: string, W: nat, N: nat)
    requires text == "t1-t1 a1"
    ensures ParseTimeEntry(text, W, N) == RejectedEntry
  {
    assert text == RenderEntry(EntrySyntax(SliceRange("1", true, "1"), " ", "1"));
    assert DecimalValue("1") == 1;
    RejectsRangeOf(text, "1", "1", W, N);
  }

  /** A range must not start at slice 0 (input_test.go:33). */
  lemma ZeroStartRangeRejected(text: string, W: nat, N: nat)
    requires text == "t0-t1 a1"
    ensures ParseTimeEntry(text, W, N) == RejectedEntry
  {
    assert text == RenderEntry(EntrySyntax(SliceRange("0", true, "1"), " ", "1"));
    assert DecimalValue("0") == 0;
    RejectsRangeOf(text, "0", "1", W, N);
  }

  /** A range must not run backwards (input_test.go:34). */
  lemma BackwardRangeRejected(text: string, W: nat, N: nat)
    requires text == "t2-t1 a1"
    ensures ParseTimeEntry(text, W, N) == RejectedEntry
  {
    assert text == RenderEntry(EntrySyntax(SliceRange("2", true, "1"), " ", "1"));
    assert DecimalValue("2") == 2 && DecimalValue("1") == 1;
    RejectsRangeOf(text, "2", "1", W, N);
  }

  /** A range must not end past the displayed window (input_test.go:35). */
  lemma RangePastWindowRejected(text: string, W: nat, N: nat)
    requires text == "t1-t" + NatToString(W + 1) + " a1"
    ensures ParseTimeEntry(text, W, N) == RejectedEntry
  {
    var end := NatToString(W + 1);
    assert text == RenderEntry(EntrySyntax(SliceRange("1", true, end), " ", "1"));
    NatToStringValue(W + 1);
    RejectsRangeOf(text, "1", end, W, N);
  }

  /** A single slice, with or without a space before the activity
      (input_test.go:37-38). */
  lemma SingleSliceAccepted(text: string, W: nat, N: nat)
    requires text == "t1 a1" || text == "t1a1"
    requires N >= 1
    ensures ParseTimeEntry(text, W, N) == TimeEntry([1], (0, 0), 1, false)
  {
    if text == "t1 a1" {
      var ts := [Token("1", false, " ")];
      assert text == RenderEntry(EntrySyntax(SliceSet(ts), "", "1"));
      assert Values(ts) == [1];
      AcceptsSet(text, ts, "", "1", [1], 1, W, N);
    } else {
      var ts := [Token("1", false, "")];
      assert text == RenderEntry(EntrySyntax(SliceSet(ts), "", "1"));
      assert Values(ts) == [1];
      AcceptsSet(text, ts, "", "1", [1], 1, W, N);
    }
  }

  /** The tokens of "t3", a separator, and "t6". */
  lemma ThreeAndSixTokens(comma: bool, space: string, space': string)
    requires |space| <= 1 && AllSpace(space) && |space'| <= 1 && AllSpace(space')
    ensures var ts := [Token("3", comma, space), Token("6", false, space')];
            RenderTokens(ts) == ("t3" + CommaText(comma) + space) + ("t6" + space') && Values(ts) == [3, 6]
  {
    var ts := [Token("3", comma, space), Token("6", false, space')];
    assert RenderTokens(ts[1..]) == RenderToken(ts[1]) by {
      assert ts[1..][1..] == [];
      assert RenderToken(ts[1]) + "" == RenderToken(ts[1]);
    }
    assert RenderToken(ts[1]) == "t6" + space' by {
      assert "t" + "6" == "t6";
      assert CommaText(false) == "";
      assert "t6" + "" == "t6";
    }
    assert RenderToken(ts[0]) == "t3" + CommaText(comma) + space by {
      assert "t" + "3" == "t3";
    }
    assert Values(ts) == [3, 6] by {
      assert DecimalValue("3") == 3 && DecimalValue("6") == 6;
    }
  }

  lemma SlicesThreeAndSix(text: string, comma: bool, space: string, space': string, W: nat, N: nat)
    requires |space| <= 1 && AllSpace(space) && |space'| <= 1 && AllSpace(space')
    requires text == "t3" + CommaText(comma) + space + "t6" + space' + "a2"
    requires N >= 2
    ensures ParseTimeEntry(text, W, N) == TimeEntry([3, 6], (0, 0), 2, false)
  {
    var ts := [Token("3", comma, space), Token("6", false, space')];
    ThreeAndSixTokens(comma, space, space');
    assert text == RenderEntry(EntrySyntax(SliceSet(ts), "", "2")) by {
      ConcatAssoc("t3" + CommaText(comma) + space, "t6", space');
    }
    assert DecimalValue("2") == 2;
    AcceptsSet(text, ts, "", "2", [3, 6], 2, W, N);
  }

  /** Every separator style between slices gives the same numbers
      (input_test.go:39-43). */
  lemma SliceSetsAccepted(text: string, W: nat, N: nat)
    requires text == "t3, t6 a2" || text == "t3,t6 a2" || text == "t3 t6 a2" || text == "t3t6 a2" || text == "t3t6a2"
    requires N >= 2
    ensures ParseTimeEntry(text, W, N) == TimeEntry([3, 6], (0, 0), 2, false)
  {
    if text == "t3, t6 a2" {
      SlicesThreeAndSix(text, true, " ", " ", W, N);
    } else if text == "t3,t6 a2" {
      SlicesThreeAndSix(text, true, "", " ", W, N);
    } else if text == "t3 t6 a2" {
      SlicesThreeAndSix(text, false, " ", " ", W, N);
    } else if text == "t3t6 a2" {
      SlicesThreeAndSix(text, false, "", " ", W, N);
    } else {
      SlicesThreeAndSix(text, false, "", "", W, N);
    }
  }

  lemma RangeSevenToTen(text: string, secondT: bool, gap: string, W: nat, N: nat)
    requires AllSpace(gap)
    requires text == RenderEntry(EntrySyntax(SliceRange("7", secondT, "10"), gap, "5"))
    requires W >= 10 && N >= 5
    ensures ParseTimeEntry(text, W, N) == TimeEntry([], (7, 10), 5, false)
  {
    assert DecimalValue("10") == 10 && DecimalValue("7") == 7 && DecimalValue("5") == 5;
    AcceptsRange(text, "7", secondT, "10", gap, "5", W, N);
  }

  /** The second `t` of a range, and the space before the activity, are
      optional (input_test.go:44-47). */
  lemma RangesAccepted(text: string, W: nat, N: nat)
    requires text == "t7-t10 a5" || text == "t7-10 a5" || text == "t7-t10a5" || text == "t7-10a5"
    requires W >= 10 && N >= 5
    ensures ParseTimeEntry(text, W, N) == TimeEntry([], (7, 10), 5, false)
  {
    if text == "t7-t10 a5" {
      RangeSevenToTen(text, true, " ", W, N);
    } else if text == "t7-10 a5" {
      RangeSevenToTen(text, false, " ", W, N);
    } else if text == "t7-t10a5" {
      RangeSevenToTen(text, true, "", W, N);
    } else {
      RangeSevenToTen(text, false, "", W, N);
    }
  }

  /** Slice-set numbers are not checked against the window: `t99 a1` is
      accepted whatever `W` is. */
  lemma UncheckedSliceNumber(W: nat, N: nat)
    requires N >= 1
    ensures ParseTimeEntry("t99 a1", W, N) == TimeEntry([99], (0, 0), 1, false)
  {
    var ts := [Token("99", false, " ")];
    assert "t99 a1" == RenderEntry(EntrySyntax(SliceSet(ts), "", "1"));
    assert DecimalValue("99") == 99;
    assert Values(ts) == [99];
    AcceptsSet("t99 a1", ts, "", "1", [99], 1, W, N);
  }

  /** A bare `t` is the "today" command, not an entry. */
  lemma BareTIsToday(text: string, W: nat, N: nat)
    requires text == "t" || text == "T"
    ensures ParseInput(text, W, N) == DayTodayTimeNow
  {
    assert Lower(text) == "t";
  }

  /** `strings.ToLower` maps the dotted capital I to `i`, so `QUİT` and
      `PRİOR` are the keywords `quit` and `prior`. */
  lemma DottedCapitalIKeywords(text: string, W: nat, N: nat)
    requires text == "QU\U{0130}T" || text == "PR\U{0130}OR"
    ensures ParseInput(text, W, N) == if text[0] == 'Q' then Quit else DayBackward
  {
    if text[0] == 'Q' {
      assert Lower(text) == "quit";
    } else {
      assert Lower(text) == "prior";
    }
  }

  /** An upper-case range entry assigns every slice of the range. */
  lemma UpperCaseRangeAssigned(text: string, W: nat, N: nat)
    requires text == "T7-T10 A5"
    requires W >= 10 && N >= 5
    ensures ParseInput(text, W, N) == AssignTime([7, 8, 9, 10], 5)
  {
    UpperCaseRangeText(text);
    SevenTenFive();
    ParseInputRangeEntry(text, "7", true, "10", " ", "5", W, N);
    SevenToTen();
  }

  lemma UpperCaseRangeText(text: string)
    requires text == "T7-T10 A5"
    ensures Lower(text) == RenderEntry(EntrySyntax(SliceRange("7", true, "10"), " ", "5"))
  {
  }

  lemma SevenTenFive()
    ensures Atoi("7") == 7 && Atoi("10") == 10 && Atoi("5") == 5
  {
    assert DecimalValue("10") == 10 && DecimalValue("7") == 7 && DecimalValue("5") == 5;
  }

  lemma SevenToTen()
    ensures Interval(7, 10) == [7, 8, 9, 10]
  {
  }

  lemma LowerOfLowerCase(s: string)
    requires forall i :: 0 <= i < |s| ==> s[i] <= '~' && !('A' <= s[i] <= 'Z')
    ensures Lower(s) == s
  {
  }

  /** A bare `u` releases nothing. */
  lemma BareUnassignment(text: string, W: nat, N: nat)
    requires text == "u"
    ensures ParseInput(text, W, N) == UnassignTime([])
  {
    assert Lower(text) == RenderUnassign(UnassignSyntax("", SliceSet([])));
    ParseInputSetUnassignment(text, "", [], W, N);
  }

  /** `u t1` releases slice 1 (input.go:60). */
  lemma SingleSliceUnassignment(text: string, W: nat, N: nat)
    requires text == "u t1"
    ensures ParseInput(text, W, N) == UnassignTime([1])
  {
    var ts := [Token("1", false, "")];
    assert Lower(text) == text by {
      LowerOfLowerCase(text);
    }
    assert RenderTokens(ts) == "t1" by {
      assert ts[1..] == [];
      assert "t" + "1" + "" + "" + "" == "t1";
    }
    assert Lower(text) == "u" + (" " + "t1");
    assert Values(ts) == [1] by {
      assert DecimalValue("1") == 1;
    }
    ParseInputSetUnassignment(text, " ", ts, W, N);
  }

  /** The unassignment of slices 3 and 6, with any gap and separator. */
  lemma UnassignThreeAndSix(text: string, gap: string, comma: bool, space: string, W: nat, N: nat)
    requires AllSpace(gap) && |space| <= 1 && AllSpace(space)
    requires Lower(text) == "u" + (gap + (("t3" + CommaText(comma) + space) + ("t6" + "")))
    ensures ParseInput(text, W, N) == UnassignTime([3, 6])
  {
    var ts := [Token("3", comma, space), Token("6", false, "")];
    ThreeAndSixTokens(comma, space, "");
    assert Lower(text) == RenderUnassign(UnassignSyntax(gap, SliceSet(ts)));
    ParseInputSetUnassignment(text, gap, ts, W, N);
  }

  /** Every separator style between slices, with or without the space after
      `u`, releases slices 3 and 6 (input.go:61-65). */
  lemma SliceSetUnassignment(text: string, W: nat, N: nat)
    requires text == "u t3, t6" || text == "u t3,t6" || text == "u t3 t6" || text == "u t3t6" || text == "ut3t6"
    ensures ParseInput(text, W, N) == UnassignTime([3, 6])
  {
    if text == "u t3, t6" {
      ThreeAndSixCommaSpace(text);
      UnassignThreeAndSix(text, " ", true, " ", W, N);
    } else if text == "u t3,t6" {
      ThreeAndSixComma(text);
      UnassignThreeAndSix(text, " ", true, "", W, N);
    } else if text == "u t3 t6" {
      ThreeAndSixSpace(text);
      UnassignThreeAndSix(text, " ", false, " ", W, N);
    } else if text == "u t3t6" {
      ThreeAndSixAdjacent(text);
      UnassignThreeAndSix(text, " ", false, "", W, N);
    } else {
      ThreeAndSixPacked(text);
      UnassignThreeAndSix(text, "", false, "", W, N);
    }
  }

  lemma ThreeAndSixCommaSpace(text: string)
    requires text == "u t3, t6"
    ensures Lower(text) == "u" + (" " + (("t3" + CommaText(true) + " ") + ("t6" + "")))
  {
    assert Lower(text) == text by {
      LowerOfLowerCase(text);
    }
    assert CommaText(true) == ",";
    assert text == "u" + (" " + (("t3" + "," + " ") + ("t6" + "")));
  }

  lemma ThreeAndSixComma(text: string)
    requires text == "u t3,t6"
    ensures Lower(text) == "u" + (" " + (("t3" + CommaText(true) + "") + ("t6" + "")))
  {
    assert Lower(text) == text by {
      LowerOfLowerCase(text);
    }
    assert CommaText(true) == ",";
    assert text == "u" + (" " + (("t3" + "," + "") + ("t6" + "")));
  }

  lemma ThreeAndSixSpace(text: string)
    requires text == "u t3 t6"
    ensures Lower(text) == "u" + (" " + (("t3" + CommaText(false) + " ") + ("t6" + "")))
  {
    assert Lower(text) == text by {
      LowerOfLowerCase(text);
    }
    assert CommaText(false) == "";
    assert text == "u" + (" " + (("t3" + "" + " ") + ("t6" + "")));
  }

  lemma ThreeAndSixAdjacent(text: string)
    requires text == "u t3t6"
    ensures Lower(text) == "u" + (" " + (("t3" + CommaText(false) + "") + ("t6" + "")))
  {
    assert Lower(text) == text by {
      LowerOfLowerCase(text);
    }
    assert CommaText(false) == "";
    assert text == "u" + (" " + (("t3" + "" + "") + ("t6" + "")));
  }

  lemma ThreeAndSixPacked(text: string)
    requires text == "ut3t6"
    ensures Lower(text) == "u" + ("" + (("t3" + CommaText(false) + "") + ("t6" + "")))
  {
    assert Lower(text) == text by {
      LowerOfLowerCase(text);
    }
    assert CommaText(false) == "";
    assert text == "u" + ("" + (("t3" + "" + "") + ("t6" + "")));
  }

  /** A range unassignment releases every slice of the range, with or without
      the space after `u` and the second `t` (input.go:66-67). */
  lemma RangeUnassignments(text: string, W: nat, N: nat)
    requires text == "u t7-t10" || text == "ut7-10"
    requires W >= 10
    ensures ParseInput(text, W, N) == UnassignTime([7, 8, 9, 10])
  {
    SevenTenFive();
    SevenToTen();
    if text == "u t7-t10" {
      SpacedSevenToTenText(text);
      ParseInputRangeUnassignment(text, " ", "7", true, "10", W, N);
    } else {
      PackedSevenToTenText(text);
      ParseInputRangeUnassignment(text, "", "7", false, "10", W, N);
    }
  }

  lemma SpacedSevenToTenText(text: string)
    requires text == "u t7-t10"
    ensures Lower(text) == RenderUnassign(UnassignSyntax(" ", SliceRange("7", true, "10")))
  {
    assert Lower(text) == text by {
      LowerOfLowerCase(text);
    }
    assert SecondTText(true) == "t";
    assert text == "u" + (" " + ("t" + "7" + "-" + "t" + "10"));
  }

  lemma PackedSevenToTenText(text: string)
    requires text == "ut7-10"
    ensures Lower(text) == RenderUnassign(UnassignSyntax("", SliceRange("7", false, "10")))
  {
    assert Lower(text) == text by {
      LowerOfLowerCase(text);
    }
    assert SecondTText(false) == "";
    assert text == "u" + ("" + ("t" + "7" + "-" + "" + "10"));
  }
}
