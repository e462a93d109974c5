/** The three regular languages of the command line (input.go:47, 50, 83),
    written as concrete-syntax trees with a rendering function, and greedy
    scanners that recover the tree Go's leftmost-first matcher picks.
    Soundness (`Render(Scan(s)) == s`) is stated on each scanner; completeness
    (`Scan(Render(t)) == t`) is a lemma per production. */
module Grammar {
  import opened Text

  // ---------------------------------------------------------------------
  // Runs of digits and of white space

  /** Length of the longest prefix of `s` made of digits. */
  function DigitRun(s: string): (n: nat)
    ensures n <= |s| && AllDigits(s[..n])
    ensures n < |s| ==> !IsDigit(s[n])
  {
    if s == [] || !IsDigit(s[0]) then 0
    else
      var m := DigitRun(s[1..]);
      assert s[..1 + m] == [s[0]] + s[1..][..m];
      1 + m
  }

  /** Length of the longest prefix of `s` made of white space. */
  function SpaceRun(s: string): (n: nat)
    ensures n <= |s| && AllSpace(s[..n])
    ensures n < |s| ==> !IsSpace(s[n])
  {
    if s == [] || !IsSpace(s[0]) then 0
    else
      var m := SpaceRun(s[1..]);
      assert s[..1 + m] == [s[0]] + s[1..][..m];
      1 + m
  }

  lemma {:induction false} DigitRunOf(d: string, rest: string)
    requires AllDigits(d)
    requires rest == [] || !IsDigit(rest[0])
    ensures DigitRun(d + rest) == |d|
  {
    if d != [] {
      assert (d + rest)[1..] == d[1..] + rest;
      DigitRunOf(d[1..], rest);
    } else {
      assert d + rest == rest;
    }
  }

  lemma {:induction false} SpaceRunOf(g: string, rest: string)
    requires AllSpace(g)
    requires rest == [] || !IsSpace(rest[0])
    ensures SpaceRun(g + rest) == |g|
  {
    if g != [] {
      assert (g + rest)[1..] == g[1..] + rest;
      SpaceRunOf(g[1..], rest);
    } else {
      assert g + rest == rest;
    }
  }

  // ---------------------------------------------------------------------
  // Slice sets: `(t[0-9]+,?\s?)*`

  /** One `t#` of a slice set with the separator that follows it:
      an optional comma, then at most one white-space character. */
  datatype Token = Token(digits: string, comma: bool, space: string)

  predicate WfToken(t: Token)
  {
    IsNumeral(t.digits) && |t.space| <= 1 && AllSpace(t.space)
  }

  predicate WfTokens(ts: seq<Token>)
  {
    forall i :: 0 <= i < |ts| ==> WfToken(ts[i])
  }

  function CommaText(comma: bool): string { if comma then "," else "" }

  function RenderToken(t: Token): string
  {
    "t" + t.digits + CommaText(t.comma) + t.space
  }

  function RenderTokens(ts: seq<Token>): string
  {
    if ts == [] then "" else RenderToken(ts[0]) + RenderTokens(ts[1..])
  }

  /** The numbers written in a slice set, in order. */
  function Values(ts: seq<Token>): seq<nat>
    requires WfTokens(ts)
  {
    seq(|ts|, i requires 0 <= i < |ts| => DecimalValue(ts[i].digits))
  }

  /** The digit strings of a slice set, in order. */
  function DigitStrings(ts: seq<Token>): seq<string>
  {
    seq(|ts|, i requires 0 <= i < |ts| => ts[i].digits)
  }

  predicate StartsToken(s: string)
  {
    |s| >= 2 && s[0] == 't' && IsDigit(s[1])
  }

  /** Reads the separator that follows a token's digits: an optional comma,
      then at most one white-space character, each taken when present. */
  function ScanSeparator(s: string): (r: (bool, string, string))
    ensures |r.1| <= 1 && AllSpace(r.1)
    ensures CommaText(r.0) + r.1 + r.2 == s
  {
    var comma := s != [] && s[0] == ',';
    var afterComma := if comma then s[1..] else s;
    assert s == CommaText(comma) + afterComma;
    if afterComma != [] && IsSpace(afterComma[0]) then
      assert afterComma == afterComma[..1] + afterComma[1..];
      (comma, afterComma[..1], afterComma[1..])
    else (comma, [], afterComma)
  }

  lemma RenderTokenSplit(t: Token, rest: string)
    ensures RenderToken(t) + rest == "t" + (t.digits + (CommaText(t.comma) + t.space + rest))
  {
  }

  /** Reads one token off the front of `s`, each optional part greedily. */
  function ScanToken(s: string): (r: Option<(Token, string)>)
    ensures r.Some? <==> StartsToken(s)
    ensures r.Some? ==> WfToken(r.value.0) && RenderToken(r.value.0) + r.value.1 == s
    ensures r.Some? ==> |r.value.1| < |s|
  {
    if !StartsToken(s) then None
    else
      var body := s[1..];
      var n := DigitRun(body);
      assert n > 0;
      var sep := ScanSeparator(body[n..]);
      var t := Token(body[..n], sep.0, sep.1);
      assert RenderToken(t) + sep.2 == s by {
        RenderTokenSplit(t, sep.2);
        assert body[..n] + body[n..] == body;
        assert s == "t" + body;
      }
      Some((t, sep.2))
  }

  lemma RenderTokensCons(t: Token, ts: seq<Token>)
    ensures RenderTokens([t] + ts) == RenderToken(t) + RenderTokens(ts)
  {
    assert ([t] + ts)[1..] == ts;
  }

  /** Reads as many tokens as possible off the front of `s`; what is left
      does not start a token. */
  function ScanTokens(s: string): (r: (seq<Token>, string))
    ensures WfTokens(r.0) && RenderTokens(r.0) + r.1 == s
    ensures !StartsToken(r.1)
    decreases |s|
  {
    var first := ScanToken(s);
    if first.None? then ([], s)
    else
      var t := first.value.0;
      var next := ScanTokens(first.value.1);
      RenderTokensCons(t, next.0);
      ConcatAssoc(RenderToken(t), RenderTokens(next.0), next.1);
      ([t] + next.0, next.1)
  }

  /** `rest` cannot be read as more of token `t`: the greedy scanner stops
      exactly after `t`. */
  predicate StopsAfter(t: Token, rest: string)
  {
    rest != [] ==>
      && (t.space == [] ==> !IsSpace(rest[0]))
      && (!t.comma && t.space == [] ==> !IsDigit(rest[0]) && rest[0] != ',')
  }

  predicate TokensStopAt(ts: seq<Token>, rest: string)
  {
    ts != [] ==> StopsAfter(ts[|ts| - 1], rest)
  }

  lemma ScanSeparatorRendered(comma: bool, space: string, rest: string)
    requires |space| <= 1 && AllSpace(space)
    requires space == [] ==> rest == [] || !IsSpace(rest[0])
    requires !comma && space == [] ==> rest == [] || rest[0] != ','
    ensures ScanSeparator(CommaText(comma) + space + rest) == (comma, space, rest)
  {
    var afterComma := space + rest;
    ConcatAssoc(CommaText(comma), space, rest);
    var s := CommaText(comma) + afterComma;
    if comma {
      assert s[0] == ',' && s[1..] == afterComma;
    } else {
      assert s == afterComma;
      assert s != [] ==> s[0] != ',';
    }
    if space != [] {
      assert afterComma[0] == space[0];
      assert afterComma[1..] == rest;
      assert afterComma[..1] == space;
    } else {
      assert afterComma == rest;
    }
  }

  lemma ScanTokenRendered(t: Token, rest: string)
    requires WfToken(t) && StopsAfter(t, rest)
    ensures ScanToken(RenderToken(t) + rest) == Some((t, rest))
  {
    var s := RenderToken(t) + rest;
    var sep := CommaText(t.comma) + t.space + rest;
    RenderTokenSplit(t, rest);
    assert s[1..] == t.digits + sep;
    DigitRunOf(t.digits, sep);
    assert s[1..][..|t.digits|] == t.digits;
    assert s[1..][|t.digits|..] == sep;
    ScanSeparatorRendered(t.comma, t.space, rest);
  }

  lemma RenderTokensStart(ts: seq<Token>)
    requires ts != []
    ensures |RenderTokens(ts)| > 0 && RenderTokens(ts)[0] == 't'
  {
  }

  lemma {:induction false} RenderTokensAppend(a: seq<Token>, b: seq<Token>)
    ensures RenderTokens(a + b) == RenderTokens(a) + RenderTokens(b)
  {
    if a != [] {
      assert (a + b)[1..] == a[1..] + b;
      RenderTokensAppend(a[1..], b);
      ConcatAssoc(RenderToken(a[0]), RenderTokens(a[1..]), RenderTokens(b));
    } else {
      assert a + b == b;
    }
  }

  /** Scanning a rendered slice set gives back exactly its tokens. */
  lemma {:induction false} ScanTokensRendered(ts: seq<Token>, rest: string)
    requires WfTokens(ts) && TokensStopAt(ts, rest) && !StartsToken(rest)
    ensures ScanTokens(RenderTokens(ts) + rest) == (ts, rest)
  {
    if ts == [] {
      assert RenderTokens(ts) + rest == rest;
    } else {
      var tail := RenderTokens(ts[1..]) + rest;
      assert RenderTokens(ts) + rest == RenderToken(ts[0]) + tail by {
        ConcatAssoc(RenderToken(ts[0]), RenderTokens(ts[1..]), rest);
      }
      assert StopsAfter(ts[0], tail) by {
        if ts[1..] != [] {
          RenderTokensStart(ts[1..]);
          assert tail[0] == 't';
        } else {
          assert tail == rest;
        }
      }
      ScanTokenRendered(ts[0], tail);
      assert WfTokens(ts[1..]) && TokensStopAt(ts[1..], rest);
      ScanTokensRendered(ts[1..], rest);
      ConsSplit(ts);
    }
  }

  lemma ConsSplit<T>(s: seq<T>)
    requires s != []
    ensures [s[0]] + s[1..] == s
  {
  }

  predicate NoDash(s: string)
  {
    forall i :: 0 <= i < |s| ==> s[i] != '-'
  }

  lemma {:induction false} NoDashInTokens(ts: seq<Token>)
    requires WfTokens(ts)
    ensures NoDash(RenderTokens(ts))
  {
    if ts != [] {
      NoDashInTokens(ts[1..]);
      var r := RenderToken(ts[0]);
      assert NoDash(r) by {
        assert r == "t" + ts[0].digits + CommaText(ts[0].comma) + ts[0].space;
      }
    }
  }

  // ---------------------------------------------------------------------
  // The time part: a slice set, or a range `t[0-9]+-t?[0-9]+`

  datatype TimeSyntax =
    | SliceSet(tokens: seq<Token>)
    | SliceRange(start: string, secondT: bool, end: string)

  predicate WfTime(t: TimeSyntax)
  {
    match t
    case SliceSet(ts) => WfTokens(ts)
    case SliceRange(a, _, b) => IsNumeral(a) && IsNumeral(b)
  }

  function SecondTText(secondT: bool): string { if secondT then "t" else "" }

  function RenderTime(t: TimeSyntax): string
  {
    match t
    case SliceSet(ts) => RenderTokens(ts)
    case SliceRange(a, secondT, b) => "t" + a + "-" + SecondTText(secondT) + b
  }

  lemma RenderRangeSplit(a: string, secondT: bool, b: string, rest: string)
    ensures RenderTime(SliceRange(a, secondT, b)) + rest
         == "t" + (a + ("-" + (SecondTText(secondT) + (b + rest))))
  {
  }

  /** Reads the end of a range, `t?[0-9]+`, digits greedily. */
  function ScanRangeEnd(s: string): (r: Option<(bool, string, string)>)
    ensures r.Some? ==> IsNumeral(r.value.1)
    ensures r.Some? ==> SecondTText(r.value.0) + r.value.1 + r.value.2 == s
    ensures r.Some? ==> r.value.2 == [] || !IsDigit(r.value.2[0])
  {
    var secondT := s != [] && s[0] == 't';
    var endPart := if secondT then s[1..] else s;
    var m := DigitRun(endPart);
    if m == 0 then None
    else
      assert endPart[..m] + endPart[m..] == endPart;
      assert SecondTText(secondT) + endPart == s;
      ConcatAssoc(SecondTText(secondT), endPart[..m], endPart[m..]);
      Some((secondT, endPart[..m], endPart[m..]))
  }

  lemma RangeSound(s: string, a: string, afterDash: string, secondT: bool, b: string, rest: string)
    requires s == "t" + (a + ("-" + afterDash))
    requires afterDash == SecondTText(secondT) + b + rest
    ensures RenderTime(SliceRange(a, secondT, b)) + rest == s
  {
    RenderRangeSplit(a, secondT, b, rest);
    ConcatAssoc(SecondTText(secondT), b, rest);
  }

  /** Reads `t[0-9]+-t?[0-9]+` off the front of `s`, digits greedily. */
  function ScanRange(s: string): (r: Option<(TimeSyntax, string)>)
    ensures r.Some? ==> r.value.0.SliceRange? && WfTime(r.value.0)
    ensures r.Some? ==> RenderTime(r.value.0) + r.value.1 == s
    ensures r.Some? ==> r.value.1 == [] || !IsDigit(r.value.1[0])
  {
    if !StartsToken(s) then None
    else
      var body := s[1..];
      var n := DigitRun(body);
      var afterStart := body[n..];
      if afterStart == [] || afterStart[0] != '-' then None
      else
        var afterDash := afterStart[1..];
        match ScanRangeEnd(afterDash)
        case None => None
        case Some((secondT, end, rest)) =>
          var t := SliceRange(body[..n], secondT, end);
          assert WfTime(t) by { assert n > 0; }
          assert RenderTime(t) + rest == s by {
            assert "-" + afterDash == afterStart;
            assert body[..n] + afterStart == body;
            RangeSound(s, body[..n], afterDash, secondT, end, rest);
          }
          Some((t, rest))
  }

  lemma ScanRangeEndRendered(secondT: bool, b: string, rest: string)
    requires IsNumeral(b)
    requires rest == [] || !IsDigit(rest[0])
    ensures ScanRangeEnd(SecondTText(secondT) + (b + rest)) == Some((secondT, b, rest))
  {
    var s := SecondTText(secondT) + (b + rest);
    var endPart := b + rest;
    if secondT {
      assert s[0] == 't' && s[1..] == endPart;
    } else {
      assert s == endPart;
      assert s[0] != 't';
    }
    DigitRunOf(b, rest);
    assert endPart[..|b|] == b;
    assert endPart[|b|..] == rest;
  }

  lemma ScanRangeRendered(a: string, secondT: bool, b: string, rest: string)
    requires IsNumeral(a) && IsNumeral(b)
    requires rest == [] || !IsDigit(rest[0])
    ensures ScanRange(RenderTime(SliceRange(a, secondT, b)) + rest)
         == Some((SliceRange(a, secondT, b), rest))
  {
    var afterDash := SecondTText(secondT) + (b + rest);
    var afterStart := "-" + afterDash;
    var s := RenderTime(SliceRange(a, secondT, b)) + rest;
    RenderRangeSplit(a, secondT, b, rest);
    assert s[1..] == a + afterStart;
    DigitRunOf(a, afterStart);
    assert s[1..][..|a|] == a;
    assert s[1..][|a|..] == afterStart;
    assert afterStart[1..] == afterDash;
    ScanRangeEndRendered(secondT, b, rest);
  }

  // ---------------------------------------------------------------------
  // The activity tail of an entry: `\s*a[0-9]+$`

  function ScanActivity(s: string): (r: Option<(string, string)>)
    ensures r.Some? ==> AllSpace(r.value.0) && IsNumeral(r.value.1)
    ensures r.Some? ==> r.value.0 + "a" + r.value.1 == s
  {
    var g := SpaceRun(s);
    var rest := s[g..];
    if |rest| >= 2 && rest[0] == 'a' && AllDigits(rest[1..]) then
      assert rest == "a" + rest[1..];
      assert s == s[..g] + rest;
      Some((s[..g], rest[1..]))
    else None
  }

  lemma ScanActivityRendered(gap: string, d: string)
    requires AllSpace(gap) && IsNumeral(d)
    ensures ScanActivity(gap + "a" + d) == Some((gap, d))
  {
    var s := gap + "a" + d;
    assert s == gap + ("a" + d);
    SpaceRunOf(gap, "a" + d);
    assert s[|gap|..] == "a" + d;
    assert s[..|gap|] == gap;
    assert ("a" + d)[1..] == d;
  }

  // ---------------------------------------------------------------------
  // Time entries: input.go:47

  datatype EntrySyntax = EntrySyntax(time: TimeSyntax, gap: string, activity: string)

  predicate WfEntry(e: EntrySyntax)
  {
    WfTime(e.time) && AllSpace(e.gap) && IsNumeral(e.activity)
  }

  function RenderEntry(e: EntrySyntax): string
  {
    RenderTime(e.time) + (e.gap + "a" + e.activity)
  }

  /** Every entry contains the activity's `a` and ends in a digit. */
  lemma RenderEntryShape(e: EntrySyntax)
    requires WfEntry(e)
    ensures var s := RenderEntry(e); 'a' in s && IsDigit(s[|s| - 1])
  {
    var x := RenderTime(e.time) + e.gap;
    assert RenderEntry(e) == x + ("a" + e.activity) by {
      ConcatAssoc(RenderTime(e.time), e.gap + "a", e.activity);
      ConcatAssoc(RenderTime(e.time), e.gap, "a");
      ConcatAssoc(x, "a", e.activity);
    }
    assert RenderEntry(e)[|x|] == 'a';
  }

  /** The first alternative: a (possibly empty) slice set, then the activity. */
  function ScanSetEntry(s: string): (r: Option<EntrySyntax>)
    ensures r.Some? ==> r.value.time.SliceSet? && WfEntry(r.value) && RenderEntry(r.value) == s
  {
    var (ts, left) := ScanTokens(s);
    match ScanActivity(left)
    case None => None
    case Some((gap, act)) => Some(EntrySyntax(SliceSet(ts), gap, act))
  }

  /** The second alternative: a range, then the activity. */
  function ScanRangeEntry(s: string): (r: Option<EntrySyntax>)
    ensures r.Some? ==> r.value.time.SliceRange? && WfEntry(r.value) && RenderEntry(r.value) == s
  {
    match ScanRange(s)
    case None => None
    case Some((range, left)) =>
      match ScanActivity(left)
      case None => None
      case Some((gap, act)) => Some(EntrySyntax(range, gap, act))
  }

  /** The match of `^(slice-set|range)\s*a[0-9]+$`, alternatives in order. */
  function ScanEntry(s: string): (r: Option<EntrySyntax>)
    ensures r.Some? ==> WfEntry(r.value) && RenderEntry(r.value) == s
  {
    var first := ScanSetEntry(s);
    if first.Some? then first else ScanRangeEntry(s)
  }

  /** The tree the greedy scanner builds: a white-space character after the
      last `t#` of a slice set belongs to that token, not to the gap. */
  predicate Canonical(e: EntrySyntax)
  {
    (e.time.SliceSet? && e.time.tokens != [] && e.time.tokens[|e.time.tokens| - 1].space == [])
      ==> e.gap == []
  }

  lemma RenderTokensSnoc(init: seq<Token>, t: Token)
    ensures RenderTokens(init + [t]) == RenderTokens(init) + RenderToken(t)
  {
    assert RenderTokens([t]) == RenderToken(t) by {
      assert [t][1..] == [];
    }
    RenderTokensAppend(init, [t]);
  }

  lemma Regroup(p: string, r: string, g1: string, g2: string, tail: string)
    ensures (p + (r + g1)) + (g2 + tail) == (p + r) + ((g1 + g2) + tail)
  {
  }

  /** Giving the last token the first character of the gap does not change
      the text. */
  lemma MoveSpaceRendered(init: seq<Token>, t: Token, g1: string, g2: string, tail: string)
    requires t.space == []
    ensures RenderTokens(init + [t.(space := g1)]) + (g2 + tail)
         == RenderTokens(init + [t]) + ((g1 + g2) + tail)
  {
    RenderTokensSnoc(init, t);
    RenderTokensSnoc(init, t.(space := g1));
    assert RenderToken(t.(space := g1)) == RenderToken(t) + g1;
    Regroup(RenderTokens(init), RenderToken(t), g1, g2, tail);
  }

  /** Moves the first character of the gap into the last token when the
      greedy scanner takes it there. */
  function Normalize(e: EntrySyntax): (n: EntrySyntax)
    requires WfEntry(e)
    ensures WfEntry(n) && Canonical(n) && RenderEntry(n) == RenderEntry(e)
    ensures n.activity == e.activity
    ensures e.time.SliceSet? ==> n.time.SliceSet? && DigitStrings(n.time.tokens) == DigitStrings(e.time.tokens)
    ensures e.time.SliceRange? ==> n == e
  {
    if Canonical(e) then e
    else
      var ts := e.time.tokens;
      var k := |ts| - 1;
      var ts' := ts[..k] + [ts[k].(space := e.gap[..1])];
      assert ts[..k] + [ts[k]] == ts;
      assert e.gap[..1] + e.gap[1..] == e.gap;
      MoveSpaceRendered(ts[..k], ts[k], e.gap[..1], e.gap[1..], "a" + e.activity);
      ConcatAssoc(e.gap, "a", e.activity);
      ConcatAssoc(e.gap[1..], "a", e.activity);
      assert DigitStrings(ts') == DigitStrings(ts);
      EntrySyntax(SliceSet(ts'), e.gap[1..], e.activity)
  }

  lemma ScanSetEntryCanonical(e: EntrySyntax)
    requires WfEntry(e) && Canonical(e) && e.time.SliceSet?
    ensures ScanSetEntry(RenderEntry(e)) == Some(e)
  {
    var tail := e.gap + "a" + e.activity;
    ScanTokensRendered(e.time.tokens, tail);
    ScanActivityRendered(e.gap, e.activity);
  }

  lemma NoDashAppend(a: string, b: string)
    requires NoDash(a) && NoDash(b)
    ensures NoDash(a + b)
  {
    assert forall i :: |a| <= i < |a + b| ==> (a + b)[i] == b[i - |a|];
  }

  lemma NoDashInTail(gap: string, activity: string)
    requires AllSpace(gap) && IsNumeral(activity)
    ensures NoDash(gap + "a" + activity)
  {
    assert NoDash(gap) by {
      assert forall i :: 0 <= i < |gap| ==> IsSpace(gap[i]);
    }
    assert NoDash(activity) by {
      assert forall i :: 0 <= i < |activity| ==> IsDigit(activity[i]);
    }
    NoDashAppend(gap, "a");
    NoDashAppend(gap + "a", activity);
  }

  /** The first alternative never matches a range: its language has no '-'. */
  lemma SetEntryRejectsRange(e: EntrySyntax)
    requires WfEntry(e) && e.time.SliceRange?
    ensures ScanSetEntry(RenderEntry(e)) == None
  {
    var s := RenderEntry(e);
    assert s[1 + |e.time.start|] == '-' by {
      RenderRangeSplit(e.time.start, e.time.secondT, e.time.end, e.gap + "a" + e.activity);
    }
    var other := ScanSetEntry(s);
    if other.Some? {
      var o := other.value;
      assert NoDash(s) by {
        NoDashInTokens(o.time.tokens);
        NoDashInTail(o.gap, o.activity);
        NoDashAppend(RenderTokens(o.time.tokens), o.gap + "a" + o.activity);
      }
      assert false;
    }
  }

  lemma ScanRangeEntryRendered(e: EntrySyntax)
    requires WfEntry(e) && e.time.SliceRange?
    ensures ScanRangeEntry(RenderEntry(e)) == Some(e)
  {
    var tail := e.gap + "a" + e.activity;
    if e.gap != [] {
      assert tail[0] == e.gap[0];
    }
    ScanRangeRendered(e.time.start, e.time.secondT, e.time.end, tail);
    ScanActivityRendered(e.gap, e.activity);
  }

  lemma ScanEntryCanonical(e: EntrySyntax)
    requires WfEntry(e) && Canonical(e)
    ensures ScanEntry(RenderEntry(e)) == Some(e)
  {
    if e.time.SliceSet? {
      ScanSetEntryCanonical(e);
    } else {
      SetEntryRejectsRange(e);
      ScanRangeEntryRendered(e);
    }
  }

  /** Every well-formed entry is recognised; the scanner returns its
      canonical form. */
  lemma ScanEntryRendered(e: EntrySyntax)
    requires WfEntry(e)
    ensures ScanEntry(RenderEntry(e)) == Some(Normalize(e))
  {
    ScanEntryCanonical(Normalize(e));
  }

  // ---------------------------------------------------------------------
  // Unassignments: input.go:83

  datatype UnassignSyntax = UnassignSyntax(gap: string, time: TimeSyntax)

  predicate WfUnassign(u: UnassignSyntax)
  {
    AllSpace(u.gap) && WfTime(u.time)
  }

  function RenderUnassign(u: UnassignSyntax): string
  {
    "u" + (u.gap + RenderTime(u.time))
  }

  /** The time part of an unassignment: the whole of `body` is a slice set
      (first alternative) or a range (second alternative). */
  function ScanWholeTime(body: string): (r: Option<TimeSyntax>)
    ensures r.Some? ==> WfTime(r.value) && RenderTime(r.value) == body
  {
    var (ts, left) := ScanTokens(body);
    if left == [] then
      assert RenderTokens(ts) + [] == RenderTokens(ts);
      Some(SliceSet(ts))
    else
      match ScanRange(body)
      case Some((range, left')) =>
        if left' == [] then
          assert RenderTime(range) + [] == RenderTime(range);
          Some(range)
        else None
      case None => None
  }

  /** The match of `^u\s*(slice-set|range)$`. */
  function ScanUnassign(s: string): (r: Option<UnassignSyntax>)
    ensures r.Some? ==> WfUnassign(r.value) && RenderUnassign(r.value) == s
  {
    if s == [] || s[0] != 'u' then None
    else
      var g := SpaceRun(s[1..]);
      var gap := s[1..][..g];
      var body := s[1..][g..];
      assert s == "u" + (gap + body);
      match ScanWholeTime(body)
      case None => None
      case Some(time) => Some(UnassignSyntax(gap, time))
  }

  lemma ScanWholeTimeRendered(t: TimeSyntax)
    requires WfTime(t)
    ensures ScanWholeTime(RenderTime(t)) == Some(t)
  {
    var body := RenderTime(t);
    match t
    case SliceSet(ts) =>
      ScanTokensRendered(ts, "");
      assert body + "" == body;
    case SliceRange(a, st, b) =>
      RenderRangeSplit(a, st, b, "");
      assert body[1 + |a|] == '-';
      var (ts, left) := ScanTokens(body);
      if left == [] {
        NoDashInTokens(ts);
        assert false;
      }
      ScanRangeRendered(a, st, b, "");
      assert body + "" == body;
  }

  /** Every well-formed unassignment is recognised, and its tree is unique. */
  lemma ScanUnassignRendered(u: UnassignSyntax)
    requires WfUnassign(u)
    ensures ScanUnassign(RenderUnassign(u)) == Some(u)
  {
    var s := RenderUnassign(u);
    var body := RenderTime(u.time);
    assert s[1..] == u.gap + body;
    if body != [] {
      if u.time.SliceSet? { RenderTokensStart(u.time.tokens); }
      assert body[0] == 't';
    }
    SpaceRunOf(u.gap, body);
    assert s[1..][..|u.gap|] == u.gap;
    assert s[1..][|u.gap|..] == body;
    ScanWholeTimeRendered(u.time);
  }

  // ---------------------------------------------------------------------
  // The regex of input.go:50, the guard of parseTimeSlices

  /** `^(t([0-9])+,?\s?)+$`: one or more tokens and nothing else. */
  predicate MatchesSliceSet(s: string)
  {
    var (ts, left) := ScanTokens(s);
    ts != [] && left == []
  }

  lemma MatchesSliceSetRendered(ts: seq<Token>)
    requires WfTokens(ts)
    ensures MatchesSliceSet(RenderTokens(ts)) <==> ts != []
    ensures ScanTokens(RenderTokens(ts)) == (ts, [])
  {
    ScanTokensRendered(ts, []);
    assert RenderTokens(ts) + [] == RenderTokens(ts);
  }

  lemma RangeIsNotSliceSet(t: TimeSyntax)
    requires WfTime(t) && t.SliceRange?
    ensures !MatchesSliceSet(RenderTime(t))
  {
    var s := RenderTime(t);
    RenderRangeSplit(t.start, t.secondT, t.end, "");
    assert s + "" == s;
    assert s[1 + |t.start|] == '-';
    var (ts, left) := ScanTokens(s);
    if left == [] {
      NoDashInTokens(ts);
      assert false;
    }
  }
}
