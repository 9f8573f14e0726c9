/** Sentence fragments (internal/preprocess): splitting, filtering and putting together again. */
module Fragments {
  import opened Text
  import opened Normalization

  predicate IsSeparator(c: char) {
    c == '.' || c == '!' || c == '?' || c == ';'
  }

  /** The position of the first separator, or the length of the text. */
  function FirstSeparator(s: string): (k: nat)
    ensures k <= |s|
    ensures forall i :: 0 <= i < k ==> !IsSeparator(s[i])
    ensures k < |s| ==> IsSeparator(s[k])
  {
    if s == [] || IsSeparator(s[0]) then 0 else 1 + FirstSeparator(s[1..])
  }

  function Piece(s: string): (r: seq<string>) {
    if TrimSpace(s) == "" then [] else [TrimSpace(s)]
  }

  /** The text cut after every separator, each piece trimmed, empty pieces dropped. */
  function Split(text: string): (r: seq<string>)
    decreases |text|
  {
    if text == "" then []
    else
      var k := FirstSeparator(text);
      if k == |text| then Piece(text)
      else Piece(text[..k + 1]) + Split(text[k + 1..])
  }

  lemma FirstSeparatorIs(s: string, k: nat)
    requires k <= |s| && (forall i :: 0 <= i < k ==> !IsSeparator(s[i])) && (k < |s| ==> IsSeparator(s[k]))
    ensures FirstSeparator(s) == k
  {
  }

  /** A text up to its first separator is split off as one piece. */
  lemma SplitStep(piece: string, rest: string)
    requires piece != [] && FirstSeparator(piece) == |piece| - 1
    ensures Split(piece + rest) == Piece(piece) + Split(rest)
  {
    var text := piece + rest;
    FirstSeparatorIs(text, |piece| - 1);
    assert text[..|piece|] == piece && text[|piece|..] == rest;
  }

  lemma SeparatorOfLonger(current: string, c: char)
    requires FirstSeparator(current) == |current|
    ensures FirstSeparator(current + [c]) == if IsSeparator(c) then |current| else |current| + 1
  {
    FirstSeparatorIs(current + [c], if IsSeparator(c) then |current| else |current| + 1);
  }

  /** A separator ends the piece collected so far. */
  lemma SplitAtSeparator(current: string, c: char, rest: string)
    requires FirstSeparator(current) == |current| && IsSeparator(c)
    ensures Split((current + [c]) + rest) == Piece(current + [c]) + Split(rest)
  {
    SeparatorOfLonger(current, c);
    SplitStep(current + [c], rest);
  }

  lemma SplitWhole(current: string)
    requires FirstSeparator(current) == |current|
    ensures Split(current) == if |current| > 0 then Piece(current) else []
  {
  }

  /** The state of the splitting loop: what is still to come completes the split of the text. */
  ghost predicate Splitting(text: string, fragments: seq<string>, current: string, rest: string) {
    FirstSeparator(current) == |current| && fragments + Split(current + rest) == Split(text)
  }

  lemma SplittingStep(text: string, fragments: seq<string>, current: string, c: char, rest: string)
    requires Splitting(text, fragments, current, [c] + rest)
    ensures !IsSeparator(c) ==> Splitting(text, fragments, current + [c], rest)
    ensures IsSeparator(c) ==> Splitting(text, fragments + Piece(current + [c]), "", rest)
  {
    hide FirstSeparator, Split, Piece;
    SeparatorOfLonger(current, c);
    assert current + ([c] + rest) == (current + [c]) + rest;
    if IsSeparator(c) {
      SplitAtSeparator(current, c, rest);
      assert "" + rest == rest;
    }
  }

  /** The loop of the program: characters collect in `current` until a separator ends the piece. */
  method SplitFragments(text: string) returns (fragments: seq<string>)
    ensures fragments == Split(text)
  {
    hide FirstSeparator, Split, Piece, IsSeparator;
    fragments := [];
    var current := "";
    assert FirstSeparator("") == 0;
    assert Splitting(text, [], "", text[0..]) by {
      assert "" + text[0..] == text;
    }
    for i := 0 to |text|
      invariant Splitting(text, fragments, current, text[i..])
    {
      assert text[i..] == [text[i]] + text[i + 1..];
      SplittingStep(text, fragments, current, text[i], text[i + 1..]);
      current := current + [text[i]];
      if IsSeparator(text[i]) {
        fragments := AppendPiece(fragments, current);
        current := "";
      }
    }
    assert current + text[|text|..] == current;
    SplitWhole(current);
    if |current| > 0 {
      fragments := AppendPiece(fragments, current);
    }
  }

  /** The trim-and-append the loop does at a separator and once more at the end. */
  method AppendPiece(fragments: seq<string>, current: string) returns (longer: seq<string>)
    ensures longer == fragments + Piece(current)
  {
    longer := fragments;
    var fragment := TrimSpace(current);
    if fragment != "" {
      longer := longer + [fragment];
    }
  }

  function Filter(fragments: seq<string>, keep: string -> bool): (r: seq<string>) {
    if fragments == [] then []
    else (if keep(fragments[0]) then [fragments[0]] else []) + Filter(fragments[1..], keep)
  }

  lemma {:induction false} FilterConcat(a: seq<string>, b: seq<string>, keep: string -> bool)
    ensures Filter(a + b, keep) == Filter(a, keep) + Filter(b, keep)
  {
    if a == [] {
      assert a + b == b;
    } else {
      assert (a + b)[1..] == a[1..] + b;
      FilterConcat(a[1..], b, keep);
    }
  }

  lemma FilterSnoc(fragments: seq<string>, i: nat, keep: string -> bool)
    requires i < |fragments|
    ensures Filter(fragments[..i + 1], keep)
         == Filter(fragments[..i], keep) + (if keep(fragments[i]) then [fragments[i]] else [])
  {
    assert fragments[..i + 1] == fragments[..i] + [fragments[i]];
    FilterConcat(fragments[..i], [fragments[i]], keep);
  }

  /** Filtering by one test and then another keeps what passes both. */
  lemma {:induction false} FilterTwice(fragments: seq<string>, p: string -> bool, q: string -> bool)
    ensures Filter(Filter(fragments, p), q) == Filter(fragments, f => p(f) && q(f))
  {
    if fragments != [] {
      FilterTwice(fragments[1..], p, q);
      FilterConcat(if p(fragments[0]) then [fragments[0]] else [], Filter(fragments[1..], p), q);
    }
  }

  /** Everything that is kept passes the test, so a second filtering keeps it all. */
  lemma {:induction false} FilterIdempotent(fragments: seq<string>, keep: string -> bool)
    ensures Filter(Filter(fragments, keep), keep) == Filter(fragments, keep)
  {
    if fragments != [] {
      FilterIdempotent(fragments[1..], keep);
      FilterConcat(if keep(fragments[0]) then [fragments[0]] else [], Filter(fragments[1..], keep), keep);
    }
  }

  function RebuildText(fragments: seq<string>): (r: string) {
    if |fragments| == 0 then "" else Normalize(Join(fragments, " "))
  }

  /** Fragments as a clean text yields them: a separator ends each, except maybe the last. */
  ghost predicate Fragmented(fragments: seq<string>) {
    forall i :: 0 <= i < |fragments| ==>
                  && fragments[i] != []
                  && Clean(fragments[i])
                  && FirstSeparator(fragments[i]) >= |fragments[i]| - 1
                  && (i < |fragments| - 1 ==> FirstSeparator(fragments[i]) == |fragments[i]| - 1)
  }

  lemma FragmentedCons(f: string, rest: seq<string>)
    requires f != [] && Clean(f) && FirstSeparator(f) == |f| - 1
    requires Fragmented(rest)
    ensures Fragmented([f] + rest)
  {
    var all := [f] + rest;
    assert forall i :: 0 < i < |all| ==> all[i] == rest[i - 1];
  }

  lemma FragmentedTail(fragments: seq<string>)
    requires Fragmented(fragments) && fragments != []
    ensures Fragmented(fragments[1..])
  {
    assert forall i :: 0 <= i < |fragments| - 1 ==> fragments[1..][i] == fragments[i + 1];
  }

  /** A part of a clean text that starts and ends with a visible character is clean. */
  lemma CleanPart(s: string, lo: nat, hi: nat)
    requires BlanksBetween(s) && lo <= hi <= |s|
    requires lo < hi ==> !IsSpace(s[lo]) && !IsSpace(s[hi - 1])
    ensures Clean(s[lo..hi])
  {
    assert forall i :: 0 <= i < hi - lo ==> s[lo..hi][i] == s[lo + i];
  }

  lemma BlanksAfter(s: string, lo: nat)
    requires BlanksBetween(s) && lo <= |s|
    ensures BlanksBetween(s[lo..])
  {
    assert forall i :: 0 <= i < |s| - lo ==> s[lo..][i] == s[lo + i];
  }

  lemma SplitFirst(text: string)
    requires text != ""
    ensures var k := FirstSeparator(text);
            Split(text) == if k == |text| then Piece(text) else Piece(text[..k + 1]) + Split(text[k + 1..])
  {
    hide Piece, FirstSeparator, IsSeparator, TrimSpace;
  }

  lemma PieceAfterBlank(s: string)
    requires s != [] && s[0] == ' '
    ensures Piece(s) == Piece(s[1..])
  {
  }

  lemma SkipBlank(s: string)
    requires s != [] && s[0] == ' '
    requires |s| > 1 && !IsSpace(s[1])
    ensures Split(s) == Split(s[1..])
  {
    hide Split, Piece, FirstSeparator, IsSpace;
    var t := s[1..];
    var k := FirstSeparator(t);
    FirstSeparatorIs(s, k + 1);
    SplitFirst(s);
    SplitFirst(t);
    if k < |t| {
      PieceAfterBlank(s[..k + 2]);
      assert s[..k + 2][1..] == t[..k + 1];
      assert s[k + 2..] == t[k + 1..];
    } else {
      PieceAfterBlank(s);
    }
  }

  /** The first fragment of a clean text, and the clean text behind it. */
  lemma FirstFragment(s: string) returns (piece: string, rest: string)
    requires Clean(s) && s != "" && FirstSeparator(s) < |s|
    ensures piece != "" && Clean(piece) && FirstSeparator(piece) == |piece| - 1
    ensures |rest| < |s| && Clean(rest) && Split(s) == [piece] + Split(rest)
  {
    hide Split, TrimSpace;
    var k := FirstSeparator(s);
    piece, rest := s[..k + 1], s[k + 1..];
    SplitFirst(s);
    CleanPart(s, 0, k + 1);
    TrimmedIsFixed(piece);
    FirstSeparatorIs(piece, k);
    BlanksAfter(s, k + 1);
    if rest != [] && IsSpace(rest[0]) {
      SkipBlank(rest);
      BlanksAfter(rest, 1);
      rest := rest[1..];
    }
  }

  lemma OnlyFragment(s: string)
    requires Clean(s) && s != "" && FirstSeparator(s) == |s|
    ensures Split(s) == [s] && Fragmented([s])
  {
    TrimmedIsFixed(s);
  }

  /** Splitting a clean text gives clean fragments, each ended by its only separator. */
  lemma {:induction false} SplitFragmented(s: string)
    requires Clean(s)
    ensures Fragmented(Split(s))
    decreases |s|
  {
    if s != "" {
      hide Split, Clean, FirstSeparator, Fragmented;
      if FirstSeparator(s) == |s| {
        OnlyFragment(s);
      } else {
        var piece, rest := FirstFragment(s);
        SplitFragmented(rest);
        FragmentedCons(piece, Split(rest));
      }
    }
  }

  /** Dropping fragments leaves fragments. */
  lemma {:induction false} FilterFragmented(fragments: seq<string>, keep: string -> bool)
    requires Fragmented(fragments)
    ensures Fragmented(Filter(fragments, keep))
  {
    if fragments != [] {
      FragmentedTail(fragments);
      FilterFragmented(fragments[1..], keep);
      var rest := Filter(fragments[1..], keep);
      if keep(fragments[0]) && rest != [] {
        FragmentedCons(fragments[0], rest);
      }
    }
  }

  lemma SplitAfterGap(gap: string, s: string)
    requires gap == "" || gap == " "
    requires s != [] && !IsSpace(s[0])
    ensures Split(gap + s) == Split(s)
  {
    if gap == " " {
      SkipBlank(gap + s);
      assert (gap + s)[1..] == s;
    } else {
      assert gap + s == s;
    }
  }

  lemma SplitSingle(f: string)
    requires f != [] && Clean(f) && FirstSeparator(f) >= |f| - 1
    ensures Split(f) == [f]
  {
    TrimmedIsFixed(f);
    if FirstSeparator(f) < |f| {
      SplitStep(f, "");
      assert f + "" == f;
    }
  }

  lemma SeparatorEndsPiece(text: string, k: nat)
    requires k < |text| && IsSeparator(text[k]) && forall i :: 0 <= i < k ==> !IsSeparator(text[i])
    ensures var f := TrimSpace(text[..k + 1]);
            && f != "" && Ends(f) && f[|f| - 1] in {'.', '!', '?', ';'}
  {
    var piece := text[..k + 1];
    TrimLeftDrops(piece);
    TrimRightDrops(TrimLeft(piece));
    var left := TrimLeft(piece);
    assert piece[k] == text[k] && !IsSpace(text[k]);
    assert left != "" && left[|left| - 1] == text[k];
    assert forall i :: 0 <= i < |left| ==> left[i] == piece[|piece| - |left| + i];
  }

  /** No separator but at the end. */
  ghost predicate Ends(f: string) {
    forall i :: 0 <= i < |f| - 1 ==> f[i] !in {'.', '!', '?', ';'}
  }

  lemma LastPieceEnds(text: string)
    requires forall i :: 0 <= i < |text| ==> !IsSeparator(text[i])
    ensures forall f :: f in Piece(text) ==> Ends(f)
  {
    hide TrimLeft, TrimRight, IsSpace;
    TrimLeftDrops(text);
    TrimRightDrops(TrimLeft(text));
    var left, f := TrimLeft(text), TrimSpace(text);
    forall i | 0 <= i < |f| ensures !IsSeparator(f[i]) {
      assert f[i] == left[i] == text[|text| - |left| + i];
    }
  }

  /** Every fragment but the last ends with a separator, and none has one anywhere else. */
  ghost predicate CutAtEnds(fragments: seq<string>) {
    && (forall i :: 0 <= i < |fragments| ==> fragments[i] != "" && Ends(fragments[i]))
    && forall i :: 0 <= i < |fragments| - 1 ==> fragments[i][|fragments[i]| - 1] in {'.', '!', '?', ';'}
  }

  lemma CutAtEndsCons(f: string, rest: seq<string>)
    requires f != "" && Ends(f) && f[|f| - 1] in {'.', '!', '?', ';'} && CutAtEnds(rest)
    ensures CutAtEnds([f] + rest)
  {
    hide Ends;
  }

  lemma CutAtEndsOne(text: string)
    requires forall i :: 0 <= i < |text| ==> !IsSeparator(text[i])
    ensures CutAtEnds(Piece(text))
  {
    LastPieceEnds(text);
    hide Ends, TrimSpace;
    assert forall f :: f in Piece(text) ==> f != "";
  }

  /** A text is cut behind every separator and nowhere else. */
  lemma {:induction false} FragmentsEnd(text: string)
    ensures CutAtEnds(Split(text))
    decreases |text|
  {
    hide TrimSpace, Ends, CutAtEnds, Split, Piece;
    if text == "" {
      NothingToCut();
    } else {
      var k := FirstSeparator(text);
      SplitFirst(text);
      if k == |text| {
        CutAtEndsOne(text);
      } else {
        SeparatorEndsPiece(text, k);
        FragmentsEnd(text[k + 1..]);
        VisiblePiece(text[..k + 1]);
        CutAtEndsCons(TrimSpace(text[..k + 1]), Split(text[k + 1..]));
      }
    }
  }

  lemma NothingToCut()
    ensures Split("") == [] && CutAtEnds([])
  {
  }

  lemma VisiblePiece(s: string)
    requires TrimSpace(s) != ""
    ensures Piece(s) == [TrimSpace(s)]
  {
  }

  /** Splitting the text put together from fragments gives the fragments back. */
  lemma {:induction false} SplitTightJoin(fragments: seq<string>)
    requires Fragmented(fragments)
    ensures Split(TightJoin(fragments)) == fragments
    decreases |fragments|
  {
    hide FirstSeparator, BlanksBetween, IsSpace;
    if |fragments| == 1 {
      SplitSingle(fragments[0]);
    } else if |fragments| > 1 {
      FragmentedTail(fragments);
      TightJoinClean(fragments[1..]);
      SplitTightJoin(fragments[1..]);
      TightJoinCons(fragments);
      SplitGlued(fragments[0], Gap(fragments[1]), TightJoin(fragments[1..]));
      assert [fragments[0]] + fragments[1..] == fragments;
    }
  }

  lemma SplitGlued(f: string, gap: string, rest: string)
    requires f != [] && Clean(f) && FirstSeparator(f) == |f| - 1
    requires gap == "" || gap == " "
    requires rest != [] && !IsSpace(rest[0])
    ensures Split(f + (gap + rest)) == [f] + Split(rest)
  {
    SplitStep(f, gap + rest);
    SplitAfterGap(gap, rest);
    TrimmedIsFixed(f);
  }

  lemma TightJoinCons(parts: seq<string>)
    requires |parts| > 1
    ensures TightJoin(parts) == parts[0] + (Gap(parts[1]) + TightJoin(parts[1..]))
  {
  }

  predicate Ascending(places: seq<nat>, size: nat) {
    && (forall i :: 0 <= i < |places| ==> places[i] < size)
    && forall i, j :: 0 <= i < j < |places| ==> places[i] < places[j]
  }

  /** The fragments at some places. */
  function Selected(fragments: seq<string>, places: seq<nat>): seq<string>
    requires Ascending(places, |fragments|)
  {
    seq(|places|, i requires 0 <= i < |places| => fragments[places[i]])
  }

  /** Any selection of fragments, in their order, is a list of fragments again. */
  lemma SelectionFragmented(fragments: seq<string>, places: seq<nat>)
    requires Fragmented(fragments) && Ascending(places, |fragments|)
    ensures Fragmented(Selected(fragments, places))
  {
    var parts := Selected(fragments, places);
    hide Clean, IsSpace, FirstSeparator;
    forall i | 0 <= i < |parts| - 1 ensures FirstSeparator(parts[i]) == |parts[i]| - 1 {
      assert places[i] < places[i + 1] < |fragments|;
    }
  }

  /** Rebuilding and splitting again returns a list of fragments. */
  lemma SplitRebuild(fragments: seq<string>)
    requires Fragmented(fragments)
    ensures Split(RebuildText(fragments)) == fragments
    ensures RebuildText(fragments) == TightJoin(fragments)
    ensures Clean(RebuildText(fragments))
  {
    if fragments != [] {
      NormalizeJoin(fragments);
      TightJoinClean(fragments);
    }
    SplitTightJoin(fragments);
  }

  /** Splitting the text rebuilt from any selection of the fragments of a text returns that selection. */
  lemma SelectionRebuilds(s: string, places: seq<nat>)
    requires Clean(s) && Ascending(places, |Split(s)|)
    ensures var parts := Selected(Split(s), places); Split(RebuildText(parts)) == parts
  {
    SplitFragmented(s);
    SelectionFragmented(Split(s), places);
    SplitRebuild(Selected(Split(s), places));
  }

  ghost function Concat(parts: seq<string>): string {
    if parts == [] then "" else parts[0] + Concat(parts[1..])
  }

  lemma {:induction false} InkOfSpaces(s: string)
    requires forall i :: 0 <= i < |s| ==> IsSpace(s[i])
    ensures Ink(s) == ""
  {
    if s != [] {
      InkOfSpaces(s[1..]);
    }
  }

  lemma InkOfTrimLeft(s: string)
    ensures Ink(TrimLeft(s)) == Ink(s)
  {
    hide TrimLeft, Ink, IsSpace;
    var t := TrimLeft(s);
    TrimLeftDrops(s);
    assert s == s[..|s| - |t|] + t;
    InkConcat(s[..|s| - |t|], t);
    InkOfSpaces(s[..|s| - |t|]);
  }

  lemma InkOfTrimRight(s: string)
    ensures Ink(TrimRight(s)) == Ink(s)
  {
    hide TrimRight, Ink, IsSpace;
    var r := TrimRight(s);
    TrimRightDrops(s);
    assert s == r + s[|r|..];
    InkConcat(r, s[|r|..]);
    InkOfSpaces(s[|r|..]);
  }

  lemma InkOfTrim(s: string)
    ensures Ink(TrimSpace(s)) == Ink(s)
  {
    InkOfTrimLeft(s);
    InkOfTrimRight(TrimLeft(s));
  }

  lemma InkOfPiece(s: string, rest: seq<string>)
    ensures Ink(Concat(Piece(s) + rest)) == Ink(s) + Ink(Concat(rest))
  {
    InkOfTrim(s);
    if TrimSpace(s) != "" {
      assert (Piece(s) + rest)[1..] == rest;
      InkConcat(TrimSpace(s), Concat(rest));
    } else {
      assert Piece(s) + rest == rest;
    }
  }

  lemma NoInk()
    ensures Split("") == [] && Concat([]) == "" && Ink("") == ""
  {
  }

  lemma InkCut(text: string, k: nat)
    requires k <= |text|
    ensures Ink(text) == Ink(text[..k]) + Ink(text[k..])
  {
    hide Ink;
    assert text == text[..k] + text[k..];
    InkConcat(text[..k], text[k..]);
  }

  /** Splitting loses no visible character: the fragments hold all of them, in order. */
  lemma {:induction false} SplitKeepsInk(text: string)
    ensures Ink(Concat(Split(text))) == Ink(text)
    decreases |text|
  {
    hide Ink, FirstSeparator, Piece, Concat, Split;
    NoInk();
    if text != "" {
      var k := FirstSeparator(text);
      SplitFirst(text);
      if k == |text| {
        InkOfPiece(text, []);
        assert Piece(text) + [] == Piece(text);
      } else {
        InkOfPiece(text[..k + 1], Split(text[k + 1..]));
        SplitKeepsInk(text[k + 1..]);
        InkCut(text, k + 1);
      }
    }
  }
}
