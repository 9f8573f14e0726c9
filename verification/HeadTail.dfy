/** The head-tail cut (internal/preprocess): long texts keep a head and a tail, cut at sentences. */
module HeadTail {
  import opened Text
  import Sorting

  const MAX_TOTAL_CHARS: nat := 15000
  const HEAD_RATIO := 0.75
  const SENTENCE_CUT_TOLERANCE: nat := 200
  const JOINER := " ... "

  const AVAILABLE: nat := MAX_TOTAL_CHARS - |JOINER|
  const HEAD_TARGET: nat := (AVAILABLE as real * HEAD_RATIO + 0.5).Floor
  const TAIL_TARGET: nat := AVAILABLE - HEAD_TARGET

  predicate IsSentenceTerminator(c: char) {
    c == '.' || c == '!' || c == '?'
  }

  predicate IsSentenceBoundary(text: string, i: int) {
    0 < i < |text| && IsSentenceTerminator(text[i - 1])
  }

  function Abs(v: int): int {
    if v < 0 then -v else v
  }

  function Max(a: int, b: int): int {
    if a < b then b else a
  }

  function Min(a: int, b: int): int {
    if a < b then a else b
  }

  /** `cut` beats `i` as a cut near the target: closer, or as close and further left. */
  predicate Nearer(cut: int, i: int, target: int) {
    Abs(cut - target) < Abs(i - target) || (Abs(cut - target) == Abs(i - target) && cut <= i)
  }

  /** The character before a position ends a sentence. */
  ghost predicate FollowsSentence(text: string, i: int) {
    0 < i < |text| && text[i - 1] in {'.', '!', '?'}
  }

  /** `cut` is where to cut near `target`: the nearest sentence boundary within reach, if any. */
  ghost predicate SnapsTo(text: string, target: int, tolerance: nat, cut: int) {
    if target <= 0 || text == "" then cut == 0
    else if target >= |text| then cut == |text|
    else if forall i :: InWindow(target, tolerance, i) ==> !FollowsSentence(text, i) then cut == target
    else
      && InWindow(target, tolerance, cut)
      && FollowsSentence(text, cut)
      && forall i :: InWindow(target, tolerance, i) && FollowsSentence(text, i) ==> Nearer(cut, i, target)
  }

  predicate InWindow(target: int, tolerance: nat, i: int) {
    target - tolerance <= i <= target + tolerance
  }

  /** The boundary search of the program, a scan that keeps the best candidate so far. */
  method FindBestSentenceBoundary(text: string, target: int, tolerance: nat) returns (cut: nat)
    ensures SnapsTo(text, target, tolerance, cut)
    ensures cut <= |text|
  {
    var n := |text|;
    if n == 0 || target <= 0 {
      return 0;
    }
    if target >= n {
      return n;
    }
    var start, end := Max(target - tolerance, 1), Min(target + tolerance, n - 1);
    var best, bestDist := -1, n + 1;
    var i := start;
    while i <= end
      invariant start <= i
      invariant best == -1 ==> bestDist == n + 1
      invariant best == -1 ==> forall k :: start <= k < i ==> !FollowsSentence(text, k)
      invariant best != -1 ==> start <= best <= end && FollowsSentence(text, best)
      invariant best != -1 ==> bestDist == Abs(best - target)
      invariant best != -1 ==> best < i
      invariant best != -1 ==> forall k :: start <= k < i && FollowsSentence(text, k) ==> Nearer(best, k, target)
      decreases end - i
    {
      if IsSentenceBoundary(text, i) {
        var dist := Abs(i - target);
        if dist < bestDist {
          best, bestDist := i, dist;
        }
      }
      i := i + 1;
    }
    if best != -1 {
      return best;
    }
    return target;
  }

  /** There is never a choice about where to cut. */
  lemma SnapUnique(text: string, target: int, tolerance: nat, a: int, b: int)
    requires SnapsTo(text, target, tolerance, a) && SnapsTo(text, target, tolerance, b)
    ensures a == b
  {
  }

  lemma SnapExists(text: string, target: int, tolerance: nat)
    ensures exists cut :: SnapsTo(text, target, tolerance, cut)
  {
    var boundaries := set i | target - tolerance <= i <= target + tolerance && FollowsSentence(text, i);
    if target <= 0 || text == "" {
      assert SnapsTo(text, target, tolerance, 0);
    } else if target >= |text| {
      assert SnapsTo(text, target, tolerance, |text|);
    } else if boundaries == {} {
      assert forall i :: InWindow(target, tolerance, i) && FollowsSentence(text, i) ==> i in boundaries;
      assert SnapsTo(text, target, tolerance, target);
    } else {
      var cut := NearestOf(boundaries, target);
      assert forall i :: InWindow(target, tolerance, i) && FollowsSentence(text, i) ==> i in boundaries;
      assert InWindow(target, tolerance, cut) && FollowsSentence(text, cut);
      assert SnapsTo(text, target, tolerance, cut);
    }
  }

  lemma {:induction false} NearestOf(candidates: set<int>, target: int) returns (cut: int)
    requires candidates != {}
    ensures cut in candidates && forall i :: i in candidates ==> Nearer(cut, i, target)
    decreases |candidates|
  {
    var first := Sorting.Member(candidates);
    var others := candidates - {first};
    assert candidates == others + {first};
    cut := first;
    if others != {} {
      var other := NearestOf(others, target);
      if !Nearer(first, other, target) {
        cut := other;
      }
    }
  }

  ghost function Snap(text: string, target: int, tolerance: nat): int {
    SnapExists(text, target, tolerance);
    var cut :| SnapsTo(text, target, tolerance, cut);
    cut
  }

  lemma SnapIs(text: string, target: int, tolerance: nat, cut: int)
    ensures SnapsTo(text, target, tolerance, cut) <==> cut == Snap(text, target, tolerance)
  {
    SnapExists(text, target, tolerance);
    if SnapsTo(text, target, tolerance, cut) {
      SnapUnique(text, target, tolerance, cut, Snap(text, target, tolerance));
    }
  }

  ghost function HeadCut(text: string): int {
    Snap(text, HEAD_TARGET, SENTENCE_CUT_TOLERANCE)
  }

  /** Where the tail starts: never inside the head. */
  ghost function TailStart(text: string): int {
    Max(Snap(text, |text| - TAIL_TARGET, SENTENCE_CUT_TOLERANCE), HeadCut(text))
  }

  lemma CutsInRange(text: string)
    requires |text| > MAX_TOTAL_CHARS
    ensures HEAD_TARGET - SENTENCE_CUT_TOLERANCE <= HeadCut(text) <= HEAD_TARGET + SENTENCE_CUT_TOLERANCE
    ensures |text| - TAIL_TARGET - SENTENCE_CUT_TOLERANCE <= TailStart(text) < |text|
    ensures HeadCut(text) <= TailStart(text)
  {
    SnapIs(text, HEAD_TARGET, SENTENCE_CUT_TOLERANCE, HeadCut(text));
    var tailCut := Snap(text, |text| - TAIL_TARGET, SENTENCE_CUT_TOLERANCE);
    SnapIs(text, |text| - TAIL_TARGET, SENTENCE_CUT_TOLERANCE, tailCut);
  }

  ghost function Tail(text: string): string
    requires |text| > MAX_TOTAL_CHARS
  {
    CutsInRange(text);
    TrimLeft(text[TailStart(text)..])
  }

  /** The head fills what the tail leaves of the budget, up to the head cut. */
  ghost function Head(text: string): string
    requires |text| > MAX_TOTAL_CHARS
  {
    CutsInRange(text);
    TailLength(text);
    TrimRight(text[..Min(HeadCut(text), AVAILABLE - |Tail(text)|)])
  }

  ghost function Extract(source: string): string {
    var text := TrimSpace(source);
    if |text| <= MAX_TOTAL_CHARS then text else Head(text) + JOINER + Tail(text)
  }

  lemma TailLength(text: string)
    requires |text| > MAX_TOTAL_CHARS
    ensures |Tail(text)| <= TAIL_TARGET + SENTENCE_CUT_TOLERANCE
    ensures AVAILABLE - |Tail(text)| > 0
  {
    hide TrimLeft, TailStart, HeadCut;
    CutsInRange(text);
    TrimLeftDrops(text[TailStart(text)..]);
  }

  lemma TrimSpaceEnds(source: string)
    ensures var t := TrimSpace(source); t != "" ==> !IsSpace(t[0]) && !IsSpace(t[|t| - 1])
  {
    TrimLeftDrops(source);
    TrimRightDrops(TrimLeft(source));
  }

  lemma {:induction false} TrimRightOfPrefix(s: string, k: nat)
    requires |TrimRight(s)| <= k <= |s|
    ensures TrimRight(s[..k]) == TrimRight(s)
    decreases |s|
  {
    if k < |s| {
      TrimRightOfPrefix(s[..|s| - 1], k);
      assert s[..|s| - 1][..k] == s[..k];
    } else {
      assert s[..k] == s;
    }
  }

  /** Trimming first and shortening afterwards leaves the same head as shortening first. */
  lemma ShortenedHead(s: string, cut: nat, budget: nat)
    requires cut <= |s|
    ensures var head := TrimRight(s[..cut]);
            var short := TrimRight(s[..Min(cut, budget)]);
            && (|head| <= budget ==> short == head)
            && (|head| > budget ==> TrimRight(head[..budget]) == short)
  {
    var front := s[..cut];
    TrimRightDrops(front);
    assert front[..Min(cut, budget)] == s[..Min(cut, budget)];
    if |TrimRight(front)| <= budget {
      TrimRightOfPrefix(front, Min(cut, budget));
    } else {
      assert TrimRight(front)[..budget] == s[..budget];
    }
  }

  lemma SnappedCuts(text: string, headCut: int, tailCut: int)
    requires |text| > MAX_TOTAL_CHARS
    requires SnapsTo(text, HEAD_TARGET, SENTENCE_CUT_TOLERANCE, headCut)
    requires SnapsTo(text, |text| - TAIL_TARGET, SENTENCE_CUT_TOLERANCE, tailCut)
    ensures headCut == HeadCut(text) && Max(tailCut, headCut) == TailStart(text)
  {
    SnapIs(text, HEAD_TARGET, SENTENCE_CUT_TOLERANCE, headCut);
    SnapIs(text, |text| - TAIL_TARGET, SENTENCE_CUT_TOLERANCE, tailCut);
  }

  /**
   The program's cut: trim head and tail first, and shorten the head again if both together are
   too long. The branch that would shorten the tail cannot be reached.
   */
  method HeadTailExtract(source: string) returns (result: string)
    ensures result == Extract(source)
  {
    var text := TrimSpace(source);
    if text == "" {
      return "";
    }
    if |text| <= MAX_TOTAL_CHARS {
      return text;
    }
    var available := MAX_TOTAL_CHARS - |JOINER|;
    var headTarget := (available as real * HEAD_RATIO + 0.5).Floor;
    var tailTarget := available - headTarget;
    assert headTarget == HEAD_TARGET && tailTarget == TAIL_TARGET;
    var headCut := FindBestSentenceBoundary(text, headTarget, SENTENCE_CUT_TOLERANCE);
    var tailStart := FindBestSentenceBoundary(text, |text| - tailTarget, SENTENCE_CUT_TOLERANCE);
    SnappedCuts(text, headCut, tailStart);
    if tailStart < headCut {
      tailStart := headCut;
    }
    result := JoinHeadAndTail(text, headCut, tailStart);
  }

  method JoinHeadAndTail(text: string, headCut: nat, tailStart: nat) returns (result: string)
    requires |text| > MAX_TOTAL_CHARS
    requires headCut == HeadCut(text) && tailStart == TailStart(text) && headCut <= tailStart <= |text|
    ensures result == Head(text) + JOINER + Tail(text)
  {
    TailLength(text);
    var head, tail := TrimRight(text[..headCut]), TrimLeft(text[tailStart..]);
    ShortenedHead(text, headCut, AVAILABLE - |tail|);
    result := head + JOINER + tail;
    if |result| > MAX_TOTAL_CHARS {
      var allowedHead := MAX_TOTAL_CHARS - |JOINER| - |tail|;
      if allowedHead < 0 {
        assert false;
      }
      if |head| > allowedHead {
        head := head[..allowedHead];
      }
      head := TrimRight(head);
      result := head + JOINER + tail;
    }
  }

  /** Whatever the text, the result fits the budget. */
  lemma ExtractFits(source: string)
    ensures |Extract(source)| <= 15000
  {
    var text := TrimSpace(source);
    if |text| > MAX_TOTAL_CHARS {
      CutsInRange(text);
      TailLength(text);
      TrimRightDrops(text[..Min(HeadCut(text), AVAILABLE - |Tail(text)|)]);
    }
  }

  /**
   Where a long text is cut: near the first 11246 and before the last 3749 characters, each cut at a
   sentence within 200 characters if there is one, and the head again where both are too long together.
   */
  lemma CutsAre(source: string) returns (headCut: int, tailCut: int)
    requires |TrimSpace(source)| > 15000
    ensures var text := TrimSpace(source);
            && SnapsTo(text, 11246, 200, headCut) && SnapsTo(text, |text| - 3749, 200, tailCut)
            && 0 <= headCut < |text| && 0 <= tailCut < |text|
            && var tail := TrimLeft(text[if tailCut < headCut then headCut else tailCut..]);
               && 0 < 14995 - |tail|
               && Extract(source)
                  == TrimRight(text[..if headCut <= 14995 - |tail| then headCut else 14995 - |tail|]) + " ... " + tail
  {
    hide SnapsTo, Snap, TrimLeft, TrimRight, TrimSpace;
    var text := TrimSpace(source);
    Targets();
    headCut, tailCut := Snap(text, 11246, 200), Snap(text, |text| - 3749, 200);
    SnapIs(text, 11246, 200, headCut);
    SnapIs(text, |text| - 3749, 200, tailCut);
    CutsInRange(text);
    TailLength(text);
    TailCutInRange(text, tailCut);
  }

  lemma Targets()
    ensures HEAD_TARGET == 11246 && TAIL_TARGET == 3749 && AVAILABLE == 14995
  {
  }

  lemma TailCutInRange(text: string, tailCut: int)
    requires |text| > MAX_TOTAL_CHARS
    requires SnapsTo(text, |text| - 3749, 200, tailCut)
    ensures 0 <= tailCut < |text|
  {
  }

  /** The parts of a long text that stay: up to `a`, and from `b` on. */
  ghost predicate KeepsEnds(text: string, result: string, a: int, b: int)
    requires |text| > MAX_TOTAL_CHARS
  {
    && 0 < a <= HeadCut(text) <= TailStart(text) <= b < |text|
    && result == text[..a] + JOINER + text[b..]
    && !IsSpace(text[a - 1]) && !IsSpace(text[b])
    && (forall i :: TailStart(text) <= i < b ==> IsSpace(text[i]))
    && (forall i :: a <= i < Min(HeadCut(text), AVAILABLE - (|text| - b)) ==> IsSpace(text[i]))
  }

  lemma TailKept(text: string) returns (b: int)
    requires |text| > MAX_TOTAL_CHARS && !IsSpace(text[|text| - 1])
    ensures TailStart(text) <= b < |text| && Tail(text) == text[b..] && !IsSpace(text[b])
    ensures forall i :: TailStart(text) <= i < b ==> IsSpace(text[i])
  {
    CutsInRange(text);
    var start := TailStart(text);
    var rest := text[start..];
    TrimLeftDrops(rest);
    b := |text| - |Tail(text)|;
    assert rest[|rest| - 1] == text[|text| - 1];
    assert rest[|rest| - |Tail(text)|..] == text[b..];
    forall i | start <= i < b ensures IsSpace(text[i]) {
      assert text[i] == rest[i - start];
    }
  }

  lemma HeadKept(text: string, budget: nat) returns (a: int)
    requires 0 < budget <= |text| && !IsSpace(text[0])
    ensures 0 < a <= budget && TrimRight(text[..budget]) == text[..a] && !IsSpace(text[a - 1])
    ensures forall i :: a <= i < budget ==> IsSpace(text[i])
  {
    var front := text[..budget];
    TrimRightDrops(front);
    a := |TrimRight(front)|;
    assert front[0] == text[0];
    assert front[..a] == text[..a];
    forall i | a <= i < budget ensures IsSpace(text[i]) {
      assert text[i] == front[i];
    }
  }

  /** A long text keeps a non-empty start and a non-empty end of itself, which do not overlap. */
  lemma ExtractShape(source: string) returns (a: int, b: int)
    requires |TrimSpace(source)| > MAX_TOTAL_CHARS
    ensures KeepsEnds(TrimSpace(source), Extract(source), a, b)
  {
    var text := TrimSpace(source);
    CutsInRange(text);
    TailLength(text);
    TrimSpaceEnds(source);
    b := TailKept(text);
    a := HeadKept(text, Min(HeadCut(text), AVAILABLE - |Tail(text)|));
  }
}
