/** The whole cleaning pipeline (internal/preprocess): normalise, split, filter, rebuild, cut. */
module Cleaning {
  import opened Text
  import opened Normalization
  import opened Fragments
  import HeadTail

  const BOILERPLATE_MARKERS := [
    "Hinweis:", "Quelle:", "Weitere Artikel", "Themen im Trend", "Newsletter", "Feedback", "Kopieren",
    "Anh\U{F6}ren", "Aufh\U{F6}ren", "Schrift vergr\U{F6}\U{DF}ern", "Schrift verkleinern",
    "F\U{FC}r dich zusammengefasst:"
  ]

  const UI_CONTROL_MARKERS := [
    "click", "klicken", "menu", "men\U{FC}", "teilen", "share", "anmelden", "login", "registrieren",
    "cookie", "datenschutz", "impressum", "subscribe", "abo"
  ]

  predicate IsBoilerplate(fragment: string) {
    exists marker :: marker in BOILERPLATE_MARKERS && Contains(fragment, marker)
  }

  function WordCount(text: string): nat {
    |Fields(TrimSpace(text))|
  }

  predicate IsWordChar(u: Unicode, c: char) {
    u.isLetter(c) || u.isDigit(c)
  }

  function TokenLength(u: Unicode, s: string): (n: nat)
    ensures n <= |s|
  {
    if s == [] || !IsWordChar(u, s[0]) then 0 else 1 + TokenLength(u, s[1..])
  }

  /** The maximal runs of letters and digits. */
  function Tokens(u: Unicode, s: string): seq<string>
    decreases |s|
  {
    if s == [] then []
    else if !IsWordChar(u, s[0]) then Tokens(u, s[1..])
    else [s[..TokenLength(u, s)]] + Tokens(u, s[TokenLength(u, s)..])
  }

  /** A marker with a blank is looked for in the text, any other among the words of the text. */
  predicate MatchesMarker(u: Unicode, lower: string, marker: string) {
    if Contains(marker, " ") then Contains(lower, marker) else marker in Tokens(u, lower)
  }

  predicate IsUIControlText(u: Unicode, fragment: string) {
    exists marker :: marker in UI_CONTROL_MARKERS && MatchesMarker(u, u.ToLower(fragment), u.ToLower(marker))
  }

  predicate IsSymbol(u: Unicode, c: char) {
    !u.isLetter(c) && !u.isDigit(c) && !IsSpace(c)
  }

  function SymbolCount(u: Unicode, s: string): (n: nat)
    ensures n <= |s|
  {
    if s == [] then 0
    else SymbolCount(u, s[..|s| - 1]) + (if IsSymbol(u, s[|s| - 1]) then 1 else 0)
  }

  predicate HasExcessiveSymbolDensity(u: Unicode, fragment: string, threshold: real) {
    fragment != "" && SymbolCount(u, fragment) as real / |fragment| as real > threshold
  }

  predicate IsProse(u: Unicode, fragment: string) {
    WordCount(fragment) >= 5 && !IsUIControlText(u, fragment) && !HasExcessiveSymbolDensity(u, fragment, 0.30)
  }

  /** The two filters as one test of a single fragment. */
  predicate Keeps(u: Unicode, fragment: string) {
    !IsBoilerplate(fragment) && IsProse(u, fragment)
  }

  method RemoveBoilerplateFragments(fragments: seq<string>) returns (out: seq<string>)
    ensures out == Filter(fragments, f => !IsBoilerplate(f))
  {
    out := [];
    assert fragments[..|fragments|] == fragments;
    for i := 0 to |fragments|
      invariant out == Filter(fragments[..i], f => !IsBoilerplate(f))
    {
      var remove := false;
      for m := 0 to |BOILERPLATE_MARKERS|
        invariant !remove
        invariant forall k :: 0 <= k < m ==> !Contains(fragments[i], BOILERPLATE_MARKERS[k])
      {
        if Contains(fragments[i], BOILERPLATE_MARKERS[m]) {
          assert BOILERPLATE_MARKERS[m] in BOILERPLATE_MARKERS;
          remove := true;
          break;
        }
      }
      if !remove {
        out := out + [fragments[i]];
      }
      FilterSnoc(fragments, i, f => !IsBoilerplate(f));
    }
  }

  method FindUIControlText(u: Unicode, fragment: string) returns (found: bool)
    ensures found == IsUIControlText(u, fragment)
  {
    var lower := u.ToLower(fragment);
    var tokens := Tokens(u, lower);
    for m := 0 to |UI_CONTROL_MARKERS|
      invariant forall k :: 0 <= k < m ==> !MatchesMarker(u, lower, u.ToLower(UI_CONTROL_MARKERS[k]))
    {
      var marker := u.ToLower(UI_CONTROL_MARKERS[m]);
      ghost var listed := UI_CONTROL_MARKERS[m] in UI_CONTROL_MARKERS;
      if Contains(marker, " ") {
        if Contains(lower, marker) {
          return true;
        }
      } else if marker in tokens {
        return true;
      }
    }
    return false;
  }

  method MeasureSymbolDensity(u: Unicode, fragment: string, threshold: real) returns (excessive: bool)
    ensures excessive == HasExcessiveSymbolDensity(u, fragment, threshold)
  {
    if |fragment| == 0 {
      return false;
    }
    var symbols := 0;
    for i := 0 to |fragment|
      invariant symbols == SymbolCount(u, fragment[..i])
    {
      assert fragment[..i + 1][..i] == fragment[..i];
      var c := fragment[i];
      if !(u.isLetter(c) || u.isDigit(c) || IsSpace(c)) {
        symbols := symbols + 1;
      }
    }
    assert fragment[..|fragment|] == fragment;
    return symbols as real / |fragment| as real > threshold;
  }

  method FilterNoisyFragments(u: Unicode, fragments: seq<string>) returns (out: seq<string>)
    ensures out == Filter(fragments, f => IsProse(u, f))
  {
    out := [];
    assert fragments[..|fragments|] == fragments;
    for i := 0 to |fragments|
      invariant out == Filter(fragments[..i], f => IsProse(u, f))
    {
      FilterSnoc(fragments, i, f => IsProse(u, f));
      if WordCount(fragments[i]) < 5 {
        continue;
      }
      var control := FindUIControlText(u, fragments[i]);
      if control {
        continue;
      }
      var dense := MeasureSymbolDensity(u, fragments[i], 0.30);
      if dense {
        continue;
      }
      out := out + [fragments[i]];
    }
  }

  /** The fragments that survive both filters. */
  function KeptFragments(u: Unicode, source: string): (r: seq<string>) {
    Filter(Filter(Split(Normalize(source)), f => !IsBoilerplate(f)), f => IsProse(u, f))
  }

  function Rebuilt(u: Unicode, source: string): (r: string) {
    RebuildText(KeptFragments(u, source))
  }

  ghost function Process(u: Unicode, source: string): (r: string) {
    HeadTail.Extract(Rebuilt(u, source))
  }

  /** The pipeline as the program runs it. */
  method ProcessText(u: Unicode, source: string) returns (result: string)
    ensures result == Process(u, source)
  {
    var fragments := SplitFragments(Normalize(source));
    fragments := RemoveBoilerplateFragments(fragments);
    fragments := FilterNoisyFragments(u, fragments);
    result := HeadTail.HeadTailExtract(RebuildText(fragments));
  }

  lemma KeptAre(u: Unicode, source: string)
    ensures KeptFragments(u, source) == Filter(Split(Normalize(source)), f => Keeps(u, f))
    ensures Fragmented(KeptFragments(u, source))
  {
    var fragments := Split(Normalize(source));
    FilterTwice(fragments, f => !IsBoilerplate(f), f => IsProse(u, f));
    FilterSame(fragments, f => (x => !IsBoilerplate(x))(f) && (x => IsProse(u, x))(f), f => Keeps(u, f));
    NormalizeClean(source);
    SplitFragmented(Normalize(source));
    FilterFragmented(fragments, f => Keeps(u, f));
  }

  lemma {:induction false} FilterSame(fragments: seq<string>, p: string -> bool, q: string -> bool)
    requires forall f :: p(f) == q(f)
    ensures Filter(fragments, p) == Filter(fragments, q)
  {
    if fragments != [] {
      FilterSame(fragments[1..], p, q);
    }
  }

  /** The rebuilt text consists of exactly the fragments that both filters keep. */
  lemma RebuiltKeeps(u: Unicode, source: string)
    ensures Clean(Rebuilt(u, source))
    ensures Split(Rebuilt(u, source)) == Filter(Split(Normalize(source)), f => Keeps(u, f))
    ensures Rebuilt(u, source) == TightJoin(Filter(Split(Normalize(source)), f => Keeps(u, f)))
  {
    KeptAre(u, source);
    SplitRebuild(KeptFragments(u, source));
  }

  /** Cleaning a rebuilt text rebuilds the same text. */
  lemma RebuiltFixed(u: Unicode, source: string)
    ensures Rebuilt(u, Rebuilt(u, source)) == Rebuilt(u, source)
  {
    var t := Rebuilt(u, source);
    RebuiltKeeps(u, source);
    RebuiltKeeps(u, t);
    CleanIffNormal(t);
    FilterIdempotent(Split(Normalize(source)), f => Keeps(u, f));
  }

  lemma ShortIsRebuilt(u: Unicode, source: string)
    requires |Rebuilt(u, source)| <= HeadTail.MAX_TOTAL_CHARS
    ensures Process(u, source) == Rebuilt(u, source)
  {
    RebuiltKeeps(u, source);
    SpacedEnds(Rebuilt(u, source));
  }

  /** No separator runs straight into a letter. */
  ghost predicate SeparatorsSpaced(s: string) {
    forall i :: 0 <= i < |s| - 1 && IsSeparator(s[i]) ==> s[i + 1] == ' ' || IsPunct(s[i + 1])
  }

  /** The length of the fragments put together, each with its gap. */
  ghost function Weight(parts: seq<string>): nat {
    if parts == [] then 0 else |Gap(parts[0])| + |parts[0]| + Weight(parts[1..])
  }

  lemma {:induction false} TightJoinLength(parts: seq<string>)
    ensures |TightJoin(parts)| + (if parts == [] then 0 else |Gap(parts[0])|) == Weight(parts)
  {
    if |parts| > 1 {
      TightJoinLength(parts[1..]);
    }
  }

  lemma {:induction false} FilterWeight(parts: seq<string>, keep: string -> bool)
    ensures Weight(Filter(parts, keep)) <= Weight(parts)
  {
    if parts != [] {
      FilterWeight(parts[1..], keep);
      var rest := Filter(parts[1..], keep);
      WeightCons(parts[0], rest);
      assert [] + rest == rest;
    }
  }

  lemma WeightCons(f: string, rest: seq<string>)
    ensures Weight([f] + rest) == |Gap(f)| + |f| + Weight(rest)
  {
    assert ([f] + rest)[1..] == rest;
  }

  lemma SpacedAfter(s: string, k: nat)
    requires SeparatorsSpaced(s) && k <= |s|
    ensures SeparatorsSpaced(s[k..])
  {
    assert forall i :: 0 <= i < |s| - k ==> s[k..][i] == s[k + i];
  }

  lemma {:induction false} SplitWeight(s: string)
    requires Clean(s) && SeparatorsSpaced(s)
    ensures Weight(Split(s)) <= |s| + |Gap(s)|
    decreases |s|
  {
    var k := FirstSeparator(s);
    if s == "" {
    } else if k == |s| {
      TrimmedIsFixed(s);
      assert Split(s) == [s];
    } else {
      var piece, rest := s[..k + 1], s[k + 1..];
      assert s == piece + rest;
      FirstSeparatorIs(piece, k);
      SplitStep(piece, rest);
      TrimmedIsFixed(piece);
      WeightCons(piece, Split(rest));
      BlanksAfter(s, k + 1);
      SpacedAfter(s, k + 1);
      if rest != [] && rest[0] == ' ' {
        assert IsSpace(s[k + 1]);
        SkipBlank(rest);
        BlanksAfter(rest, 1);
        SpacedAfter(rest, 1);
        SplitWeight(rest[1..]);
      } else {
        assert rest != [] ==> IsPunct(rest[0]);
        SplitWeight(rest);
      }
    }
  }

  lemma SpacedGlue(a: string, b: string)
    requires a != [] && b != [] && SeparatorsSpaced(a) && SeparatorsSpaced(b)
    ensures SeparatorsSpaced(a + Gap(b) + b)
  {
    var s := a + Gap(b) + b;
    forall i | 0 <= i < |s| - 1 && IsSeparator(s[i]) ensures s[i + 1] == ' ' || IsPunct(s[i + 1]) {
      if i < |a| - 1 {
        assert s[i] == a[i] && s[i + 1] == a[i + 1];
      } else if i >= |a + Gap(b)| {
        var j := i - |a + Gap(b)|;
        assert s[i] == b[j] && s[i + 1] == b[j + 1];
      }
    }
  }

  lemma {:induction false} FragmentsSpaced(fragments: seq<string>)
    requires Fragmented(fragments)
    ensures SeparatorsSpaced(TightJoin(fragments))
  {
    if |fragments| > 1 {
      FragmentedTail(fragments);
      FragmentsSpaced(fragments[1..]);
      TightJoinClean(fragments[1..]);
      SpacedGlue(fragments[0], TightJoin(fragments[1..]));
    }
  }

  /** The two ends of a clean text with dots between them: cleaned again, they become shorter. */
  lemma EndsRebuilt(u: Unicode, t: string, a: nat, b: nat)
    requires Clean(t) && SeparatorsSpaced(t)
    requires 0 < a < b < |t| && !IsSpace(t[a - 1]) && !IsSpace(t[b])
    ensures |Rebuilt(u, t[..a] + HeadTail.JOINER + t[b..])| <= |t[..a] + HeadTail.JOINER + t[b..]|
  {
    var head, tail := t[..a], t[b..];
    var r := head + HeadTail.JOINER + tail;
    CleanPart(t, 0, a);
    CleanPart(t, b, |t|);
    assert head == t[0..a] && tail == t[b..|t|];
    SpacedAfter(t, b);
    assert SeparatorsSpaced(head);
    assert tail != "";
    hide Clean, SeparatorsSpaced;
    DotsBetween(head, tail);
    RebuiltWeight(u, r);
  }

  /** Two clean texts with dots between them, normalised: at least one blank is gone. */
  lemma DotsBetween(head: string, tail: string)
    requires Clean(head) && Clean(tail) && SeparatorsSpaced(head) && SeparatorsSpaced(tail)
    requires head != "" && tail != ""
    ensures var n := Normalize(head + HeadTail.JOINER + tail);
            && Clean(n) && SeparatorsSpaced(n) && n != ""
            && |n| + |Gap(n)| <= |head + HeadTail.JOINER + tail|
  {
    var parts := [head, "...", tail];
    assert Join(parts[2..], " ") == tail;
    assert parts[1..][1..] == parts[2..];
    assert Join(parts[1..], " ") == "... " + tail;
    assert head + HeadTail.JOINER + tail == Join(parts, " ");
    NormalizeJoin(parts);
    TightJoinClean(parts);
    assert TightJoin(parts[2..]) == tail;
    assert TightJoin(parts[1..]) == "..." + Gap(tail) + tail;
    assert TightJoin(parts) == head + Gap("...") + ("..." + Gap(tail) + tail);
    DotsSpaced(head, tail);
  }

  lemma DotsSpaced(head: string, tail: string)
    requires head != "" && tail != "" && SeparatorsSpaced(head) && SeparatorsSpaced(tail)
    ensures SeparatorsSpaced(head + Gap("...") + ("..." + Gap(tail) + tail))
  {
    SpacedGlue("...", tail);
    SpacedGlue(head, "..." + Gap(tail) + tail);
  }

  /** Cleaning a text makes it no longer than its normalised form, if its separators are spaced. */
  lemma RebuiltWeight(u: Unicode, r: string)
    requires Clean(Normalize(r)) && SeparatorsSpaced(Normalize(r)) && Normalize(r) != ""
    ensures |Rebuilt(u, r)| <= |Normalize(r)| + |Gap(Normalize(r))|
  {
    hide Clean, SeparatorsSpaced, Keeps;
    SplitWeight(Normalize(r));
    KeptAre(u, r);
    FilterWeight(Split(Normalize(r)), f => Keeps(u, f));
    SplitRebuild(KeptFragments(u, r));
    TightJoinLength(KeptFragments(u, r));
  }

  /** A text with a blank before a dot is not clean. */
  lemma JoinerIsNotClean(r: string, a: nat)
    requires a + 1 < |r| && r[a] == ' ' && r[a + 1] == '.'
    ensures !Clean(r)
  {
    assert IsSpace(r[a]);
  }

  lemma CutTextChanges(u: Unicode, source: string)
    requires |Rebuilt(u, source)| > HeadTail.MAX_TOTAL_CHARS
    ensures Process(u, Process(u, source)) != Process(u, source)
  {
    hide Rebuilt, HeadTail.Extract, Clean, SeparatorsSpaced;
    var t := Rebuilt(u, source);
    RebuiltSpaced(u, source);
    HeadTail.ExtractFits(t);
    var a, b := HeadTail.ExtractShape(t);
    var r := HeadTail.Extract(t);
    EndsRebuilt(u, t, a, b);
    ShortIsRebuilt(u, r);
    RebuiltSpaced(u, r);
    assert r == t[..a] + " ... " + t[b..];
    JoinerIsNotClean(r, a);
  }

  lemma RebuiltSpaced(u: Unicode, source: string)
    ensures Clean(Rebuilt(u, source)) && SeparatorsSpaced(Rebuilt(u, source))
    ensures TrimSpace(Rebuilt(u, source)) == Rebuilt(u, source)
  {
    hide Rebuilt, SeparatorsSpaced;
    RebuiltIsClean(u, source);
    SpacedEnds(Rebuilt(u, source));
  }

  lemma RebuiltIsClean(u: Unicode, source: string)
    ensures Clean(Rebuilt(u, source)) && SeparatorsSpaced(Rebuilt(u, source))
  {
    RebuiltKeeps(u, source);
    KeptAre(u, source);
    FragmentsSpaced(KeptFragments(u, source));
  }

  /**
   Cleaning is idempotent exactly on the texts that fit the budget after filtering: a text that
   had to be cut contains a joiner, which a second cleaning pulls together.
   */
  lemma ProcessIdempotentIff(u: Unicode, source: string)
    ensures Process(u, Process(u, source)) == Process(u, source)
       <==> |Rebuilt(u, source)| <= HeadTail.MAX_TOTAL_CHARS
  {
    hide Rebuilt, Process;
    var t := Rebuilt(u, source);
    if |t| <= HeadTail.MAX_TOTAL_CHARS {
      ShortIsRebuilt(u, source);
      RebuiltFixed(u, source);
      ShortIsRebuilt(u, t);
    } else {
      CutTextChanges(u, source);
    }
  }

  /** What cleaning returns for a text that fits: its kept fragments and nothing else. */
  lemma ProcessKeeps(u: Unicode, source: string)
    requires |Rebuilt(u, source)| <= HeadTail.MAX_TOTAL_CHARS
    ensures Split(Process(u, source)) == Filter(Split(Normalize(source)), f => Keeps(u, f))
  {
    ShortIsRebuilt(u, source);
    RebuiltKeeps(u, source);
  }

  /** A small alphabet: one letter, and nothing to fold. */
  const ONLY_A := Unicode(c => c, c => c == 'a', c => false)

  /** Text of letters a and blanks. */
  ghost predicate Plain(s: string) {
    forall i :: 0 <= i < |s| ==> s[i] == 'a' || s[i] == ' '
  }

  function As(n: nat): (s: string)
    ensures |s| == n && forall i :: 0 <= i < n ==> s[i] == 'a'
  {
    seq(n, i => 'a')
  }

  /** Five words, the last of them as long as wanted. */
  function FiveWords(n: nat): string {
    "a a a a " + As(n)
  }

  lemma {:induction false} ContainsOnlyItsOwn(s: string, p: string)
    requires Contains(s, p)
    ensures forall c :: c in p ==> c in s
  {
    if HasPrefix(s, p) {
      assert forall i :: 0 <= i < |p| ==> s[i] == p[i];
    } else {
      ContainsOnlyItsOwn(s[1..], p);
    }
  }

  lemma PlainHasNoMarker(s: string, marker: string, c: char)
    requires Plain(s) && c in marker && c != 'a' && c != ' '
    ensures !Contains(s, marker)
  {
    if Contains(s, marker) {
      ContainsOnlyItsOwn(s, marker);
    }
  }

  /** Some character that does not occur in such text. */
  predicate HasOther(marker: string) {
    (|marker| > 0 && marker[0] != 'a' && marker[0] != ' ') || (|marker| > 1 && marker[1] != 'a' && marker[1] != ' ')
  }

  lemma MarkersHaveOther()
    ensures forall m :: m in BOILERPLATE_MARKERS ==> HasOther(m)
    ensures forall m :: m in UI_CONTROL_MARKERS ==> HasOther(m)
  {
    assert forall i :: 0 <= i < |BOILERPLATE_MARKERS| ==> HasOther(BOILERPLATE_MARKERS[i]);
    assert forall i :: 0 <= i < |UI_CONTROL_MARKERS| ==> HasOther(UI_CONTROL_MARKERS[i]);
  }

  lemma OtherIsIn(marker: string) returns (c: char)
    requires HasOther(marker)
    ensures c in marker && c != 'a' && c != ' '
  {
    c := if marker[0] != 'a' && marker[0] != ' ' then marker[0] else marker[1];
  }

  lemma {:induction false} TokensAreWords(u: Unicode, s: string)
    ensures forall t :: t in Tokens(u, s) ==> forall c :: c in t ==> IsWordChar(u, c)
    decreases |s|
  {
    if s != [] && !IsWordChar(u, s[0]) {
      TokensAreWords(u, s[1..]);
    } else if s != [] {
      var n := TokenLength(u, s);
      TokensAreWords(u, s[n..]);
      TokenIsWord(u, s);
    }
  }

  lemma {:induction false} TokenIsWord(u: Unicode, s: string)
    ensures forall i :: 0 <= i < TokenLength(u, s) ==> IsWordChar(u, s[i])
  {
    if s != [] && IsWordChar(u, s[0]) {
      TokenIsWord(u, s[1..]);
    }
  }

  lemma {:induction false} PlainHasNoSymbols(s: string)
    requires Plain(s)
    ensures SymbolCount(ONLY_A, s) == 0
    decreases |s|
  {
    if s != [] {
      PlainHasNoSymbols(s[..|s| - 1]);
      assert s[|s| - 1] == 'a' || s[|s| - 1] == ' ';
    }
  }

  lemma PlainIsKept(s: string)
    requires Plain(s) && s != "" && WordCount(s) >= 5
    ensures Keeps(ONLY_A, s)
  {
    hide WordCount, Contains, Tokens, SymbolCount;
    var u := ONLY_A;
    MarkersHaveOther();
    PlainHasNoSymbols(s);
    assert u.ToLower(s) == s;
    TokensAreWords(u, s);
    forall m | m in BOILERPLATE_MARKERS ensures !Contains(s, m) {
      var c := OtherIsIn(m);
      PlainHasNoMarker(s, m, c);
    }
    forall m | m in UI_CONTROL_MARKERS ensures !MatchesMarker(u, u.ToLower(s), u.ToLower(m)) {
      var c := OtherIsIn(m);
      assert u.ToLower(m) == m;
      PlainHasNoMarker(s, m, c);
      assert !IsWordChar(u, c);
    }
  }

  lemma OneWordOff(s: string, k: nat)
    requires k + 2 < |s| && s[k] == 'a' && s[k + 1] == ' '
    ensures |Fields(s[k..])| == 1 + |Fields(s[k + 2..])|
  {
    var rest := s[k..];
    assert rest[0] == 'a' && rest[1..][0] == ' ' && IsSpace(' ') && !IsSpace('a');
    assert WordLength(rest[1..]) == 0;
    FirstField(rest, 1);
    assert rest[2..] == s[k + 2..];
  }

  lemma FiveWordsAt(n: nat, i: nat)
    requires i < |FiveWords(n)|
    ensures FiveWords(n)[i] == if i in {1, 3, 5, 7} then ' ' else 'a'
  {
    hide As;
    assert FiveWords(n)[i] == if i < 8 then "a a a a "[i] else As(n)[i - 8];
  }

  lemma FiveWordsClean(n: nat)
    requires n > 0
    ensures Plain(FiveWords(n)) && Clean(FiveWords(n))
  {
    var s := FiveWords(n);
    hide FiveWords;
    LongerThanEight(n);
    forall i | 0 <= i < |s|
      ensures (s[i] == 'a' || s[i] == ' ') && (IsSpace(s[i]) ==> s[i] == ' ' && i + 1 < |s| && s[i + 1] == 'a')
    {
      FiveWordsAt(n, i);
      if i + 1 < |s| {
        FiveWordsAt(n, i + 1);
      }
    }
    FiveWordsAt(n, 0);
    FiveWordsAt(n, |s| - 1);
    assert !IsSpace('a') && !IsPunct('a');
  }

  lemma LongerThanEight(n: nat)
    ensures |FiveWords(n)| == n + 8
  {
  }

  lemma PairAt(n: nat, k: nat)
    requires n > 0 && k in {0, 2, 4, 6}
    ensures var s := FiveWords(n); k + 2 < |s| && s[k] == 'a' && s[k + 1] == ' ' && s[8] == 'a'
  {
    LongerThanEight(n);
    FiveWordsAt(n, k);
    FiveWordsAt(n, k + 1);
    FiveWordsAt(n, 8);
  }

  lemma FiveWordsCount(n: nat)
    requires n > 0
    ensures WordCount(FiveWords(n)) >= 5
  {
    hide FiveWords, Fields, Clean, Plain, TrimSpace;
    var s := FiveWords(n);
    FiveWordsClean(n);
    CleanIsTrimmed(s);
    PairAt(n, 0);
    PairAt(n, 2);
    PairAt(n, 4);
    PairAt(n, 6);
    OneWordOff(s, 0);
    OneWordOff(s, 2);
    OneWordOff(s, 4);
    OneWordOff(s, 6);
    LetterIsWord(s[8..]);
    assert s[0..] == s;
  }

  lemma CleanIsTrimmed(s: string)
    requires Clean(s)
    ensures TrimSpace(s) == s
  {
    SpacedEnds(s);
  }

  lemma LetterIsWord(s: string)
    requires s != "" && s[0] == 'a'
    ensures |Fields(s)| > 0
  {
  }

  lemma PlainStays(s: string)
    requires Plain(s) && Clean(s) && s != "" && WordCount(s) >= 5
    ensures Rebuilt(ONLY_A, s) == s
  {
    CleanIffNormal(s);
    PlainIsKept(s);
    FirstSeparatorIs(s, |s|);
    SplitWhole(s);
    SpacedEnds(s);
    KeptAre(ONLY_A, s);
    hide Keeps, Normalize, Split, Clean;
    assert [s][1..] == [];
    assert Filter([s], f => Keeps(ONLY_A, f)) == [s];
    assert Join([s], " ") == s;
  }

  /** There are texts that are cut, so cleaning is not idempotent on all texts. */
  lemma SomeTextIsCut() returns (u: Unicode, source: string)
    ensures u.Sound() && |Rebuilt(u, source)| > HeadTail.MAX_TOTAL_CHARS
    ensures Process(u, Process(u, source)) != Process(u, source)
  {
    hide Rebuilt, Process;
    u, source := ONLY_A, FiveWords(HeadTail.MAX_TOTAL_CHARS);
    FiveWordsClean(HeadTail.MAX_TOTAL_CHARS);
    FiveWordsCount(HeadTail.MAX_TOTAL_CHARS);
    LongerThanEight(HeadTail.MAX_TOTAL_CHARS);
    PlainStays(source);
    ProcessIdempotentIff(u, source);
  }
}
