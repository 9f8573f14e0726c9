/**
 What the two filters of the cleaning pipeline (internal/preprocess) look at, position by position:
 markers as parts of a fragment, words and symbols as sets of places.
 */
module Noise {
  import opened Text
  import Means
  import Sorting
  import opened Cleaning

  predicate StartsWord(s: string, i: int) {
    0 <= i < |s| && !IsSpace(s[i]) && (i == 0 || IsSpace(s[i - 1]))
  }

  /** The places where a word starts. */
  ghost function WordStarts(s: string): set<int> {
    set i | 0 <= i < |s| && StartsWord(s, i)
  }

  /** Places further on, by so many. */
  ghost function Shifted(places: set<int>, far: int): set<int> {
    set i | i in places :: i + far
  }

  lemma {:induction false} ShiftedSize(places: set<int>, far: int)
    ensures |Shifted(places, far)| == |places|
    decreases |places|
  {
    if places == {} {
      assert Shifted(places, far) == {};
    } else {
      var first := Sorting.Member(places);
      ShiftedSize(places - {first}, far);
      assert first + far !in Shifted(places - {first}, far);
      forall i ensures i in Shifted(places, far) <==> i in Shifted(places - {first}, far) + {first + far} {
        InShifted(places, far, i);
        InShifted(places - {first}, far, i);
      }
      assert Shifted(places, far) == Shifted(places - {first}, far) + {first + far};
    }
  }

  lemma InShifted(places: set<int>, far: int, i: int)
    ensures i in Shifted(places, far) <==> i - far in places
  {
    if i - far in places {
      assert (i - far) + far in Shifted(places, far);
    }
  }

  /** A first word, or leading white space: the rest of the text starts the other words. */
  lemma StartsAfter(s: string, n: nat)
    requires 0 < n <= |s| && (n < |s| ==> IsSpace(s[n]) || IsSpace(s[n - 1]))
    requires forall i :: 0 < i < n ==> !(!IsSpace(s[i]) && IsSpace(s[i - 1]))
    ensures WordStarts(s) == (if IsSpace(s[0]) then {} else {0}) + Shifted(WordStarts(s[n..]), n)
    ensures 0 !in Shifted(WordStarts(s[n..]), n)
  {
    var rest := s[n..];
    forall i ensures i in WordStarts(s) <==> (i == 0 && !IsSpace(s[0])) || i in Shifted(WordStarts(rest), n) {
      InShifted(WordStarts(rest), n, i);
      if n <= i < |s| {
        assert rest[i - n] == s[i];
        assert i > n ==> rest[i - n - 1] == s[i - 1];
      }
    }
    InShifted(WordStarts(rest), n, 0);
  }

  lemma {:induction false} FieldsCount(s: string)
    ensures |Fields(s)| == |WordStarts(s)|
    decreases |s|
  {
    if s == [] {
      assert WordStarts(s) == {};
    } else if IsSpace(s[0]) {
      FieldsCount(s[1..]);
      StartsAfter(s, 1);
      ShiftedSize(WordStarts(s[1..]), 1);
      assert {} + Shifted(WordStarts(s[1..]), 1) == Shifted(WordStarts(s[1..]), 1);
    } else {
      var n := WordLength(s);
      FieldsCount(s[n..]);
      StartsAfter(s, n);
      ShiftedSize(WordStarts(s[n..]), n);
    }
  }

  /** A whole word of letters and digits, from a position on. */
  predicate WordAt(u: Unicode, s: string, i: nat, word: string) {
    && word != "" && IsAt(s, i, word)
    && (forall c :: c in word ==> u.isLetter(c) || u.isDigit(c))
    && (i > 0 ==> !IsWordChar(u, s[i - 1]))
    && (i + |word| < |s| ==> !IsWordChar(u, s[i + |word|]))
  }

  ghost predicate IsWordOf(u: Unicode, word: string, s: string) {
    exists i: nat :: WordAt(u, s, i, word)
  }

  lemma {:induction false} TokenEnds(u: Unicode, s: string)
    ensures var n := TokenLength(u, s);
            && (forall i :: 0 <= i < n ==> IsWordChar(u, s[i]))
            && (n < |s| ==> !IsWordChar(u, s[n]))
  {
    if s != [] && IsWordChar(u, s[0]) {
      TokenEnds(u, s[1..]);
    }
  }

  /** Words further on are those of the rest, if the rest starts between words. */
  lemma WordAfter(u: Unicode, s: string, n: nat, i: nat, word: string)
    requires 0 < n <= |s| && (n < |s| ==> !IsWordChar(u, s[n]) || !IsWordChar(u, s[n - 1]))
    ensures i >= n ==> (WordAt(u, s, i, word) <==> WordAt(u, s[n..], i - n, word))
  {
    if i >= n && i + |word| <= |s| {
      assert s[n..][i - n..i - n + |word|] == s[i..i + |word|];
      if word != "" {
        assert s[i] == s[i..i + |word|][0];
      }
    }
  }

  lemma WordInside(u: Unicode, s: string, i: nat, word: string)
    requires WordAt(u, s, i, word)
    ensures IsWordChar(u, s[i])
    ensures forall k :: i <= k < i + |word| ==> IsWordChar(u, s[k])
  {
    assert forall k :: i <= k < i + |word| ==> s[k] == word[k - i];
  }

  lemma WordFirst(u: Unicode, s: string, word: string)
    requires s != "" && IsWordChar(u, s[0])
    ensures WordAt(u, s, 0, word) <==> word == s[..TokenLength(u, s)]
  {
    var n := TokenLength(u, s);
    TokenEnds(u, s);
    if WordAt(u, s, 0, word) {
      WordInside(u, s, 0, word);
      assert |word| == n;
    }
    if word == s[..n] {
      assert s[0..0 + |word|] == word;
    }
  }

  /** No word starts inside the first one. */
  lemma NotInside(u: Unicode, s: string, i: nat, word: string)
    requires WordAt(u, s, i, word)
    ensures i == 0 || i >= TokenLength(u, s)
  {
    TokenEnds(u, s);
  }

  /** The words that the scan finds are exactly the whole words of the text. */
  lemma {:induction false} TokensIff(u: Unicode, s: string, word: string)
    ensures word in Tokens(u, s) <==> IsWordOf(u, word, s)
    decreases |s|
  {
    if s == "" {
    } else if !IsWordChar(u, s[0]) {
      TokensIff(u, s[1..], word);
      if i: nat :| WordAt(u, s[1..], i, word) {
        WordAfter(u, s, 1, i + 1, word);
      }
      if i: nat :| WordAt(u, s, i, word) {
        WordInside(u, s, i, word);
        WordAfter(u, s, 1, i, word);
      }
    } else {
      var n := TokenLength(u, s);
      TokenEnds(u, s);
      WordFirst(u, s, word);
      TokensIff(u, s[n..], word);
      if i: nat :| WordAt(u, s[n..], i, word) {
        WordAfter(u, s, n, i + n, word);
      }
      if i: nat :| WordAt(u, s, i, word) {
        NotInside(u, s, i, word);
        if i > 0 {
          WordAfter(u, s, n, i, word);
        }
      }
    }
  }

  /** The places of characters that are neither letters nor digits nor white space. */
  ghost function SymbolPlaces(u: Unicode, s: string): set<int> {
    set i | 0 <= i < |s| && !u.isLetter(s[i]) && !u.isDigit(s[i]) && !IsSpace(s[i])
  }

  lemma {:induction false} SymbolsCount(u: Unicode, s: string)
    ensures SymbolCount(u, s) == |SymbolPlaces(u, s)|
    decreases |s|
  {
    if s == [] {
      assert SymbolPlaces(u, s) == {};
    } else {
      var n := |s| - 1;
      SymbolsCount(u, s[..n]);
      assert n !in SymbolPlaces(u, s[..n]);
      assert SymbolPlaces(u, s) == SymbolPlaces(u, s[..n]) + (if IsSymbol(u, s[n]) then {n} else {});
    }
  }

  /** A control marker with a blank is found anywhere in the text, any other as a whole word of it. */
  ghost predicate FindsControl(u: Unicode, lower: string, marker: string) {
    if ' ' in marker then Occurs(marker, lower) else IsWordOf(u, marker, lower)
  }

  lemma BlankOccurs(s: string)
    ensures Occurs(" ", s) <==> ' ' in s
  {
    if i: nat :| IsAt(s, i, " ") {
      assert s[i..i + 1][0] == ' ';
    }
    if i :| 0 <= i < |s| && s[i] == ' ' {
      assert s[i..i + 1] == " ";
      assert IsAt(s, i, " ");
    }
  }

  lemma FindsControlIs(u: Unicode, lower: string, marker: string)
    ensures MatchesMarker(u, lower, marker) <==> FindsControl(u, lower, marker)
  {
    hide Contains, Tokens, Occurs, IsWordOf;
    ContainsIff(marker, " ");
    BlankOccurs(marker);
    ContainsIff(lower, marker);
    TokensIff(u, lower, marker);
  }

  lemma Scaled(q: real, bound: real, size: real)
    requires size > 0.0
    ensures q > bound <==> q * size > bound * size
  {
  }

  lemma DensityIs(symbols: nat, size: nat)
    requires size > 0
    ensures symbols as real / size as real > 0.30 <==> 10 * symbols > 3 * size
  {
    var a, b := symbols as real, size as real;
    Means.DivideBack(a, b);
    Scaled(a / b, 0.30, b);
  }

  /**
   What is kept of a text: fragments without a boilerplate marker and without a control marker, of at
   least five words, with at most three symbols among ten characters.
   */
  lemma KeepsIff(u: Unicode, fragment: string)
    ensures Keeps(u, fragment)
       <==> && (forall marker :: marker in BOILERPLATE_MARKERS ==> !Occurs(marker, fragment))
            && |WordStarts(fragment)| >= 5
            && (forall marker :: marker in UI_CONTROL_MARKERS ==>
                  !FindsControl(u, u.ToLower(fragment), u.ToLower(marker)))
            && 10 * |SymbolPlaces(u, fragment)| <= 3 * |fragment|
  {
    hide Contains, MatchesMarker, Fields, SymbolCount, Occurs, FindsControl, WordStarts, SymbolPlaces, TrimSpace;
    forall marker ensures Contains(fragment, marker) <==> Occurs(marker, fragment) {
      ContainsIff(fragment, marker);
    }
    forall marker
      ensures MatchesMarker(u, u.ToLower(fragment), u.ToLower(marker))
         <==> FindsControl(u, u.ToLower(fragment), u.ToLower(marker))
    {
      FindsControlIs(u, u.ToLower(fragment), u.ToLower(marker));
    }
    FieldsOfTrim(fragment);
    FieldsCount(fragment);
    SymbolsCount(u, fragment);
    if fragment != "" {
      DensityIs(SymbolCount(u, fragment), |fragment|);
    } else {
      NoWords();
    }
  }

  lemma NoWords()
    ensures WordStarts("") == {} && |WordStarts("")| == 0
  {
  }
}
