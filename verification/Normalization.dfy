/** Text normalisation (internal/preprocess): white space collapsed, none before punctuation. */
module Normalization {
  import opened Text

  /** The characters the replacer pulls back over a preceding space. */
  predicate IsPunct(c: char) {
    c == ',' || c == '.' || c == '!' || c == '?' || c == ';' || c == ':'
  }

  /** The string replacer: scanning left to right, " x" becomes "x" for punctuation x. */
  function Tighten(s: string): (r: string) {
    if s == [] then []
    else if |s| >= 2 && s[0] == ' ' && IsPunct(s[1]) then [s[1]] + Tighten(s[2..])
    else [s[0]] + Tighten(s[1..])
  }

  function Normalize(text: string): (r: string) {
    var trimmed := TrimSpace(text);
    if trimmed == "" then ""
    else TrimSpace(Tighten(Join(Fields(trimmed), " ")))
  }

  /** Words put together with one space each, except that punctuation attaches to the left. */
  function TightJoin(parts: seq<string>): (r: string) {
    if parts == [] then ""
    else if |parts| == 1 then parts[0]
    else parts[0] + Gap(parts[1]) + TightJoin(parts[1..])
  }

  function Gap(next: string): (g: string) {
    if next != [] && IsPunct(next[0]) then "" else " "
  }

  /** Every space is a single blank inside the text. */
  ghost predicate SingleSpaced(s: string) {
    && (s != [] ==> !IsSpace(s[0]))
    && forall i :: 0 <= i < |s| && IsSpace(s[i]) ==> s[i] == ' ' && i + 1 < |s| && !IsSpace(s[i + 1])
  }

  /** Every space is a single blank inside the text and not before punctuation. */
  ghost predicate Clean(s: string) {
    && (s != [] ==> !IsSpace(s[0]))
    && BlanksBetween(s)
  }

  ghost predicate BlanksBetween(s: string) {
    forall i :: 0 <= i < |s| && IsSpace(s[i]) ==>
                  s[i] == ' ' && i + 1 < |s| && !IsSpace(s[i + 1]) && !IsPunct(s[i + 1])
  }

  ghost predicate CleanParts(parts: seq<string>) {
    forall i :: 0 <= i < |parts| ==> parts[i] != [] && Clean(parts[i])
  }

  lemma {:induction false} TightenAppend(a: string, b: string)
    requires BlanksBetween(a)
    ensures Tighten(a + b) == a + Tighten(b)
  {
    if a == [] {
      assert a + b == b;
    } else {
      assert (a + b)[1..] == a[1..] + b;
      assert a[0] == ' ' ==> IsSpace(a[0]);
      assert BlanksBetween(a[1..]) by {
        assert forall i :: 0 <= i < |a| - 1 ==> a[1..][i] == a[i + 1];
      }
      TightenAppend(a[1..], b);
      assert Tighten(a + b) == [a[0]] + Tighten((a + b)[1..]);
    }
  }

  /** A clean text has nothing left to tighten. */
  lemma TightenClean(s: string)
    requires Clean(s)
    ensures Tighten(s) == s
  {
    TightenAppend(s, "");
    assert s + "" == s;
  }

  lemma {:induction false} TightenJoin(parts: seq<string>)
    requires CleanParts(parts)
    ensures Tighten(Join(parts, " ")) == TightJoin(parts)
  {
    if |parts| == 1 {
      TightenClean(parts[0]);
    } else if |parts| > 1 {
      var rest := Join(parts[1..], " ");
      TightenJoin(parts[1..]);
      assert rest != [] && rest[0] == parts[1][0];
      TightenAppend(parts[0], " " + rest);
      assert parts[0] + " " + rest == parts[0] + (" " + rest);
      assert (" " + rest)[1..] == rest && (" " + rest)[2..] == rest[1..];
    }
  }

  lemma CleanGlue(a: string, b: string)
    requires Clean(a) && Clean(b) && a != [] && b != []
    ensures Clean(a + Gap(b) + b)
  {
    var s := a + Gap(b) + b;
    forall i | 0 <= i < |s| && IsSpace(s[i])
      ensures s[i] == ' ' && i + 1 < |s| && !IsSpace(s[i + 1]) && !IsPunct(s[i + 1])
    {
      if i < |a| {
        assert s[i] == a[i] && s[i + 1] == a[i + 1];
      } else if i >= |a + Gap(b)| {
        var j := i - |a + Gap(b)|;
        assert s[i] == b[j] && s[i + 1] == b[j + 1];
      }
    }
  }

  lemma {:induction false} TightJoinClean(parts: seq<string>)
    requires CleanParts(parts)
    ensures Clean(TightJoin(parts))
    ensures parts != [] ==> TightJoin(parts) != [] && TightJoin(parts)[0] == parts[0][0]
  {
    if |parts| > 1 {
      TightJoinClean(parts[1..]);
      CleanGlue(parts[0], TightJoin(parts[1..]));
    }
  }

  /** The first word of a text and the rest, as the words of the text see it. */
  lemma FirstField(s: string, n: nat)
    requires n == WordLength(s) && 0 < n < |s|
    ensures Fields(s) == [s[..n]] + Fields(s[n + 1..])
  {
    hide WordLength;
    var rest := s[n..];
    assert rest[0] == s[n] && IsSpace(rest[0]);
    assert rest[1..] == s[n + 1..];
    assert Fields(rest) == Fields(rest[1..]);
  }

  lemma OnlyField(s: string)
    requires s != [] && WordLength(s) == |s|
    ensures Fields(s) == [s]
  {
    hide WordLength;
    assert s[..|s|] == s && s[|s|..] == [];
  }

  lemma JoinFirst(word: string, words: seq<string>)
    ensures Join([word] + words, " ") == if words == [] then word else word + " " + Join(words, " ")
  {
    assert ([word] + words)[1..] == words;
  }

  lemma SingleSpacedAfter(s: string, n: nat)
    requires SingleSpaced(s) && n < |s| && IsSpace(s[n])
    ensures s[n] == ' ' && n + 1 < |s| && SingleSpaced(s[n + 1..])
  {
    var rest := s[n + 1..];
    assert forall i :: 0 <= i < |rest| ==> rest[i] == s[n + 1 + i];
  }

  lemma StartsWithWord(s: string)
    requires SingleSpaced(s) && s != []
    ensures WordLength(s) > 0
  {
  }

  lemma {:induction false} JoinOfFields(s: string)
    requires SingleSpaced(s)
    ensures Join(Fields(s), " ") == s
    decreases |s|
  {
    hide WordLength, Fields, Join, SingleSpaced;
    if s == [] {
      NoFields();
    } else {
      var n := WordLength(s);
      StartsWithWord(s);
      if n < |s| {
        SingleSpacedAfter(s, n);
        FirstField(s, n);
        JoinOfFields(s[n + 1..]);
        JoinFirst(s[..n], Fields(s[n + 1..]));
        NothingJoins(Fields(s[n + 1..]));
        assert s == s[..n] + " " + s[n + 1..];
      } else {
        OnlyField(s);
        JoinFirst(s, []);
        assert [s] + [] == [s];
      }
    }
  }

  lemma NoFields()
    ensures Join(Fields(""), " ") == ""
  {
  }

  lemma NothingJoins(words: seq<string>)
    requires Join(words, " ") != ""
    ensures words != []
  {
  }

  lemma SpacedEnds(s: string)
    requires SingleSpaced(s)
    ensures TrimSpace(s) == s
  {
    assert s != [] ==> !IsSpace(s[|s| - 1]);
    TrimmedIsFixed(s);
  }

  /** Normalisation is the words of the text, joined with punctuation attached to the left. */
  lemma NormalizeIsTightJoin(text: string)
    ensures Normalize(text) == TightJoin(Fields(text))
  {
    FieldsOfTrim(text);
    FieldsAreWords(text);
    var words := Fields(text);
    assert CleanParts(words) by {
      forall i | 0 <= i < |words| ensures words[i] != [] && Clean(words[i]) {
        assert forall j :: 0 <= j < |words[i]| ==> words[i][j] in words[i];
      }
    }
    TightenJoin(words);
    TightJoinClean(words);
    SpacedEnds(TightJoin(words));
  }

  /** What normalisation returns is clean. */
  lemma NormalizeClean(text: string)
    ensures Clean(Normalize(text))
  {
    NormalizeIsTightJoin(text);
    FieldsAreWords(text);
    var words := Fields(text);
    forall i | 0 <= i < |words| ensures words[i] != [] && Clean(words[i]) {
      assert forall j :: 0 <= j < |words[i]| ==> words[i][j] in words[i];
    }
    TightJoinClean(words);
  }

  /** Clean texts are exactly the texts that normalisation leaves alone. */
  lemma CleanIffNormal(s: string)
    ensures Clean(s) <==> Normalize(s) == s
  {
    NormalizeClean(s);
    if Clean(s) {
      SpacedEnds(s);
      JoinOfFields(s);
      TightenClean(s);
    }
  }

  /** Normalising twice is normalising once. */
  lemma NormalizeIdempotent(text: string)
    ensures Normalize(Normalize(text)) == Normalize(text)
  {
    NormalizeClean(text);
    CleanIffNormal(Normalize(text));
  }

  /** Normalising clean parts joined by blanks only closes the gaps before punctuation. */
  lemma NormalizeJoin(parts: seq<string>)
    requires CleanParts(parts)
    ensures Normalize(Join(parts, " ")) == TightJoin(parts)
  {
    var s := Join(parts, " ");
    JoinSingleSpaced(parts);
    SpacedEnds(s);
    JoinOfFields(s);
    TightenJoin(parts);
    TightJoinClean(parts);
    SpacedEnds(TightJoin(parts));
  }

  lemma {:induction false} JoinSingleSpaced(parts: seq<string>)
    requires CleanParts(parts)
    ensures SingleSpaced(Join(parts, " "))
    ensures parts != [] ==> Join(parts, " ") != [] && Join(parts, " ")[0] == parts[0][0]
  {
    if |parts| > 1 {
      JoinSingleSpaced(parts[1..]);
      var a, b := parts[0], Join(parts[1..], " ");
      var s := a + " " + b;
      forall i | 0 <= i < |s| && IsSpace(s[i])
        ensures s[i] == ' ' && i + 1 < |s| && !IsSpace(s[i + 1])
      {
        if i < |a| {
          assert s[i] == a[i] && s[i + 1] == a[i + 1];
        } else if i > |a| {
          var j := i - |a| - 1;
          assert s[i] == b[j] && s[i + 1] == b[j + 1];
        }
      }
    }
  }

  /** The characters of a text without its white space. */
  ghost function Ink(s: string): string {
    if s == [] then [] else if IsSpace(s[0]) then Ink(s[1..]) else [s[0]] + Ink(s[1..])
  }

  lemma {:induction false} InkConcat(a: string, b: string)
    ensures Ink(a + b) == Ink(a) + Ink(b)
  {
    if a == [] {
      assert a + b == b;
    } else {
      assert (a + b)[1..] == a[1..] + b;
      InkConcat(a[1..], b);
    }
  }

  lemma {:induction false} InkOfTightJoin(parts: seq<string>)
    requires |parts| > 1
    ensures Ink(TightJoin(parts)) == Ink(parts[0]) + Ink(TightJoin(parts[1..]))
  {
    var rest := TightJoin(parts[1..]);
    InkConcat(parts[0] + Gap(parts[1]), rest);
    InkConcat(parts[0], Gap(parts[1]));
    assert Ink(" ") == "" by {
      assert " "[1..] == "";
    }
  }

  lemma {:induction false} InkOfFields(s: string)
    ensures Ink(TightJoin(Fields(s))) == Ink(s)
    decreases |s|
  {
    if s != [] && IsSpace(s[0]) {
      InkOfFields(s[1..]);
    } else if s != [] {
      var n := WordLength(s);
      InkOfFields(s[n..]);
      assert s == s[..n] + s[n..];
      InkConcat(s[..n], s[n..]);
      var words := Fields(s);
      assert words[1..] == Fields(s[n..]);
      if |words| > 1 {
        InkOfTightJoin(words);
      } else {
        assert Fields(s[n..]) == [];
      }
    }
  }

  /** Normalisation never adds, drops or reorders a visible character. */
  lemma NormalizeKeepsInk(text: string)
    ensures Ink(Normalize(text)) == Ink(text)
  {
    NormalizeIsTightJoin(text);
    InkOfFields(text);
  }

  lemma SmallParts(c: char)
    requires !IsSpace(c)
    ensures CleanParts(["a", [c], "b"]) && !IsPunct('b')
  {
    assert !IsSpace('a') && !IsSpace('b');
  }

  /** A single character between two words: punctuation goes to the word before it, anything else stays. */
  lemma PunctuationIs(c: char)
    requires !IsSpace(c)
    ensures Normalize("a " + [c] + " b")
         == if c in {',', '.', '!', '?', ';', ':'} then "a" + [c] + " b" else "a " + [c] + " b"
  {
    hide Normalize, IsSpace, Tighten;
    var parts := ["a", [c], "b"];
    SmallParts(c);
    assert parts[1..][1..] == ["b"];
    assert parts[2..] == ["b"] && Join(["b"], " ") == "b";
    assert parts[1..] == [[c], "b"] && Join(parts[1..], " ") == [c] + " " + "b";
    assert Join(parts, " ") == "a" + " " + ([c] + " " + "b");
    assert "a" + " " + ([c] + " " + "b") == "a " + [c] + " b";
    NormalizeJoin(parts);
    assert TightJoin(parts[1..]) == [c] + " " + "b";
    assert TightJoin(parts) == "a" + Gap([c]) + ([c] + " " + "b");
    assert "a" + "" + ([c] + " " + "b") == "a" + [c] + " b";
  }
}
