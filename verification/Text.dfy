/**
 The string helpers the program takes from Go's standard library, on text as a sequence of
 Unicode code points. White space is Go's `unicode.IsSpace`. The letter tables of Unicode are not
 spelled out: `Unicode` carries them as functions, and `Sound` lists what is used of them.
 */
module Text {
  predicate IsSpace(c: char) {
    || '\t' <= c <= '\r'
    || c == ' '
    || c == '\U{85}'
    || c == '\U{A0}'
    || c == '\U{1680}'
    || '\U{2000}' <= c <= '\U{200A}'
    || c == '\U{2028}'
    || c == '\U{2029}'
    || c == '\U{202F}'
    || c == '\U{205F}'
    || c == '\U{3000}'
  }

  datatype Unicode = Unicode(lower: char -> char, isLetter: char -> bool, isDigit: char -> bool) {
    /** Lower-casing is idempotent, and neither makes nor removes spaces, commas or bars. */
    ghost predicate Sound() {
      && (forall c: char :: lower(lower(c)) == lower(c))
      && (forall c: char :: IsSpace(lower(c)) <==> IsSpace(c))
      && (forall c: char :: lower(c) == ',' <==> c == ',')
      && (forall c: char :: lower(c) == '|' <==> c == '|')
    }

    function ToLower(s: string): (r: string) {
      seq(|s|, i requires 0 <= i < |s| => lower(s[i]))
    }
  }

  function TrimLeft(s: string): (r: string)
  {
    if s != [] && IsSpace(s[0]) then TrimLeft(s[1..]) else s
  }

  function TrimRight(s: string): (r: string)
  {
    if s != [] && IsSpace(s[|s| - 1]) then TrimRight(s[..|s| - 1]) else s
  }

  function TrimSpace(s: string): (r: string) {
    TrimRight(TrimLeft(s))
  }

  /** Left-trimming drops exactly the leading white space. */
  lemma {:induction false} TrimLeftDrops(s: string)
    ensures var r := TrimLeft(s);
            && |r| <= |s|
            && r == s[|s| - |r|..]
            && (forall i :: 0 <= i < |s| - |r| ==> IsSpace(s[i]))
            && (r != [] ==> !IsSpace(r[0]))
  {
    if s != [] && IsSpace(s[0]) {
      var t := s[1..];
      var r := TrimLeft(t);
      TrimLeftDrops(t);
      assert t[|t| - |r|..] == s[|s| - |r|..];
      forall i | 0 <= i < |s| - |r| ensures IsSpace(s[i]) {
        assert i > 0 ==> s[i] == t[i - 1];
      }
    }
  }

  /** Right-trimming drops exactly the trailing white space. */
  lemma {:induction false} TrimRightDrops(s: string)
    ensures var r := TrimRight(s);
            && |r| <= |s|
            && r == s[..|r|]
            && (forall i :: |r| <= i < |s| ==> IsSpace(s[i]))
            && (r != [] ==> !IsSpace(r[|r| - 1]))
  {
    if s != [] && IsSpace(s[|s| - 1]) {
      TrimRightDrops(s[..|s| - 1]);
    }
  }

  /** The length of the word a text starts with. */
  function WordLength(s: string): (n: nat)
    ensures n <= |s|
    ensures forall i :: 0 <= i < n ==> !IsSpace(s[i])
    ensures n < |s| ==> IsSpace(s[n])
  {
    if s == [] || IsSpace(s[0]) then 0 else 1 + WordLength(s[1..])
  }

  /** The maximal runs of non-space characters. */
  function Fields(s: string): (r: seq<string>) {
    if s == [] then []
    else if IsSpace(s[0]) then Fields(s[1..])
    else [s[..WordLength(s)]] + Fields(s[WordLength(s)..])
  }

  function Join(parts: seq<string>, sep: string): (r: string) {
    if parts == [] then ""
    else if |parts| == 1 then parts[0]
    else parts[0] + sep + Join(parts[1..], sep)
  }

  predicate HasPrefix(s: string, p: string) {
    |p| <= |s| && s[..|p|] == p
  }

  predicate Contains(s: string, p: string) {
    HasPrefix(s, p) || (s != [] && Contains(s[1..], p))
  }

  /** The text is there from a position on. */
  predicate IsAt(s: string, i: nat, part: string) {
    i + |part| <= |s| && s[i..i + |part|] == part
  }

  ghost predicate Occurs(part: string, s: string) {
    exists i: nat :: IsAt(s, i, part)
  }

  lemma IsAtTail(s: string, i: nat, part: string)
    requires s != []
    ensures IsAt(s[1..], i, part) <==> IsAt(s, i + 1, part)
  {
    if i + 1 + |part| <= |s| {
      assert s[1..][i..i + |part|] == s[i + 1..i + 1 + |part|];
    }
  }

  lemma {:induction false} ContainsIff(s: string, part: string)
    ensures Contains(s, part) <==> Occurs(part, s)
    decreases |s|
  {
    if HasPrefix(s, part) {
      assert IsAt(s, 0, part);
    } else if s == [] {
      assert forall i: nat :: IsAt(s, i, part) ==> i == 0 && part == [];
    } else {
      ContainsIff(s[1..], part);
      if i: nat :| IsAt(s[1..], i, part) {
        IsAtTail(s, i, part);
      }
      if i: nat :| IsAt(s, i, part) {
        assert s[..|part|] == s[0..|part|];
        IsAtTail(s, i - 1, part);
      }
    }
  }

  ghost predicate NoSpace(s: string) {
    forall c :: c in s ==> !IsSpace(c)
  }

  /** A text with no space at either end is its own trimming. */
  lemma TrimmedIsFixed(s: string)
    requires s == [] || (!IsSpace(s[0]) && !IsSpace(s[|s| - 1]))
    ensures TrimSpace(s) == s
  {
  }

  lemma {:induction false} FieldsOfTrimRight(s: string)
    requires s != [] && IsSpace(s[|s| - 1])
    ensures Fields(s[..|s| - 1]) == Fields(s)
  {
    hide WordLength;
    var front := s[..|s| - 1];
    if IsSpace(s[0]) {
      if |s| > 1 {
        FieldsOfTrimRight(s[1..]);
        assert s[1..][..|s| - 2] == front[1..];
      }
    } else {
      var n := WordLength(s);
      WordPrefix(front, s);
      assert s[..n] == front[..n];
      FieldsOfTrimRight(s[n..]);
      assert s[n..][..|s| - n - 1] == front[n..];
    }
  }

  lemma {:induction false} WordPrefix(a: string, s: string)
    requires |a| <= |s| && a == s[..|a|] && WordLength(s) <= |a|
    ensures WordLength(a) == WordLength(s)
  {
    if a != [] && !IsSpace(a[0]) {
      WordPrefix(a[1..], s[1..]);
    }
  }

  lemma {:induction false} FieldsOfTrimLeft(s: string)
    ensures Fields(TrimLeft(s)) == Fields(s)
  {
    if s != [] && IsSpace(s[0]) {
      FieldsOfTrimLeft(s[1..]);
    }
  }

  lemma {:induction false} FieldsOfTrimRights(s: string)
    ensures Fields(TrimRight(s)) == Fields(s)
  {
    if s != [] && IsSpace(s[|s| - 1]) {
      FieldsOfTrimRight(s);
      FieldsOfTrimRights(s[..|s| - 1]);
    }
  }

  /** Trimming does not change the words of a text. */
  lemma FieldsOfTrim(s: string)
    ensures Fields(TrimSpace(s)) == Fields(s)
  {
    FieldsOfTrimLeft(s);
    FieldsOfTrimRights(TrimLeft(s));
  }

  /** The fields of a text are non-empty and hold no space. */
  lemma {:induction false} FieldsAreWords(s: string)
    ensures forall i :: 0 <= i < |Fields(s)| ==> Fields(s)[i] != [] && NoSpace(Fields(s)[i])
    decreases |s|
  {
    if s != [] && IsSpace(s[0]) {
      FieldsAreWords(s[1..]);
    } else if s != [] {
      var n := WordLength(s);
      FieldsAreWords(s[n..]);
      assert NoSpace(s[..n]);
    }
  }
}
