/**
 The key-value form of a PostgreSQL DSN (main.go): splitting at blanks that are neither quoted nor
 escaped.
 */
module Dsn {
  import opened Results

  predicate IsBlank(c: char) {
    c == ' ' || c == '\t' || c == '\n'
  }

  /** The scanner between two characters. */
  datatype Scan = Scan(parts: seq<string>, current: string, inQuote: bool, escaping: bool)

  function Flush(s: Scan): Scan {
    if |s.current| > 0 then s.(parts := s.parts + [s.current], current := "") else s
  }

  function Next(s: Scan, c: char): Scan {
    if s.escaping then s.(current := s.current + [c], escaping := false)
    else if c == '\\' then s.(current := s.current + [c], escaping := true)
    else if c == '\'' then s.(current := s.current + [c], inQuote := !s.inQuote)
    else if !s.inQuote && IsBlank(c) then Flush(s)
    else s.(current := s.current + [c])
  }

  const CLEAN := Scan([], "", false, false)

  function ScanAll(s: Scan, text: string): Scan {
    if text == "" then s else Next(ScanAll(s, text[..|text| - 1]), text[|text| - 1])
  }

  function Finish(s: Scan): Result<seq<string>> {
    if s.escaping then Err("unfinished escape sequence")
    else if s.inQuote then Err("unmatched quote")
    else Ok(Flush(s).parts)
  }

  function Split(dsn: string): Result<seq<string>> {
    Finish(ScanAll(CLEAN, dsn))
  }

  method SplitPostgresKVDSN(dsn: string) returns (r: Result<seq<string>>)
    ensures r == Split(dsn)
  {
    var parts: seq<string> := [];
    var current, inQuote, escaping := "", false, false;
    for i := 0 to |dsn|
      invariant Scan(parts, current, inQuote, escaping) == ScanAll(CLEAN, dsn[..i])
    {
      assert dsn[..i + 1][..i] == dsn[..i];
      var c := dsn[i];
      if escaping {
        current := current + [c];
        escaping := false;
      } else if c == '\\' {
        current := current + [c];
        escaping := true;
      } else if c == '\'' {
        current := current + [c];
        inQuote := !inQuote;
      } else if !inQuote && IsBlank(c) {
        if |current| > 0 {
          parts := parts + [current];
          current := "";
        }
      } else {
        current := current + [c];
      }
    }
    assert dsn[..|dsn|] == dsn;
    if escaping {
      return Err("unfinished escape sequence");
    }
    if inQuote {
      return Err("unmatched quote");
    }
    if |current| > 0 {
      parts := parts + [current];
    }
    return Ok(parts);
  }

  // What the positions of a text mean, without a scanner.

  /** The text ends with a backslash that escapes what would come next. */
  predicate EndsInEscape(text: string) {
    text != "" && text[|text| - 1] == '\\' && !EndsInEscape(text[..|text| - 1])
  }

  /** The text ends inside a quote: an odd number of quotes that are not escaped. */
  predicate EndsInQuote(text: string) {
    && text != ""
    && var front := text[..|text| - 1];
       EndsInQuote(front) != (text[|text| - 1] == '\'' && !EndsInEscape(front))
  }

  /** The characters that are not separators, in order. */
  function Ink(text: string): string {
    if text == "" then ""
    else
      var front, c := text[..|text| - 1], text[|text| - 1];
      Ink(front) + (if c in {' ', '\t', '\n'} && !EndsInQuote(front) && !EndsInEscape(front) then "" else [c])
  }

  function Concat(parts: seq<string>): string {
    if parts == [] then "" else Concat(parts[..|parts| - 1]) + parts[|parts| - 1]
  }

  lemma ConcatSnoc(parts: seq<string>, p: string)
    ensures Concat(parts + [p]) == Concat(parts) + p
  {
    assert (parts + [p])[..|parts|] == parts;
  }

  lemma {:induction false} ScanIs(text: string)
    ensures var s := ScanAll(CLEAN, text);
            && s.escaping == EndsInEscape(text)
            && s.inQuote == EndsInQuote(text)
            && Concat(s.parts) + s.current == Ink(text)
            && forall i :: 0 <= i < |s.parts| ==> s.parts[i] != ""
  {
    if text != "" {
      var front := text[..|text| - 1];
      ScanIs(front);
      var s := ScanAll(CLEAN, front);
      ConcatSnoc(s.parts, s.current);
    }
  }

  /** Splitting fails exactly on texts that end inside a quote or an escape. */
  lemma FailsIff(dsn: string)
    ensures Split(dsn).Err? <==> EndsInEscape(dsn) || EndsInQuote(dsn)
  {
    ScanIs(dsn);
  }

  /** The parts are not empty, and together they are the text without its separators. */
  lemma PartsAreInk(dsn: string)
    requires Split(dsn).Ok?
    ensures Concat(Split(dsn).value) == Ink(dsn)
    ensures forall i :: 0 <= i < |Split(dsn).value| ==> Split(dsn).value[i] != ""
  {
    ScanIs(dsn);
    var s := ScanAll(CLEAN, dsn);
    ConcatSnoc(s.parts, s.current);
  }

  /** A text that the scanner reads as one piece, from outside a quote to outside a quote. */
  predicate IsPiece(text: string, inQuote: bool, escaping: bool) {
    text != "" && ScanAll(CLEAN, text) == Scan([], text, inQuote, escaping)
  }

  lemma {:induction false} ScanConcat(s: Scan, a: string, b: string)
    ensures ScanAll(s, a + b) == ScanAll(ScanAll(s, a), b)
    decreases |b|
  {
    if b == "" {
      assert a + b == a;
    } else {
      ScanConcat(s, a, b[..|b| - 1]);
      assert (a + b)[..|a + b| - 1] == a + b[..|b| - 1];
    }
  }

  /** A scan does not look at the parts it has already. */
  lemma {:induction false} ScanAfterParts(parts: seq<string>, text: string)
    ensures var s := ScanAll(CLEAN, text);
            ScanAll(Scan(parts, "", false, false), text) == Scan(parts + s.parts, s.current, s.inQuote, s.escaping)
  {
    if text != "" {
      ScanAfterParts(parts, text[..|text| - 1]);
    }
  }

  /** Every part that a scan yields is a piece, and so is what it has collected. */
  lemma {:induction false} ScanYieldsPieces(text: string)
    ensures var s := ScanAll(CLEAN, text);
            && (forall i :: 0 <= i < |s.parts| ==> IsPiece(s.parts[i], false, false))
            && (if s.current == "" then !s.inQuote && !s.escaping else IsPiece(s.current, s.inQuote, s.escaping))
  {
    if text != "" {
      var front, c := text[..|text| - 1], text[|text| - 1];
      ScanYieldsPieces(front);
      hide IsPiece;
      var s := ScanAll(CLEAN, front);
      PieceGrows(s.current, s.inQuote, s.escaping, c);
    }
  }

  lemma PieceGrows(current: string, inQuote: bool, escaping: bool, c: char)
    requires if current == "" then !inQuote && !escaping else IsPiece(current, inQuote, escaping)
    ensures var s := Next(Scan([], current, inQuote, escaping), c);
            s.parts == [] && s.current != "" ==> IsPiece(s.current, s.inQuote, s.escaping)
  {
    assert (current + [c])[..|current|] == current;
    assert ScanAll(CLEAN, "") == CLEAN;
  }

  /** The parts joined by single blanks scan back to the same parts. */
  lemma {:induction false} ScanOfJoin(parts: seq<string>)
    requires parts != [] && forall i :: 0 <= i < |parts| ==> IsPiece(parts[i], false, false)
    ensures ScanAll(CLEAN, Joined(parts)) == Scan(parts[..|parts| - 1], parts[|parts| - 1], false, false)
  {
    hide ScanAll;
    var n := |parts| - 1;
    assert ScanAll(CLEAN, parts[n]) == Scan([], parts[n], false, false);
    if n > 0 {
      var front := parts[..n];
      ScanOfJoin(front);
      ScanConcat(CLEAN, Joined(front), " ");
      ScanConcat(CLEAN, Joined(front) + " ", parts[n]);
      BlankEndsPart(front);
      ScanAfterParts(front, parts[n]);
      assert front + [] == front;
    }
  }

  lemma BlankEndsPart(parts: seq<string>)
    requires parts != [] && parts[|parts| - 1] != ""
    ensures ScanAll(Scan(parts[..|parts| - 1], parts[|parts| - 1], false, false), " ") == Scan(parts, "", false, false)
  {
    assert " "[..0] == "";
    assert parts[..|parts| - 1] + [parts[|parts| - 1]] == parts;
  }

  function Joined(parts: seq<string>): string {
    if parts == [] then ""
    else if |parts| == 1 then parts[0]
    else Joined(parts[..|parts| - 1]) + " " + parts[|parts| - 1]
  }

  lemma NothingJoined()
    ensures Split(Joined([])) == Ok([])
  {
  }

  /** Round trip: the parts of a DSN, joined by one blank, split into the same parts. */
  lemma RoundTrip(dsn: string)
    requires Split(dsn).Ok?
    ensures Split(Joined(Split(dsn).value)) == Split(dsn)
  {
    hide ScanAll, Joined;
    ScanYieldsPieces(dsn);
    var s := ScanAll(CLEAN, dsn);
    var parts := Split(dsn).value;
    NothingJoined();
    if parts != [] {
      ScanOfJoin(parts);
      assert parts[..|parts| - 1] + [parts[|parts| - 1]] == parts;
    }
  }
}
