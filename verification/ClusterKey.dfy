/** Cluster identity (internal/app/events/cluster.go): the text that is hashed into a cluster key. */
module ClusterKey {
  import opened Text
  import opened Sorting
  import opened Labels

  /** One done extraction, as clustering reads it. */
  datatype Extraction = Extraction(
    articleId: int,
    eventType: string,
    geoCluster: string,
    countries: seq<string>,
    sectors: seq<string>,
    industries: seq<string>,
    impactDirection: string,
    impactStrength: int,
    confidence: real,
    finishedAt: int)

  /** The text tables and the digest: SHA-256 in hexadecimal, taken to be free of collisions. */
  datatype Keying = Keying(unicode: Unicode, digest: string -> string) {
    ghost predicate Sound() {
      && unicode.Sound()
      && (forall s: string :: digest(s) != "")
      && (forall s: string, t: string :: digest(s) == digest(t) ==> s == t)
    }
  }

  ghost function Payload(u: Unicode, x: Extraction): string {
    Join([NormalizeString(u, x.eventType),
          NormalizeString(u, x.geoCluster),
          Join(LabelList(NormalSet(u, x.countries)), ","),
          Join(LabelList(NormalSet(u, x.sectors)), ","),
          Join(LabelList(NormalSet(u, x.industries)), ",")], "|")
  }

  ghost function Key(k: Keying, x: Extraction): string {
    k.digest(Payload(k.unicode, x))
  }

  method BuildClusterKey(k: Keying, x: Extraction) returns (key: string)
    ensures key == Key(k, x)
  {
    var countries := NormalizeStringSlice(k.unicode, x.countries);
    var sectors := NormalizeStringSlice(k.unicode, x.sectors);
    var industries := NormalizeStringSlice(k.unicode, x.industries);
    var payload := Join([NormalizeString(k.unicode, x.eventType),
                         NormalizeString(k.unicode, x.geoCluster),
                         Join(countries, ","),
                         Join(sectors, ","),
                         Join(industries, ",")], "|");
    return k.digest(payload);
  }

  /** What identifies a cluster: type, region and the three sets of labels, all normalised. */
  ghost predicate SameCluster(u: Unicode, x: Extraction, y: Extraction) {
    && NormalizeString(u, x.eventType) == NormalizeString(u, y.eventType)
    && NormalizeString(u, x.geoCluster) == NormalizeString(u, y.geoCluster)
    && NormalSet(u, x.countries) == NormalSet(u, y.countries)
    && NormalSet(u, x.sectors) == NormalSet(u, y.sectors)
    && NormalSet(u, x.industries) == NormalSet(u, y.industries)
  }

  /** Every label of the first list has a spelling variant in the second. */
  ghost predicate Covers(u: Unicode, a: seq<string>, b: seq<string>) {
    forall v :: v in a && NormalizeString(u, v) != "" ==> HasVariant(u, v, b)
  }

  ghost predicate HasVariant(u: Unicode, v: string, b: seq<string>) {
    exists w :: w in b && NormalizeString(u, w) == NormalizeString(u, v)
  }

  /** Two lists that agree up to order, repetition, blanks, letter case and padding. */
  ghost predicate SameLabels(u: Unicode, a: seq<string>, b: seq<string>) {
    Covers(u, a, b) && Covers(u, b, a)
  }

  lemma CoveredSet(u: Unicode, a: seq<string>, b: seq<string>)
    requires Covers(u, a, b)
    ensures NormalSet(u, a) <= NormalSet(u, b)
  {
    forall n | n in NormalSet(u, a) ensures n in NormalSet(u, b) {
      var v :| v in a && NormalizeString(u, v) != "" && NormalizeString(u, v) == n;
      assert HasVariant(u, v, b);
      var w :| w in b && NormalizeString(u, w) == NormalizeString(u, v);
    }
  }

  lemma SameLabelsSameSet(u: Unicode, a: seq<string>, b: seq<string>)
    requires SameLabels(u, a, b)
    ensures NormalSet(u, a) == NormalSet(u, b)
  {
    CoveredSet(u, a, b);
    CoveredSet(u, b, a);
  }

  /** Order, repetition, blanks, letter case and padding of labels do not change the payload. */
  lemma PayloadIgnoresSpelling(u: Unicode, x: Extraction, y: Extraction)
    requires NormalizeString(u, x.eventType) == NormalizeString(u, y.eventType)
    requires NormalizeString(u, x.geoCluster) == NormalizeString(u, y.geoCluster)
    requires SameLabels(u, x.countries, y.countries)
    requires SameLabels(u, x.sectors, y.sectors)
    requires SameLabels(u, x.industries, y.industries)
    ensures Payload(u, x) == Payload(u, y)
  {
    SameLabelsSameSet(u, x.countries, y.countries);
    SameLabelsSameSet(u, x.sectors, y.sectors);
    SameLabelsSameSet(u, x.industries, y.industries);
  }

  /** No bar, and every comma is followed by white space, as in the labels of the prompt. */
  ghost predicate PlainLabel(text: string) {
    && '|' !in text
    && forall i :: 0 <= i < |text| && text[i] == ',' ==> i + 1 < |text| && IsSpace(text[i + 1])
  }

  ghost predicate Plain(x: Extraction) {
    && '|' !in x.eventType && '|' !in x.geoCluster
    && (forall v :: v in x.countries ==> PlainLabel(TrimSpace(v)))
    && (forall v :: v in x.sectors ==> PlainLabel(TrimSpace(v)))
    && (forall v :: v in x.industries ==> PlainLabel(TrimSpace(v)))
  }

  ghost predicate PlainLabels(labels: seq<string>) {
    forall i :: 0 <= i < |labels| ==> labels[i] != "" && !IsSpace(labels[i][0]) && PlainLabel(labels[i])
  }

  lemma BarNotInside(a: string, r: string, b: string, q: string)
    requires '|' !in b
    requires a + "|" + r == b + "|" + q
    ensures |a| >= |b|
  {
    var s := a + "|" + r;
    assert s[|a|] == '|';
    assert forall i :: 0 <= i < |b| ==> s[i] == b[i];
  }

  /** Text without a bar can be read back up to the next bar. */
  lemma BarEndsFirst(a: string, r: string, b: string, q: string)
    requires '|' !in a && '|' !in b
    requires a + "|" + r == b + "|" + q
    ensures a == b && r == q
  {
    BarNotInside(a, r, b, q);
    BarNotInside(b, q, a, r);
    var s := a + "|" + r;
    assert a == s[..|a|] && b == s[..|b|];
    assert r == s[|a| + 1..] && q == s[|b| + 1..];
  }

  lemma JoinFive(a: string, b: string, c: string, d: string, e: string)
    ensures Join([a, b, c, d, e], "|") == a + "|" + (b + "|" + (c + "|" + (d + "|" + e)))
  {
    assert [a, b, c, d, e][1..] == [b, c, d, e];
    assert [b, c, d, e][1..] == [c, d, e];
    assert [c, d, e][1..] == [d, e];
    assert [d, e][1..] == [e];
    assert Join([d, e], "|") == d + "|" + e;
    assert Join([c, d, e], "|") == c + "|" + (d + "|" + e);
    assert Join([b, c, d, e], "|") == b + "|" + (c + "|" + (d + "|" + e));
  }

  lemma CommaNotInside(a: string, r: string, b: string, q: string)
    requires PlainLabel(b)
    requires a + r == b + q
    requires r == "" || (r[0] == ',' && |r| > 1 && !IsSpace(r[1]))
    ensures |a| >= |b|
  {
    var s := a + r;
    assert r != "" ==> s[|a|] == r[0] && s[|a| + 1] == r[1];
    assert forall i :: 0 <= i < |b| ==> s[i] == b[i];
    assert |s| == |a| + |r| == |b| + |q|;
  }

  /** A label list can be read back from its joined form: the first labels agree. */
  lemma CommaEndsFirst(a: string, r: string, b: string, q: string)
    requires PlainLabel(a) && PlainLabel(b)
    requires a + r == b + q
    requires r == "" || (r[0] == ',' && |r| > 1 && !IsSpace(r[1]))
    requires q == "" || (q[0] == ',' && |q| > 1 && !IsSpace(q[1]))
    ensures a == b && r == q
  {
    CommaNotInside(a, r, b, q);
    CommaNotInside(b, q, a, r);
    var s := a + r;
    assert a == s[..|a|] && b == s[..|b|];
    assert r == s[|a|..] && q == s[|b|..];
  }

  lemma JoinCons(labels: seq<string>)
    requires labels != []
    ensures Join(labels, ",") == labels[0] + (if |labels| == 1 then "" else "," + Join(labels[1..], ","))
  {
  }

  lemma JoinStart(labels: seq<string>)
    requires PlainLabels(labels) && labels != []
    ensures Join(labels, ",") != "" && Join(labels, ",")[0] == labels[0][0]
  {
    JoinCons(labels);
  }

  lemma {:induction false} JoinInjective(a: seq<string>, b: seq<string>)
    requires PlainLabels(a) && PlainLabels(b)
    requires Join(a, ",") == Join(b, ",")
    ensures a == b
    decreases |a|
  {
    if a == [] || b == [] {
      if a != [] {
        JoinStart(a);
      }
      if b != [] {
        JoinStart(b);
      }
    } else {
      JoinCons(a);
      JoinCons(b);
      var r := if |a| == 1 then "" else "," + Join(a[1..], ",");
      var q := if |b| == 1 then "" else "," + Join(b[1..], ",");
      if |a| > 1 {
        JoinStart(a[1..]);
      }
      if |b| > 1 {
        JoinStart(b[1..]);
      }
      CommaEndsFirst(a[0], r, b[0], q);
      if |a| > 1 {
        assert Join(a[1..], ",") == r[1..] && Join(b[1..], ",") == q[1..];
        JoinInjective(a[1..], b[1..]);
      }
      assert a == [a[0]] + a[1..] && b == [b[0]] + b[1..];
    }
  }

  lemma LowerKeepsPlain(u: Unicode, s: string)
    requires u.Sound()
    ensures '|' !in s ==> '|' !in u.ToLower(s)
    ensures PlainLabel(s) ==> PlainLabel(u.ToLower(s))
  {
    var t := u.ToLower(s);
    assert forall i :: 0 <= i < |s| ==> t[i] == u.lower(s[i]);
    if '|' !in s {
      forall i | 0 <= i < |t| ensures t[i] != '|' {
        assert s[i] in s;
      }
    }
  }

  lemma TrimKeepsBars(s: string)
    requires '|' !in s
    ensures '|' !in TrimSpace(s)
  {
    TrimLeftDrops(s);
    TrimRightDrops(TrimLeft(s));
  }

  lemma PlainList(u: Unicode, values: seq<string>)
    requires u.Sound()
    requires forall v :: v in values ==> PlainLabel(TrimSpace(v))
    ensures PlainLabels(LabelList(NormalSet(u, values)))
  {
    var list := LabelList(NormalSet(u, values));
    LabelListIs(NormalSet(u, values));
    forall i | 0 <= i < |list| ensures list[i] != "" && !IsSpace(list[i][0]) && PlainLabel(list[i]) {
      assert list[i] in Elems(list);
      var v :| v in values && NormalizeString(u, v) != "" && NormalizeString(u, v) == list[i];
      NormalizedIsNormal(u, v);
      LowerKeepsPlain(u, TrimSpace(v));
    }
  }

  lemma {:induction false} NoBarInJoin(labels: seq<string>)
    requires PlainLabels(labels)
    ensures '|' !in Join(labels, ",")
  {
    if |labels| == 1 {
      assert PlainLabel(labels[0]);
    } else if labels != [] {
      NoBarInJoin(labels[1..]);
      assert PlainLabel(labels[0]);
    }
  }

  lemma NoBarInName(u: Unicode, s: string)
    requires u.Sound() && '|' !in s
    ensures '|' !in NormalizeString(u, s)
  {
    TrimKeepsBars(s);
    LowerKeepsPlain(u, TrimSpace(s));
  }

  lemma JoinedFieldsEqual(a: seq<string>, b: seq<string>)
    requires |a| == |b| == 5
    requires forall i :: 0 <= i < 5 ==> '|' !in a[i] && '|' !in b[i]
    requires Join(a, "|") == Join(b, "|")
    ensures a == b
  {
    assert a == [a[0], a[1], a[2], a[3], a[4]] && b == [b[0], b[1], b[2], b[3], b[4]];
    JoinFive(a[0], a[1], a[2], a[3], a[4]);
    JoinFive(b[0], b[1], b[2], b[3], b[4]);
    BarEndsFirst(a[0], a[1] + "|" + (a[2] + "|" + (a[3] + "|" + a[4])),
                 b[0], b[1] + "|" + (b[2] + "|" + (b[3] + "|" + b[4])));
    BarEndsFirst(a[1], a[2] + "|" + (a[3] + "|" + a[4]), b[1], b[2] + "|" + (b[3] + "|" + b[4]));
    BarEndsFirst(a[2], a[3] + "|" + a[4], b[2], b[3] + "|" + b[4]);
    BarEndsFirst(a[3], a[4], b[3], b[4]);
  }

  lemma ListEqualSets(u: Unicode, a: seq<string>, b: seq<string>)
    requires LabelList(NormalSet(u, a)) == LabelList(NormalSet(u, b))
    ensures NormalSet(u, a) == NormalSet(u, b)
  {
    LabelListIs(NormalSet(u, a));
    LabelListIs(NormalSet(u, b));
  }

  ghost function PayloadParts(u: Unicode, x: Extraction): seq<string> {
    [NormalizeString(u, x.eventType),
     NormalizeString(u, x.geoCluster),
     Join(LabelList(NormalSet(u, x.countries)), ","),
     Join(LabelList(NormalSet(u, x.sectors)), ","),
     Join(LabelList(NormalSet(u, x.industries)), ",")]
  }

  lemma PlainParts(u: Unicode, x: Extraction)
    requires u.Sound() && Plain(x)
    ensures forall i :: 0 <= i < 5 ==> '|' !in PayloadParts(u, x)[i]
    ensures PlainLabels(LabelList(NormalSet(u, x.countries)))
    ensures PlainLabels(LabelList(NormalSet(u, x.sectors)))
    ensures PlainLabels(LabelList(NormalSet(u, x.industries)))
  {
    NoBarInName(u, x.eventType);
    NoBarInName(u, x.geoCluster);
    PlainList(u, x.countries);
    PlainList(u, x.sectors);
    PlainList(u, x.industries);
    NoBarInJoin(LabelList(NormalSet(u, x.countries)));
    NoBarInJoin(LabelList(NormalSet(u, x.sectors)));
    NoBarInJoin(LabelList(NormalSet(u, x.industries)));
  }

  /** For plain labels, equal payloads mean the same cluster, and the other way round. */
  lemma PayloadIff(u: Unicode, x: Extraction, y: Extraction)
    requires u.Sound() && Plain(x) && Plain(y)
    ensures Payload(u, x) == Payload(u, y) <==> SameCluster(u, x, y)
  {
    if Payload(u, x) == Payload(u, y) {
      PlainParts(u, x);
      PlainParts(u, y);
      JoinedFieldsEqual(PayloadParts(u, x), PayloadParts(u, y));
      JoinInjective(LabelList(NormalSet(u, x.countries)), LabelList(NormalSet(u, y.countries)));
      JoinInjective(LabelList(NormalSet(u, x.sectors)), LabelList(NormalSet(u, y.sectors)));
      JoinInjective(LabelList(NormalSet(u, x.industries)), LabelList(NormalSet(u, y.industries)));
      ListEqualSets(u, x.countries, y.countries);
      ListEqualSets(u, x.sectors, y.sectors);
      ListEqualSets(u, x.industries, y.industries);
    }
  }

  /** Equal keys of plain extractions mean the same cluster. */
  lemma KeyIff(k: Keying, x: Extraction, y: Extraction)
    requires k.Sound() && Plain(x) && Plain(y)
    ensures Key(k, x) == Key(k, y) <==> SameCluster(k.unicode, x, y)
  {
    PayloadIff(k.unicode, x, y);
    assert k.digest(Payload(k.unicode, x)) == k.digest(Payload(k.unicode, y))
      ==> Payload(k.unicode, x) == Payload(k.unicode, y);
  }

  lemma SingleLabel(u: Unicode, n: string)
    requires IsNormal(u, n)
    ensures NormalSet(u, [n]) == {n} && LabelList({n}) == [n] && Join([n], ",") == n
  {
    NormalIsFixed(u, n);
    assert [n][0] == n;
    LexTotal();
    assert Elems([n]) == {n};
    ListingOfElems([n], LexLess);
  }

  lemma TwoLabels(u: Unicode, a: string, b: string)
    requires IsNormal(u, a) && IsNormal(u, b) && LexLess(a, b)
    ensures NormalSet(u, [a, b]) == {a, b} && LabelList({a, b}) == [a, b] && Join([a, b], ",") == a + "," + b
  {
    NormalIsFixed(u, a);
    NormalIsFixed(u, b);
    assert [a, b][0] == a && [a, b][1] == b;
    LexTotal();
    assert Elems([a, b]) == {a, b};
    ListingOfElems([a, b], LexLess);
    assert [a, b][1..] == [b];
  }

  lemma GluedIsNormal(u: Unicode, a: string, c: char, b: string)
    requires IsNormal(u, a) && IsNormal(u, b) && u.lower(c) == c
    ensures IsNormal(u, a + [c] + b)
  {
    var n := a + [c] + b;
    assert n[0] == a[0] && n[|n| - 1] == b[|b| - 1];
    forall i | 0 <= i < |n| ensures u.lower(n[i]) == n[i] {
      if i < |a| {
        assert n[i] == a[i];
      } else if i > |a| {
        assert n[i] == b[i - |a| - 1];
      }
    }
  }

  /** Without the condition on commas it fails, for any two labels: the label "a,b", and the labels a and b. */
  lemma CommaCollision(u: Unicode, x: Extraction, y: Extraction, a: string, b: string)
    requires u.Sound() && IsNormal(u, a) && IsNormal(u, b) && LexLess(a, b)
    requires x.countries == [a + "," + b] && y == x.(countries := [a, b])
    ensures Payload(u, x) == Payload(u, y) && !SameCluster(u, x, y)
  {
    hide LexLess;
    assert u.lower(',') == ',';
    GluedIsNormal(u, a, ',', b);
    SingleLabel(u, a + "," + b);
    TwoLabels(u, a, b);
    assert |a + "," + b| > |a| && |a + "," + b| > |b|;
    assert a + "," + b !in {a, b};
  }

  /** And without the condition on bars: a bar in a label shifts the fields behind it. */
  lemma BarCollision(u: Unicode, x: Extraction, y: Extraction, a: string, b: string, c: string, d: string)
    requires u.Sound() && IsNormal(u, a) && IsNormal(u, b) && IsNormal(u, c) && IsNormal(u, d)
    requires x.countries == [a + "|" + b] && x.sectors == [c] && x.industries == [d]
    requires y == x.(countries := [a], sectors := [b], industries := [c + "|" + d])
    ensures Payload(u, x) == Payload(u, y) && !SameCluster(u, x, y)
  {
    hide LabelList, NormalSet, IsNormal;
    assert u.lower('|') == '|';
    GluedIsNormal(u, a, '|', b);
    GluedIsNormal(u, c, '|', d);
    SingleLabel(u, a);
    SingleLabel(u, b);
    SingleLabel(u, c);
    SingleLabel(u, d);
    SingleLabel(u, a + "|" + b);
    SingleLabel(u, c + "|" + d);
    var kind, geo := NormalizeString(u, x.eventType), NormalizeString(u, x.geoCluster);
    JoinFive(kind, geo, a + "|" + b, c, d);
    JoinFive(kind, geo, a, b, c + "|" + d);
    BarsRegroup(kind, geo, a, b, c, d);
    assert |a + "|" + b| > |a|;
    assert a + "|" + b !in {a};
  }

  /** The payload of an extraction with one label of each kind: the five fields in order, with bars between. */
  lemma PayloadOfSingles(u: Unicode, x: Extraction, country: string, sector: string, industry: string)
    requires IsNormal(u, country) && IsNormal(u, sector) && IsNormal(u, industry)
    requires x.countries == [country] && x.sectors == [sector] && x.industries == [industry]
    ensures Payload(u, x)
         == NormalizeString(u, x.eventType) + "|" + NormalizeString(u, x.geoCluster)
            + "|" + country + "|" + sector + "|" + industry
  {
    hide LabelList, NormalSet, IsNormal, NormalizeString;
    SingleLabel(u, country);
    SingleLabel(u, sector);
    SingleLabel(u, industry);
    JoinFive(NormalizeString(u, x.eventType), NormalizeString(u, x.geoCluster), country, sector, industry);
  }

  lemma BarsRegroup(kind: string, geo: string, a: string, b: string, c: string, d: string)
    ensures kind + "|" + (geo + "|" + ((a + "|" + b) + "|" + (c + "|" + d)))
         == kind + "|" + (geo + "|" + (a + "|" + (b + "|" + (c + "|" + d))))
  {
    assert (a + "|" + b) + "|" + (c + "|" + d) == a + "|" + (b + "|" + (c + "|" + d));
  }
}
