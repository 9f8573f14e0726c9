/**
 The in-flight gauge (internal/observability/telemetry.go): counts per route, and the rule that a
 count that fell to zero is reported once more before it is forgotten.
 */
module InFlight {
  datatype Key = Key(httpMethod: string, route: string)

  class InFlightTracker {
    var counts: map<Key, int>
    var pendingZeroEmit: set<Key>

    constructor ()
      ensures counts == map[] && pendingZeroEmit == {}
    {
      counts, pendingZeroEmit := map[], {};
    }

    ghost function State(): Gauge
      reads this
    {
      Gauge(counts, pendingZeroEmit)
    }

    method Increment(httpMethod: string, route: string)
      modifies this
      ensures State() == Step(old(State()), Inc(Key(httpMethod, route)))
    {
      var key := Key(httpMethod, route);
      counts := counts[key := (if key in counts then counts[key] else 0) + 1];
      pendingZeroEmit := pendingZeroEmit - {key};
    }

    method Decrement(httpMethod: string, route: string)
      modifies this
      ensures State() == Step(old(State()), Dec(Key(httpMethod, route)))
    {
      var key := Key(httpMethod, route);
      var current := if key in counts then counts[key] else 0;
      if current <= 1 {
        counts := counts[key := 0];
        pendingZeroEmit := pendingZeroEmit + {key};
        return;
      }
      counts := counts[key := current - 1];
    }

    /** The loop deletes from the map it walks over, so what it clones and what stays differ. */
    method Snapshot() returns (cloned: map<Key, int>)
      modifies this
      ensures cloned == old(counts)
      ensures State() == Step(old(State()), Snap)
    {
      hide Step, Drops;
      cloned := map[];
      var rest := counts.Keys;
      ghost var start, gone: set<Key> := State(), {};
      while rest != {}
        invariant rest <= start.counts.Keys && gone !! rest
        invariant cloned == start.counts - rest
        invariant counts == start.counts - gone && pendingZeroEmit == start.pending - gone
        invariant forall key :: key in gone <==> key in start.counts && key !in rest && Drops(start, key)
        decreases |rest|
      {
        var key :| key in rest;
        DropsIs(start, key);
        CloneOne(start.counts, rest, key);
        DropOne(start, gone, key);
        var value := counts[key];
        cloned := cloned[key := value];
        if value == 0 {
          if key in pendingZeroEmit {
            counts := counts - {key};
            pendingZeroEmit := pendingZeroEmit - {key};
            gone := gone + {key};
          }
        }
        rest := rest - {key};
      }
      SnapIs(start, gone);
    }
  }

  datatype Gauge = Gauge(counts: map<Key, int>, pending: set<Key>)

  datatype Event = Inc(key: Key) | Dec(key: Key) | Snap

  function CountOf(g: Gauge, key: Key): int {
    if key in g.counts then g.counts[key] else 0
  }

  predicate Drops(g: Gauge, key: Key) {
    key in g.counts && g.counts[key] == 0 && key in g.pending
  }

  function Step(g: Gauge, e: Event): Gauge {
    match e
    case Inc(key) => Gauge(g.counts[key := CountOf(g, key) + 1], g.pending - {key})
    case Dec(key) =>
      if CountOf(g, key) <= 1 then Gauge(g.counts[key := 0], g.pending + {key})
      else Gauge(g.counts[key := CountOf(g, key) - 1], g.pending)
    case Snap =>
      Gauge(map key | key in g.counts && !Drops(g, key) :: g.counts[key],
            set key | key in g.pending && !Drops(g, key))
  }

  lemma CloneOne(counts: map<Key, int>, rest: set<Key>, key: Key)
    requires key in rest && key in counts
    ensures (counts - rest)[key := counts[key]] == counts - (rest - {key})
  {
  }

  lemma DropOne(g: Gauge, gone: set<Key>, key: Key)
    requires key !in gone
    ensures key in g.counts ==> key in g.counts - gone && (g.counts - gone)[key] == g.counts[key]
    ensures (g.counts - gone) - {key} == g.counts - (gone + {key})
    ensures (g.pending - gone) - {key} == g.pending - (gone + {key})
  {
    assert ((g.counts - gone) - {key}).Keys == (g.counts - (gone + {key})).Keys;
  }

  lemma DropsIs(g: Gauge, key: Key)
    ensures Drops(g, key) <==> key in g.counts && g.counts[key] == 0 && key in g.pending
  {
  }

  lemma SnapIs(g: Gauge, gone: set<Key>)
    requires forall key :: key in gone <==> key in g.counts && Drops(g, key)
    ensures Gauge(g.counts - gone, g.pending - gone) == Step(g, Snap)
  {
    var next := Step(g, Snap);
    assert (g.counts - gone).Keys == next.counts.Keys;
    assert g.counts - gone == next.counts;
    assert g.pending - gone == next.pending;
  }

  const EMPTY := Gauge(map[], {})

  /** The tracker after any sequence of calls; the mutex makes each of them one step. */
  function After(trace: seq<Event>): Gauge {
    if trace == [] then EMPTY else Step(After(trace[..|trace| - 1]), trace[|trace| - 1])
  }

  function Incs(trace: seq<Event>, key: Key): nat {
    if trace == [] then 0
    else Incs(trace[..|trace| - 1], key) + (if trace[|trace| - 1] == Inc(key) then 1 else 0)
  }

  function Decs(trace: seq<Event>, key: Key): nat {
    if trace == [] then 0
    else Decs(trace[..|trace| - 1], key) + (if trace[|trace| - 1] == Dec(key) then 1 else 0)
  }

  /** The requests in flight, if a decrement without a request is ignored. */
  function Level(trace: seq<Event>, key: Key): nat {
    if trace == [] then 0
    else
      var n := Level(trace[..|trace| - 1], key);
      if trace[|trace| - 1] == Inc(key) then n + 1
      else if trace[|trace| - 1] == Dec(key) && n > 0 then n - 1
      else n
  }

  /** A decrement of the key has not been followed by a snapshot yet. */
  predicate Fell(trace: seq<Event>, key: Key) {
    && trace != []
    && trace[|trace| - 1] != Snap
    && (trace[|trace| - 1] == Dec(key) || Fell(trace[..|trace| - 1], key))
  }

  /**
   The tracker is exactly this: it stores the levels above zero, and the zeros that were reached
   since the last snapshot; and a key is marked for a last report if and only if it is stored as zero.
   */
  lemma {:induction false} TrackerIs(trace: seq<Event>, key: Key)
    ensures var g := After(trace);
            && CountOf(g, key) == Level(trace, key)
            && (key in g.counts <==> Level(trace, key) > 0 || Fell(trace, key))
            && (key in g.pending <==> key in g.counts && g.counts[key] == 0)
  {
    if trace != [] {
      var front := trace[..|trace| - 1];
      TrackerIs(front, key);
    }
  }

  /** Decrements never outnumber increments, at any time. */
  predicate Balanced(trace: seq<Event>, key: Key) {
    Decs(trace, key) <= Incs(trace, key) && (trace != [] ==> Balanced(trace[..|trace| - 1], key))
  }

  lemma {:induction false} LevelIsNever(trace: seq<Event>, key: Key)
    ensures Level(trace, key) >= Incs(trace, key) - Decs(trace, key)
    ensures Level(trace, key) == Incs(trace, key) - Decs(trace, key) <==> Balanced(trace, key)
  {
    if trace != [] {
      LevelIsNever(trace[..|trace| - 1], key);
    }
  }

  /** The stored count is increments minus decrements exactly on the balanced traces. */
  lemma CountsTheDifference(trace: seq<Event>, key: Key)
    ensures CountOf(After(trace), key) == Incs(trace, key) - Decs(trace, key) <==> Balanced(trace, key)
  {
    TrackerIs(trace, key);
    LevelIsNever(trace, key);
  }

  /** What a snapshot after a trace reports. */
  function Report(trace: seq<Event>): map<Key, int> {
    After(trace).counts
  }

  predicate Touches(e: Event, key: Key) {
    e == Inc(key) || e == Dec(key)
  }

  lemma {:induction false} QuietKeeps(before: seq<Event>, quiet: seq<Event>, key: Key)
    requires forall i :: 0 <= i < |quiet| ==> !Touches(quiet[i], key)
    ensures Level(before + quiet, key) == Level(before, key)
    ensures Fell(before + quiet, key) <==> Fell(before, key) && Snap !in quiet
    decreases |quiet|
  {
    if quiet == [] {
      assert before + quiet == before;
    } else {
      var n := |quiet| - 1;
      QuietKeeps(before, quiet[..n], key);
      assert (before + quiet)[..|before| + n] == before + quiet[..n];
      assert quiet == quiet[..n] + [quiet[n]];
    }
  }

  /**
   A fall to zero that lasts is reported by exactly the next snapshot, as zero, and by none after it
   until the key is used again.
   */
  lemma ZeroReportedOnce(before: seq<Event>, quiet: seq<Event>, key: Key)
    requires Level(before + [Dec(key)], key) == 0
    requires forall i :: 0 <= i < |quiet| ==> !Touches(quiet[i], key)
    ensures var trace := before + [Dec(key)] + quiet;
            && (key in Report(trace) <==> Snap !in quiet)
            && (key in Report(trace) ==> Report(trace)[key] == 0)
  {
    var fall := before + [Dec(key)];
    assert Fell(fall, key);
    QuietKeeps(fall, quiet, key);
    TrackerIs(fall + quiet, key);
  }
}
