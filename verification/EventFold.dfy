/**
 The event table as a fold over extractions (internal/app/events): one step per extraction. The
 step by step table is compared with the events of whole clusters, whatever is replayed.
 */
module EventFold {
  import opened ClusterKey
  import opened Events
  import opened Aggregation

  type Store = map<string, Event>

  /** The event that is written for an extraction. */
  ghost function Upserted(k: Keying, store: Store, x: Extraction, now: int): Event {
    var key := Key(k, x);
    if key in store then Merged(k, store[key], x, now) else Created(k, key, x, now)
  }

  ghost function Absorb(k: Keying, store: Store, x: Extraction, now: int): Store {
    store[Key(k, x) := Upserted(k, store, x, now)]
  }

  /** The store without run times and statuses. */
  ghost function CoreStore(store: Store): Store {
    map key | key in store :: Core(store[key])
  }

  /** One pass over all extractions, in order. */
  ghost function FoldStore(k: Keying, rows: seq<Extraction>): Store {
    if rows == [] then map[]
    else CoreStore(Absorb(k, FoldStore(k, rows[..|rows| - 1]), rows[|rows| - 1], 0))
  }

  /** The extractions of one cluster, in order. */
  ghost function Members(k: Keying, rows: seq<Extraction>, key: string): seq<Extraction> {
    if rows == [] then []
    else
      var n := |rows| - 1;
      Members(k, rows[..n], key) + (if Key(k, rows[n]) == key then [rows[n]] else [])
  }

  lemma {:induction false} MembersAre(k: Keying, rows: seq<Extraction>, key: string)
    ensures forall x :: x in Members(k, rows, key) <==> x in rows && Key(k, x) == key
  {
    if rows != [] {
      var n := |rows| - 1;
      MembersAre(k, rows[..n], key);
      assert rows == rows[..n] + [rows[n]];
    }
  }

  lemma {:induction false} MembersDistinct(k: Keying, rows: seq<Extraction>, key: string)
    requires DistinctArticles(rows)
    ensures DistinctArticles(Members(k, rows, key))
  {
    if rows != [] {
      var n := |rows| - 1;
      MembersDistinct(k, rows[..n], key);
      MembersAre(k, rows[..n], key);
      var front := Members(k, rows[..n], key);
      forall i | 0 <= i < |front| ensures front[i].articleId != rows[n].articleId {
        assert front[i] in rows[..n];
      }
    }
  }

  lemma AggregateSnoc(k: Keying, key: string, items: seq<Extraction>, x: Extraction)
    ensures Aggregate(k, key, items + [x])
         == if items == [] then Core(Created(k, key, x, 0)) else Core(Merged(k, Aggregate(k, key, items), x, 0))
  {
    assert (items + [x])[..|items|] == items;
  }

  lemma FoldSnoc(k: Keying, rows: seq<Extraction>, key: string)
    requires rows != []
    ensures var n := |rows| - 1;
            var before, x := FoldStore(k, rows[..n]), rows[n];
            && (key in FoldStore(k, rows) <==> key in before || Key(k, x) == key)
            && (key in FoldStore(k, rows) ==>
                  FoldStore(k, rows)[key]
                  == Core(if Key(k, x) == key then Upserted(k, before, x, 0) else before[key]))
  {
    hide Upserted, Core;
  }

  /** Every event of the one-pass store is the aggregate of exactly the extractions of its cluster. */
  lemma {:induction false} FoldIs(k: Keying, rows: seq<Extraction>, key: string)
    ensures key in FoldStore(k, rows) <==> Members(k, rows, key) != []
    ensures key in FoldStore(k, rows) ==> FoldStore(k, rows)[key] == Aggregate(k, key, Members(k, rows, key))
  {
    if rows != [] {
      var n := |rows| - 1;
      FoldIs(k, rows[..n], key);
      FoldSnoc(k, rows, key);
      hide Merged, Created, Core, FoldStore, Aggregate;
      var front := Members(k, rows[..n], key);
      if Key(k, rows[n]) == key {
        AggregateSnoc(k, key, front, rows[n]);
      } else {
        assert Members(k, rows, key) == front;
      }
    }
  }

  /** When a run happens shows only in what `CoreStore` leaves aside. */
  lemma AbsorbIgnoresTime(k: Keying, store: Store, x: Extraction, now: int)
    ensures CoreStore(Absorb(k, store, x, now)) == CoreStore(Absorb(k, CoreStore(store), x, 0))
  {
    hide Merged, Created, Core, Key;
    var key := Key(k, x);
    if key in store {
      MergeIgnoresTime(k, store[key], x, now);
    } else {
      CreateIgnoresTime(k, key, x, now);
    }
    var a, b := CoreStore(Absorb(k, store, x, now)), CoreStore(Absorb(k, CoreStore(store), x, 0));
    assert a.Keys == b.Keys == store.Keys + {key};
    forall other | other in a ensures a[other] == b[other] {
      if other != key {
        CoreOfCore(store[other]);
      }
    }
  }

  lemma CoreOfCore(e: Event)
    ensures Core(Core(e)) == Core(e)
  {
  }

  /** An extraction that is in already changes nothing: what makes the replay of a failed run safe. */
  lemma ReplayIsIdle(k: Keying, rows: seq<Extraction>, x: Extraction)
    requires k.Sound() && x in rows
    ensures CoreStore(Absorb(k, FoldStore(k, rows), x, 0)) == FoldStore(k, rows)
  {
    var key, store := Key(k, x), FoldStore(k, rows);
    hide Merged, Created, Core, FoldStore, Aggregate;
    FoldIs(k, rows, key);
    MembersAre(k, rows, key);
    var items := Members(k, rows, key);
    assert x in items;
    AggregateContains(k, key, items);
    MergeAgain(k, store[key], x, 0);
    FoldIsCore(k, rows);
    var after := CoreStore(Absorb(k, store, x, 0));
    assert after.Keys == store.Keys;
    forall other | other in store ensures after[other] == store[other] {
    }
  }

  lemma FoldIsCore(k: Keying, rows: seq<Extraction>)
    ensures forall key :: key in FoldStore(k, rows) ==> Core(FoldStore(k, rows)[key]) == FoldStore(k, rows)[key]
  {
  }

  /** One more extraction, new or replayed, on a store that is up to date with the first rows. */
  lemma AbsorbNext(k: Keying, store: Store, rows: seq<Extraction>, n: nat, p: nat, now: int)
    requires k.Sound() && p <= n <= |rows| && p < |rows|
    requires CoreStore(store) == FoldStore(k, rows[..n])
    ensures CoreStore(Absorb(k, store, rows[p], now)) == FoldStore(k, rows[..if p == n then n + 1 else n])
  {
    AbsorbIgnoresTime(k, store, rows[p], now);
    if p == n {
      assert rows[..n + 1][..n] == rows[..n];
    } else {
      assert rows[p] == rows[..n][p];
      ReplayIsIdle(k, rows[..n], rows[p]);
    }
  }
}
