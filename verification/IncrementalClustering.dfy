/**
 Clustering runs over the extraction system (internal/app/events/cluster.go behind a persisted
 cursor). Extractions go on while runs list, fold, fail, and start again. A move is one step of the
 extraction system or one repository call of the single clustering process; a call may fail before
 or after it took effect, and a run may stop between any two calls. A run is a list of moves.

 A row that becomes visible late, with a finishing time at or below the cursor, would never be
 listed. `Visible` is the assumption under which that does not happen: a new done row has finished
 after every cursor stored and every row absorbed so far; while a run is under way, also after the
 rows that it has listed, or after its run time if it has listed nothing, because that is the cursor
 it is going to store.
 */
module IncrementalClustering {
  import opened Results
  import opened Text
  import opened Extract
  import opened ExtractionTable
  import CP = ClaimProtocol
  import opened ClusterKey
  import opened Events
  import opened EventFold
  import opened EventPartition
  import opened ClusterInput

  /** Where an absent cursor starts: the Unix epoch. */
  const EPOCH: int := 0

  datatype Run =
    | Idle
    | Loaded(since: int, now: Instant)
    | Folding(since: int, now: Instant, inputs: seq<Extraction>, next: nat, latest: int)

  /** `reached` is the latest of the finishing times absorbed and the cursors stored so far. */
  datatype World = World(sys: CP.System, store: Store, cursor: Option<int>, run: Run, reached: int)

  datatype Move =
    | Extracting(move: CP.Move)
    | Load(now: Instant)
    | List
    | Upsert(fault: Fault)
    | SaveCursor(fault: Fault)
    | Abort

  const START := World(CP.INITIAL, map[], None, Idle, EPOCH)

  function Since(w: World): int {
    if w.cursor.Some? then w.cursor.value else EPOCH
  }

  /** The cursor that a run is on its way to. */
  function Goal(r: Run): int
    requires r.Folding?
  {
    if r.inputs == [] then r.now else r.inputs[|r.inputs| - 1].finishedAt
  }

  /** The time after which new rows have to finish. */
  function Horizon(w: World): int {
    if w.run.Folding? then Max(w.reached, Goal(w.run)) else w.reached
  }

  /** Every row finished after the epoch, so a listing from an earlier time is one from the epoch. */
  function From(since: int): int {
    Max(since, EPOCH)
  }

  /** The rows that a change of the table makes visible finished after the horizon. */
  ghost predicate Visible(t: Table, t': Table, horizon: int) {
    forall id :: id in t' && t'[id].status == DONE && t'[id].finishedAt.Some? && !(id in t && t[id].status == DONE)
                 ==> t'[id].finishedAt.value > horizon
  }

  function Max(a: int, b: int): int {
    if a > b then a else b
  }

  ghost function ListInputs(w: World): World
    requires w.run.Loaded?
  {
    var xs := RowsSince(w.sys.table, w.run.since);
    w.(run := Folding(w.run.since, w.run.now, xs, 0, w.run.since))
  }

  ghost function UpsertNext(k: Keying, w: World, fault: Fault): World
    requires w.run.Folding? && w.run.next < |w.run.inputs|
  {
    var x := w.run.inputs[w.run.next];
    if !IsAcceptable(Upserted(k, w.store, x, w.run.now)) || fault == FailsBefore then w.(run := Idle)
    else
      w.(store := Absorb(k, w.store, x, w.run.now),
      reached := Max(w.reached, x.finishedAt),
      run := if fault == FailsAfter then Idle
             else w.run.(next := w.run.next + 1, latest := Max(w.run.latest, x.finishedAt)))
  }

  /** The cursor that a run stores: the latest row it processed, or its run time if there was none. */
  function NewCursor(r: Run): int
    requires r.Folding?
  {
    if r.latest > r.since then r.latest else r.now
  }

  function CursorSaved(w: World, fault: Fault): World
    requires w.run.Folding?
  {
    var c := NewCursor(w.run);
    if fault == FailsBefore then w.(run := Idle)
    else w.(cursor := Some(c), run := Idle, reached := Max(w.reached, c))
  }

  /** A move that is not possible in a state changes nothing. */
  ghost function Apply(k: Keying, w: World, m: Move): World {
    match m
    case Extracting(move) =>
      var sys := CP.Apply(k.unicode, w.sys, move);
      if Visible(w.sys.table, sys.table, Horizon(w)) then w.(sys := sys) else w
    case Load(now) => if w.run.Idle? then w.(run := Loaded(Since(w), now)) else w
    case List => if w.run.Loaded? then ListInputs(w) else w
    case Upsert(fault) =>
      if w.run.Folding? && w.run.next < |w.run.inputs| then UpsertNext(k, w, fault) else w
    case SaveCursor(fault) =>
      if w.run.Folding? && w.run.next == |w.run.inputs| then CursorSaved(w, fault) else w
    case Abort => w.(run := Idle)
  }

  ghost function Exec(k: Keying, w: World, moves: seq<Move>): World {
    if moves == [] then w else Apply(k, Exec(k, w, moves[..|moves| - 1]), moves[|moves| - 1])
  }

  /** The done rows that no later row can precede any more, in order. */
  ghost function Settled(w: World): seq<Extraction> {
    RowsBetween(w.sys.table, EPOCH, Horizon(w))
  }

  /** Every done row, in order. */
  ghost function AllDone(w: World): seq<Extraction> {
    RowsSince(w.sys.table, EPOCH)
  }

  ghost predicate TableSound(sys: CP.System) {
    && CP.Inv(sys)
    && forall id :: id in sys.table && IsInput(sys.table[id]) ==> sys.table[id].finishedAt.value > EPOCH
  }

  /** The store is up to date with the first `n` settled rows, which include all up to the cursor. */
  ghost predicate StoreAt(k: Keying, w: World, n: nat) {
    && n <= |Settled(w)|
    && CoreStore(w.store) == FoldStore(k, Settled(w)[..n])
    && (forall i :: n <= i < |Settled(w)| ==> Settled(w)[i].finishedAt > Since(w))
    && (n > 0 ==> Settled(w)[n - 1].finishedAt <= w.reached)
    && AllAcceptable(w.store)
    && EPOCH <= w.reached && Since(w) <= w.reached
  }

  ghost predicate RunAt(w: World, n: nat) {
    match w.run
    case Idle => true
    case Loaded(since, _) => since == Since(w)
    case Folding(since, _, inputs, next, latest) =>
      && since == Since(w)
      && inputs == RowsBetween(w.sys.table, From(since), Horizon(w))
      && next <= |inputs|
      && |RowsBetween(w.sys.table, EPOCH, From(since))| + next <= n
      && latest == (if next == 0 then since else inputs[next - 1].finishedAt)
  }

  ghost predicate Inv(k: Keying, w: World, n: nat) {
    TableSound(w.sys) && StoreAt(k, w, n) && RunAt(w, n)
  }

  /** A done row of the claim protocol is an input, and a good one. */
  lemma DoneIsGood(sys: CP.System, id: int)
    requires TableSound(sys) && id in sys.table && sys.table[id].status == DONE
    ensures IsInput(sys.table[id])
    ensures GoodInput(InputOf(id, sys.table[id]))
  {
    var row := sys.table[id];
    assert CP.RowSound(id, row);
    assert FAILED != DONE && PENDING != DONE;
    var out :| Holds(id, row, out);
    assert "" !in EVENT_TYPES && "" !in GEO_CLUSTERS && "" !in IMPACT_DIRECTIONS by {
      assert forall c :: c in EVENT_TYPES || c in GEO_CLUSTERS || c in IMPACT_DIRECTIONS ==> |c| > 0;
    }
  }

  lemma StoredIsHeld(u: Unicode, before: seq<CP.Move>, id: CP.CallerId, stored: CP.Choice, after: seq<CP.Move>)
    requires var s := CP.Exec(u, CP.INITIAL, before); id in s.callers && s.callers[id].pc.StoringSuccess?
    requires stored.fault != FailsBefore
    ensures var c := CP.Exec(u, CP.INITIAL, before).callers[id];
            var t := CP.Exec(u, CP.Apply(u, CP.Exec(u, CP.INITIAL, before), CP.Advance(id, stored)), after).table;
            && c.article.id in t && t[c.article.id].status == DONE && c.pc.out.articleId == c.article.id
            && t[c.article.id].finishedAt == Some(stored.now) && Holds(c.article.id, t[c.article.id], c.pc.out)
  {
    hide CP.Apply, CP.Inv;
    CP.ExecKeepsInv(u, CP.INITIAL, before);
    var s := CP.Exec(u, CP.INITIAL, before);
    CP.SuccessIsStored(u, s, id, stored);
    CP.ApplyKeepsInv(u, s, CP.Advance(id, stored));
    CP.FinishedRowsNeverChange(u, CP.Apply(u, s, CP.Advance(id, stored)), after);
  }

  /** What a caller stores is what clustering later lists, whatever happens in between. */
  lemma StoredIsListed(u: Unicode, before: seq<CP.Move>, id: CP.CallerId, stored: CP.Choice, after: seq<CP.Move>,
                       since: int) returns (i: nat)
    requires var s := CP.Exec(u, CP.INITIAL, before); id in s.callers && s.callers[id].pc.StoringSuccess?
    requires stored.fault != FailsBefore && since < stored.now
    ensures var s := CP.Exec(u, CP.INITIAL, before);
            var t := CP.Exec(u, CP.Apply(u, s, CP.Advance(id, stored)), after).table;
            i < |RowsSince(t, since)| && Carries(RowsSince(t, since)[i], s.callers[id].pc.out, stored.now)
  {
    hide CP.Apply, RowsSince, Holds, IsInput;
    StoredIsHeld(u, before, id, stored, after);
    var c := CP.Exec(u, CP.INITIAL, before).callers[id];
    var t := CP.Exec(u, CP.Apply(u, CP.Exec(u, CP.INITIAL, before), CP.Advance(id, stored)), after).table;
    InputIsResult(c.article.id, t[c.article.id], c.pc.out, stored.now);
    i := ListedAt(t, since, c.article.id);
  }

  lemma ListedAt(t: Table, since: int, id: int) returns (i: nat)
    requires id in t && IsInput(t[id]) && since < t[id].finishedAt.value
    ensures i < |RowsSince(t, since)| && RowsSince(t, since)[i] == InputOf(id, t[id])
  {
    RowsSinceLast(t, since);
    var xs := RowsSince(t, since);
    var last := xs[|xs| - 1].finishedAt;
    RowsSinceIs(t, since, last);
    RowsContain(t, since, last, id);
    i :| i < |xs| && xs[i] == InputOf(id, t[id]);
  }

  /** And nothing else is listed: every extraction is a valid result that its row holds. */
  lemma ListedIsStored(u: Unicode, moves: seq<CP.Move>, since: int, i: nat) returns (out: ExtractResult)
    requires i < |RowsSince(CP.Exec(u, CP.INITIAL, moves).table, since)|
    ensures var t := CP.Exec(u, CP.INITIAL, moves).table;
            var x := RowsSince(t, since)[i];
            x.articleId in t && Holds(x.articleId, t[x.articleId], out) && Carries(x, out, x.finishedAt)
  {
    hide CP.Inv, RowsSince, CP.Exec;
    var t := CP.Exec(u, CP.INITIAL, moves).table;
    RowsSinceAre(t, since);
    var x := RowsSince(t, since)[i];
    CP.FinishedRowsSound(u, moves, x.articleId);
    out :| Holds(x.articleId, t[x.articleId], out);
    InputIsResult(x.articleId, t[x.articleId], out, x.finishedAt);
    RowsSinceAt(t, since, i);
  }

  lemma RowsSinceAt(t: Table, since: int, i: nat)
    requires i < |RowsSince(t, since)|
    ensures var x := RowsSince(t, since)[i];
            x.articleId in t && IsInput(t[x.articleId]) && x == InputOf(x.articleId, t[x.articleId])
  {
    OrderedAreKeys(t, KeysSince(t, since));
    assert OrderedKeys(KeysSince(t, since))[i] in OrderedKeys(KeysSince(t, since));
  }

  lemma ExtractingKeepsInputs(k: Keying, w: World, move: CP.Move)
    requires TableSound(w.sys) && EPOCH <= Horizon(w)
    requires Visible(w.sys.table, CP.Apply(k.unicode, w.sys, move).table, Horizon(w))
    ensures TableSound(CP.Apply(k.unicode, w.sys, move))
    ensures SameInputs(w.sys.table, CP.Apply(k.unicode, w.sys, move).table, Horizon(w))
  {
    hide CP.Apply, CP.Inv;
    CP.ApplyKeepsInv(k.unicode, w.sys, move);
    CP.ApplyPersists(k.unicode, w.sys, move);
    var sys := CP.Apply(k.unicode, w.sys, move);
    assert DONE != PENDING;
    forall id | id in sys.table && IsInput(sys.table[id]) && !(id in w.sys.table && IsInput(w.sys.table[id]))
      ensures sys.table[id].finishedAt.value > Horizon(w)
    {
      if id in w.sys.table && w.sys.table[id].status == DONE {
        DoneIsGood(w.sys, id);
      }
    }
  }

  lemma SameInputsLower(t: Table, t': Table, until: int, lower: int)
    requires SameInputs(t, t', until) && lower <= until
    ensures SameInputs(t, t', lower)
  {
  }

  /** New inputs after the horizon change nothing of what a run or the store relies on. */
  lemma InputsAddedKeep(k: Keying, w: World, sys: CP.System, n: nat)
    requires Inv(k, w, n) && TableSound(sys) && SameInputs(w.sys.table, sys.table, Horizon(w))
    ensures Inv(k, w.(sys := sys), n)
  {
    hide CP.Inv, FoldStore, CoreStore, RowsBetween;
    SameInputsLower(w.sys.table, sys.table, Horizon(w), From(Since(w)));
    RowsStay(w.sys.table, sys.table, EPOCH, Horizon(w));
    RowsStay(w.sys.table, sys.table, From(Since(w)), Horizon(w));
    RowsStay(w.sys.table, sys.table, EPOCH, From(Since(w)));
  }

  lemma ExtractingKeeps(k: Keying, w: World, move: CP.Move, n: nat)
    requires Inv(k, w, n)
    ensures Inv(k, Apply(k, w, Extracting(move)), n)
  {
    hide CP.Apply, CP.Inv, FoldStore, CoreStore, RowsBetween;
    var sys := CP.Apply(k.unicode, w.sys, move);
    if Visible(w.sys.table, sys.table, Horizon(w)) {
      ExtractingKeepsInputs(k, w, move);
      InputsAddedKeep(k, w, sys, n);
    }
  }

  /** The rows up to the cursor are among the absorbed ones. */
  lemma CursorBehind(k: Keying, w: World, n: nat)
    requires StoreAt(k, w, n)
    ensures var since := From(Since(w));
            && |RowsBetween(w.sys.table, EPOCH, since)| <= n
            && Settled(w) == RowsBetween(w.sys.table, EPOCH, since) + RowsBetween(w.sys.table, since, Horizon(w))
  {
    hide FoldStore, CoreStore, RowsBetween;
    RowsSplit(w.sys.table, EPOCH, From(Since(w)), Horizon(w));
    if n < |RowsBetween(w.sys.table, EPOCH, From(Since(w)))| {
      var x := Settled(w)[n];
      RowsIn(w.sys.table, EPOCH, From(Since(w)), n);
    }
  }

  /** A run that ends, for whatever reason, lets go of the rows it has listed and not absorbed. */
  lemma RunEnds(k: Keying, w: World, w': World, n: nat)
    requires StoreAt(k, w, n) && !w'.run.Folding?
    requires w'.sys == w.sys && w'.store == w.store && w'.cursor == w.cursor && w'.reached == w.reached
    ensures StoreAt(k, w', n)
  {
    hide FoldStore, CoreStore, RowsBetween, AllAcceptable;
    RowsSplit(w.sys.table, EPOCH, w.reached, Horizon(w));
    var kept := RowsBetween(w.sys.table, EPOCH, w.reached);
    if n > |kept| {
      var x := Settled(w)[n - 1];
      RowsIn(w.sys.table, w.reached, Horizon(w), n - 1 - |kept|);
    }
    assert Settled(w') == kept;
    assert Settled(w)[..n] == kept[..n];
    assert forall i :: n <= i < |kept| ==> kept[i] == Settled(w)[i];
  }

  /** What a run lists is what has finished after its cursor, up to where it is going. */
  lemma ListIs(sys: CP.System, since: int, until: int)
    requires TableSound(sys)
    requires var xs := RowsSince(sys.table, since); xs != [] ==> xs[|xs| - 1].finishedAt <= until
    ensures RowsSince(sys.table, since) == RowsBetween(sys.table, From(since), until)
  {
    hide CP.Inv, RowsSince;
    RowsSinceLast(sys.table, since);
    assert KeysSince(sys.table, since) == KeysBetween(sys.table, From(since), until);
    SameKeysSameRows(sys.table, since, From(since), until);
  }

  lemma ListKeeps(k: Keying, w: World, n: nat)
    requires Inv(k, w, n) && w.run.Loaded?
    ensures Inv(k, ListInputs(w), n)
  {
    hide CP.Inv, FoldStore, CoreStore, RowsBetween, RowsSince, AllAcceptable;
    var t, w' := w.sys.table, ListInputs(w);
    CursorBehind(k, w, n);
    ListIs(w.sys, Since(w), Horizon(w'));
    RowsSplit(t, EPOCH, w.reached, Horizon(w'));
    var later := RowsBetween(t, w.reached, Horizon(w'));
    assert Settled(w') == Settled(w) + later;
    assert Settled(w')[..n] == Settled(w)[..n];
    forall i | n <= i < |Settled(w')| ensures Settled(w')[i].finishedAt > Since(w') {
      if i >= |Settled(w)| {
        RowsIn(t, w.reached, Horizon(w'), i - |Settled(w)|);
        assert Settled(w')[i] == later[i - |Settled(w)|];
      } else {
        assert Settled(w')[i] == Settled(w)[i];
      }
    }
  }

  lemma InputIsGood(sys: CP.System, since: int, until: int, i: nat)
    requires TableSound(sys) && i < |RowsBetween(sys.table, since, until)|
    ensures GoodInput(RowsBetween(sys.table, since, until)[i])
    ensures since < RowsBetween(sys.table, since, until)[i].finishedAt
  {
    hide CP.Inv, RowsBetween, GoodInput;
    RowsIn(sys.table, since, until, i);
    DoneIsGood(sys, RowsBetween(sys.table, since, until)[i].articleId);
  }

  /** Where the next input of a run stands among the settled rows. */
  ghost function Place(w: World): nat
    requires w.run.Folding?
  {
    |RowsBetween(w.sys.table, EPOCH, From(w.run.since))| + w.run.next
  }

  /** The next input of a run is the settled row it stands for, and is good. */
  lemma NextInput(k: Keying, w: World, n: nat)
    requires Inv(k, w, n) && w.run.Folding? && w.run.next < |w.run.inputs|
    ensures var x := w.run.inputs[w.run.next];
            && Place(w) <= n && Place(w) < |Settled(w)| && Settled(w)[Place(w)] == x
            && GoodInput(x) && w.run.since < x.finishedAt <= Goal(w.run) && w.run.latest <= x.finishedAt
  {
    hide CP.Inv, FoldStore, CoreStore, RowsBetween, GoodInput, AllAcceptable;
    var t, since, next := w.sys.table, From(w.run.since), w.run.next;
    CursorBehind(k, w, n);
    InputIsGood(w.sys, since, Horizon(w), next);
    RowsAscend(t, since, Horizon(w), next, |w.run.inputs| - 1);
    if next > 0 {
      RowsAscend(t, since, Horizon(w), next - 1, next);
    }
  }

  /** Which prefix is absorbed after an upsert: one more row, unless the row was a replay. */
  function AfterUpsert(n: nat, p: nat): nat {
    if p == n then n + 1 else n
  }

  /** The world with the next input written, and the run where it was. */
  ghost function Stored(k: Keying, w: World): World
    requires w.run.Folding? && w.run.next < |w.run.inputs|
  {
    var x := w.run.inputs[w.run.next];
    w.(store := Absorb(k, w.store, x, w.run.now), reached := Max(w.reached, x.finishedAt))
  }

  lemma StoreAfterUpsert(k: Keying, w: World, n: nat)
    requires k.Sound() && Inv(k, w, n) && w.run.Folding? && w.run.next < |w.run.inputs|
    ensures IsAcceptable(Upserted(k, w.store, w.run.inputs[w.run.next], w.run.now))
    ensures Horizon(Stored(k, w)) == Horizon(w) && StoreAt(k, Stored(k, w), AfterUpsert(n, Place(w)))
  {
    hide CP.Inv, FoldStore, CoreStore, RowsBetween, GoodInput, IsAcceptable, Upserted, Absorb;
    var x := w.run.inputs[w.run.next];
    NextInput(k, w, n);
    UpsertAcceptable(k, w.store, Settled(w)[..n], x, w.run.now);
    AbsorbNext(k, w.store, Settled(w), n, Place(w), w.run.now);
  }

  lemma UpsertIs(k: Keying, w: World, fault: Fault)
    requires w.run.Folding? && w.run.next < |w.run.inputs|
    requires IsAcceptable(Upserted(k, w.store, w.run.inputs[w.run.next], w.run.now))
    ensures var w', w1 := UpsertNext(k, w, fault), Stored(k, w);
            && (fault == FailsBefore ==> w' == w.(run := Idle))
            && (fault == FailsAfter ==> w' == w1.(run := Idle))
            && (fault == Healthy ==> w' == w1.(run := w.run.(next := w.run.next + 1,
                                                             latest := Max(w.run.latest,
                                                                           w.run.inputs[w.run.next].finishedAt))))
  {
    hide Absorb, Upserted, IsAcceptable;
  }

  /** The run after an upsert without a fault. */
  lemma RunAfterUpsert(k: Keying, w: World, n: nat)
    requires k.Sound() && Inv(k, w, n) && w.run.Folding? && w.run.next < |w.run.inputs|
    ensures RunAt(UpsertNext(k, w, Healthy), AfterUpsert(n, Place(w)))
    ensures Horizon(UpsertNext(k, w, Healthy)) == Horizon(w)
  {
    hide CP.Inv, StoreAt, RowsBetween, GoodInput, IsAcceptable, Upserted, Absorb, UpsertNext;
    NextInput(k, w, n);
    StoreAfterUpsert(k, w, n);
    UpsertIs(k, w, Healthy);
  }

  lemma SameStore(k: Keying, w: World, w': World, n: nat)
    requires StoreAt(k, w, n) && Horizon(w') == Horizon(w)
    requires w'.store == w.store && w'.sys == w.sys && w'.cursor == w.cursor && w'.reached == w.reached
    ensures StoreAt(k, w', n)
  {
  }

  lemma UpsertKeeps(k: Keying, w: World, fault: Fault, n: nat) returns (n': nat)
    requires k.Sound() && Inv(k, w, n) && w.run.Folding? && w.run.next < |w.run.inputs|
    ensures n' >= n && Inv(k, UpsertNext(k, w, fault), n')
    ensures fault == Healthy ==> UpsertNext(k, w, fault).run.Folding?
  {
    hide CP.Inv, StoreAt, IsAcceptable, Upserted, Absorb, RowsBetween, UpsertNext, Horizon;
    StoreAfterUpsert(k, w, n);
    UpsertIs(k, w, fault);
    n' := if fault == FailsBefore then n else AfterUpsert(n, Place(w));
    var w' := UpsertNext(k, w, fault);
    if fault == FailsBefore {
      RunEnds(k, w, w', n);
    } else if fault == FailsAfter {
      RunEnds(k, Stored(k, w), w', n');
    } else {
      RunAfterUpsert(k, w, n);
      SameStore(k, Stored(k, w), w', n');
    }
  }

  /** A run that has processed all its inputs has absorbed every settled row. */
  lemma FoldedAll(k: Keying, w: World, n: nat)
    requires Inv(k, w, n) && w.run.Folding? && w.run.next == |w.run.inputs|
    ensures n == |Settled(w)|
  {
    hide CP.Inv, FoldStore, CoreStore, RowsBetween;
    CursorBehind(k, w, n);
  }

  /** The stored cursor is where the run was going. */
  lemma CursorIsGoal(k: Keying, w: World, n: nat)
    requires Inv(k, w, n) && w.run.Folding? && w.run.next == |w.run.inputs|
    ensures NewCursor(w.run) == Goal(w.run)
  {
    hide CP.Inv, StoreAt, RowsBetween;
    if w.run.inputs != [] {
      RowsIn(w.sys.table, From(w.run.since), Horizon(w), w.run.next - 1);
    }
  }

  lemma SaveKeeps(k: Keying, w: World, fault: Fault, n: nat)
    requires Inv(k, w, n) && w.run.Folding? && w.run.next == |w.run.inputs|
    ensures Inv(k, CursorSaved(w, fault), n)
    ensures fault != FailsBefore ==> Settled(CursorSaved(w, fault)) == Settled(w)
  {
    hide CP.Inv, FoldStore, CoreStore, RowsBetween, AllAcceptable;
    FoldedAll(k, w, n);
    CursorIsGoal(k, w, n);
    if fault == FailsBefore {
      RunEnds(k, w, CursorSaved(w, fault), n);
    }
  }

  /** Every move keeps the invariant, and no move loses an absorbed row. */
  lemma ApplyKeeps(k: Keying, w: World, m: Move, n: nat) returns (n': nat)
    requires k.Sound() && Inv(k, w, n)
    ensures n' >= n && Inv(k, Apply(k, w, m), n')
  {
    hide CP.Inv, CP.Apply, StoreAt, RowsBetween, UpsertNext, ListInputs, CursorSaved, Horizon;
    n' := n;
    match m
    case Extracting(move) => ExtractingKeeps(k, w, move, n);
    case Load(now) =>
      if w.run.Idle? {
        RunEnds(k, w, Apply(k, w, m), n);
      }
    case List =>
      if w.run.Loaded? {
        ListKeeps(k, w, n);
      }
    case Upsert(fault) =>
      if w.run.Folding? && w.run.next < |w.run.inputs| {
        n' := UpsertKeeps(k, w, fault, n);
      }
    case SaveCursor(fault) =>
      if w.run.Folding? && w.run.next == |w.run.inputs| {
        SaveKeeps(k, w, fault, n);
      }
    case Abort => RunEnds(k, w, Apply(k, w, m), n);
  }

  lemma StartHolds(k: Keying)
    ensures Inv(k, START, 0)
  {
    assert CoreStore(START.store) == map[];
    assert KeysBetween(map[], EPOCH, EPOCH) == {};
    NoRows(map[], EPOCH, EPOCH);
  }

  lemma {:induction false} ExecKeeps(k: Keying, moves: seq<Move>) returns (n: nat)
    requires k.Sound()
    ensures Inv(k, Exec(k, START, moves), n)
  {
    hide Apply, Inv;
    if moves == [] {
      StartHolds(k);
      n := 0;
    } else {
      var before := ExecKeeps(k, moves[..|moves| - 1]);
      n := ApplyKeeps(k, Exec(k, START, moves[..|moves| - 1]), moves[|moves| - 1], before);
    }
  }

  /**
   Incremental is one pass, under crashes: after any run whatever, the stored events are those of a
   single fold over a first part of the done rows in order, and that part has every row up to the
   stored cursor.
   */
  lemma IncrementalIsOnePass(k: Keying, moves: seq<Move>)
    requires k.Sound()
    ensures var w := Exec(k, START, moves);
            exists n | 0 <= n <= |Settled(w)| ::
              && CoreStore(w.store) == FoldStore(k, Settled(w)[..n])
              && forall i :: n <= i < |Settled(w)| ==> Settled(w)[i].finishedAt > Since(w)
  {
    hide Apply, RowsBetween, TableSound, RunAt;
    var n := ExecKeeps(k, moves);
  }
}
