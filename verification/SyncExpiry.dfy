/**
 * What an expired token costs, or a write of the cursor that broke off. The walk then starts over with
 * the initial scan, which stores the window only. An incremental walk was to store everything that
 * changed since its own start, also outside the window; what of that it had not stored before, it
 * never will.
 */
module SyncExpiry {
  import opened Options
  import opened MessageStore
  import opened Convergence
  import opened CloudRecords
  import opened Zone
  import opened SyncMachine
  import opened SyncConvergence

  // --- records that make no difference ---

  /** Committing the row of a record, or its tombstone, leaves the rows of a store as they are. */
  ghost predicate RowStays(s: State, effects: Effects, record: string) {
    record in effects ==>
      match effects[record]
      case Nothing => true
      case Insert(guid, row) => guid in s.rows && Arriving(s.rows, guid, row) == s.rows[guid]
      case Delete => Named(s, record) !in s.rows
  }

  /** Committing the name of a record leaves the record table as it is. */
  ghost predicate LinkStays(s: State, effects: Effects, record: string) {
    record in effects ==>
      match effects[record]
      case Nothing => true
      case Insert(guid, _) => guid == record || (record in s.records && s.records[record] == guid)
      case Delete => record !in s.records
  }

  /** Each tombstone is one transaction. */
  ghost predicate Whole(effects: Effects, done: Done) {
    forall t :: Deletes(effects, t) ==> (t in done.rows <==> t in done.links)
  }

  ghost predicate Within(done: Done, more: Done) { done.rows <= more.rows && done.links <= more.links }

  ghost predicate RestStays(s: State, effects: Effects, done: Done, more: Done) {
    && (forall id :: id in more.rows && id !in done.rows ==> RowStays(s, effects, id))
    && (forall id :: id in more.links && id !in done.links ==> LinkStays(s, effects, id))
  }

  /** A carried guid is not removed by any tombstone. */
  lemma CarriedIsNotRemoved(s: State, effects: Effects, done: set<string>, record: string)
    requires Independent(s, effects) && Inserts(effects, record)
    ensures !Removed(s, effects, done, effects[record].guid)
  {
  }

  lemma RemovedStays(s: State, effects: Effects, done: Done, more: Done, g: string)
    requires Within(done, more) && RestStays(s, effects, done, more)
    ensures Removed(s, effects, more.rows, g) == Removed(s, effects, done.rows, g)
  {
    if Removed(s, effects, more.rows, g) {
      var t :| t in more.rows && Deletes(effects, t) && Named(s, t) in s.rows && g in s.rows
               && GoesWith(g, s.rows[g], Named(s, t));
      assert !RowStays(s, effects, t);
    }
  }

  /** What an uncommitted record that makes no difference carries is in the store already. */
  lemma CarriedStays(s: State, effects: Effects, done: Done, more: Done, c: string)
    requires Independent(s, effects) && RestStays(s, effects, done, more)
    requires c in more.rows && c !in done.rows && Inserts(effects, c)
    ensures
      var g := effects[c].guid;
      && !Carried(effects, done.rows, g) && !Removed(s, effects, done.rows, g)
      && g in s.rows && Arriving(s.rows, g, effects[c].row) == s.rows[g]
  {
    assert RowStays(s, effects, c);
    CarriedIsNotRemoved(s, effects, done.rows, c);
  }

  lemma RowsStayIff(s: State, effects: Effects, done: Done, more: Done, rows: map<string, Row>)
    requires Independent(s, effects) && Within(done, more) && RestStays(s, effects, done, more)
    ensures ReflectsRows(s, effects, done.rows, rows) <==> ReflectsRows(s, effects, more.rows, rows)
  {
    hide Independent, RestStays, Removed, Arriving;
    forall g
      ensures Removed(s, effects, more.rows, g) == Removed(s, effects, done.rows, g)
    {
      RemovedStays(s, effects, done, more, g);
    }
    forall c | c in more.rows && c !in done.rows && Inserts(effects, c)
      ensures var g := effects[c].guid;
              && !Carried(effects, done.rows, g) && !Removed(s, effects, done.rows, g)
              && g in s.rows && Arriving(s.rows, g, effects[c].row) == s.rows[g]
    {
      CarriedStays(s, effects, done, more, c);
    }
  }

  lemma RecordsStayIff(s: State, effects: Effects, done: Done, more: Done, records: map<string, string>)
    requires Within(done, more) && RestStays(s, effects, done, more)
    ensures ReflectsRecords(s, effects, done.links, records) <==> ReflectsRecords(s, effects, more.links, records)
  {
  }

  /** Records that make no difference may be counted in or left out. */
  lemma StayIff(s: State, effects: Effects, done: Done, more: Done, now: State)
    requires Independent(s, effects) && Within(done, more) && RestStays(s, effects, done, more)
    requires Whole(effects, done) && Whole(effects, more)
    ensures Reflects(s, effects, done, now) <==> Reflects(s, effects, more, now)
  {
    RowsStayIff(s, effects, done, more, now.rows);
    RecordsStayIff(s, effects, done, more, now.records);
  }

  /** A live record that one account of a store counts in and another leaves out makes none. */
  lemma StaysIfBoth(s: State, effects: Effects, done: Done, other: Done, now: State, record: string)
    requires Independent(s, effects) && Inserts(effects, record)
    requires Reflects(s, effects, done, now) && Reflects(s, effects, other, now)
    ensures record in other.rows && record !in done.rows ==> RowStays(s, effects, record)
    ensures record in other.links && record !in done.links ==> LinkStays(s, effects, record)
  {
    CarriedIsNotRemoved(s, effects, done.rows, record);
  }

  // --- what a history with an expiry leaves ---

  ghost function DueInAll(job: Job, start: World): set<string>
    requires Position(start.disk.token) <= |job.log|
  {
    DueOn(job, Started(start), |job.log|)
  }

  /** Everything the walk was to store is in the store, and otherwise at most the window was stored
      again. */
  ghost predicate NothingLost(job: Job, start: World, now: State)
    requires Position(start.disk.token) <= |job.log|
  {
    exists done: Done :: Between(job, start, done) && Reflects(start.store, ZoneEffects(job), done, now)
  }

  ghost predicate Between(job: Job, start: World, done: Done)
    requires Position(start.disk.token) <= |job.log|
  {
    var due := DueInAll(job, start);
    && due <= done.rows && due <= done.links
    && done.rows <= due + DueOn(job, RESCAN, |job.log|) && done.links <= due + DueOn(job, RESCAN, |job.log|)
  }

  /** What was not committed would have made no difference. */
  ghost predicate MissingStays(job: Job, start: World, done: Done)
    requires Position(start.disk.token) <= |job.log|
  {
    forall id :: id in DueInAll(job, start) && Inserts(ZoneEffects(job), id) ==>
      && (id in done.rows || RowStays(start.store, ZoneEffects(job), id))
      && (id in done.links || LinkStays(start.store, ZoneEffects(job), id))
  }

  ghost function WithDue(job: Job, start: World, done: Done): Done
    requires Position(start.disk.token) <= |job.log|
  {
    Done(done.rows + DueInAll(job, start), done.links + DueInAll(job, start))
  }

  /** All tombstones that were due are committed once a walk has completed. */
  lemma TombstonesCommitted(job: Job, worlds: seq<World>)
    requires Path(job, true, worlds) && Prepared(job, worlds[0]) && Completed(job, worlds[|worlds| - 1])
    ensures
      var done := worlds[|worlds| - 1].done;
      forall t :: t in DueInAll(job, worlds[0]) && Deletes(ZoneEffects(job), t) ==> t in done.rows && t in done.links
  {
    hide Reflects, Independent, Step, Completed;
    CompletedWalkCommitted(job, true, worlds);
    AllTombstonesInRescan(job, Started(worlds[0]));
  }

  lemma AllTombstonesInRescan(job: Job, course: Course)
    requires DistinctRecords(job.log) && course.from <= |job.log|
    ensures forall t :: t in DueOn(job, course, |job.log|) && Deletes(ZoneEffects(job), t) ==>
              t in DueOn(job, RESCAN, |job.log|)
  {
    CutAgrees(job.log, course.from, |job.log|);
    assert job.log[0..|job.log|] == job.log;
  }

  /** Adding what was due but not committed makes no difference if each of it makes none. */
  lemma MissingMayBeAdded(job: Job, worlds: seq<World>)
    requires Path(job, true, worlds) && Prepared(job, worlds[0]) && Completed(job, worlds[|worlds| - 1])
    requires MissingStays(job, worlds[0], worlds[|worlds| - 1].done)
    ensures
      var start, w := worlds[0], worlds[|worlds| - 1];
      var more := WithDue(job, start, w.done);
      Reflects(start.store, ZoneEffects(job), more, w.store) && Whole(ZoneEffects(job), more)
  {
    hide Independent, Step, Completed, Due, ReflectsRows, ReflectsRecords, DistinctRecords, ZoneEffects, Reach;
    var start, w := worlds[0], worlds[|worlds| - 1];
    var more := WithDue(job, start, w.done);
    CompletedWalkCommitted(job, true, worlds);
    TombstonesCommitted(job, worlds);
    RestOf(job, start, w.done);
    StayIff(start.store, ZoneEffects(job), w.done, more, w.store);
  }

  lemma RestOf(job: Job, start: World, done: Done)
    requires Position(start.disk.token) <= |job.log| && MissingStays(job, start, done)
    requires forall t :: t in DueInAll(job, start) && Deletes(ZoneEffects(job), t) ==> t in done.rows && t in done.links
    ensures RestStays(start.store, ZoneEffects(job), done, WithDue(job, start, done))
  {
    hide Due, ZoneEffects;
  }

  /** A completed history lost nothing exactly when each record it was to store and did not commit
      would have made no difference. */
  lemma NothingLostIff(job: Job, worlds: seq<World>)
    requires Path(job, true, worlds) && Prepared(job, worlds[0]) && Completed(job, worlds[|worlds| - 1])
    ensures NothingLost(job, worlds[0], worlds[|worlds| - 1].store)
            <==> MissingStays(job, worlds[0], worlds[|worlds| - 1].done)
  {
    hide Independent, Step, Completed, Due, Reflects, DistinctRecords, ZoneEffects, RowStays, LinkStays;
    var start, w := worlds[0], worlds[|worlds| - 1];
    CompletedWalkCommitted(job, true, worlds);
    if NothingLost(job, start, w.store) {
      var done: Done :| Between(job, start, done) && Reflects(start.store, ZoneEffects(job), done, w.store);
      forall id | id in DueInAll(job, start) && Inserts(ZoneEffects(job), id)
        ensures id in w.done.rows || RowStays(start.store, ZoneEffects(job), id)
        ensures id in w.done.links || LinkStays(start.store, ZoneEffects(job), id)
      {
        StaysIfBoth(start.store, ZoneEffects(job), w.done, done, w.store, id);
      }
    }
    if MissingStays(job, start, w.done) {
      MissingMayBeAdded(job, worlds);
      ReachGrows(job, true, start, MarksOf(worlds).read, |job.log|);
      assert Between(job, start, WithDue(job, start, w.done));
    }
  }

  /** Storing the window up to the saved position again would make no difference, as it is after a
      scan that came that far. */
  ghost predicate CaughtUp(job: Job, start: World)
    requires Position(start.disk.token) <= |job.log|
  {
    forall id :: id in DueOn(job, RESCAN, Position(start.disk.token)) ==>
      RowStays(start.store, ZoneEffects(job), id) && LinkStays(start.store, ZoneEffects(job), id)
  }

  lemma RescanIsDueOrCaughtUp(job: Job, start: World)
    requires DistinctRecords(job.log) && Position(start.disk.token) <= |job.log|
    ensures DueOn(job, RESCAN, |job.log|)
            <= DueOn(job, RESCAN, Position(start.disk.token)) + DueInAll(job, start)
  {
    DueGrows(job, true, 0, Position(start.disk.token), |job.log|);
  }

  /** From such a store a history with expiries meets the specification of the walk exactly when
      each record it was to store and did not commit would have made no difference. */
  lemma OneShotIff(job: Job, worlds: seq<World>)
    requires Path(job, true, worlds) && Prepared(job, worlds[0]) && Completed(job, worlds[|worlds| - 1])
    requires CaughtUp(job, worlds[0])
    ensures OneShot(job, Started(worlds[0]), worlds[0].store, worlds[|worlds| - 1].store)
            <==> MissingStays(job, worlds[0], worlds[|worlds| - 1].done)
  {
    hide Independent, Step, Completed, Due, Reflects, DistinctRecords, ZoneEffects, RowStays, LinkStays, Whole;
    var start, w := worlds[0], worlds[|worlds| - 1];
    var due := DueInAll(job, start);
    CompletedWalkCommitted(job, true, worlds);
    if OneShot(job, Started(start), start.store, w.store) {
      forall id | id in due && Inserts(ZoneEffects(job), id)
        ensures id in w.done.rows || RowStays(start.store, ZoneEffects(job), id)
        ensures id in w.done.links || LinkStays(start.store, ZoneEffects(job), id)
      {
        StaysIfBoth(start.store, ZoneEffects(job), w.done, Done(due, due), w.store, id);
      }
    }
    if MissingStays(job, start, w.done) {
      MissingMayBeAdded(job, worlds);
      ReachGrows(job, true, start, MarksOf(worlds).read, |job.log|);
      RescanIsDueOrCaughtUp(job, start);
      WholeOf(ZoneEffects(job), due);
      StayIff(start.store, ZoneEffects(job), Done(due, due), WithDue(job, start, w.done), w.store);
    }
  }

  lemma WholeOf(effects: Effects, done: set<string>)
    ensures Whole(effects, Done(done, done))
  {
  }

  // --- the same by dates and positions ---

  /** Live records after a position that the window leaves out. */
  ghost function OldAfter(job: Job, from: nat): set<string>
    requires from <= |job.log|
  {
    var net := Net(job.log[from..]);
    set id | id in net && net[id].Some? && TooOld(job, net[id].value)
  }

  /** Every storable record after a position that is dated before the window is in the store as it
      is. */
  ghost predicate OldStaysAfter(job: Job, start: World, from: nat)
    requires from <= |job.log|
  {
    forall id :: id in OldAfter(job, from) && Inserts(ZoneEffects(job), id) ==>
      RowStays(start.store, ZoneEffects(job), id) && LinkStays(start.store, ZoneEffects(job), id)
  }

  /** An incremental walk lost nothing if that is so after the last page it stored before the expiry, and
      only if it is so after the last page it read; exactly then if the two are one. */
  lemma MissingStaysIff(job: Job, worlds: seq<World>)
    requires Path(job, true, worlds) && Prepared(job, worlds[0]) && Completed(job, worlds[|worlds| - 1])
    requires worlds[0].disk.complete
    ensures
      var marks := MarksOf(worlds);
      && Position(worlds[0].disk.token) <= marks.stored <= marks.read <= |job.log|
      && (OldStaysAfter(job, worlds[0], marks.stored) ==> MissingStays(job, worlds[0], worlds[|worlds| - 1].done))
      && (MissingStays(job, worlds[0], worlds[|worlds| - 1].done) ==> OldStaysAfter(job, worlds[0], marks.read))
  {
    hide Independent, Step, Completed, Reflects, RowStays, LinkStays, Due, OldAfter, ZoneEffects, Inserts, Reach;
    var start, done, marks := worlds[0], worlds[|worlds| - 1].done, MarksOf(worlds);
    CompletedWalkCommitted(job, true, worlds);
    forall id | id in DueInAll(job, start) && Inserts(ZoneEffects(job), id) && id !in done.rows * done.links
      ensures id in OldAfter(job, marks.stored)
    {
      MissingIsOld(job, start, done, marks.stored, id);
    }
    forall id | id in OldAfter(job, marks.read) && Inserts(ZoneEffects(job), id)
      ensures id in DueInAll(job, start) && id !in Reach(job, true, start, marks.read)
    {
      OldIsDue(job, start, marks.read, id);
      OldIsLater(job, marks.read, id);
      LaterRecord(job, start, marks.read, id);
    }
  }

  lemma OldIsLater(job: Job, q: nat, id: string)
    requires q <= |job.log| && id in OldAfter(job, q)
    ensures id in Net(job.log[q..])
  {
  }

  lemma OldIsDue(job: Job, start: World, q: nat, id: string)
    requires DistinctRecords(job.log) && start.disk.complete && Position(start.disk.token) <= q <= |job.log|
    requires id in OldAfter(job, q)
    ensures id in DueInAll(job, start)
  {
    assert job.log[q..|job.log|] == job.log[q..];
    DueGrows(job, false, Position(start.disk.token), q, |job.log|);
  }

  lemma MissingIsOld(job: Job, start: World, done: Done, q: nat, id: string)
    requires DistinctRecords(job.log) && start.disk.complete && Position(start.disk.token) <= q <= |job.log|
    requires q == |job.log| || DueOn(job, RESCAN, |job.log|) <= done.rows * done.links
    requires DueOn(job, Started(start), q) <= done.rows * done.links
    requires id in DueInAll(job, start) && Inserts(ZoneEffects(job), id) && id !in done.rows * done.links
    ensures id in OldAfter(job, q)
  {
    hide Due, Reach, DistinctRecords, Inserts, ZoneEffects, OldAfter;
    if id in Net(job.log[q..]) {
      LaterRecord(job, start, q, id);
    } else {
      EarlierRecord(job, start, q, id);
    }
  }

  lemma EarlierRecord(job: Job, start: World, q: nat, id: string)
    requires DistinctRecords(job.log) && start.disk.complete && Position(start.disk.token) <= q <= |job.log|
    requires id in DueInAll(job, start) && id !in Net(job.log[q..])
    ensures id in DueOn(job, Started(start), q)
  {
    assert job.log[q..|job.log|] == job.log[q..];
    DueGrows(job, false, Position(start.disk.token), q, |job.log|);
  }

  /** A record after a position is reached by a rescan exactly when it is inside the window, and was
      not due before. */
  lemma LaterRecord(job: Job, start: World, q: nat, id: string)
    requires DistinctRecords(job.log) && start.disk.complete && Position(start.disk.token) <= q <= |job.log|
    requires id in Net(job.log[q..]) && Inserts(ZoneEffects(job), id)
    ensures q < |job.log|
    ensures id in DueOn(job, RESCAN, |job.log|) <==> id !in OldAfter(job, q)
    ensures id in Reach(job, true, start, q) <==> id in DueOn(job, RESCAN, |job.log|)
  {
    var log, base := job.log, Position(start.disk.token);
    assert log[q..|log|] == log[q..] && log[0..|log|] == log;
    CutAgrees(log, q, |log|);
    StretchesDisjoint(log, base, q, |log|, id);
    NotDueBefore(job, base, q, id);
  }

  lemma NotDueBefore(job: Job, lo: nat, hi: nat, id: string)
    requires lo <= hi <= |job.log| && id !in Net(job.log[lo..hi])
    ensures id !in Due(job, false, lo, hi)
  {
  }

  // --- a record lost ---

  /** A zone of a tombstone and then a storable message dated before the window, and a saved token
      that stands between the two. */
  ghost predicate Losing(job: Job, gone: string, kept: string, cm: CloudMessage, start: World) {
    && job.log == [Change(gone, None), Change(kept, Some(cm))] && gone != kept
    && EffectOf(cm, job.scope).Insert? && EffectOf(cm, job.scope).guid == kept
    && EffectOf(cm, job.scope).row.target.None? && TooOld(job, cm)
    && start == World(Cursor(Some(Token(job.account, 1)), true, 1, 1), State(map[], map[]), Stopped, NOTHING)
  }

  lemma LosingZone(job: Job, gone: string, kept: string, cm: CloudMessage, start: World)
    requires Losing(job, gone, kept, cm, start)
    ensures Net(job.log[0..2]) == Net(job.log) == map[gone := None, kept := Some(cm)]
    ensures Net(job.log[1..2]) == map[kept := Some(cm)] && Net(job.log[0..1]) == map[gone := None]
  {
    var log := job.log;
    NetAppend([], log[0]);
    NetAppend([], log[1]);
    NetAppend([log[0]], log[1]);
    assert [] + [log[0]] == log[0..1] && [] + [log[1]] == log[1..2] && [log[0]] + [log[1]] == log == log[0..2];
  }

  /** The run: the token has expired, the rescan reads everything and applies the tombstone, and the
      message is outside the window. */
  ghost function LosingRun(job: Job, gone: string, kept: string, cm: CloudMessage, start: World): seq<World> {
    var reset, end := Reset(start.disk), Token(job.account, 2);
    var page: map<string, Option<CloudMessage>> := map[gone := None, kept := Some(cm)];
    [start,
     start.(phase := Asking(start.disk, false, 0)),
     start.(disk := reset, phase := Asking(reset, true, 1)),
     start.(disk := reset, phase := Storing(reset, true, 2, end, DONE, page, {gone}, {}, None)),
     start.(disk := reset, phase := Storing(reset, true, 2, end, DONE, page, {}, {}, None),
            done := Done({gone}, {gone})),
     start.(disk := Advance(reset, end, DONE, 2), phase := Stopped, done := Done({gone}, {gone}))]
  }

  lemma LosingRunIsPath(job: Job, gone: string, kept: string, cm: CloudMessage, start: World)
    requires Losing(job, gone, kept, cm, start)
    ensures Path(job, true, LosingRun(job, gone, kept, cm, start))
  {
    hide EffectOf, TooOld, GetsPage, AppliesTombstone, TakesLive, Links;
    var run := LosingRun(job, gone, kept, cm, start);
    LosingZone(job, gone, kept, cm, start);
    assert Begins(run[0], run[1]);
    assert Restarts(run[1], run[2]);
    LosingPage(job, gone, kept, cm, start);
    LosingTombstone(job, gone, kept, cm, start);
    assert FinishesPage(run[4], run[5]) by {
      assert |run[4].phase.page| == 2 by { TwoEntries(gone, kept, cm); }
    }
  }

  lemma TwoEntries(gone: string, kept: string, cm: CloudMessage)
    requires gone != kept
    ensures var page: map<string, Option<CloudMessage>> := map[gone := None, kept := Some(cm)]; |page| == 2
  {
    var page: map<string, Option<CloudMessage>> := map[gone := None, kept := Some(cm)];
    assert page.Keys == {gone, kept};
  }

  lemma LosingPage(job: Job, gone: string, kept: string, cm: CloudMessage, start: World)
    requires Losing(job, gone, kept, cm, start)
    ensures var run := LosingRun(job, gone, kept, cm, start); GetsPage(job, run[2], run[3])
  {
    hide EffectOf;
    var page := LosingRun(job, gone, kept, cm, start)[3].phase.page;
    LosingZone(job, gone, kept, cm, start);
    assert Tombstones(page) == {gone} && Looked(job, true, page) == {};
  }

  lemma LosingTombstone(job: Job, gone: string, kept: string, cm: CloudMessage, start: World)
    requires Losing(job, gone, kept, cm, start)
    ensures var run := LosingRun(job, gone, kept, cm, start); AppliesTombstone(run[3], run[4])
  {
    var run := LosingRun(job, gone, kept, cm, start);
    assert DeleteRecord(start.store, gone) == start.store;
    assert {gone} - {gone} == {} && NOTHING.rows + {gone} == {gone} && NOTHING.links + {gone} == {gone};
    assert Forgets(run[3], gone, run[4]);
  }

  lemma LosingEffects(job: Job, gone: string, kept: string, cm: CloudMessage, start: World)
    requires Losing(job, gone, kept, cm, start)
    ensures ZoneEffects(job) == map[gone := Delete, kept := EffectOf(cm, job.scope)]
    ensures DueOn(job, RESCAN, 1) == {gone} && DueInAll(job, start) == {kept}
  {
    hide EffectOf, TooOld, Net;
    LosingZone(job, gone, kept, cm, start);
    LosingDue(job, kept, cm, start);
    assert Net(job.log).Keys == {gone, kept};
  }

  lemma LosingDue(job: Job, kept: string, cm: CloudMessage, start: World)
    requires |job.log| == 2 && Net(job.log[1..2]) == map[kept := Some(cm)]
    requires start.disk.complete && Position(start.disk.token) == 1
    ensures DueInAll(job, start) == {kept}
  {
    hide EffectOf, TooOld, Net;
  }

  lemma LosingStart(job: Job, gone: string, kept: string, cm: CloudMessage, start: World)
    requires Losing(job, gone, kept, cm, start)
    ensures Prepared(job, start) && CaughtUp(job, start)
    ensures kept in DueInAll(job, start) && Inserts(ZoneEffects(job), kept)
  {
    hide EffectOf, TooOld, ZoneEffects, DueOn, DueInAll;
    LosingEffects(job, gone, kept, cm, start);
    LosingIndependent(start.store, ZoneEffects(job), gone, kept);
  }

  lemma LosingIndependent(s: State, effects: Effects, gone: string, kept: string)
    requires s == State(map[], map[]) && gone != kept
    requires effects.Keys == {gone, kept} && effects[gone] == Delete
    requires effects[kept].Insert? && effects[kept].guid == kept && effects[kept].row.target != Some(gone)
    ensures Independent(s, effects)
  {
  }

  /** An incremental walk whose token expires can lose a message for good: the history completes, and
      the message is not in the store. */
  lemma ExpiryLosesRecord(job: Job, gone: string, kept: string, cm: CloudMessage, start: World)
    requires Losing(job, gone, kept, cm, start)
    ensures
      var run := LosingRun(job, gone, kept, cm, start);
      && Path(job, true, run) && Prepared(job, start) && CaughtUp(job, start)
      && Completed(job, run[|run| - 1]) && run[|run| - 1].store.rows == map[]
      && !NothingLost(job, start, run[|run| - 1].store)
      && !OneShot(job, Started(start), start.store, run[|run| - 1].store)
  {
    hide Path, Prepared, CaughtUp, DueInAll, NothingLost, OneShot, ZoneEffects, EffectOf, TooOld;
    var run := LosingRun(job, gone, kept, cm, start);
    LosingRunIsPath(job, gone, kept, cm, start);
    LosingStart(job, gone, kept, cm, start);
    assert !RowStays(start.store, ZoneEffects(job), kept);
    NothingLostIff(job, run);
    OneShotIff(job, run);
  }

  /** Such a zone exists: a message of the first of January 2001, and a window that starts later. */
  lemma LosingZoneExists()
    ensures
      var cm := CloudMessage("a", "", "", "", "", 0, false, Some("text"), None, None, None, None);
      var job := Job([Change("old", None), Change("a", Some(cm))], "acct", Scope([], map[], None), 978_307_200_001);
      var start := World(Cursor(Some(Token("acct", 1)), true, 1, 1), State(map[], map[]), Stopped, NOTHING);
      Losing(job, "old", "a", cm, start)
  {
    var cm := CloudMessage("a", "", "", "", "", 0, false, Some("text"), None, None, None, None);
    EffectCarriesGuid(cm, Scope([], map[], None));
    assert |"old"| != |"a"|;
  }
}
