/**
 * What an expiry will cost, told before the walk: from the log, the saved position and the store
 * alone. The records at risk are those after the saved position and dated before the window.
 */
module SyncForecast {
  import opened Options
  import opened MessageStore
  import opened Convergence
  import opened CloudRecords
  import opened Zone
  import opened SyncMachine
  import opened SyncConvergence
  import opened SyncExpiry

  /** Whatever is at risk is in the store already as it is. */
  ghost predicate OldStays(job: Job, start: World)
    requires Position(start.disk.token) <= |job.log|
  {
    OldStaysAfter(job, start, Position(start.disk.token))
  }

  // --- no history loses more ---

  /** A live record that an incremental walk was to store is at risk or in the window. */
  lemma DueIsOldOrRescanned(job: Job, start: World, id: string)
    requires DistinctRecords(job.log) && start.disk.complete && Position(start.disk.token) <= |job.log|
    requires id in DueInAll(job, start) && Inserts(ZoneEffects(job), id)
    ensures id in OldAfter(job, Position(start.disk.token)) <==> id !in DueOn(job, RESCAN, |job.log|)
  {
    hide DueOn, Reach, Inserts, ZoneEffects, DistinctRecords;
    var base := Position(start.disk.token);
    DueIsLater(job, start, id);
    LaterRecord(job, start, base, id);
  }

  lemma DueIsLater(job: Job, start: World, id: string)
    requires Position(start.disk.token) <= |job.log| && id in DueInAll(job, start)
    ensures id in Net(job.log[Position(start.disk.token)..])
  {
    assert job.log[Position(start.disk.token)..|job.log|] == job.log[Position(start.disk.token)..];
  }

  lemma OldStaysSuffices(job: Job, worlds: seq<World>)
    requires Path(job, true, worlds) && Prepared(job, worlds[0]) && Completed(job, worlds[|worlds| - 1])
    requires worlds[0].disk.complete && OldStays(job, worlds[0])
    ensures MissingStays(job, worlds[0], worlds[|worlds| - 1].done)
  {
    hide Step, Independent, Completed, Reflects, RowStays, LinkStays, DueOn, OldAfter, ZoneEffects, Inserts, Reach;
    var start, done := worlds[0], worlds[|worlds| - 1].done;
    CompletedWalkCommitted(job, true, worlds);
    forall id | id in DueInAll(job, start) && Inserts(ZoneEffects(job), id)
      ensures id in done.rows || RowStays(start.store, ZoneEffects(job), id)
      ensures id in done.links || LinkStays(start.store, ZoneEffects(job), id)
    {
      DueIsOldOrRescanned(job, start, id);
    }
  }

  // --- and one loses all of it ---

  /** A page in progress, and the same once all its records are committed. */
  ghost predicate AllStored(w: World, w': World)
    requires w.phase.Storing?
  {
    var all := w.phase.tombstones + w.phase.live;
    && w'.disk == w.disk && w'.phase == w.phase.(tombstones := {}, live := {})
    && w'.done == Done(w.done.rows + all, w.done.links + all)
  }

  /** One of them is. */
  ghost predicate OneStored(w: World, id: string, w': World) {
    && w.phase.Storing? && (id in w.phase.tombstones || id in w.phase.live)
    && w'.phase == w.phase.(tombstones := w.phase.tombstones - {id}, live := w.phase.live - {id})
    && w'.disk == w.disk && w'.done == Done(w.done.rows + {id}, w.done.links + {id})
  }

  lemma OneThenAll(w: World, id: string, mid: World, w': World)
    requires OneStored(w, id, mid) && AllStored(mid, w')
    ensures AllStored(w, w')
  {
    OneMoved(w.done.rows, w.phase.tombstones, w.phase.live, id);
    OneMoved(w.done.links, w.phase.tombstones, w.phase.live, id);
  }

  lemma OneMoved(done: set<string>, tombstones: set<string>, live: set<string>, id: string)
    requires id in tombstones + live
    ensures (done + {id}) + ((tombstones - {id}) + (live - {id})) == done + (tombstones + live)
  {
  }

  lemma NoneLeft(w: World)
    requires w.phase.Storing? && w.phase.tombstones == {} && w.phase.live == {}
    ensures AllStored(w, w)
  {
    assert w.done.rows + ({} + {}) == w.done.rows && w.done.links + ({} + {}) == w.done.links;
  }

  ghost predicate Committable(w: World) {
    && w.phase.Storing? && w.phase.linking.None? && w.phase.live <= LiveRecords(w.phase.page)
    && w.phase.tombstones !! w.phase.live
  }

  /** The records of a page can all be committed, one after the other. */
  lemma {:induction false} PageIsStored(job: Job, worlds: seq<World>, left: nat) returns (longer: seq<World>)
    requires Path(job, true, worlds) && Committable(worlds[|worlds| - 1])
    requires var p := worlds[|worlds| - 1].phase; left == |p.tombstones + p.live|
    ensures Path(job, true, longer) && longer[0] == worlds[0]
    ensures AllStored(worlds[|worlds| - 1], longer[|longer| - 1])
    decreases left
  {
    hide Step, AllStored, OneStored;
    var w := worlds[|worlds| - 1];
    if left == 0 {
      NoneLeft(w);
      longer := worlds;
    } else {
      var id := NextRecord(w);
      var more := RecordIsStored(job, worlds, id);
      OneLess(w, id, more[|more| - 1]);
      longer := PageIsStored(job, more, left - 1);
      OneThenAll(w, id, more[|more| - 1], longer[|longer| - 1]);
    }
  }

  lemma NextRecord(w: World) returns (id: string)
    requires w.phase.Storing? && w.phase.tombstones + w.phase.live != {}
    ensures if w.phase.tombstones == {} then id in w.phase.live else id in w.phase.tombstones
  {
    if w.phase.tombstones == {} {
      id :| id in w.phase.live;
    } else {
      id :| id in w.phase.tombstones;
    }
  }

  lemma OneLess(w: World, id: string, mid: World)
    requires Committable(w) && OneStored(w, id, mid)
    ensures |mid.phase.tombstones + mid.phase.live| == |w.phase.tombstones + w.phase.live| - 1
  {
    assert mid.phase.tombstones + mid.phase.live == w.phase.tombstones + w.phase.live - {id};
  }

  /** One record of it. */
  lemma RecordIsStored(job: Job, worlds: seq<World>, id: string) returns (longer: seq<World>)
    requires Path(job, true, worlds) && Committable(worlds[|worlds| - 1])
    requires var p := worlds[|worlds| - 1].phase; if p.tombstones == {} then id in p.live else id in p.tombstones
    ensures Path(job, true, longer) && longer[0] == worlds[0]
    ensures OneStored(worlds[|worlds| - 1], id, longer[|longer| - 1]) && Committable(longer[|longer| - 1])
  {
    hide Step;
    var w := worlds[|worlds| - 1];
    var w', steps := RecordSteps(job, w, id);
    if |steps| == 1 {
      PathExtends(job, true, worlds, w');
    } else {
      PathExtends(job, true, worlds, steps[0]);
      PathExtends(job, true, worlds + [steps[0]], w');
      assert worlds + [steps[0]] + [w'] == worlds + steps;
    }
    longer := worlds + steps;
  }

  /** That takes one step, or two with a record's name. */
  lemma RecordSteps(job: Job, w: World, id: string) returns (w': World, steps: seq<World>)
    requires Committable(w) && if w.phase.tombstones == {} then id in w.phase.live else id in w.phase.tombstones
    ensures OneStored(w, id, w') && Committable(w')
    ensures if |steps| == 1 then steps == [w'] && Step(job, true, w, w')
            else |steps| == 2 && steps[1] == w' && Step(job, true, w, steps[0]) && Step(job, true, steps[0], w')
  {
    hide EffectOf;
    if w.phase.tombstones != {} {
      w' := Forgotten(w, id);
      assert Forgets(w, id, w') && w.phase.live - {id} == w.phase.live;
      steps := [w'];
    } else {
      assert {} - {id} == w.phase.tombstones;
      var effect := EffectOf(w.phase.page[id].value, job.scope);
      EffectIsNoTombstone(w.phase.page[id].value, job.scope);
      var taken := w.phase.(live := w.phase.live - {id});
      if effect.Nothing? {
        w' := w.(phase := taken, done := Done(w.done.rows + {id}, w.done.links + {id}));
        assert Passes(job, w, id, w');
        steps := [w'];
      } else {
        var mid := w.(store := InsertRow(w.store, effect.guid, effect.row), phase := taken.(linking := Some(id)),
                      done := w.done.(rows := w.done.rows + {id}));
        assert StoresRow(job, w, id, mid);
        w' := mid.(store := if effect.guid == id then mid.store
                            else mid.store.(records := mid.store.records[id := effect.guid]),
                   phase := taken, done := mid.done.(links := mid.done.links + {id}));
        assert Links(job, mid, w');
        steps := [mid, w'];
      }
    }
  }

  ghost function Forgotten(w: World, id: string): World
    requires w.phase.Storing?
  {
    w.(store := DeleteRecord(w.store, id),
       phase := w.phase.(tombstones := w.phase.tombstones - {id}),
       done := Done(w.done.rows + {id}, w.done.links + {id}))
  }

  lemma EffectIsNoTombstone(cm: CloudMessage, scope: Scope)
    ensures EffectOf(cm, scope) != Delete
  {
  }

  /** The worst history: the token has expired at once, and one page brings the whole zone. */
  lemma RescanHistory(job: Job, start: World) returns (worlds: seq<World>)
    requires Prepared(job, start)
    ensures Path(job, true, worlds) && worlds[0] == start && Completed(job, worlds[|worlds| - 1])
    ensures worlds[|worlds| - 1].done
            == Done(DueOn(job, RESCAN, |job.log|), DueOn(job, RESCAN, |job.log|))
  {
    hide Step, Independent, DistinctRecords, AllStored;
    worlds := RescanRead(job, start);
    var p := worlds[|worlds| - 1].phase;
    worlds := PageIsStored(job, worlds, |p.tombstones + p.live|);
    var stored := worlds[|worlds| - 1];
    AllOfZone(job, start, p, stored);
    var finished := stored.(disk := Advance(Reset(start.disk), Token(job.account, |job.log|), DONE, |p.page|),
                            phase := Stopped);
    RescanFinishes(job, start, p.page, stored, finished);
    PathExtends(job, true, worlds, finished);
    worlds := worlds + [finished];
  }

  /** The page of the whole zone. */
  ghost function ZonePage(job: Job, start: World): Phase {
    var page := Net(job.log[0..|job.log|]);
    Storing(Reset(start.disk), true, 2, Token(job.account, |job.log|), DONE, page, Tombstones(page),
            Looked(job, true, page), None)
  }

  lemma RescanRead(job: Job, start: World) returns (worlds: seq<World>)
    requires Prepared(job, start)
    ensures Path(job, true, worlds) && worlds[0] == start && Committable(worlds[|worlds| - 1])
    ensures worlds[|worlds| - 1] == start.(disk := Reset(start.disk), phase := ZonePage(job, start))
  {
    hide Independent, DistinctRecords, Net;
    var asked := start.(phase := Asking(start.disk, false, 0));
    var reset := asked.(disk := Reset(start.disk), phase := Asking(Reset(start.disk), true, 1));
    var got := reset.(phase := ZonePage(job, start));
    assert Begins(start, asked) && Restarts(asked, reset) && GetsPage(job, reset, got);
    StartsPath(job, start);
    PathExtends(job, true, [start], asked);
    PathExtends(job, true, [start] + [asked], reset);
    PathExtends(job, true, [start] + [asked] + [reset], got);
    worlds := [start] + [asked] + [reset] + [got];
  }

  lemma AllOfZone(job: Job, start: World, p: Phase, stored: World)
    requires p == ZonePage(job, start) && start.done == NOTHING
    requires AllStored(start.(disk := Reset(start.disk), phase := p), stored)
    ensures stored.done == Done(DueOn(job, RESCAN, |job.log|), DueOn(job, RESCAN, |job.log|))
    ensures stored.phase == p.(tombstones := {}, live := {})
  {
    PageDue(job, true, 0, |job.log|);
    var due := DueOn(job, RESCAN, |job.log|);
    assert due == p.tombstones + p.live && {} + due == due;
  }

  lemma RescanFinishes(job: Job, start: World, page: map<string, Option<CloudMessage>>, stored: World, finished: World)
    requires page == ZonePage(job, start).page
    requires stored.phase == ZonePage(job, start).(tombstones := {}, live := {})
    requires finished == stored.(disk := Advance(Reset(start.disk), Token(job.account, |job.log|), DONE, |page|),
                                 phase := Stopped)
    ensures Step(job, true, stored, finished) && Completed(job, finished)
  {
    assert FinishesPage(stored, finished);
  }

  lemma StartsPath(job: Job, start: World)
    ensures Path(job, true, [start])
  {
  }

  lemma OldStaysNeeded(job: Job, start: World, done: Done)
    requires DistinctRecords(job.log) && start.disk.complete && Position(start.disk.token) <= |job.log|
    requires done == Done(DueOn(job, RESCAN, |job.log|), DueOn(job, RESCAN, |job.log|))
    requires MissingStays(job, start, done)
    ensures OldStays(job, start)
  {
    hide RowStays, LinkStays, DueOn, OldAfter, ZoneEffects, Inserts, DueInAll, DistinctRecords;
    var base := Position(start.disk.token);
    forall id | id in OldAfter(job, base) && Inserts(ZoneEffects(job), id)
      ensures RowStays(start.store, ZoneEffects(job), id) && LinkStays(start.store, ZoneEffects(job), id)
    {
      OldIsDue(job, start, base, id);
      DueIsOldOrRescanned(job, start, id);
    }
  }

  // --- the forecast ---

  ghost predicate CompletedFrom(job: Job, start: World, worlds: seq<World>) {
    Path(job, true, worlds) && worlds[0] == start && Completed(job, worlds[|worlds| - 1])
  }

  /** All that an incremental walk was to store will be in the store at its end, whatever expires and
      whatever is interrupted, exactly when what is at risk is there already. */
  lemma LosesNothingIff(job: Job, start: World)
    requires Prepared(job, start) && start.disk.complete
    ensures (forall worlds: seq<World> :: CompletedFrom(job, start, worlds) ==>
               NothingLost(job, start, worlds[|worlds| - 1].store))
            <==> OldStays(job, start)
  {
    hide Step, Completed, NothingLost, OldStays, MissingStays, DueOn;
    forall worlds: seq<World> | CompletedFrom(job, start, worlds)
      ensures OldStays(job, start) ==> NothingLost(job, start, worlds[|worlds| - 1].store)
    {
      NothingLostIff(job, worlds);
      if OldStays(job, start) {
        OldStaysSuffices(job, worlds);
      }
    }
    var worst := RescanHistory(job, start);
    assert CompletedFrom(job, start, worst);
    NothingLostIff(job, worst);
    if NothingLost(job, start, worst[|worst| - 1].store) {
      OldStaysNeeded(job, start, worst[|worst| - 1].done);
    }
  }

  /** And from a store that has the window up to the saved position, the walk meets its specification,
      whatever expires, exactly then. */
  lemma MeetsSpecIff(job: Job, start: World)
    requires Prepared(job, start) && start.disk.complete && CaughtUp(job, start)
    ensures (forall worlds: seq<World> :: CompletedFrom(job, start, worlds) ==>
               OneShot(job, Started(start), start.store, worlds[|worlds| - 1].store))
            <==> OldStays(job, start)
  {
    hide Step, Completed, OneShot, OldStays, MissingStays, DueOn, CaughtUp;
    forall worlds: seq<World> | CompletedFrom(job, start, worlds)
      ensures OldStays(job, start) ==> OneShot(job, Started(start), start.store, worlds[|worlds| - 1].store)
    {
      OneShotIff(job, worlds);
      if OldStays(job, start) {
        OldStaysSuffices(job, worlds);
      }
    }
    var worst := RescanHistory(job, start);
    assert CompletedFrom(job, start, worst);
    OneShotIff(job, worst);
    if OneShot(job, Started(start), start.store, worst[|worst| - 1].store) {
      OldStaysNeeded(job, start, worst[|worst| - 1].done);
    }
  }

  /** An initial scan never loses anything. */
  lemma InitialScanLosesNothing(job: Job, worlds: seq<World>)
    requires Path(job, true, worlds) && Prepared(job, worlds[0]) && Completed(job, worlds[|worlds| - 1])
    requires !worlds[0].disk.complete
    ensures NothingLost(job, worlds[0], worlds[|worlds| - 1].store)
  {
    hide Step, Independent, Completed, Reflects, RowStays, LinkStays, Due, ZoneEffects, NothingLost;
    CompletedWalkCommitted(job, true, worlds);
    DueGrows(job, true, 0, Position(worlds[0].disk.token), |job.log|);
    NothingLostIff(job, worlds);
  }
}
