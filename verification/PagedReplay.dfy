/**
 * Interrupted walks over any log at all. A log may change one record many times; then the pages
 * are not free to move, and no run may end with the file behind its cursor. With pages cut at the
 * same places every time the walk still ends with one store, whatever is interrupted, as long as the
 * records within each single page do not interfere.
 */
module PagedReplay {
  import opened Options
  import opened MessageStore
  import opened Convergence
  import opened CloudRecords
  import opened Zone
  import opened SyncMachine

  // --- fixed pages ---

  /** The first cut after a position, or the end of the log. */
  function NextCut(cuts: seq<nat>, lo: nat, end: nat): (hi: nat)
    requires lo <= end
    ensures lo <= hi <= end && (lo < end ==> lo < hi)
  {
    if cuts == [] then end
    else if lo < cuts[0] < end then cuts[0]
    else NextCut(cuts[1..], lo, end)
  }

  function PageAt(job: Job, cuts: seq<nat>, lo: nat): map<string, Option<CloudMessage>>
    requires lo <= |job.log|
  {
    Net(job.log[lo..NextCut(cuts, lo, |job.log|)])
  }

  function PageEffects(job: Job, cuts: seq<nat>, lo: nat): Effects
    requires lo <= |job.log|
  {
    EffectsOf(job, PageAt(job, cuts, lo))
  }

  /** The records of a page that must reach the store. */
  function PageDue(job: Job, windowed: bool, cuts: seq<nat>, lo: nat): set<string>
    requires lo <= |job.log|
  {
    Tombstones(PageAt(job, cuts, lo)) + Looked(job, windowed, PageAt(job, cuts, lo))
  }

  /** One store is another one after a page. */
  ghost predicate Turns(job: Job, windowed: bool, cuts: seq<nat>, lo: nat, s: State, s': State)
    requires lo <= |job.log|
  {
    var due := PageDue(job, windowed, cuts, lo);
    Reflects(s, PageEffects(job, cuts, lo), Done(due, due), s')
  }

  /** The specification: one page after the other, each once. */
  ghost predicate PageByPage(job: Job, windowed: bool, cuts: seq<nat>, lo: nat, s: State, hi: nat, s': State)
    requires lo <= |job.log|
    decreases |job.log| - lo
  {
    if lo == hi then s == s'
    else
      && lo < |job.log|
      && exists mid: State :: && Turns(job, windowed, cuts, lo, s, mid)
                              && PageByPage(job, windowed, cuts, NextCut(cuts, lo, |job.log|), mid, hi, s')
  }

  lemma {:induction false} PageByPageUnique(job: Job, windowed: bool, cuts: seq<nat>, lo: nat, s: State, hi: nat,
                                            a: State, b: State)
    requires lo <= |job.log|
    requires PageByPage(job, windowed, cuts, lo, s, hi, a) && PageByPage(job, windowed, cuts, lo, s, hi, b)
    ensures a == b
    decreases |job.log| - lo
  {
    if lo != hi {
      var next := NextCut(cuts, lo, |job.log|);
      var due := PageDue(job, windowed, cuts, lo);
      var midA: State :| Turns(job, windowed, cuts, lo, s, midA) && PageByPage(job, windowed, cuts, next, midA, hi, a);
      var midB: State :| Turns(job, windowed, cuts, lo, s, midB) && PageByPage(job, windowed, cuts, next, midB, hi, b);
      ReflectsUnique(s, PageEffects(job, cuts, lo), Done(due, due), midA, midB);
      PageByPageUnique(job, windowed, cuts, next, midA, hi, a, b);
    }
  }

  lemma {:induction false} OnePageMore(job: Job, windowed: bool, cuts: seq<nat>, lo: nat, s: State, hi: nat,
                                       mid: State, s': State)
    requires lo <= |job.log| && hi < |job.log|
    requires PageByPage(job, windowed, cuts, lo, s, hi, mid) && Turns(job, windowed, cuts, hi, mid, s')
    ensures PageByPage(job, windowed, cuts, lo, s, NextCut(cuts, hi, |job.log|), s')
    decreases |job.log| - lo
  {
    var next := NextCut(cuts, hi, |job.log|);
    if lo == hi {
      assert PageByPage(job, windowed, cuts, next, s', next, s');
    } else {
      var first := NextCut(cuts, lo, |job.log|);
      var t: State :| Turns(job, windowed, cuts, lo, s, t) && PageByPage(job, windowed, cuts, first, t, hi, mid);
      OnePageMore(job, windowed, cuts, first, t, hi, mid, s');
      PageByPageForward(job, windowed, cuts, first, t, hi, mid);
    }
  }

  lemma {:induction false} PageByPageForward(job: Job, windowed: bool, cuts: seq<nat>, lo: nat, s: State, hi: nat,
                                             s': State)
    requires lo <= |job.log| && PageByPage(job, windowed, cuts, lo, s, hi, s')
    ensures lo <= hi <= |job.log|
    decreases |job.log| - lo
  {
    if lo != hi {
      var next := NextCut(cuts, lo, |job.log|);
      var mid: State :| Turns(job, windowed, cuts, lo, s, mid) && PageByPage(job, windowed, cuts, next, mid, hi, s');
      PageByPageForward(job, windowed, cuts, next, mid, hi, s');
    }
  }

  // --- histories ---

  /** The cursor in memory, or when nothing runs the one on disk. */
  ghost function Current(w: World): Cursor {
    if w.phase.Stopped? then w.disk else w.phase.cursor
  }

  /** A step of a walk without expiry whose pages are cut at fixed places, and which does not end with
      the file behind the cursor: a write that failed was made good by a later one. */
  ghost predicate FixedStep(job: Job, cuts: seq<nat>, w: World, w': World) {
    && Step(job, false, w, w')
    && (w'.phase.Storing? && Position(w'.phase.cursor.token) <= |job.log| ==>
          w'.phase.next.position == NextCut(cuts, Position(w'.phase.cursor.token), |job.log|))
    && (w'.phase.Stopped? ==> w'.disk == Current(w) || EndsSaved(w, w'))
  }

  /** The last page was taken and the cursor after it is on disk. */
  ghost predicate EndsSaved(w: World, w': World) {
    FinishesPage(w, w') && w'.disk == Advance(w.phase.cursor, w.phase.next, w.phase.status, |w.phase.page|)
  }

  ghost predicate FixedPath(job: Job, cuts: seq<nat>, worlds: seq<World>) {
    && worlds != []
    && forall i :: 0 <= i < |worlds| - 1 ==> FixedStep(job, cuts, worlds[i], worlds[i + 1])
  }

  /** Within each page, on the store that the pages before it leave, nothing interferes. */
  ghost predicate PagesIndependent(job: Job, windowed: bool, cuts: seq<nat>, lo: nat, s: State)
    requires lo <= |job.log|
  {
    forall hi: nat, s': State :: hi <= |job.log| && PageByPage(job, windowed, cuts, lo, s, hi, s') ==>
      Independent(s', PageEffects(job, cuts, hi))
  }

  ghost predicate Ready(job: Job, windowed: bool, cuts: seq<nat>, start: World) {
    && start.phase.Stopped? && Position(start.disk.token) <= |job.log| && start.disk.complete == !windowed
    && PagesIndependent(job, windowed, cuts, Position(start.disk.token), start.store)
  }

  /** The store is the one before the current page, `here`, with the transactions `done` of that
      page committed; what is not yet done is still on the list. */
  ghost predicate OnPage(job: Job, windowed: bool, cuts: seq<nat>, start: World, w: World, here: State, done: Done)
    requires Position(start.disk.token) <= |job.log|
  {
    var at := Position(Current(w).token);
    && at <= |job.log|
    && PageByPage(job, windowed, cuts, Position(start.disk.token), start.store, at, here)
    && Reflects(here, PageEffects(job, cuts, at), done, w.store)
    && done.rows <= PageDue(job, windowed, cuts, at) && done.links <= PageDue(job, windowed, cuts, at)
    && (windowed && Current(w).complete ==> at == |job.log|) && (!windowed ==> Current(w).complete)
    && (w.phase.Storing? ==> Listed(job, windowed, cuts, w, done))
  }

  ghost predicate Listed(job: Job, windowed: bool, cuts: seq<nat>, w: World, done: Done)
    requires w.phase.Storing? && Position(Current(w).token) <= |job.log|
  {
    var p, at := w.phase, Position(Current(w).token);
    var due := PageDue(job, windowed, cuts, at);
    && p.page == PageAt(job, cuts, at) && p.next.position == NextCut(cuts, at, |job.log|)
    && (p.status == DONE <==> p.next.position == |job.log|)
    && p.tombstones <= Tombstones(p.page) && p.live <= Looked(job, windowed, p.page)
    && (p.linking.Some? ==> p.linking.value in Looked(job, windowed, p.page))
    && due <= done.rows + p.tombstones + p.live
    && due <= done.links + p.tombstones + p.live + (if p.linking.Some? then {p.linking.value} else {})
  }

  lemma PageRecord(job: Job, windowed: bool, cuts: seq<nat>, w: World, done: Done, id: string)
    requires w.phase.Storing? && Position(Current(w).token) <= |job.log| && Listed(job, windowed, cuts, w, done)
    requires id in w.phase.tombstones || id in w.phase.live || w.phase.linking == Some(id)
    ensures id in w.phase.page && id in PageDue(job, windowed, cuts, Position(Current(w).token))
    ensures id in PageEffects(job, cuts, Position(Current(w).token))
    ensures PageEffects(job, cuts, Position(Current(w).token))[id]
            == if w.phase.page[id].None? then Delete else EffectOf(w.phase.page[id].value, job.scope)
  {
  }

  lemma GetsPageKeeps(job: Job, windowed: bool, cuts: seq<nat>, start: World, w: World, w': World, here: State,
                      done: Done)
    requires Position(start.disk.token) <= |job.log| && OnPage(job, windowed, cuts, start, w, here, done)
    requires GetsPage(job, w, w') && FixedStep(job, cuts, w, w')
    ensures OnPage(job, windowed, cuts, start, w', here, done)
  {
    hide PageByPage, Reflects;
    var at := Position(Current(w).token);
    var page := w'.phase.page;
    assert page == PageAt(job, cuts, at);
    if windowed && Current(w).complete {
      assert job.log[at..NextCut(cuts, at, |job.log|)] == [];
    }
    assert Looked(job, !Current(w).complete, page) == Looked(job, windowed, page);
  }

  lemma CommitKeeps(job: Job, windowed: bool, cuts: seq<nat>, start: World, w: World, w': World, here: State,
                    done: Done)
    returns (done': Done)
    requires Position(start.disk.token) <= |job.log| && OnPage(job, windowed, cuts, start, w, here, done)
    requires w.phase.Storing? && Independent(here, PageEffects(job, cuts, Position(Current(w).token)))
    requires AppliesTombstone(w, w') || TakesLive(job, w, w') || Links(job, w, w')
    ensures OnPage(job, windowed, cuts, start, w', here, done')
  {
    hide PageByPage, Reflects, Independent, PageEffects, PageDue, Listed;
    if AppliesTombstone(w, w') {
      var id :| id in w.phase.tombstones && Forgets(w, id, w');
      done' := ForgetKeeps(job, windowed, cuts, w, w', here, done, id);
    } else if TakesLive(job, w, w') {
      var id :| id in w.phase.live && (Passes(job, w, id, w') || StoresRow(job, w, id, w'));
      done' := TakeKeeps(job, windowed, cuts, w, w', here, done, id);
    } else {
      done' := LinkKeeps(job, windowed, cuts, w, w', here, done);
    }
  }

  /** The part of the invariant that a transaction touches. */
  ghost predicate Committed(job: Job, windowed: bool, cuts: seq<nat>, w: World, here: State, done: Done)
    requires w.phase.Storing? && Position(Current(w).token) <= |job.log|
  {
    var at := Position(Current(w).token);
    && Reflects(here, PageEffects(job, cuts, at), done, w.store)
    && done.rows <= PageDue(job, windowed, cuts, at) && done.links <= PageDue(job, windowed, cuts, at)
    && Listed(job, windowed, cuts, w, done)
  }

  lemma ForgetKeeps(job: Job, windowed: bool, cuts: seq<nat>, w: World, w': World, here: State, done: Done, id: string)
    returns (done': Done)
    requires w.phase.Storing? && Position(Current(w).token) <= |job.log|
    requires Committed(job, windowed, cuts, w, here, done)
    requires Independent(here, PageEffects(job, cuts, Position(Current(w).token)))
    requires id in w.phase.tombstones && Forgets(w, id, w')
    ensures Committed(job, windowed, cuts, w', here, done')
  {
    hide Reflects, Independent, PageAt, DeleteRecord, PageDue, PageEffects, Deletes;
    TombstoneListed(job, windowed, cuts, w, done, id);
    DeleteExtends(here, PageEffects(job, cuts, Position(Current(w).token)), done, w.store, id);
    done' := Done(done.rows + {id}, done.links + {id});
  }

  lemma TakeKeeps(job: Job, windowed: bool, cuts: seq<nat>, w: World, w': World, here: State, done: Done, id: string)
    returns (done': Done)
    requires w.phase.Storing? && Position(Current(w).token) <= |job.log|
    requires Committed(job, windowed, cuts, w, here, done)
    requires Independent(here, PageEffects(job, cuts, Position(Current(w).token)))
    requires id in w.phase.live && w.phase.linking.None? && (Passes(job, w, id, w') || StoresRow(job, w, id, w'))
    ensures Committed(job, windowed, cuts, w', here, done')
  {
    hide Reflects, Independent, PageAt, InsertRow, PageDue, PageEffects, EffectOf;
    var effects := PageEffects(job, cuts, Position(Current(w).token));
    PageRecord(job, windowed, cuts, w, done, id);
    if Passes(job, w, id, w') {
      SkipExtends(here, effects, done, w.store, id);
      done' := Done(done.rows + {id}, done.links + {id});
    } else {
      InsertExtends(here, effects, done, w.store, id);
      done' := done.(rows := done.rows + {id});
    }
  }

  lemma LinkKeeps(job: Job, windowed: bool, cuts: seq<nat>, w: World, w': World, here: State, done: Done)
    returns (done': Done)
    requires w.phase.Storing? && Position(Current(w).token) <= |job.log|
    requires Committed(job, windowed, cuts, w, here, done)
    requires Links(job, w, w')
    ensures Committed(job, windowed, cuts, w', here, done')
  {
    hide Reflects, PageAt, PageDue, PageEffects, EffectOf;
    var id := w.phase.linking.value;
    PageRecord(job, windowed, cuts, w, done, id);
    LinkExtends(here, PageEffects(job, cuts, Position(Current(w).token)), done, w.store, id);
    done' := done.(links := done.links + {id});
  }

  lemma TombstoneListed(job: Job, windowed: bool, cuts: seq<nat>, w: World, done: Done, id: string)
    requires w.phase.Storing? && Position(Current(w).token) <= |job.log| && Listed(job, windowed, cuts, w, done)
    requires id in w.phase.tombstones
    ensures Deletes(PageEffects(job, cuts, Position(Current(w).token)), id)
    ensures id in PageDue(job, windowed, cuts, Position(Current(w).token))
  {
  }

  lemma FinishKeeps(job: Job, windowed: bool, cuts: seq<nat>, start: World, w: World, w': World, here: State,
                    done: Done)
    returns (here': State, done': Done)
    requires Position(start.disk.token) <= |job.log| && OnPage(job, windowed, cuts, start, w, here, done)
    requires FinishesPage(w, w') && (w'.phase.Stopped? ==> EndsSaved(w, w'))
    ensures OnPage(job, windowed, cuts, start, w', here', done')
  {
    hide PageByPage, Reflects, PageAt, Tombstones, Looked;
    var at := Position(Current(w).token);
    var due := PageDue(job, windowed, cuts, at);
    assert done.rows == due && done.links == due && done == Done(due, due);
    if at < |job.log| {
      OnePageMore(job, windowed, cuts, Position(start.disk.token), start.store, at, here, w.store);
      here', done' := w.store, NOTHING;
      NothingDoneYet(w.store, PageEffects(job, cuts, Position(Current(w').token)));
    } else {
      here', done' := here, done;
    }
  }

  lemma StepKeeps(job: Job, windowed: bool, cuts: seq<nat>, start: World, w: World, w': World, here: State, done: Done)
    returns (here': State, done': Done)
    requires Ready(job, windowed, cuts, start) && OnPage(job, windowed, cuts, start, w, here, done)
    requires FixedStep(job, cuts, w, w')
    ensures OnPage(job, windowed, cuts, start, w', here', done')
  {
    hide PageByPage, Reflects, PageAt, Independent;
    here', done' := here, done;
    if FinishesPage(w, w') && (w'.phase.Stopped? ==> EndsSaved(w, w')) {
      here', done' := FinishKeeps(job, windowed, cuts, start, w, w', here, done);
    } else if Crashes(w, w') || Begins(w, w') || GivesUp(w, w') {
    } else if GetsPage(job, w, w') {
      GetsPageKeeps(job, windowed, cuts, start, w, w', here, done);
    } else {
      done' := CommitKeeps(job, windowed, cuts, start, w, w', here, done);
    }
  }

  lemma {:induction false} PathKeeps(job: Job, windowed: bool, cuts: seq<nat>, worlds: seq<World>)
    returns (here: State, done: Done)
    requires FixedPath(job, cuts, worlds) && Ready(job, windowed, cuts, worlds[0])
    ensures OnPage(job, windowed, cuts, worlds[0], worlds[|worlds| - 1], here, done)
  {
    if |worlds| == 1 {
      here, done := worlds[0].store, NOTHING;
      NothingDoneYet(here, PageEffects(job, cuts, Position(worlds[0].disk.token)));
    } else {
      var before := worlds[..|worlds| - 1];
      here, done := PathKeeps(job, windowed, cuts, before);
      assert FixedStep(job, cuts, worlds[|worlds| - 2], worlds[|worlds| - 1]);
      here, done := StepKeeps(job, windowed, cuts, worlds[0], before[|before| - 1], worlds[|worlds| - 1], here, done);
    }
  }

  /** Wherever a history was interrupted, when it reaches the end of the log its store is the one
      that taking each page once would have given. */
  lemma InterruptedPagesMeetSpec(job: Job, windowed: bool, cuts: seq<nat>, worlds: seq<World>)
    requires FixedPath(job, cuts, worlds) && Ready(job, windowed, cuts, worlds[0])
    requires Position(Current(worlds[|worlds| - 1]).token) == |job.log|
    ensures PageByPage(job, windowed, cuts, Position(worlds[0].disk.token), worlds[0].store,
                       |job.log|, worlds[|worlds| - 1].store)
  {
    var here, done := PathKeeps(job, windowed, cuts, worlds);
    var end := |job.log|;
    assert job.log[end..NextCut(cuts, end, end)] == [];
    assert PageDue(job, windowed, cuts, end) == {};
    assert done == NOTHING;
    NothingDoneYet(here, PageEffects(job, cuts, end));
    ReflectsUnique(here, PageEffects(job, cuts, end), NOTHING, here, worlds[|worlds| - 1].store);
  }

  /** So two such histories with the same cuts, interrupted differently, end with one store. */
  lemma InterruptionsDoNotMatterOnAnyLog(job: Job, windowed: bool, cuts: seq<nat>, one: seq<World>, other: seq<World>)
    requires FixedPath(job, cuts, one) && FixedPath(job, cuts, other)
    requires one[0] == other[0] && Ready(job, windowed, cuts, one[0])
    requires Position(Current(one[|one| - 1]).token) == |job.log| == Position(Current(other[|other| - 1]).token)
    ensures one[|one| - 1].store == other[|other| - 1].store
  {
    InterruptedPagesMeetSpec(job, windowed, cuts, one);
    InterruptedPagesMeetSpec(job, windowed, cuts, other);
    PageByPageUnique(job, windowed, cuts, Position(one[0].disk.token), one[0].store, |job.log|,
                     one[|one| - 1].store, other[|other| - 1].store);
  }
}
