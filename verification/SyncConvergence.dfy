/** What every sequence of interrupted runs ends with. */
module SyncConvergence {
  import opened Options
  import opened MessageStore
  import opened Convergence
  import opened CloudRecords
  import opened Zone
  import opened SyncMachine

  function ZoneEffects(job: Job): Effects {
    EffectsOf(job, Net(job.log))
  }

  /** Which records a cursor gathers: those from a position on, of the window only or all. */
  datatype Course = Course(windowed: bool, from: nat)

  /** The course of a walk picked up from disk: the initial scan gathers the window, an incremental
      walk everything. */
  ghost function Started(start: World): Course {
    Course(!start.disk.complete, Position(start.disk.token))
  }

  /** The course after an expiry. */
  const RESCAN := Course(true, 0)

  ghost predicate Prepared(job: Job, start: World) {
    && DistinctRecords(job.log)
    && Independent(start.store, ZoneEffects(job))
    && start.phase.Stopped? && start.done == NOTHING
    && Position(start.disk.token) <= |job.log|
  }

  // --- how far a history came on its first course ---

  /** A page that brings something, read on the first course. */
  ghost predicate Reading(start: World, w: World) {
    && w.phase.Storing? && w.phase.cursor.complete == start.disk.complete
    && Position(w.phase.cursor.token) < w.phase.next.position
  }

  /** All of such a page is in the store. */
  ghost predicate Emptied(start: World, w: World) {
    Reading(start, w) && w.phase.tombstones == {} && w.phase.live == {} && w.phase.linking.None?
  }

  ghost function Max(a: nat, b: nat): nat { if a < b then b else a }

  /** The furthest position to which pages were read, and to which pages were stored. */
  datatype Marks = Marks(stored: nat, read: nat)

  ghost function Mark(start: World, marks: Marks, w: World): Marks {
    Marks(if Emptied(start, w) then Max(marks.stored, w.phase.next.position) else marks.stored,
          if Reading(start, w) then Max(marks.read, w.phase.next.position) else marks.read)
  }

  ghost function MarksOf(worlds: seq<World>): Marks
    requires worlds != []
  {
    if |worlds| == 1 then Marks(Position(worlds[0].disk.token), Position(worlds[0].disk.token))
    else Mark(worlds[0], MarksOf(worlds[..|worlds| - 1]), worlds[|worlds| - 1])
  }

  // --- the invariant ---

  ghost function DueOn(job: Job, course: Course, hi: nat): set<string>
    requires course.from <= hi <= |job.log|
  {
    Due(job, course.windowed, course.from, hi)
  }

  /** A cursor on a course: everything up to it is in the store. */
  ghost predicate Along(job: Job, course: Course, cursor: Cursor, done: Done) {
    && course.from <= Position(cursor.token) <= |job.log|
    && DueOn(job, course, Position(cursor.token)) <= done.rows * done.links
    && (course.windowed && cursor.complete ==> Position(cursor.token) == |job.log|)
    && (!course.windowed ==> cursor.complete)
  }

  /** A page in progress: what is not yet done is still on the list. */
  ghost predicate PageInProgress(job: Job, course: Course, w: World)
    requires w.phase.Storing?
  {
    var p := w.phase;
    && Along(job, course, p.cursor, w.done)
    && Position(p.cursor.token) <= p.next.position <= |job.log|
    && (p.status == DONE <==> p.next.position == |job.log|)
    && p.page == Net(job.log[Position(p.cursor.token)..p.next.position])
    && p.tombstones <= Tombstones(p.page)
    && p.live <= Looked(job, course.windowed, p.page)
    && (p.linking.Some? ==> p.linking.value in Looked(job, course.windowed, p.page))
    && var due := Due(job, course.windowed, Position(p.cursor.token), p.next.position);
       && due <= w.done.rows + p.tombstones + p.live
       && due <= w.done.links + p.tombstones + p.live + (if p.linking.Some? then {p.linking.value} else {})
  }

  ghost predicate OnCourse(job: Job, course: Course, w: World) {
    && (w.phase.Asking? ==> Along(job, course, w.phase.cursor, w.done))
    && (w.phase.Storing? ==> PageInProgress(job, course, w))
  }

  /** On the first course the cursor is within what was stored and the page within what was read. */
  ghost predicate WithinMarks(start: World, marks: Marks, w: World) {
    && (w.phase.Asking? ==> Position(w.phase.cursor.token) <= marks.stored)
    && (w.phase.Storing? ==> Position(w.phase.cursor.token) <= marks.stored)
    && (Reading(start, w) ==> w.phase.next.position <= marks.read)
    && (Emptied(start, w) ==> w.phase.next.position <= marks.stored)
  }

  /** All that a history may have committed. */
  ghost function Reach(job: Job, mayStartOver: bool, start: World, read: nat): set<string>
    requires Position(start.disk.token) <= read <= |job.log|
  {
    DueOn(job, Started(start), read) + (if mayStartOver then DueOn(job, RESCAN, |job.log|) else {})
  }

  ghost predicate Committed(job: Job, start: World, w: World, reach: set<string>) {
    && Reflects(start.store, ZoneEffects(job), w.done, w.store)
    && w.done.rows <= reach && w.done.links <= reach
  }

  ghost predicate Invariant(job: Job, mayStartOver: bool, start: World, marks: Marks, w: World) {
    var first := Started(start);
    && first.from <= marks.stored <= marks.read <= |job.log|
    && Committed(job, start, w, Reach(job, mayStartOver, start, marks.read))
    && DueOn(job, first, marks.stored) <= w.done.rows * w.done.links
    && ((Along(job, first, w.disk, w.done) && Position(w.disk.token) <= marks.stored)
        || (mayStartOver && Along(job, RESCAN, w.disk, w.done)))
    && ((OnCourse(job, first, w) && WithinMarks(start, marks, w))
        || (mayStartOver && OnCourse(job, RESCAN, w)))
  }

  lemma InvariantAtStart(job: Job, mayStartOver: bool, start: World)
    requires Prepared(job, start)
    ensures Invariant(job, mayStartOver, start, MarksOf([start]), start)
  {
    var base := Position(start.disk.token);
    assert job.log[base..base] == [];
    NothingDoneYet(start.store, ZoneEffects(job));
  }

  // --- what one step keeps ---

  /** The records of a page have their effects in the zone as a whole, and are due. */
  lemma PageRecord(job: Job, course: Course, w: World, id: string)
    requires DistinctRecords(job.log) && w.phase.Storing? && PageInProgress(job, course, w)
    requires id in Tombstones(w.phase.page) || id in Looked(job, course.windowed, w.phase.page)
    ensures id in ZoneEffects(job)
    ensures id in Due(job, course.windowed, Position(w.phase.cursor.token), w.phase.next.position)
    ensures ZoneEffects(job)[id]
            == if w.phase.page[id].None? then Delete else EffectOf(w.phase.page[id].value, job.scope)
  {
    CutAgrees(job.log, Position(w.phase.cursor.token), w.phase.next.position);
  }

  lemma AlongGrows(job: Job, course: Course, cursor: Cursor, done: Done, more: Done)
    requires Along(job, course, cursor, done) && done.rows <= more.rows && done.links <= more.links
    ensures Along(job, course, cursor, more)
  {
  }

  lemma TombstoneKeeps(job: Job, course: Course, start: World, reach: set<string>, w: World, id: string, w': World)
    requires DistinctRecords(job.log) && Independent(start.store, ZoneEffects(job))
    requires Committed(job, start, w, reach) && w.phase.Storing? && PageInProgress(job, course, w)
    requires Due(job, course.windowed, Position(w.phase.cursor.token), w.phase.next.position) <= reach
    requires id in w.phase.tombstones && Forgets(w, id, w')
    ensures Committed(job, start, w', reach) && PageInProgress(job, course, w')
  {
    hide Reflects, Independent, DistinctRecords, ZoneEffects, Due, DeleteRecord, Along;
    PageRecord(job, course, w, id);
    TombstoneDeletes(job, course, w, id);
    DeleteExtends(start.store, ZoneEffects(job), w.done, w.store, id);
    AlongGrows(job, course, w.phase.cursor, w.done, w'.done);
  }

  lemma TombstoneDeletes(job: Job, course: Course, w: World, id: string)
    requires DistinctRecords(job.log) && w.phase.Storing? && PageInProgress(job, course, w) && id in w.phase.tombstones
    ensures Deletes(ZoneEffects(job), id)
  {
    PageRecord(job, course, w, id);
  }

  lemma LiveKeeps(job: Job, course: Course, start: World, reach: set<string>, w: World, id: string, w': World)
    requires DistinctRecords(job.log) && Independent(start.store, ZoneEffects(job))
    requires Committed(job, start, w, reach) && w.phase.Storing? && PageInProgress(job, course, w)
    requires Due(job, course.windowed, Position(w.phase.cursor.token), w.phase.next.position) <= reach
    requires id in w.phase.live && w.phase.linking.None?
    requires Passes(job, w, id, w') || StoresRow(job, w, id, w')
    ensures Committed(job, start, w', reach) && PageInProgress(job, course, w')
  {
    hide Reflects, Independent, DistinctRecords, ZoneEffects, Due, InsertRow, EffectOf, Along;
    PageRecord(job, course, w, id);
    if Passes(job, w, id, w') {
      SkipExtends(start.store, ZoneEffects(job), w.done, w.store, id);
    } else {
      InsertExtends(start.store, ZoneEffects(job), w.done, w.store, id);
    }
    AlongGrows(job, course, w.phase.cursor, w.done, w'.done);
  }

  lemma LinkKeeps(job: Job, course: Course, start: World, reach: set<string>, w: World, w': World)
    requires DistinctRecords(job.log) && Committed(job, start, w, reach)
    requires w.phase.Storing? && PageInProgress(job, course, w)
    requires Due(job, course.windowed, Position(w.phase.cursor.token), w.phase.next.position) <= reach
    requires Links(job, w, w')
    ensures Committed(job, start, w', reach) && PageInProgress(job, course, w')
  {
    hide Reflects, DistinctRecords, ZoneEffects, Due, EffectOf, Along;
    var id := w.phase.linking.value;
    PageRecord(job, course, w, id);
    LinkExtends(start.store, ZoneEffects(job), w.done, w.store, id);
    AlongGrows(job, course, w.phase.cursor, w.done, w'.done);
  }

  /** One transaction of a page. */
  lemma CommitKeeps(job: Job, course: Course, start: World, reach: set<string>, w: World, w': World)
    requires DistinctRecords(job.log) && Independent(start.store, ZoneEffects(job))
    requires Committed(job, start, w, reach) && w.phase.Storing? && PageInProgress(job, course, w)
    requires Due(job, course.windowed, Position(w.phase.cursor.token), w.phase.next.position) <= reach
    requires AppliesTombstone(w, w') || TakesLive(job, w, w') || Links(job, w, w')
    ensures Committed(job, start, w', reach) && w'.phase.Storing? && PageInProgress(job, course, w')
    ensures w.done.rows <= w'.done.rows && w.done.links <= w'.done.links && w'.disk == w.disk
    ensures w'.phase.cursor == w.phase.cursor && w'.phase.next == w.phase.next
  {
    hide PageInProgress, Committed, Independent, DistinctRecords;
    if AppliesTombstone(w, w') {
      var id :| id in w.phase.tombstones && Forgets(w, id, w');
      TombstoneKeeps(job, course, start, reach, w, id, w');
    } else if TakesLive(job, w, w') {
      var id :| id in w.phase.live && (Passes(job, w, id, w') || StoresRow(job, w, id, w'));
      LiveKeeps(job, course, start, reach, w, id, w');
    } else {
      LinkKeeps(job, course, start, reach, w, w');
    }
  }

  lemma GetsPageKeeps(job: Job, course: Course, w: World, w': World)
    requires OnCourse(job, course, w) && GetsPage(job, w, w')
    ensures OnCourse(job, course, w')
  {
    hide Due;
    var lo, hi := Position(w.phase.cursor.token), w'.phase.next.position;
    if course.windowed && w.phase.cursor.complete {
      assert job.log[lo..hi] == [];
    }
    assert Looked(job, !w.phase.cursor.complete, w'.phase.page) == Looked(job, course.windowed, w'.phase.page);
    PageDue(job, course.windowed, lo, hi);
  }

  lemma PageDue(job: Job, windowed: bool, lo: nat, hi: nat)
    requires lo <= hi <= |job.log|
    ensures Due(job, windowed, lo, hi) == Tombstones(Net(job.log[lo..hi])) + Looked(job, windowed, Net(job.log[lo..hi]))
  {
  }

  /** A page whose lists are empty is due up to its end. */
  lemma EmptiedIsDone(job: Job, course: Course, w: World)
    requires DistinctRecords(job.log) && w.phase.Storing? && PageInProgress(job, course, w)
    requires w.phase.tombstones == {} && w.phase.live == {} && w.phase.linking.None?
    ensures DueOn(job, course, w.phase.next.position) <= w.done.rows * w.done.links
  {
    DueGrows(job, course.windowed, course.from, Position(w.phase.cursor.token), w.phase.next.position);
  }

  lemma FinishKeeps(job: Job, course: Course, w: World, w': World)
    requires DistinctRecords(job.log) && OnCourse(job, course, w) && FinishesPage(w, w')
    ensures OnCourse(job, course, w')
    ensures w'.disk == w.disk || Along(job, course, w'.disk, w'.done)
  {
    hide Due, DistinctRecords;
    EmptiedIsDone(job, course, w);
  }

  /** What is due up to a position is within what is due up to a later one. */
  lemma DueWithin(job: Job, course: Course, lo: nat, hi: nat)
    requires DistinctRecords(job.log) && course.from <= lo <= hi <= |job.log|
    ensures DueOn(job, course, lo) <= DueOn(job, course, hi)
    ensures Due(job, course.windowed, lo, hi) <= DueOn(job, course, hi)
  {
    DueGrows(job, course.windowed, course.from, lo, hi);
  }

  /** The marks after a page was read or one of its records committed. */
  lemma MarksKept(job: Job, start: World, marks: Marks, course: Course, w: World)
    requires DistinctRecords(job.log) && (course == Started(start) || course == RESCAN)
    requires w.phase.Storing? && PageInProgress(job, course, w)
    requires Started(start).from <= marks.stored <= marks.read <= |job.log|
    requires DueOn(job, Started(start), marks.stored) <= w.done.rows * w.done.links
    ensures
      var first, after := Started(start), Mark(start, marks, w);
      && first.from <= after.stored <= after.read <= |job.log|
      && marks.stored <= after.stored && marks.read <= after.read
      && (Reading(start, w) ==> w.phase.next.position <= after.read)
      && (Emptied(start, w) ==> w.phase.next.position <= after.stored)
      && DueOn(job, first, after.stored) <= w.done.rows * w.done.links
  {
    hide Due;
    var first, hi := Started(start), w.phase.next.position;
    if Emptied(start, w) && marks.stored < hi {
      EmptiedIsDone(job, course, w);
      if course != first {
        assert first.windowed;
        DueGrows(job, true, 0, first.from, hi);
      }
    }
  }

  /** A page's records are within reach once the page is marked as read. */
  lemma PageWithinReach(job: Job, mayStartOver: bool, start: World, marks: Marks, course: Course, w: World)
    requires DistinctRecords(job.log) && w.phase.Storing? && PageInProgress(job, course, w)
    requires Started(start).from <= marks.read <= |job.log|
    requires (course == Started(start) && (Reading(start, w) ==> w.phase.next.position <= marks.read))
             || (mayStartOver && course == RESCAN)
    ensures Due(job, course.windowed, Position(w.phase.cursor.token), w.phase.next.position)
            <= Reach(job, mayStartOver, start, marks.read)
  {
    hide DistinctRecords;
    var lo, hi := Position(w.phase.cursor.token), w.phase.next.position;
    if lo == hi {
      assert job.log[lo..hi] == [];
    } else if course == RESCAN && mayStartOver {
      DueWithin(job, RESCAN, lo, hi);
      DueWithin(job, RESCAN, hi, |job.log|);
    } else {
      FirstCourseReads(job, start, course, w);
      DueWithin(job, course, lo, hi);
      DueWithin(job, course, hi, marks.read);
    }
  }

  lemma FirstCourseReads(job: Job, start: World, course: Course, w: World)
    requires course == Started(start) && w.phase.Storing? && PageInProgress(job, course, w)
    requires Position(w.phase.cursor.token) < w.phase.next.position
    ensures Reading(start, w)
  {
  }

  lemma ReachGrows(job: Job, mayStartOver: bool, start: World, read: nat, more: nat)
    requires DistinctRecords(job.log) && Position(start.disk.token) <= read <= more <= |job.log|
    ensures Reach(job, mayStartOver, start, read) <= Reach(job, mayStartOver, start, more)
  {
    DueWithin(job, Started(start), read, more);
  }

  lemma ReadStepKeeps(job: Job, mayStartOver: bool, start: World, marks: Marks, course: Course, w: World, w': World)
    requires Prepared(job, start) && Invariant(job, mayStartOver, start, marks, w) && GetsPage(job, w, w')
    requires OnCourse(job, course, w)
    requires (course == Started(start) && WithinMarks(start, marks, w)) || (mayStartOver && course == RESCAN)
    ensures Invariant(job, mayStartOver, start, Mark(start, marks, w'), w')
  {
    hide Due, Reflects, Independent, DistinctRecords, PageInProgress, Along, Reach, GetsPage;
    GotPage(job, w, w');
    GetsPageKeeps(job, course, w, w');
    MarksKept(job, start, marks, course, w');
    ReachGrows(job, mayStartOver, start, marks.read, Mark(start, marks, w').read);
  }

  lemma GotPage(job: Job, w: World, w': World)
    requires GetsPage(job, w, w')
    ensures w'.phase.Storing? && w'.disk == w.disk && w'.store == w.store && w'.done == w.done
    ensures w.phase.Asking? && w'.phase.cursor == w.phase.cursor
  {
  }

  lemma CommitStepKeeps(job: Job, mayStartOver: bool, start: World, marks: Marks, course: Course, w: World, w': World)
    requires Prepared(job, start) && Invariant(job, mayStartOver, start, marks, w)
    requires AppliesTombstone(w, w') || TakesLive(job, w, w') || Links(job, w, w')
    requires OnCourse(job, course, w)
    requires (course == Started(start) && WithinMarks(start, marks, w)) || (mayStartOver && course == RESCAN)
    ensures Invariant(job, mayStartOver, start, Mark(start, marks, w'), w')
  {
    hide Due, Independent, DistinctRecords, PageInProgress, Along, Reach, Reflects, AppliesTombstone, TakesLive, Links;
    assert w.phase.Storing? by { IsStoring(job, w, w'); }
    var reach := Reach(job, mayStartOver, start, marks.read);
    PageWithinReach(job, mayStartOver, start, marks, course, w);
    CommitKeeps(job, course, start, reach, w, w');
    DueStays(job, start, marks, w, w');
    MarksKept(job, start, marks, course, w');
    ReachGrows(job, mayStartOver, start, marks.read, Mark(start, marks, w').read);
    DiskStays(job, mayStartOver, start, marks, w, w');
  }

  lemma IsStoring(job: Job, w: World, w': World)
    requires AppliesTombstone(w, w') || TakesLive(job, w, w') || Links(job, w, w')
    ensures w.phase.Storing?
  {
  }

  lemma DueStays(job: Job, start: World, marks: Marks, w: World, w': World)
    requires Started(start).from <= marks.stored <= |job.log|
    requires DueOn(job, Started(start), marks.stored) <= w.done.rows * w.done.links
    requires w.done.rows <= w'.done.rows && w.done.links <= w'.done.links
    ensures DueOn(job, Started(start), marks.stored) <= w'.done.rows * w'.done.links
  {
  }

  lemma DiskStays(job: Job, mayStartOver: bool, start: World, marks: Marks, w: World, w': World)
    requires w'.disk == w.disk && w.done.rows <= w'.done.rows && w.done.links <= w'.done.links
    ensures Along(job, Started(start), w.disk, w.done) ==> Along(job, Started(start), w'.disk, w'.done)
    ensures Along(job, RESCAN, w.disk, w.done) ==> Along(job, RESCAN, w'.disk, w'.done)
  {
  }

  lemma FinishStepKeeps(job: Job, mayStartOver: bool, start: World, marks: Marks, course: Course, w: World, w': World)
    requires Prepared(job, start) && Invariant(job, mayStartOver, start, marks, w) && FinishesPage(w, w')
    requires OnCourse(job, course, w)
    requires (course == Started(start) && WithinMarks(start, marks, w)) || (mayStartOver && course == RESCAN)
    ensures Invariant(job, mayStartOver, start, Mark(start, marks, w'), w')
  {
    hide Due, Reflects, Independent, DistinctRecords, Along, Reach;
    FinishKeeps(job, course, w, w');
    if course == Started(start) && WithinMarks(start, marks, w) {
      FinishWithinMarks(job, start, marks, course, w, w');
    }
  }

  lemma FinishWithinMarks(job: Job, start: World, marks: Marks, course: Course, w: World, w': World)
    requires course == Started(start) && WithinMarks(start, marks, w) && FinishesPage(w, w') && OnCourse(job, course, w)
    ensures WithinMarks(start, marks, w') && (w'.disk == w.disk || Position(w'.disk.token) <= marks.stored)
  {
    if Position(w.phase.cursor.token) < w.phase.next.position {
      FirstCourseReads(job, start, course, w);
    }
  }

  lemma RestStepKeeps(job: Job, mayStartOver: bool, start: World, marks: Marks, w: World, w': World)
    requires Prepared(job, start) && Invariant(job, mayStartOver, start, marks, w)
    requires Begins(w, w') || Crashes(w, w') || GivesUp(w, w') || (mayStartOver && Restarts(w, w'))
    ensures Invariant(job, mayStartOver, start, Mark(start, marks, w'), w')
  {
    hide Reflects, Independent, DistinctRecords, Reach;
    NothingDue(job);
  }

  lemma TearKeeps(job: Job, start: World, marks: Marks, course: Course, w: World, w': World)
    requires Prepared(job, start) && Invariant(job, true, start, marks, w) && Tears(w, w')
    requires OnCourse(job, course, w)
    requires (course == Started(start) && WithinMarks(start, marks, w)) || course == RESCAN
    ensures Invariant(job, true, start, Mark(start, marks, w'), w')
  {
    hide Due, Reflects, Independent, DistinctRecords, Reach, PageInProgress;
    assert Along(job, RESCAN, w'.disk, w'.done) by { NothingDue(job); }
    if w'.phase.Storing? {
      SameProgress(job, course, w, w');
      MarksKept(job, start, marks, course, w');
      ReachGrows(job, true, start, marks.read, Mark(start, marks, w').read);
    }
  }

  lemma SameProgress(job: Job, course: Course, w: World, w': World)
    requires w.phase.Storing? && PageInProgress(job, course, w) && w'.phase == w.phase && w'.done == w.done
    ensures PageInProgress(job, course, w')
  {
  }

  lemma NothingDue(job: Job)
    ensures DueOn(job, RESCAN, 0) == {}
  {
    assert job.log[0..0] == [];
  }

  lemma StepKeeps(job: Job, mayStartOver: bool, start: World, marks: Marks, w: World, w': World)
    requires Prepared(job, start) && Invariant(job, mayStartOver, start, marks, w) && Step(job, mayStartOver, w, w')
    ensures Invariant(job, mayStartOver, start, Mark(start, marks, w'), w')
  {
    hide Prepared, Committed, OnCourse, Along, WithinMarks, GetsPage, AppliesTombstone, TakesLive, Links, FinishesPage;
    var course :=
      if OnCourse(job, Started(start), w) && WithinMarks(start, marks, w) then Started(start) else RESCAN;
    if mayStartOver && Tears(w, w') {
      TearKeeps(job, start, marks, course, w, w');
    } else if Begins(w, w') || Crashes(w, w') || GivesUp(w, w') || (mayStartOver && Restarts(w, w')) {
      RestStepKeeps(job, mayStartOver, start, marks, w, w');
    } else if GetsPage(job, w, w') {
      ReadStepKeeps(job, mayStartOver, start, marks, course, w, w');
    } else if FinishesPage(w, w') {
      FinishStepKeeps(job, mayStartOver, start, marks, course, w, w');
    } else {
      CommitStepKeeps(job, mayStartOver, start, marks, course, w, w');
    }
  }

  /** In every world of every history, expiry included, the store reflects what was committed, what
      was committed is within reach, and the saved cursor covers nothing that is not in the store. */
  lemma {:induction false} PathKeeps(job: Job, mayStartOver: bool, worlds: seq<World>)
    requires Path(job, mayStartOver, worlds) && Prepared(job, worlds[0])
    ensures Invariant(job, mayStartOver, worlds[0], MarksOf(worlds), worlds[|worlds| - 1])
  {
    hide Invariant, Step;
    if |worlds| == 1 {
      assert worlds == [worlds[0]];
      InvariantAtStart(job, mayStartOver, worlds[0]);
    } else {
      var before := worlds[..|worlds| - 1];
      PathKeeps(job, mayStartOver, before);
      assert Step(job, mayStartOver, worlds[|worlds| - 2], worlds[|worlds| - 1]);
      StepKeeps(job, mayStartOver, worlds[0], MarksOf(before), before[|before| - 1], worlds[|worlds| - 1]);
    }
  }

  // --- what a completed walk leaves ---

  /** The walk has been carried to the end of the zone and that is on disk. */
  ghost predicate Completed(job: Job, w: World) {
    w.disk.complete && Position(w.disk.token) == |job.log|
  }

  /** The one-shot specification of a walk: every tombstone from the starting position on, and
      every live record from there on that is inside the window, translatable and wanted. */
  ghost predicate OneShot(job: Job, course: Course, before: State, after: State)
    requires course.from <= |job.log|
  {
    var due := DueOn(job, course, |job.log|);
    Reflects(before, ZoneEffects(job), Done(due, due), after)
  }

  /** What a completed walk committed: all of one course, up to the marks at least, and otherwise
      only what it could reach. Without expiry that is exactly the first course. */
  lemma CompletedWalkCommitted(job: Job, mayStartOver: bool, worlds: seq<World>)
    requires Path(job, mayStartOver, worlds) && Prepared(job, worlds[0]) && Completed(job, worlds[|worlds| - 1])
    ensures
      var start, w, marks := worlds[0], worlds[|worlds| - 1], MarksOf(worlds);
      var first := Started(start);
      && first.from <= marks.stored <= marks.read <= |job.log|
      && Reflects(start.store, ZoneEffects(job), w.done, w.store)
      && ((DueOn(job, first, |job.log|) <= w.done.rows * w.done.links && marks.stored == |job.log|)
          || (mayStartOver && DueOn(job, RESCAN, |job.log|) <= w.done.rows * w.done.links))
      && DueOn(job, first, marks.stored) <= w.done.rows * w.done.links
      && w.done.rows <= Reach(job, mayStartOver, start, marks.read)
      && w.done.links <= Reach(job, mayStartOver, start, marks.read)
  {
    hide Due, Reflects, Independent, DistinctRecords, Step, OnCourse, WithinMarks;
    PathKeeps(job, mayStartOver, worlds);
  }

  /** Without expiry, and for an initial scan from the very beginning even with it, a completed walk
      meets the one-shot specification, however often it was interrupted and wherever the pages
      were cut. */
  lemma CompletedWalkMeetsSpec(job: Job, mayStartOver: bool, worlds: seq<World>)
    requires Path(job, mayStartOver, worlds) && Prepared(job, worlds[0]) && Completed(job, worlds[|worlds| - 1])
    requires mayStartOver ==> Started(worlds[0]) == RESCAN
    ensures OneShot(job, Started(worlds[0]), worlds[0].store, worlds[|worlds| - 1].store)
  {
    hide Due, Reflects, Independent, DistinctRecords, Step, Completed;
    CompletedWalkCommitted(job, mayStartOver, worlds);
    var w, marks := worlds[|worlds| - 1], MarksOf(worlds);
    var due := DueOn(job, Started(worlds[0]), |job.log|);
    ReachGrows(job, mayStartOver, worlds[0], marks.read, |job.log|);
    assert w.done.rows == due && w.done.links == due;
    assert w.done == Done(due, due);
  }

  /** Two histories of the same walk, with different crashes, failures and page cuts, end with the
      same store at the same position. In particular every interrupted history ends where the
      uninterrupted one does. */
  lemma InterruptionsDoNotMatter(job: Job, mayStartOver: bool, one: seq<World>, other: seq<World>)
    requires Path(job, mayStartOver, one) && Path(job, mayStartOver, other)
    requires one[0] == other[0] && Prepared(job, one[0])
    requires mayStartOver ==> Started(one[0]) == RESCAN
    requires Completed(job, one[|one| - 1]) && Completed(job, other[|other| - 1])
    ensures one[|one| - 1].store == other[|other| - 1].store
    ensures Position(one[|one| - 1].disk.token) == Position(other[|other| - 1].disk.token)
  {
    CompletedWalkMeetsSpec(job, mayStartOver, one);
    CompletedWalkMeetsSpec(job, mayStartOver, other);
    var due := DueOn(job, Started(one[0]), |job.log|);
    ReflectsUnique(one[0].store, ZoneEffects(job), Done(due, due), one[|one| - 1].store, other[|other| - 1].store);
  }

  /** A persisted initial scan that claims completion really is at the end of the zone, whatever
      expired on the way. */
  lemma CompleteScanIsAtTheEnd(job: Job, mayStartOver: bool, worlds: seq<World>)
    requires Path(job, mayStartOver, worlds) && Prepared(job, worlds[0]) && !worlds[0].disk.complete
    requires worlds[|worlds| - 1].disk.complete
    ensures Completed(job, worlds[|worlds| - 1])
  {
    hide Due, Step, OnCourse, WithinMarks, Committed;
    PathKeeps(job, mayStartOver, worlds);
  }

  // --- histories are made of runs ---

  /** The same world after more work had been done before. */
  function After(done: Done, w: World): World {
    w.(done := Done(w.done.rows + done.rows, w.done.links + done.links))
  }

  lemma StepAfter(job: Job, mayStartOver: bool, done: Done, w: World, w': World)
    requires Step(job, mayStartOver, w, w')
    ensures Step(job, mayStartOver, After(done, w), After(done, w'))
  {
    if AppliesTombstone(w, w') {
      var id :| id in w.phase.tombstones && Forgets(w, id, w');
      OneMore(w.done.rows, done.rows, id);
      OneMore(w.done.links, done.links, id);
      assert Forgets(After(done, w), id, After(done, w'));
    } else if TakesLive(job, w, w') {
      var id :| id in w.phase.live && (Passes(job, w, id, w') || StoresRow(job, w, id, w'));
      OneMore(w.done.rows, done.rows, id);
      OneMore(w.done.links, done.links, id);
      if Passes(job, w, id, w') {
        assert Passes(job, After(done, w), id, After(done, w'));
      } else {
        assert StoresRow(job, After(done, w), id, After(done, w'));
      }
    } else if Links(job, w, w') {
      OneMore(w.done.links, done.links, w.phase.linking.value);
      assert Links(job, After(done, w), After(done, w'));
    }
  }

  lemma OneMore(a: set<string>, b: set<string>, x: string)
    ensures (a + {x}) + b == (a + b) + {x}
  {}

  /** A run that starts from what a history left on disk continues that history, whether the
      history ended in a crash or the run itself is cut off later. By its first request a write of
      the cursor may have broken off. */
  lemma {:induction false} RunContinues(job: Job, mayStartOver: bool, history: seq<World>, run: seq<World>)
    returns (longer: seq<World>)
    requires Path(job, mayStartOver, history) && Path(job, mayStartOver, run)
    requires var w := history[|history| - 1];
             && run[0] == World(run[0].disk, w.store, Asking(w.disk, false, 0), NOTHING)
             && (run[0].disk == w.disk || (mayStartOver && run[0].disk == NOT_SAVED))
    ensures Path(job, mayStartOver, longer) && longer[0] == history[0]
    ensures longer[|longer| - 1] == After(history[|history| - 1].done, run[|run| - 1])
  {
    var w := history[|history| - 1];
    if |run| == 1 {
      var crashed := w.(phase := Stopped);
      PathExtends(job, mayStartOver, history, crashed);
      var begun := crashed.(phase := Asking(w.disk, false, 0));
      assert Begins(crashed, begun);
      PathExtends(job, mayStartOver, history + [crashed], begun);
      longer := history + [crashed] + [begun];
      var first := After(w.done, run[0]);
      if first != begun {
        assert Tears(begun, first);
        PathExtends(job, mayStartOver, longer, first);
        longer := longer + [first];
      }
    } else {
      var before := run[..|run| - 1];
      longer := RunContinues(job, mayStartOver, history, before);
      assert Step(job, mayStartOver, run[|run| - 2], run[|run| - 1]);
      StepAfter(job, mayStartOver, w.done, before[|before| - 1], run[|run| - 1]);
      PathExtends(job, mayStartOver, longer, After(w.done, run[|run| - 1]));
      longer := longer + [After(w.done, run[|run| - 1])];
    }
  }
}
