/** The message walk as a state machine: what is on disk, what is in the store, and where the
    running walk stands. Any step may be followed by a crash, a fetch may fail or report an
    expired token, a page may be cut anywhere, and writing the cursor may fail or break off. */
module SyncMachine {
  import opened Options
  import opened MessageStore
  import opened Convergence
  import opened CloudRecords
  import opened Zone

  const MAX_CURSOR_PAGES := 5000

  /** The message half of the persisted cursor. */
  datatype Cursor = Cursor(token: Option<Token>, complete: bool, scanned: nat, lastTotal: nat)

  /** What stays fixed while a walk is carried through: the zone, the account, the scope and the
      start of the stored window. */
  datatype Job = Job(log: seq<Change<CloudMessage>>, account: string, scope: Scope, since: int)

  datatype Phase =
    | Stopped
    | Asking(cursor: Cursor, restarted: bool, requests: nat)
    | Storing(cursor: Cursor, restarted: bool, requests: nat, next: Token, status: int,
              page: map<string, Option<CloudMessage>>,
              tombstones: set<string>, live: set<string>, linking: Option<string>)

  datatype World = World(disk: Cursor, store: State, phase: Phase, done: Done)

  // --- the pieces of a page ---

  predicate TooOld(job: Job, cm: CloudMessage) {
    UnixMs(cm.time) < job.since
  }

  function Tombstones(page: map<string, Option<CloudMessage>>): set<string> {
    set id | id in page && page[id].None?
  }

  function LiveRecords(page: map<string, Option<CloudMessage>>): set<string> {
    set id | id in page && page[id].Some?
  }

  /** The live records of a page that the walk looks at: all of them once the zone has been
      walked to its end, before that only those inside the window. */
  function Looked(job: Job, scanning: bool, page: map<string, Option<CloudMessage>>): set<string> {
    set id | id in page && page[id].Some? && !(scanning && TooOld(job, page[id].value))
  }

  function EffectsOf(job: Job, page: map<string, Option<CloudMessage>>): Effects {
    map id | id in page :: if page[id].None? then Delete else EffectOf(page[id].value, job.scope)
  }

  // --- cursor updates ---

  /** What a missing or unreadable file reads as. */
  const NOT_SAVED := Cursor(None, false, 0, 0)

  function Reset(cursor: Cursor): Cursor {
    Cursor(None, false, 0, cursor.lastTotal)
  }

  function Advance(cursor: Cursor, next: Token, status: int, read: nat): Cursor {
    var scanned := cursor.scanned + read;
    if status == DONE then
      Cursor(Some(next), true, scanned, if cursor.complete then cursor.lastTotal else scanned)
    else cursor.(token := Some(next), scanned := scanned)
  }

  // --- steps ---

  ghost predicate Begins(w: World, w': World) {
    w.phase.Stopped? && w' == w.(phase := Asking(w.disk, false, 0))
  }

  ghost predicate Crashes(w: World, w': World) {
    w' == w.(phase := Stopped)
  }

  /** A failed fetch, a second expiry, or the page limit ends the run. */
  ghost predicate GivesUp(w: World, w': World) {
    w.phase.Asking? && w' == w.(phase := Stopped)
  }

  ghost predicate Persists(w: World, cursor: Cursor, disk: Cursor) {
    disk == cursor || disk == w.disk
  }

  ghost predicate Restarts(w: World, w': World) {
    && w.phase.Asking? && !w.phase.restarted && w.phase.requests < MAX_CURSOR_PAGES
    && Persists(w, Reset(w.phase.cursor), w'.disk)
    && w' == w.(disk := w'.disk, phase := Asking(Reset(w.phase.cursor), true, w.phase.requests + 1))
  }

  /** A write of the cursor breaks off and leaves a file that reads as none. */
  ghost predicate Tears(w: World, w': World) {
    w' == w.(disk := NOT_SAVED)
  }

  ghost predicate GetsPage(job: Job, w: World, w': World) {
    && w.phase.Asking? && w.phase.requests < MAX_CURSOR_PAGES && w'.phase.Storing?
    && w' == w.(phase := w'.phase)
    && var asked, got := w.phase, w'.phase;
       && Serves(job.log, job.account, asked.cursor.token, Page(got.next, got.page, got.status))
       && got == Storing(asked.cursor, asked.restarted, asked.requests + 1, got.next, got.status, got.page,
                         Tombstones(got.page), Looked(job, !asked.cursor.complete, got.page), None)
  }

  ghost predicate AppliesTombstone(w: World, w': World) {
    && w.phase.Storing?
    && exists id :: id in w.phase.tombstones && Forgets(w, id, w')
  }

  ghost predicate Forgets(w: World, id: string, w': World)
    requires w.phase.Storing?
  {
    w' == w.(store := DeleteRecord(w.store, id),
             phase := w.phase.(tombstones := w.phase.tombstones - {id}),
             done := Done(w.done.rows + {id}, w.done.links + {id}))
  }

  ghost predicate Passes(job: Job, w: World, id: string, w': World)
    requires w.phase.Storing?
  {
    && id in w.phase.page && w.phase.page[id].Some?
    && EffectOf(w.phase.page[id].value, job.scope) == Nothing
    && w' == w.(phase := w.phase.(live := w.phase.live - {id}),
                done := Done(w.done.rows + {id}, w.done.links + {id}))
  }

  ghost predicate StoresRow(job: Job, w: World, id: string, w': World)
    requires w.phase.Storing?
  {
    && id in w.phase.page && w.phase.page[id].Some?
    && var effect := EffectOf(w.phase.page[id].value, job.scope);
       && effect.Insert?
       && w' == w.(store := InsertRow(w.store, effect.guid, effect.row),
                   phase := w.phase.(live := w.phase.live - {id}, linking := Some(id)),
                   done := w.done.(rows := w.done.rows + {id}))
  }

  ghost predicate TakesLive(job: Job, w: World, w': World) {
    && w.phase.Storing? && w.phase.tombstones == {} && w.phase.linking.None?
    && exists id :: id in w.phase.live && (Passes(job, w, id, w') || StoresRow(job, w, id, w'))
  }

  /** The second transaction of a stored record; none is needed when the record is named by its
      guid. */
  ghost predicate Links(job: Job, w: World, w': World) {
    && w.phase.Storing? && w.phase.linking.Some?
    && var id := w.phase.linking.value;
       && id in w.phase.page && w.phase.page[id].Some?
       && var effect := EffectOf(w.phase.page[id].value, job.scope);
          && effect.Insert?
          && w' == w.(store := if effect.guid == id then w.store
                               else w.store.(records := w.store.records[id := effect.guid]),
                      phase := w.phase.(linking := None),
                      done := w.done.(links := w.done.links + {id}))
  }

  ghost predicate FinishesPage(w: World, w': World) {
    && w.phase.Storing? && w.phase.tombstones == {} && w.phase.live == {} && w.phase.linking.None?
    && var cursor := Advance(w.phase.cursor, w.phase.next, w.phase.status, |w.phase.page|);
       && Persists(w, cursor, w'.disk)
       && w' == w.(disk := w'.disk,
                   phase := if w.phase.status == DONE then Stopped
                            else Asking(cursor, w.phase.restarted, w.phase.requests))
  }

  /** One step; `mayStartOver` is whether tokens expire and writes break off. */
  ghost predicate Step(job: Job, mayStartOver: bool, w: World, w': World) {
    || Begins(w, w') || Crashes(w, w') || GivesUp(w, w') || (mayStartOver && (Restarts(w, w') || Tears(w, w')))
    || GetsPage(job, w, w') || AppliesTombstone(w, w') || TakesLive(job, w, w') || Links(job, w, w')
    || FinishesPage(w, w')
  }

  /** Any number of runs, each starting from whatever is on disk. */
  ghost predicate Path(job: Job, mayStartOver: bool, worlds: seq<World>) {
    && worlds != []
    && forall i :: 0 <= i < |worlds| - 1 ==> Step(job, mayStartOver, worlds[i], worlds[i + 1])
  }

  lemma PathExtends(job: Job, mayStartOver: bool, worlds: seq<World>, w: World)
    requires Path(job, mayStartOver, worlds) && Step(job, mayStartOver, worlds[|worlds| - 1], w)
    ensures Path(job, mayStartOver, worlds + [w])
  {}

  lemma PathMayStartOver(job: Job, mayStartOver: bool, worlds: seq<World>)
    requires Path(job, mayStartOver, worlds)
    ensures Path(job, true, worlds)
  {
  }

  // --- what a walk has to get done ---

  ghost predicate DistinctRecords(log: seq<Change<CloudMessage>>) {
    forall i, j :: 0 <= i < j < |log| ==> log[i].id != log[j].id
  }

  /** The records between two positions that must reach the store. */
  function Due(job: Job, windowed: bool, lo: nat, hi: nat): set<string>
    requires lo <= hi <= |job.log|
  {
    var net := Net(job.log[lo..hi]);
    Tombstones(net) + Looked(job, windowed, net)
  }

  /** A cut of the log agrees with the whole. */
  lemma CutAgrees(log: seq<Change<CloudMessage>>, lo: nat, hi: nat)
    requires DistinctRecords(log) && lo <= hi <= |log|
    ensures forall id :: id in Net(log[lo..hi]) ==> id in Net(log) && Net(log)[id] == Net(log[lo..hi])[id]
  {
    var cut := log[lo..hi];
    NetDistinct(log);
    NetDistinct(cut);
    forall id | id in Net(cut)
      ensures id in Net(log) && Net(log)[id] == Net(cut)[id]
    {
      var i :| 0 <= i < |cut| && cut[i].id == id;
      assert log[lo + i] == cut[i];
    }
  }

  /** Moving the position forward adds exactly the records of the stretch it passes. */
  lemma DueGrows(job: Job, windowed: bool, lo: nat, mid: nat, hi: nat)
    requires DistinctRecords(job.log) && lo <= mid <= hi <= |job.log|
    ensures Due(job, windowed, lo, hi) == Due(job, windowed, lo, mid) + Due(job, windowed, mid, hi)
  {
    var left, right := job.log[lo..mid], job.log[mid..hi];
    assert job.log[lo..hi] == left + right;
    NetConcat(left, right);
    forall id | id in Net(right)
      ensures id !in Net(left)
    {
      StretchesDisjoint(job.log, lo, mid, hi, id);
    }
    DueOfUnion(job, windowed, Net(left), Net(right));
  }

  lemma StretchesDisjoint(log: seq<Change<CloudMessage>>, lo: nat, mid: nat, hi: nat, id: string)
    requires DistinctRecords(log) && lo <= mid <= hi <= |log|
    requires id in Net(log[mid..hi])
    ensures id !in Net(log[lo..mid])
  {
  }

  lemma DueOfUnion(job: Job, windowed: bool, left: map<string, Option<CloudMessage>>,
                   right: map<string, Option<CloudMessage>>)
    requires forall id :: id in right ==> id !in left
    ensures Tombstones(left + right) == Tombstones(left) + Tombstones(right)
    ensures Looked(job, windowed, left + right) == Looked(job, windowed, left) + Looked(job, windowed, right)
  {}

  lemma {:induction false} NetDistinct(log: seq<Change<CloudMessage>>)
    requires DistinctRecords(log)
    ensures forall i :: 0 <= i < |log| ==> log[i].id in Net(log) && Net(log)[log[i].id] == log[i].record
  {
    if log != [] {
      var last := |log| - 1;
      NetDistinct(log[..last]);
      forall i | 0 <= i < |log|
        ensures log[i].id in Net(log) && Net(log)[log[i].id] == log[i].record
      {
        assert i < last ==> log[..last][i] == log[i] && log[i].id != log[last].id;
      }
    }
  }
}
