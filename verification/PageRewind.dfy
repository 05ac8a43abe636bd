/**
 * Why a run must not end with the file behind its cursor. Two pages, one with a reaction and one with
 * the tombstone of the message it reacts to, are taken, the cursor is written after neither, and both
 * are taken again. The message is gone by then, so the tombstone no longer takes the reaction along.
 */
module PageRewind {
  import opened Options
  import opened MessageStore
  import opened Convergence
  import opened CloudRecords
  import opened Zone
  import opened SyncMachine
  import opened PagedReplay
  import opened PageSources

  const CUTS: seq<nat> := [1]

  /** The zone: a reaction to a stored message, then the message's tombstone. */
  ghost predicate Rewinding(job: Job, reaction: string, message: string, cm: CloudMessage, stored: Row) {
    && job.log == [Change(reaction, Some(cm)), Change(message, None)] && reaction != message
    && EffectOf(cm, job.scope).Insert? && EffectOf(cm, job.scope).guid == reaction
    && EffectOf(cm, job.scope).row.target == Some(message) && stored.target.None?
  }

  /** A walk that starts before both. */
  ghost predicate Before(job: Job, w: World) {
    w.phase.Stopped? && w.disk.complete && w.disk.token == Some(Token(job.account, 0))
  }

  ghost function Both(job: Job, reaction: string, message: string, cm: CloudMessage, s: State): State
    requires EffectOf(cm, job.scope).Insert?
  {
    DeleteRecord(InsertRow(s, reaction, EffectOf(cm, job.scope).row), message)
  }

  lemma TwoPages(job: Job, reaction: string, message: string, cm: CloudMessage, stored: Row)
    requires Rewinding(job, reaction, message, cm, stored)
    ensures NextCut(CUTS, 0, 2) == 1 && NextCut(CUTS, 1, 2) == 2
    ensures Net(job.log[0..1]) == map[reaction := Some(cm)] && Net(job.log[1..2]) == map[message := None]
    ensures Net(job.log[2..2]) == map[]
  {
    var log := job.log;
    NetAppend([], log[0]);
    NetAppend([], log[1]);
    assert [] + [log[0]] == log[0..1] && [] + [log[1]] == log[1..2] && log[2..2] == [];
    assert CUTS[1..] == [];
  }

  // --- one round over both pages ---

  lemma FixedExtends(job: Job, worlds: seq<World>, w: World)
    requires FixedPath(job, CUTS, worlds) && FixedStep(job, CUTS, worlds[|worlds| - 1], w)
    ensures FixedPath(job, CUTS, worlds + [w])
  {
  }

  lemma FixedIsPath(job: Job, worlds: seq<World>)
    requires FixedPath(job, CUTS, worlds)
    ensures Path(job, false, worlds)
  {
    forall i | 0 <= i < |worlds| - 1
      ensures Step(job, false, worlds[i], worlds[i + 1])
    {
      assert FixedStep(job, CUTS, worlds[i], worlds[i + 1]);
    }
  }

  /** The reaction's page, up to the next request. */
  lemma FirstPage(job: Job, reaction: string, message: string, cm: CloudMessage, stored: Row, w: World)
    returns (worlds: seq<World>)
    requires Rewinding(job, reaction, message, cm, stored) && Before(job, w)
    ensures FixedPath(job, CUTS, worlds) && worlds[0] == w
    ensures var w' := worlds[|worlds| - 1];
            w' == World(w.disk, InsertRow(w.store, reaction, EffectOf(cm, job.scope).row),
                        Asking(Advance(w.disk, Token(job.account, 1), 0, 1), false, 1), w'.done)
  {
    hide EffectOf, InsertRow;
    var page: map<string, Option<CloudMessage>> := map[reaction := Some(cm)];
    var asked := w.(phase := Asking(w.disk, false, 0));
    var got := w.(phase := Storing(w.disk, false, 1, Token(job.account, 1), 0, page, {}, {reaction}, None));
    var row := got.(store := InsertRow(w.store, reaction, EffectOf(cm, job.scope).row),
                    phase := got.phase.(live := {}, linking := Some(reaction)),
                    done := got.done.(rows := got.done.rows + {reaction}));
    var linked := row.(phase := row.phase.(linking := None), done := row.done.(links := row.done.links + {reaction}));
    var next := linked.(phase := Asking(Advance(w.disk, Token(job.account, 1), 0, 1), false, 1));
    assert FixedStep(job, CUTS, w, asked) by { assert Begins(w, asked); }
    ReactionPageRead(job, reaction, message, cm, stored, asked, got);
    ReactionStored(job, reaction, cm, got, row, linked);
    PageEnds(job, linked, next, page, reaction);
    assert FixedPath(job, CUTS, [w]);
    FixedExtends(job, [w], asked);
    FixedExtends(job, [w] + [asked], got);
    FixedExtends(job, [w] + [asked] + [got], row);
    FixedExtends(job, [w] + [asked] + [got] + [row], linked);
    FixedExtends(job, [w] + [asked] + [got] + [row] + [linked], next);
    worlds := [w] + [asked] + [got] + [row] + [linked] + [next];
  }

  lemma ReactionPageRead(job: Job, reaction: string, message: string, cm: CloudMessage, stored: Row, asked: World,
                         got: World)
    requires Rewinding(job, reaction, message, cm, stored)
    requires asked.phase.Asking? && asked.phase.cursor.complete && asked.phase.requests == 0 && !asked.phase.restarted
    requires asked.phase.cursor.token == Some(Token(job.account, 0))
    requires got == asked.(phase := Storing(asked.phase.cursor, false, 1, Token(job.account, 1), 0,
                                            map[reaction := Some(cm)], {}, {reaction}, None))
    ensures FixedStep(job, CUTS, asked, got)
  {
    hide EffectOf, TooOld;
    TwoPages(job, reaction, message, cm, stored);
    assert GetsPage(job, asked, got);
  }

  lemma ReactionStored(job: Job, reaction: string, cm: CloudMessage, got: World, row: World, linked: World)
    requires EffectOf(cm, job.scope).Insert? && EffectOf(cm, job.scope).guid == reaction
    requires got.phase.Storing? && got.phase.page == map[reaction := Some(cm)]
    requires got.phase.next.position == 1 && got.phase.cursor.token == Some(Token(job.account, 0)) && |job.log| == 2
    requires got.phase.tombstones == {} && got.phase.live == {reaction} && got.phase.linking.None?
    requires row == got.(store := InsertRow(got.store, reaction, EffectOf(cm, job.scope).row),
                         phase := got.phase.(live := {}, linking := Some(reaction)),
                         done := got.done.(rows := got.done.rows + {reaction}))
    requires linked == row.(phase := row.phase.(linking := None),
                            done := row.done.(links := row.done.links + {reaction}))
    ensures FixedStep(job, CUTS, got, row) && FixedStep(job, CUTS, row, linked)
  {
    hide EffectOf, InsertRow;
    assert {reaction} - {reaction} == {};
    assert StoresRow(job, got, reaction, row);
    assert Links(job, row, linked);
    assert NextCut(CUTS, 0, 2) == 1;
  }

  /** A page that is not the last is over; the write of the cursor fails. */
  lemma PageEnds(job: Job, w: World, next: World, page: map<string, Option<CloudMessage>>, id: string)
    requires w.phase.Storing? && w.phase.page == page && page.Keys == {id} && w.phase.status == 0
    requires w.phase.tombstones == {} && w.phase.live == {} && w.phase.linking.None?
    requires next == w.(phase := Asking(Advance(w.phase.cursor, w.phase.next, 0, 1), w.phase.restarted,
                                        w.phase.requests))
    ensures FixedStep(job, CUTS, w, next)
  {
    assert |page| == |page.Keys| == 1;
    assert FinishesPage(w, next);
  }

  /** The tombstone's page, up to the last write. */
  lemma SecondPage(job: Job, reaction: string, message: string, cm: CloudMessage, stored: Row, worlds: seq<World>)
    returns (longer: seq<World>)
    requires Rewinding(job, reaction, message, cm, stored) && FixedPath(job, CUTS, worlds)
    requires var w := worlds[|worlds| - 1];
             && w.phase.Asking? && w.phase.cursor.complete && w.phase.requests == 1 && !w.phase.restarted
             && w.phase.cursor.token == Some(Token(job.account, 1))
    ensures FixedPath(job, CUTS, longer) && longer[0] == worlds[0]
    ensures
      var w, w' := worlds[|worlds| - 1], longer[|longer| - 1];
      w' == World(w.disk, DeleteRecord(w.store, message),
                  Storing(w.phase.cursor, false, 2, Token(job.account, 2), DONE, map[message := None], {}, {}, None),
                  w'.done)
  {
    hide EffectOf, DeleteRecord;
    var w := worlds[|worlds| - 1];
    var got := w.(phase := Storing(w.phase.cursor, false, 2, Token(job.account, 2), DONE, map[message := None],
                                   {message}, {}, None));
    var gone := got.(store := DeleteRecord(got.store, message), phase := got.phase.(tombstones := {}),
                     done := Done(got.done.rows + {message}, got.done.links + {message}));
    TwoPages(job, reaction, message, cm, stored);
    TombstonePageRead(job, message, w, got);
    assert {message} - {message} == {};
    assert Forgets(got, message, gone);
    assert FixedStep(job, CUTS, got, gone);
    FixedExtends(job, worlds, got);
    FixedExtends(job, worlds + [got], gone);
    longer := worlds + [got] + [gone];
  }

  lemma TombstonePageRead(job: Job, message: string, w: World, got: World)
    requires |job.log| == 2 && Net(job.log[1..2]) == map[message := None] && NextCut(CUTS, 1, 2) == 2
    requires w.phase.Asking? && w.phase.cursor.complete && w.phase.requests == 1 && !w.phase.restarted
    requires w.phase.cursor.token == Some(Token(job.account, 1))
    requires got == w.(phase := Storing(w.phase.cursor, false, 2, Token(job.account, 2), DONE, map[message := None],
                                        {message}, {}, None))
    ensures FixedStep(job, CUTS, w, got)
  {
    hide Net;
    assert GetsPage(job, w, got);
  }

  /** Both pages; the last write succeeds or fails. */
  lemma Round(job: Job, reaction: string, message: string, cm: CloudMessage, stored: Row, w: World, written: bool)
    returns (worlds: seq<World>)
    requires Rewinding(job, reaction, message, cm, stored) && Before(job, w)
    ensures Path(job, false, worlds) && worlds[0] == w && (written ==> FixedPath(job, CUTS, worlds))
    ensures
      var w' := worlds[|worlds| - 1];
      && w'.phase.Stopped? && w'.store == Both(job, reaction, message, cm, w.store)
      && (if written then w'.disk.token == Some(Token(job.account, 2)) else w'.disk == w.disk)
  {
    hide FixedPath, FixedStep, InsertRow, DeleteRecord, EffectOf, Path;
    var first := FirstPage(job, reaction, message, cm, stored, w);
    FixedNotEmpty(job, first);
    var all := SecondPage(job, reaction, message, cm, stored, first);
    FixedNotEmpty(job, all);
    var last := all[|all| - 1];
    var disk := if written then Advance(last.phase.cursor, last.phase.next, DONE, 1) else last.disk;
    var end := last.(disk := disk, phase := Stopped);
    ZoneEnds(job, last, end, message, written);
    FixedIsPath(job, all);
    PathExtends(job, false, all, end);
    if written {
      FixedExtends(job, all, end);
    }
    worlds := all + [end];
  }

  lemma FixedNotEmpty(job: Job, worlds: seq<World>)
    requires FixedPath(job, CUTS, worlds)
    ensures worlds != []
  {
  }

  lemma ZoneEnds(job: Job, w: World, end: World, message: string, written: bool)
    requires w.phase.Storing? && w.phase.page == map[message := None] && w.phase.status == DONE
    requires w.phase.tombstones == {} && w.phase.live == {} && w.phase.linking.None?
    requires end == w.(disk := if written then Advance(w.phase.cursor, w.phase.next, DONE, 1) else w.disk,
                       phase := Stopped)
    ensures Step(job, false, w, end) && (written ==> FixedStep(job, CUTS, w, end))
  {
    assert w.phase.page.Keys == {message} && |w.phase.page| == |w.phase.page.Keys|;
    assert FinishesPage(w, end);
  }

  // --- the same pages twice ---

  lemma PathsJoin(job: Job, a: seq<World>, b: seq<World>)
    requires Path(job, false, a) && Path(job, false, b) && b[0] == a[|a| - 1]
    ensures Path(job, false, a + b[1..])
  {
    var all := a + b[1..];
    forall i | 0 <= i < |all| - 1
      ensures Step(job, false, all[i], all[i + 1])
    {
      if i >= |a| - 1 {
        assert all[i] == b[i - (|a| - 1)] && all[i + 1] == b[i - (|a| - 1) + 1];
      }
    }
  }

  lemma ReactionStays(job: Job, reaction: string, message: string, cm: CloudMessage, stored: Row)
    requires Rewinding(job, reaction, message, cm, stored)
    ensures
      var s := State(map[message := stored], map[]);
      var once := Both(job, reaction, message, cm, s);
      once.rows == map[] && reaction in Both(job, reaction, message, cm, once).rows
  {
    hide EffectOf;
  }

  lemma PagesAreApart(job: Job, reaction: string, message: string, cm: CloudMessage, stored: Row)
    requires Rewinding(job, reaction, message, cm, stored)
    ensures PagesApart(job, CUTS, 0, State(map[message := stored], map[]))
  {
    hide EffectOf, Net, NextCut;
    TwoPages(job, reaction, message, cm, stored);
    var s := State(map[message := stored], map[]);
    assert Carries(job, 0) == EffectOf(cm, job.scope) && Carries(job, 1) == Delete;
    forall lo: nat | Starts(job, CUTS, 0, lo)
      ensures PageApart(job, s, PageEffects(job, CUTS, lo))
    {
      assert lo == 0 || lo == 1 || lo == 2;
      assert NextCut(CUTS, 2, 2) == 2;
    }
  }

  /** The pages interfere nowhere, the history reaches the end of the zone, and yet it does not leave
      what taking each page once leaves: the reaction is there. */
  lemma RewoundReactionStays(job: Job, reaction: string, message: string, cm: CloudMessage, stored: Row, start: World)
    returns (worlds: seq<World>)
    requires Rewinding(job, reaction, message, cm, stored)
    requires Before(job, start) && start.store == State(map[message := stored], map[])
    ensures Ready(job, false, CUTS, start) && Path(job, false, worlds) && worlds[0] == start
    ensures Position(Current(worlds[|worlds| - 1]).token) == |job.log|
    ensures reaction in worlds[|worlds| - 1].store.rows
    ensures !PageByPage(job, false, CUTS, 0, start.store, |job.log|, worlds[|worlds| - 1].store)
  {
    hide FixedPath, Step, PageByPage, PagesIndependent, Both, EffectOf, PagesApart;
    PagesAreApart(job, reaction, message, cm, stored);
    PagesApartAreIndependent(job, false, CUTS, 0, start.store);
    var once := Round(job, reaction, message, cm, stored, start, true);
    InterruptedPagesMeetSpec(job, false, CUTS, once);
    var lost := Round(job, reaction, message, cm, stored, start, false);
    var again := Round(job, reaction, message, cm, stored, lost[|lost| - 1], true);
    PathsJoin(job, lost, again);
    worlds := lost + again[1..];
    assert worlds[|worlds| - 1] == again[|again| - 1];
    ReactionStays(job, reaction, message, cm, stored);
    if PageByPage(job, false, CUTS, 0, start.store, |job.log|, worlds[|worlds| - 1].store) {
      PageByPageUnique(job, false, CUTS, 0, start.store, |job.log|, once[|once| - 1].store,
                       worlds[|worlds| - 1].store);
    }
  }

  /** Such a zone exists, whatever the scope of the sync and the stored message. */
  lemma RewindingZoneExists(scope: Scope, stored: Row)
    requires scope.existing.None? && stored.target.None?
    ensures
      var cm := CloudMessage("r", "", "", "", "", 0, false, None, None, None, Some("m"), Some(2000));
      Rewinding(Job([Change("r", Some(cm)), Change("m", None)], "acct", scope, 0), "r", "m", cm, stored)
  {
    var cm := CloudMessage("r", "", "", "", "", 0, false, None, None, None, Some("m"), Some(2000));
    assert EffectOf(cm, scope).Insert? && EffectOf(cm, scope).row.target == Some("m");
    assert "r"[0] != "m"[0];
  }
}
