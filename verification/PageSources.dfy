/**
 * When the pages of a log are independent, told from the log and the first store alone. Whatever a
 * walk has stored by the time it reaches a page came from the first store or from a change of the
 * log, so it is enough that no page interferes with what may come from there.
 */
module PageSources {
  import opened Options
  import opened MessageStore
  import opened Convergence
  import opened CloudRecords
  import opened Zone
  import opened SyncMachine
  import opened PagedReplay

  // --- what may be in the store ---

  /** What a change of the log does when it is the last of its record in a page. */
  ghost function Carries(job: Job, i: nat): Effect
    requires i < |job.log|
  {
    if job.log[i].record.None? then Delete else EffectOf(job.log[i].record.value, job.scope)
  }

  ghost predicate MayStore(job: Job, s: State, guid: string) {
    || guid in s.rows
    || exists i: nat :: i < |job.log| && Carries(job, i).Insert? && Carries(job, i).guid == guid
  }

  ghost predicate MayTarget(job: Job, s: State, guid: string, target: string) {
    || (guid in s.rows && s.rows[guid].target == Some(target))
    || exists i: nat :: i < |job.log| && Carries(job, i).Insert? && Carries(job, i).guid == guid
                        && Carries(job, i).row.target == Some(target)
  }

  /** The guids that a tombstone's record name may be taken for. */
  ghost predicate MayName(job: Job, s: State, record: string, guid: string) {
    || guid == record
    || (record in s.records && s.records[record] == guid)
    || exists i: nat :: i < |job.log| && job.log[i].id == record
                        && Carries(job, i).Insert? && Carries(job, i).guid == guid
  }

  /** All of a store comes from a first store or the log. */
  ghost predicate Sourced(job: Job, first: State, s: State) {
    && (forall g :: g in s.rows ==> MayStore(job, first, g))
    && (forall g :: g in s.rows && s.rows[g].target.Some? ==> MayTarget(job, first, g, s.rows[g].target.value))
    && (forall r :: r in s.records ==> MayName(job, first, r, s.records[r]))
  }

  lemma {:induction false} NetSource<T>(log: seq<Change<T>>, id: string) returns (i: nat)
    requires id in Net(log)
    ensures i < |log| && log[i].id == id && Net(log)[id] == log[i].record
  {
    var last := |log| - 1;
    if log[last].id == id {
      i := last;
    } else {
      i := NetSource(log[..last], id);
    }
  }

  /** An effect of a page is that of a change in the log. */
  lemma EffectSource(job: Job, cuts: seq<nat>, lo: nat, id: string) returns (i: nat)
    requires lo <= |job.log| && id in PageEffects(job, cuts, lo)
    ensures i < |job.log| && job.log[i].id == id && PageEffects(job, cuts, lo)[id] == Carries(job, i)
  {
    hide NextCut, EffectOf, Net;
    i := StretchSource(job.log, lo, NextCut(cuts, lo, |job.log|), id);
  }

  lemma StretchSource<T>(log: seq<Change<T>>, lo: nat, hi: nat, id: string) returns (i: nat)
    requires lo <= hi <= |log| && id in Net(log[lo..hi])
    ensures i < |log| && log[i].id == id && Net(log[lo..hi])[id] == log[i].record
  {
    hide Net;
    var k := NetSource(log[lo..hi], id);
    i := lo + k;
    assert log[lo..hi][k] == log[i];
  }

  /** What a page inserts may be in the store, with the target it has, under the name it has. */
  lemma InsertSource(job: Job, first: State, cuts: seq<nat>, lo: nat, c: string)
    requires lo <= |job.log| && Inserts(PageEffects(job, cuts, lo), c)
    ensures
      var e := PageEffects(job, cuts, lo)[c];
      && MayStore(job, first, e.guid) && MayName(job, first, c, e.guid)
      && (e.row.target.Some? ==> MayTarget(job, first, e.guid, e.row.target.value))
  {
    var i := EffectSource(job, cuts, lo, c);
  }

  lemma TurnKeepsSources(job: Job, first: State, windowed: bool, cuts: seq<nat>, lo: nat, s: State, s': State)
    requires lo <= |job.log| && Sourced(job, first, s) && Turns(job, windowed, cuts, lo, s, s')
    ensures Sourced(job, first, s')
  {
    hide MayStore, MayTarget, MayName, PageEffects, PageDue, Removed, Arriving;
    var effects, due := PageEffects(job, cuts, lo), PageDue(job, windowed, cuts, lo);
    forall g | g in s'.rows
      ensures MayStore(job, first, g)
      ensures s'.rows[g].target.Some? ==> MayTarget(job, first, g, s'.rows[g].target.value)
    {
      if Carried(effects, due, g) {
        var c :| c in due && Inserts(effects, c) && effects[c].guid == g;
        InsertSource(job, first, cuts, lo, c);
        ArrivingTarget(s, g, effects[c].row);
      }
    }
    forall r | r in s'.records
      ensures MayName(job, first, r, s'.records[r])
    {
      if r in due && Inserts(effects, r) && effects[r].guid != r {
        InsertSource(job, first, cuts, lo, r);
      } else {
        assert !(r in due && Deletes(effects, r));
      }
    }
  }

  // --- pages apart ---

  /** Where a page may start. */
  predicate Starts(job: Job, cuts: seq<nat>, base: nat, lo: nat) {
    lo <= |job.log| && (lo == base || lo in cuts || lo == |job.log|)
  }

  lemma NextCutStarts(job: Job, cuts: seq<nat>, base: nat, lo: nat)
    requires lo <= |job.log|
    ensures Starts(job, cuts, base, NextCut(cuts, lo, |job.log|))
  {
    NextCutIn(cuts, lo, |job.log|);
  }

  lemma {:induction false} NextCutIn(cuts: seq<nat>, lo: nat, end: nat)
    requires lo <= end
    ensures NextCut(cuts, lo, end) in cuts || NextCut(cuts, lo, end) == end
  {
    if cuts != [] && !(lo < cuts[0] < end) {
      NextCutIn(cuts[1..], lo, end);
    }
  }

  /** A page whose records do not interfere with each other over any store that may come up. */
  ghost predicate PageApart(job: Job, first: State, effects: Effects) {
    && DistinctGuids(effects)
    && (forall t, c, n :: Deletes(effects, t) && Inserts(effects, c) && MayName(job, first, t, n) ==>
          effects[c].guid != n && !MayTarget(job, first, effects[c].guid, n))
    && (forall t, n :: Deletes(effects, t) && MayStore(job, first, t) && MayName(job, first, t, n) ==> n == t)
  }

  /** Nothing in the first store or the log reacts to a reaction. */
  ghost predicate ReactionsToMessages(job: Job, first: State) {
    forall g, h, k :: MayTarget(job, first, g, h) && MayStore(job, first, h) ==> !MayTarget(job, first, h, k)
  }

  ghost predicate PagesApart(job: Job, cuts: seq<nat>, base: nat, first: State) {
    && ReactionsToMessages(job, first)
    && forall lo: nat :: Starts(job, cuts, base, lo) ==> PageApart(job, first, PageEffects(job, cuts, lo))
  }

  lemma NamedSource(job: Job, first: State, s: State, record: string)
    requires Sourced(job, first, s)
    ensures MayName(job, first, record, Named(s, record))
  {
  }

  lemma ReactionsSourced(job: Job, first: State, s: State)
    requires Sourced(job, first, s) && ReactionsToMessages(job, first)
    ensures ReactionsTargetMessages(s)
  {
    hide MayStore, MayTarget, MayName;
    forall g, h | g in s.rows && h in s.rows && s.rows[g].target == Some(h)
      ensures s.rows[h].target.None?
    {
      assert MayTarget(job, first, g, h) && MayStore(job, first, h);
      assert forall k :: !MayTarget(job, first, h, k);
    }
  }

  lemma ApartIsIndependent(job: Job, first: State, cuts: seq<nat>, lo: nat, s: State)
    requires lo <= |job.log| && Sourced(job, first, s)
    requires ReactionsToMessages(job, first) && PageApart(job, first, PageEffects(job, cuts, lo))
    ensures Independent(s, PageEffects(job, cuts, lo))
  {
    hide MayStore, MayTarget, MayName, PageEffects, ReactionsToMessages, ReactionsTargetMessages, Named;
    var effects := PageEffects(job, cuts, lo);
    ReactionsSourced(job, first, s);
    forall t
      ensures MayName(job, first, t, t) && MayName(job, first, t, Named(s, t))
    {
      OwnName(job, first, t);
      NamedSource(job, first, s, t);
    }
    forall t, c | Deletes(effects, t) && Inserts(effects, c)
      ensures !GoesWith(effects[c].guid, effects[c].row, t)
      ensures !GoesWith(effects[c].guid, effects[c].row, Named(s, t))
      ensures effects[c].guid in s.rows ==> s.rows[effects[c].guid].target != Some(Named(s, t))
    {
      InsertSource(job, first, cuts, lo, c);
      assert MayName(job, first, t, t) && MayName(job, first, t, Named(s, t));
    }
  }

  lemma OwnName(job: Job, first: State, record: string)
    ensures MayName(job, first, record, record)
  {
  }

  lemma {:induction false} ReachedIsSourced(job: Job, first: State, windowed: bool, cuts: seq<nat>, base: nat,
                                            lo: nat, s: State, hi: nat, s': State)
    requires Starts(job, cuts, base, lo) && Sourced(job, first, s)
    requires PageByPage(job, windowed, cuts, lo, s, hi, s')
    ensures Starts(job, cuts, base, hi) && Sourced(job, first, s')
    decreases |job.log| - lo
  {
    hide Sourced, Turns;
    if lo != hi {
      var next := NextCut(cuts, lo, |job.log|);
      var mid: State :| Turns(job, windowed, cuts, lo, s, mid) && PageByPage(job, windowed, cuts, next, mid, hi, s');
      TurnKeepsSources(job, first, windowed, cuts, lo, s, mid);
      NextCutStarts(job, cuts, base, lo);
      ReachedIsSourced(job, first, windowed, cuts, base, next, mid, hi, s');
    }
  }

  /** Such a log is ready for interrupted walks: every page is independent on the store that the pages
      before it leave, whatever the window. */
  lemma PagesApartAreIndependent(job: Job, windowed: bool, cuts: seq<nat>, base: nat, first: State)
    requires base <= |job.log| && PagesApart(job, cuts, base, first)
    ensures PagesIndependent(job, windowed, cuts, base, first)
  {
    hide PageByPage, Independent, PageEffects, PageApart, ReactionsToMessages;
    forall hi: nat, s: State | hi <= |job.log| && PageByPage(job, windowed, cuts, base, first, hi, s)
      ensures Independent(s, PageEffects(job, cuts, hi))
    {
      ReachedIsSourced(job, first, windowed, cuts, base, base, first, hi, s);
      ApartIsIndependent(job, first, cuts, hi, s);
    }
  }
}
