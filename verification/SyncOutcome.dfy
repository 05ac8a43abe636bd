/**
 * What a walk leaves in the store, told by the changes in the zone and what they say: which messages
 * are there, in which conversation and with which text, and which are not.
 */
module SyncOutcome {
  import opened Options
  import opened Conversations
  import opened MessageStore
  import opened Convergence
  import opened CloudRecords
  import opened Zone
  import opened SyncMachine
  import opened SyncConvergence

  /** A change after a position brings a record that a course gathers: it can be translated, its
      conversation is wanted, and on a course through the window it is not dated before that. */
  ghost predicate Brings(job: Job, course: Course, i: nat, cm: CloudMessage) {
    && course.from <= i < |job.log| && job.log[i].record == Some(cm)
    && Translatable(cm) && Wanted(cm, job.scope)
    && (course.windowed ==> UnixMs(cm.time) >= job.since)
  }

  /** A change after a position is a tombstone, and this the guid of the message it stands for. */
  ghost predicate Buries(job: Job, course: Course, i: nat, before: State, guid: string) {
    && course.from <= i < |job.log| && job.log[i].record.None?
    && guid == if job.log[i].id in before.records then before.records[job.log[i].id] else job.log[i].id
  }

  lemma ChangeInCut(job: Job, from: nat, i: nat)
    requires DistinctRecords(job.log) && from <= i < |job.log|
    ensures job.log[i].id in Net(job.log[from..|job.log|])
    ensures Net(job.log[from..|job.log|])[job.log[i].id] == job.log[i].record
    ensures Net(job.log)[job.log[i].id] == job.log[i].record && job.log[i].id in Net(job.log)
  {
    var cut := job.log[from..|job.log|];
    assert cut[i - from] == job.log[i];
    NetDistinct(cut);
    NetDistinct(job.log);
  }

  lemma BroughtIsDue(job: Job, course: Course, i: nat, cm: CloudMessage)
    requires DistinctRecords(job.log) && Brings(job, course, i, cm)
    ensures job.log[i].id in DueOn(job, course, |job.log|) && Inserts(ZoneEffects(job), job.log[i].id)
    ensures ZoneEffects(job)[job.log[i].id] == EffectOf(cm, job.scope)
    ensures EffectOf(cm, job.scope).Insert? && EffectOf(cm, job.scope).guid == cm.guid
  {
    hide EffectOf, Net, Translatable, Wanted, UnixMs, DistinctRecords;
    ChangeInCut(job, course.from, i);
    EffectIsRecord(cm, job.scope);
  }

  lemma DueIsBrought(job: Job, course: Course, id: string) returns (i: nat, cm: CloudMessage)
    requires course.from <= |job.log| && DistinctRecords(job.log)
    requires id in DueOn(job, course, |job.log|) && Inserts(ZoneEffects(job), id)
    ensures Brings(job, course, i, cm) && job.log[i].id == id
  {
    hide EffectOf, Translatable, Wanted, UnixMs, DistinctRecords;
    var cut := job.log[course.from..|job.log|];
    var k: nat :| k < |cut| && cut[k].id == id;
    i := course.from + k;
    assert cut[k] == job.log[i];
    ChangeInCut(job, course.from, i);
    assert job.log[i].record.Some?;
    cm := job.log[i].record.value;
    StoredIff(cm, job.scope);
  }

  /** Every record that was brought is in the store; if it is new there, with the sender, text and
      conversation that the record names. */
  lemma BroughtIsStored(job: Job, course: Course, before: State, after: State, i: nat, cm: CloudMessage)
    requires course.from <= |job.log| && DistinctRecords(job.log) && OneShot(job, course, before, after)
    requires Brings(job, course, i, cm)
    ensures cm.guid in after.rows
    ensures
      cm.guid !in before.rows ==>
        var row := after.rows[cm.guid];
        && row.chat == KeyFor(cm.chatId, cm.service, job.scope.chatMap, cm.sender, cm.destination)
        && row.date == UnixMs(cm.time) && (row.fromMe <==> Ours(cm, job.scope))
        && (forall name :: row.sender == Some(name) <==> Calls(cm.sender, name))
        && (IsReaction(cm) ==> row.target == cm.associatedGuid && Some(row.reaction) == cm.associatedType)
        && (!IsReaction(cm) ==> row.target.None? && row.text == cm.text && row.subject == cm.subject)
    ensures cm.guid in before.rows && cm.text.Some? && !IsReaction(cm) ==> after.rows[cm.guid].text == cm.text
  {
    hide EffectOf, Translatable, Wanted, UnixMs, DistinctRecords, KeyFor, Ours, Calls, IsReaction, IsPlaceholderKey;
    BroughtIsDue(job, course, i, cm);
    EffectIsRecord(cm, job.scope);
    assert after.rows[cm.guid] == Arriving(before.rows, cm.guid, EffectOf(cm, job.scope).row);
  }

  /** What is new in the store was brought. */
  lemma NewWasBrought(job: Job, course: Course, before: State, after: State, guid: string)
    returns (i: nat, cm: CloudMessage)
    requires course.from <= |job.log| && DistinctRecords(job.log) && OneShot(job, course, before, after)
    requires guid in after.rows && guid !in before.rows
    ensures Brings(job, course, i, cm) && cm.guid == guid
  {
    hide EffectOf, DistinctRecords, DueOn, ZoneEffects;
    var due := DueOn(job, course, |job.log|);
    assert Carried(ZoneEffects(job), due, guid);
    var c :| c in due && Inserts(ZoneEffects(job), c) && ZoneEffects(job)[c].guid == guid;
    i, cm := DueIsBrought(job, course, c);
    BroughtIsDue(job, course, i, cm);
  }

  lemma BuriedIsDue(job: Job, course: Course, i: nat, before: State, guid: string)
    requires DistinctRecords(job.log) && Buries(job, course, i, before, guid)
    ensures job.log[i].id in DueOn(job, course, |job.log|) && Deletes(ZoneEffects(job), job.log[i].id)
    ensures Named(before, job.log[i].id) == guid
  {
    hide EffectOf, Net, DistinctRecords;
    ChangeInCut(job, course.from, i);
  }

  /** A buried message is gone, and so are the reactions to it that were there. */
  lemma BuriedIsGone(job: Job, course: Course, before: State, after: State, i: nat, guid: string, g: string)
    requires course.from <= |job.log| && DistinctRecords(job.log) && OneShot(job, course, before, after)
    requires Independent(before, ZoneEffects(job)) && Buries(job, course, i, before, guid)
    requires guid in before.rows && (g == guid || (g in before.rows && before.rows[g].target == Some(guid)))
    ensures g !in after.rows
  {
    hide EffectOf, DistinctRecords, DueOn, ZoneEffects;
    var due, t := DueOn(job, course, |job.log|), job.log[i].id;
    BuriedIsDue(job, course, i, before, guid);
    assert Removed(before, ZoneEffects(job), due, g);
    NotCarried(before, ZoneEffects(job), due, t, g);
  }

  lemma NotCarried(s: State, effects: Effects, due: set<string>, t: string, g: string)
    requires Independent(s, effects) && t in due && Deletes(effects, t)
    requires g in s.rows && GoesWith(g, s.rows[g], Named(s, t))
    ensures !Carried(effects, due, g)
  {
  }

  lemma DueIsBuried(job: Job, course: Course, before: State, t: string) returns (i: nat)
    requires course.from <= |job.log| && DistinctRecords(job.log)
    requires t in DueOn(job, course, |job.log|) && Deletes(ZoneEffects(job), t)
    ensures Buries(job, course, i, before, Named(before, t))
  {
    hide EffectOf, DistinctRecords;
    var cut := job.log[course.from..|job.log|];
    var k: nat :| k < |cut| && cut[k].id == t;
    i := course.from + k;
    assert cut[k] == job.log[i];
    ChangeInCut(job, course.from, i);
    if job.log[i].record.Some? {
      EffectIsNoDelete(job.log[i].record.value, job.scope);
    }
  }

  lemma EffectIsNoDelete(cm: CloudMessage, scope: Scope)
    ensures EffectOf(cm, scope) != Delete
  {
  }

  /** What was there and is gone was buried, or reacted to what was. */
  lemma GoneWasBuried(job: Job, course: Course, before: State, after: State, g: string) returns (i: nat, guid: string)
    requires course.from <= |job.log| && DistinctRecords(job.log) && OneShot(job, course, before, after)
    requires g in before.rows && g !in after.rows
    ensures Buries(job, course, i, before, guid) && guid in before.rows
    ensures g == guid || before.rows[g].target == Some(guid)
  {
    hide EffectOf, DistinctRecords, DueOn, ZoneEffects;
    var effects, due := ZoneEffects(job), DueOn(job, course, |job.log|);
    assert !Carried(effects, due, g) && Removed(before, effects, due, g);
    var t :| t in due && Deletes(effects, t) && Named(before, t) in before.rows
             && GoesWith(g, before.rows[g], Named(before, t));
    i := DueIsBuried(job, course, before, t);
    guid := Named(before, t);
  }

  /** The store after any interrupted walk that met its specification, in these words. */
  lemma CompletedWalkInWords(job: Job, mayStartOver: bool, worlds: seq<World>, guid: string)
    requires Path(job, mayStartOver, worlds) && Prepared(job, worlds[0]) && Completed(job, worlds[|worlds| - 1])
    requires mayStartOver ==> Started(worlds[0]) == RESCAN
    ensures
      var course, before, after := Started(worlds[0]), worlds[0].store, worlds[|worlds| - 1].store;
      guid in after.rows <==>
        || (exists i: nat, cm :: Brings(job, course, i, cm) && cm.guid == guid)
        || (guid in before.rows
            && forall i: nat, g :: Buries(job, course, i, before, g) && g in before.rows ==>
                 guid != g && before.rows[guid].target != Some(g))
  {
    hide Step, Completed, Independent, DistinctRecords, Brings, Buries, OneShot;
    var course, before, after := Started(worlds[0]), worlds[0].store, worlds[|worlds| - 1].store;
    CompletedWalkMeetsSpec(job, mayStartOver, worlds);
    if guid in after.rows && guid !in before.rows {
      var i, cm := NewWasBrought(job, course, before, after, guid);
    }
    if i: nat, cm :| Brings(job, course, i, cm) && cm.guid == guid {
      BroughtIsStored(job, course, before, after, i, cm);
    }
    if guid in before.rows {
      if guid !in after.rows {
        var i, g := GoneWasBuried(job, course, before, after, guid);
      }
      if i: nat, g :| Buries(job, course, i, before, g) && g in before.rows
                      && (guid == g || before.rows[guid].target == Some(g)) {
        BuriedIsGone(job, course, before, after, i, g, guid);
      }
    }
  }
}
