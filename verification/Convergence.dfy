/** Why an interrupted sync loses nothing. Each record of the change log has one effect on
    the store. On a log whose records do not interfere, the store is a function of the *set*
    of effects applied so far: order, repetition and page boundaries drop out. */
module Convergence {
  import opened Options
  import opened MessageStore

  /** What the record with a given name does to the store. */
  datatype Effect = Delete | Insert(guid: string, row: Row) | Nothing

  type Effects = map<string, Effect>

  ghost predicate Deletes(effects: Effects, record: string) {
    record in effects && effects[record] == Delete
  }

  ghost predicate Inserts(effects: Effects, record: string) {
    record in effects && effects[record].Insert?
  }

  // --- logs whose records do not interfere ---

  /** No two records carry one guid. */
  ghost predicate DistinctGuids(effects: Effects) {
    forall a, b :: Inserts(effects, a) && Inserts(effects, b) && effects[a].guid == effects[b].guid ==> a == b
  }

  /** No carried message is deleted by a tombstone of the same log, be it under its record name
      or under its guid, and no carried reaction reacts to a deleted message. */
  ghost predicate TombstonesAside(s: State, effects: Effects) {
    forall t, c :: Deletes(effects, t) && Inserts(effects, c) ==>
      && !GoesWith(effects[c].guid, effects[c].row, t)
      && !GoesWith(effects[c].guid, effects[c].row, Named(s, t))
      && (effects[c].guid in s.rows ==> s.rows[effects[c].guid].target != Some(Named(s, t)))
  }

  /** A tombstone that stands for another guid is not itself the guid of a stored row. */
  ghost predicate NamesUnambiguous(s: State, effects: Effects) {
    forall t :: Deletes(effects, t) && t in s.rows ==> Named(s, t) == t
  }

  /** Reactions react to messages, not to reactions. */
  ghost predicate ReactionsTargetMessages(s: State) {
    forall g, h :: g in s.rows && h in s.rows && s.rows[g].target == Some(h) ==> s.rows[h].target.None?
  }

  ghost predicate Independent(s: State, effects: Effects) {
    && DistinctGuids(effects)
    && TombstonesAside(s, effects)
    && NamesUnambiguous(s, effects)
    && ReactionsTargetMessages(s)
  }

  // --- the declarative result ---

  /** `guid` is removed from `s` by some tombstone among `done`. */
  ghost predicate Removed(s: State, effects: Effects, done: set<string>, guid: string) {
    exists t :: t in done && Deletes(effects, t) && Named(s, t) in s.rows
      && guid in s.rows && GoesWith(guid, s.rows[guid], Named(s, t))
  }

  ghost predicate Carried(effects: Effects, done: set<string>, guid: string) {
    exists c :: c in done && Inserts(effects, c) && effects[c].guid == guid
  }

  /** The rows left by exactly the effects in `done`: the prior rows minus tombstoned messages
      and their reactions, plus each carried row, stored fresh or merged into its prior row. */
  ghost predicate ReflectsRows(s: State, effects: Effects, done: set<string>, rows: map<string, Row>) {
    && (forall c :: c in done && Inserts(effects, c) ==>
          var e := effects[c];
          e.guid in rows && rows[e.guid] == Arriving(s.rows, e.guid, e.row))
    && (forall g :: !Carried(effects, done, g) ==>
          (g in rows <==> g in s.rows && !Removed(s, effects, done, g)))
    && (forall g :: g in rows && !Carried(effects, done, g) && g in s.rows ==> rows[g] == s.rows[g])
  }

  /** The record table left by exactly the effects in `done`: a tombstoned record is forgotten,
      a carried one maps to its guid when the two differ, every other entry is as before. */
  ghost predicate ReflectsRecords(s: State, effects: Effects, done: set<string>, records: map<string, string>) {
    && (forall t :: t in done && Deletes(effects, t) ==> t !in records)
    && (forall c :: c in done && Inserts(effects, c) && effects[c].guid != c ==>
          c in records && records[c] == effects[c].guid)
    && (forall r :: !(r in done && (Deletes(effects, r) || (Inserts(effects, r) && effects[r].guid != r))) ==>
          (r in records <==> r in s.records) && (r in s.records ==> records[r] == s.records[r]))
  }

  /** The transactions committed so far: a live record is stored in two, first its row and then
      its entry in the record table; a tombstone takes one. */
  datatype Done = Done(rows: set<string>, links: set<string>)

  const NOTHING := Done({}, {})

  ghost predicate Reflects(s: State, effects: Effects, done: Done, now: State) {
    && ReflectsRows(s, effects, done.rows, now.rows)
    && ReflectsRecords(s, effects, done.links, now.records)
    && (forall t :: Deletes(effects, t) ==> (t in done.rows <==> t in done.links))
  }

  lemma NothingDoneYet(s: State, effects: Effects)
    ensures Reflects(s, effects, NOTHING, s)
  {}

  /** The result is determined by what was done. */
  lemma ReflectsUnique(s: State, effects: Effects, done: Done, a: State, b: State)
    requires Reflects(s, effects, done, a) && Reflects(s, effects, done, b)
    ensures a == b
  {
    forall g
      ensures g in a.rows <==> g in b.rows
      ensures g in a.rows ==> a.rows[g] == b.rows[g]
    {
      if Carried(effects, done.rows, g) {
        var c :| c in done.rows && Inserts(effects, c) && effects[c].guid == g;
      }
    }
    forall r
      ensures r in a.records <==> r in b.records
      ensures r in a.records ==> a.records[r] == b.records[r]
    {
      if r in done.links && Inserts(effects, r) && effects[r].guid != r {
        assert r in a.records && r in b.records;
      }
    }
    assert a.rows == b.rows && a.records == b.records;
  }

  // --- one more transaction, whether or not it was committed before, extends the set ---

  lemma SkipExtends(s: State, effects: Effects, done: Done, now: State, record: string)
    requires record in effects && effects[record].Nothing? && Reflects(s, effects, done, now)
    ensures Reflects(s, effects, Done(done.rows + {record}, done.links + {record}), now)
  {
    forall g
      ensures Carried(effects, done.rows + {record}, g) == Carried(effects, done.rows, g)
      ensures Removed(s, effects, done.rows + {record}, g) == Removed(s, effects, done.rows, g)
    {
      CarriedStep(effects, done.rows, record, g);
    }
  }

  lemma InsertExtends(s: State, effects: Effects, done: Done, now: State, record: string)
    requires Independent(s, effects) && Inserts(effects, record)
    requires Reflects(s, effects, done, now)
    ensures Reflects(s, effects, done.(rows := done.rows + {record}),
                     InsertRow(now, effects[record].guid, effects[record].row))
  {
    var guid, row := effects[record].guid, effects[record].row;
    if Carried(effects, done.rows, guid) {
      assert record in done.rows;
      InsertIdempotent(s, guid, row);
    } else {
      assert !Removed(s, effects, done.rows, guid);
    }
    InsertExtendsRows(s, effects, done.rows, now.rows, record);
  }

  lemma LinkExtends(s: State, effects: Effects, done: Done, now: State, record: string)
    requires Inserts(effects, record) && Reflects(s, effects, done, now)
    ensures effects[record].guid == record ==> Reflects(s, effects, done.(links := done.links + {record}), now)
    ensures effects[record].guid != record ==>
              Reflects(s, effects, done.(links := done.links + {record}),
                       now.(records := now.records[record := effects[record].guid]))
  {}

  lemma DeleteExtends(s: State, effects: Effects, done: Done, now: State, record: string)
    requires Independent(s, effects) && Deletes(effects, record)
    requires Reflects(s, effects, done, now)
    ensures Reflects(s, effects, Done(done.rows + {record}, done.links + {record}), DeleteRecord(now, record))
  {
    if record in done.rows {
      DeleteAgain(s, effects, done, now, record);
      assert done.rows + {record} == done.rows && done.links + {record} == done.links;
    } else {
      assert Named(now, record) == Named(s, record);
      DeleteExtendsRows(s, effects, done.rows, now, record);
    }
  }

  lemma InsertExtendsRows(s: State, effects: Effects, done: set<string>, rows: map<string, Row>, record: string)
    requires DistinctGuids(effects) && Inserts(effects, record)
    requires ReflectsRows(s, effects, done, rows)
    requires var e := effects[record]; Arriving(rows, e.guid, e.row) == Arriving(s.rows, e.guid, e.row)
    ensures ReflectsRows(s, effects, done + {record},
                         rows[effects[record].guid := Arriving(rows, effects[record].guid, effects[record].row)])
  {
    var more := done + {record};
    var guid := effects[record].guid;
    var after := rows[guid := Arriving(rows, guid, effects[record].row)];
    forall c | c in more && Inserts(effects, c)
      ensures var e := effects[c]; e.guid in after && after[e.guid] == Arriving(s.rows, e.guid, e.row)
    {
      if c != record {
        assert effects[c].guid != guid;
      }
    }
    forall g | !Carried(effects, more, g)
      ensures g != guid && !Carried(effects, done, g)
      ensures g in after <==> g in s.rows && !Removed(s, effects, more, g)
      ensures g in after && g in s.rows ==> after[g] == s.rows[g]
    {
      CarriedStep(effects, done, record, g);
      NotRemovedByInsert(s, effects, done, record, g);
    }
  }

  lemma NotRemovedByInsert(s: State, effects: Effects, done: set<string>, record: string, g: string)
    requires Inserts(effects, record)
    ensures Removed(s, effects, done + {record}, g) == Removed(s, effects, done, g)
  {}

  lemma CarriedStep(effects: Effects, done: set<string>, record: string, g: string)
    ensures Carried(effects, done, g) ==> Carried(effects, done + {record}, g)
    ensures Inserts(effects, record) ==>
              (Carried(effects, done + {record}, g) <==> Carried(effects, done, g) || g == effects[record].guid)
    ensures !Inserts(effects, record) ==> Carried(effects, done + {record}, g) == Carried(effects, done, g)
  {
  }

  lemma DeleteExtendsRows(s: State, effects: Effects, done: set<string>, now: State, record: string)
    requires Independent(s, effects) && Deletes(effects, record)
    requires Named(now, record) == Named(s, record)
    requires ReflectsRows(s, effects, done, now.rows)
    ensures ReflectsRows(s, effects, done + {record}, DeleteRecord(now, record).rows)
  {
    var more := done + {record};
    var guid := Named(s, record);
    var after := DeleteRecord(now, record).rows;
    assert !Carried(effects, done, guid);
    forall g | !Carried(effects, more, g)
      ensures !Carried(effects, done, g)
      ensures g in after <==> g in s.rows && !Removed(s, effects, more, g)
      ensures g in after && g in s.rows ==> after[g] == s.rows[g]
    {
      CarriedStep(effects, done, record, g);
      RemovedStep(s, effects, done, record, g);
      if guid in s.rows && Removed(s, effects, done, guid) && g in s.rows && GoesWith(g, s.rows[g], guid) {
        RemovedTogether(s, effects, done, guid, g);
      }
    }
    forall c | c in more && Inserts(effects, c)
      ensures effects[c].guid in after && after[effects[c].guid] == now.rows[effects[c].guid]
    {
      ArrivingTarget(s, effects[c].guid, effects[c].row);
      assert !GoesWith(effects[c].guid, effects[c].row, guid);
      assert c in done;
    }
  }

  /** A row keeps the target it was first stored with. */
  lemma ArrivingTarget(s: State, guid: string, row: Row)
    ensures Arriving(s.rows, guid, row).target == if guid in s.rows then s.rows[guid].target else row.target
  {}

  lemma RemovedStep(s: State, effects: Effects, done: set<string>, record: string, g: string)
    requires Deletes(effects, record)
    ensures Removed(s, effects, done + {record}, g)
            <==> Removed(s, effects, done, g)
                 || (Named(s, record) in s.rows && g in s.rows && GoesWith(g, s.rows[g], Named(s, record)))
  {}

  /** When a message is already gone, so are its reactions. */
  lemma RemovedTogether(s: State, effects: Effects, done: set<string>, guid: string, g: string)
    requires ReactionsTargetMessages(s)
    requires Removed(s, effects, done, guid) && g in s.rows && GoesWith(g, s.rows[g], guid)
    ensures Removed(s, effects, done, g)
  {
  }

  /** A replayed tombstone finds no mapping and no row under its own name. */
  lemma DeleteAgain(s: State, effects: Effects, done: Done, now: State, record: string)
    requires Independent(s, effects) && Deletes(effects, record) && record in done.rows
    requires Reflects(s, effects, done, now)
    ensures DeleteRecord(now, record) == now
  {
  }

  // --- the conditions are needed ---

  /** Committing a tombstone twice, as a crash before the cursor is saved makes a walk do, equals
      committing it once exactly when no second message answers to the record name itself. The
      first pass forgets the mapping, so the second takes the name for a guid. */
  lemma TombstoneReplayIff(s: State, record: string)
    ensures DeleteRecord(DeleteRecord(s, record), record) == DeleteRecord(s, record)
            <==> (record in s.rows && Named(s, record) != record ==>
                    Named(s, record) in s.rows && s.rows[record].target == Some(Named(s, record)))
  {
  }

  /** A concrete store on which replaying loses a message. */
  lemma TombstoneReplayLosesMessage(row: Row)
    requires row.target.None?
    ensures
      var s := State(map["rec" := row, "guid" := row], map["rec" := "guid"]);
      var once := DeleteRecord(s, "rec");
      "rec" in once.rows && "rec" !in DeleteRecord(once, "rec").rows
  {}

  /** A new row and a tombstone of a stored message commute exactly when the row neither is that
      message nor reacts to it. Otherwise it matters whether a page boundary lies between them:
      within one page the tombstone goes first and the reaction stays, across two it goes. */
  lemma TombstoneCommutesIff(s: State, record: string, guid: string, row: Row)
    requires guid !in s.rows && Named(s, record) in s.rows
    ensures DeleteRecord(InsertRow(s, guid, row), record) == InsertRow(DeleteRecord(s, record), guid, row)
            <==> !GoesWith(guid, row, Named(s, record))
  {
    var insertedFirst := DeleteRecord(InsertRow(s, guid, row), record);
    var deletedFirst := InsertRow(DeleteRecord(s, record), guid, row);
    assert Named(InsertRow(s, guid, row), record) == Named(s, record);
    assert guid in deletedFirst.rows;
    if !GoesWith(guid, row, Named(s, record)) {
      assert insertedFirst.rows == deletedFirst.rows;
    } else {
      assert guid !in insertedFirst.rows;
    }
  }

  /** What storing two rows under a new guid leaves does not depend on their order exactly when they
      differ in nothing that the first one settles. */
  ghost predicate Mergeable(a: Row, b: Row) {
    && a.sender == b.sender && a.fromMe == b.fromMe && a.service == b.service && a.date == b.date
    && a.effect == b.effect && a.target == b.target && a.reaction == b.reaction
    && (a.chat == b.chat || IsPlaceholderKey(a.chat) != IsPlaceholderKey(b.chat))
    && (a.text == b.text ==> a.subject == b.subject)
    && (a.text != b.text ==> (a.text.None? && (b.subject.Some? || a.subject.None?))
                             || (b.text.None? && (a.subject.Some? || b.subject.None?)))
  }

  lemma MergesCommuteIff(a: Row, b: Row)
    ensures Merge(a, b) == Merge(b, a) <==> Mergeable(a, b)
  {
  }

  lemma InsertsCommuteIff(s: State, guid: string, a: Row, b: Row)
    requires guid !in s.rows
    ensures InsertRow(InsertRow(s, guid, a), guid, b) == InsertRow(InsertRow(s, guid, b), guid, a)
            <==> Mergeable(a, b)
  {
    hide Merge, Mergeable;
    var aFirst, bFirst := InsertRow(InsertRow(s, guid, a), guid, b), InsertRow(InsertRow(s, guid, b), guid, a);
    assert aFirst.rows[guid] == Merge(a, b) && bFirst.rows[guid] == Merge(b, a);
    MergesCommuteIff(a, b);
    assert Merge(a, b) == Merge(b, a) ==> aFirst.rows == bFirst.rows;
  }

  /** If one of two tombstoned rows reacts to the other, it matters which goes first, exactly when a
      third row reacts to the reaction: it stays if the reaction went with its message. */
  lemma TombstonesCommuteIff(s: State, message: string, reaction: string)
    requires message != reaction && Named(s, message) in s.rows && Named(s, reaction) in s.rows
    requires s.rows[Named(s, reaction)].target == Some(Named(s, message))
    requires s.rows[Named(s, message)].target.None?
    ensures DeleteRecord(DeleteRecord(s, message), reaction) == DeleteRecord(DeleteRecord(s, reaction), message)
            <==> forall g :: g in s.rows ==> s.rows[g].target != Some(Named(s, reaction))
  {
    var m, r := Named(s, message), Named(s, reaction);
    MessageFirst(s, message, reaction);
    ReactionFirst(s, message, reaction);
    if g :| g in s.rows && s.rows[g].target == Some(r) {
      assert g in DeleteRecord(DeleteRecord(s, message), reaction).rows;
    }
  }

  lemma MessageFirst(s: State, message: string, reaction: string)
    requires message != reaction && Named(s, message) in s.rows && Named(s, reaction) in s.rows
    requires s.rows[Named(s, reaction)].target == Some(Named(s, message))
    ensures DeleteRecord(DeleteRecord(s, message), reaction)
            == State(map g | g in s.rows && !GoesWith(g, s.rows[g], Named(s, message)) :: s.rows[g],
                     s.records - {message, reaction})
  {
  }

  lemma ReactionFirst(s: State, message: string, reaction: string)
    requires message != reaction && Named(s, message) in s.rows && Named(s, reaction) in s.rows
    requires s.rows[Named(s, reaction)].target == Some(Named(s, message))
    requires s.rows[Named(s, message)].target.None?
    ensures DeleteRecord(DeleteRecord(s, reaction), message)
            == State(map g | g in s.rows && !GoesWith(g, s.rows[g], Named(s, message))
                                         && !GoesWith(g, s.rows[g], Named(s, reaction)) :: s.rows[g],
                     s.records - {message, reaction})
  {
    var m, r := Named(s, message), Named(s, reaction);
    var once := DeleteRecord(s, reaction);
    assert Named(once, message) == m && m in once.rows;
    assert once.records - {message} == s.records - {message, reaction};
  }

  /** A new row and then a tombstone of a stored message, replayed together over what they left: that
      changes the store exactly when the row reacts to that message. The message is then gone, so the
      second tombstone finds nothing, and the reaction stays. */
  lemma LateReplayIff(s: State, record: string, guid: string, row: Row)
    requires guid !in s.rows && Named(s, record) in s.rows
    requires Named(s, record) != record ==> record !in s.rows && record != guid
    ensures
      var once := DeleteRecord(InsertRow(s, guid, row), record);
      DeleteRecord(InsertRow(once, guid, row), record) == once <==> row.target != Some(Named(s, record))
  {
    var n := Named(s, record);
    var once := DeleteRecord(InsertRow(s, guid, row), record);
    assert Named(InsertRow(s, guid, row), record) == n;
    assert once.records == s.records - {record} && n !in once.rows;
    var again := InsertRow(once, guid, row);
    assert Named(again, record) == record;
    if row.target == Some(n) {
      assert guid !in once.rows && guid in again.rows;
      assert record !in again.rows;
    } else {
      assert guid in once.rows && once.rows[guid] == row;
      InsertIdempotent(s, guid, row);
      assert again == once;
    }
  }
}
