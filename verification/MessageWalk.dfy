/** The token-based walk of the message zone. */
module MessageWalk {
  import opened Options
  import opened Conversations
  import opened MessageStore
  import opened Convergence
  import opened CloudRecords
  import opened Zone
  import opened SyncMachine
  import opened SyncState

  // --- counting records ---

  /** How many live records of a page met a given verdict. */
  function Judged(live: map<string, CloudMessage>, scope: Scope, verdict: Verdict): set<string> {
    set id | id in live && Judge(live[id], scope) == verdict
  }

  function LiveOf(page: map<string, Option<CloudMessage>>, ids: set<string>): map<string, CloudMessage>
    requires forall id :: id in ids ==> id in page && page[id].Some?
  {
    map id | id in ids :: page[id].value
  }

  /** What a run has counted so far. `ignored` and `read` are not reported by the program. */
  datatype Tally = Tally(
    cursor: Cursor,
    restarted: bool,
    pages: nat,
    processed: nat,
    filtered: nat,
    skipped: nat,
    deleted: nat,
    ignored: nat,
    read: nat)

  function Fresh(cursor: Cursor): Tally {
    Tally(cursor, false, 0, 0, 0, 0, 0, 0, 0)
  }

  function CountPage(job: Job, t: Tally, next: Token, page: map<string, Option<CloudMessage>>, status: int): Tally {
    var looked := Looked(job, !t.cursor.complete, page);
    var live := LiveOf(page, looked);
    Tally(Advance(t.cursor, next, status, |page|), t.restarted, t.pages + 1,
          t.processed + |Judged(live, job.scope, Stored)|,
          t.filtered + |Judged(live, job.scope, OtherConversation)|,
          t.skipped + |LiveRecords(page) - looked|,
          t.deleted + |Tombstones(page)|,
          t.ignored + |Judged(live, job.scope, Untranslatable)|,
          t.read + |page|)
  }

  function Count(job: Job, t: Tally, response: Response<CloudMessage>): Tally {
    match response
    case Page(next, page, status) => CountPage(job, t, next, page, status)
    case Expired => if t.restarted then t else t.(cursor := Reset(t.cursor), restarted := true)
    case Failed => t
  }

  /** Where a sequence of answers leaves a walk that began at `cursor`. */
  function Walked(job: Job, cursor: Cursor, exchanges: seq<Exchange<CloudMessage>>): Tally {
    if exchanges == [] then Fresh(cursor)
    else
      var last := |exchanges| - 1;
      Count(job, Walked(job, cursor, exchanges[..last]), exchanges[last].response)
  }

  lemma Partition<K>(whole: set<K>, a: set<K>, b: set<K>, c: set<K>)
    requires whole == a + b + c && a !! b && a !! c && b !! c
    ensures |whole| == |a| + |b| + |c|
  {
  }

  lemma LookedConserved(live: map<string, CloudMessage>, scope: Scope)
    ensures |live| == |Judged(live, scope, Stored)| + |Judged(live, scope, OtherConversation)|
                      + |Judged(live, scope, Untranslatable)|
  {
    Partition(live.Keys, Judged(live, scope, Stored), Judged(live, scope, OtherConversation),
              Judged(live, scope, Untranslatable));
  }

  lemma PagePartition(job: Job, scanning: bool, page: map<string, Option<CloudMessage>>)
    ensures |page| == |Looked(job, scanning, page)| + |LiveRecords(page) - Looked(job, scanning, page)|
                      + |Tombstones(page)|
  {
    var looked := Looked(job, scanning, page);
    Partition(page.Keys, looked, LiveRecords(page) - looked, Tombstones(page));
  }

  /** Every record of a page is counted exactly once. */
  lemma PageConserved(job: Job, t: Tally, next: Token, page: map<string, Option<CloudMessage>>, status: int)
    ensures
      var t' := CountPage(job, t, next, page, status);
      t'.processed + t'.filtered + t'.skipped + t'.deleted + t'.ignored - t'.read
      == t.processed + t.filtered + t.skipped + t.deleted + t.ignored - t.read
  {
    var live := LiveOf(page, Looked(job, !t.cursor.complete, page));
    assert live.Keys == Looked(job, !t.cursor.complete, page);
    LookedConserved(live, job.scope);
    PagePartition(job, !t.cursor.complete, page);
  }

  /** Conservation over a run: stored, filtered, skipped, deleted and ignored records add up to
      the records read, whatever expiries and failures came between the pages. */
  lemma {:induction false} RecordsConserved(job: Job, cursor: Cursor, exchanges: seq<Exchange<CloudMessage>>)
    ensures
      var t := Walked(job, cursor, exchanges);
      t.processed + t.filtered + t.skipped + t.deleted + t.ignored == t.read
  {
    if exchanges != [] {
      var last := |exchanges| - 1;
      RecordsConserved(job, cursor, exchanges[..last]);
      if exchanges[last].response.Page? {
        var r := exchanges[last].response;
        PageConserved(job, Walked(job, cursor, exchanges[..last]), r.next, r.page, r.status);
      }
    }
  }

  /** The scan counter grows by exactly the records read since the last reset. */
  lemma {:induction false} ScannedSinceReset(job: Job, cursor: Cursor, before: seq<Exchange<CloudMessage>>,
                                             after: seq<Exchange<CloudMessage>>)
    requires NoExpiry(after)
    ensures Walked(job, cursor, before + after).cursor.scanned
            == Walked(job, cursor, before).cursor.scanned
               + (Walked(job, cursor, before + after).read - Walked(job, cursor, before).read)
    ensures Walked(job, cursor, before + after).restarted == Walked(job, cursor, before).restarted
  {
    if after == [] {
      assert before + after == before;
    } else {
      var last := |after| - 1;
      assert (before + after)[..|before + after| - 1] == before + after[..last];
      ScannedSinceReset(job, cursor, before, after[..last]);
    }
  }

  /** The recorded scan total is the counter at the moment a scan completes, and nothing else
      ever changes it. */
  lemma ScanTotalRecorded(job: Job, t: Tally, response: Response<CloudMessage>)
    ensures
      var t' := Count(job, t, response);
      if !t.cursor.complete && t'.cursor.complete then t'.cursor.lastTotal == t'.cursor.scanned
      else t'.cursor.lastTotal == t.cursor.lastTotal
  {}

  // --- counting by leaving out ---

  lemma TakeOne<T>(counted: set<T>, remaining: set<T>, x: T)
    requires x in remaining
    ensures |counted - (remaining - {x})| == |counted - remaining| + if x in counted then 1 else 0
    ensures x in counted ==> counted - (remaining - {x}) == counted - remaining + {x}
    ensures x !in counted ==> counted - (remaining - {x}) == counted - remaining
  {
    if x in counted {
      assert counted - (remaining - {x}) == counted - remaining + {x};
    } else {
      assert counted - (remaining - {x}) == counted - remaining;
    }
  }

  lemma TakeNone<T>(counted: set<T>)
    ensures counted - {} == counted
  {}

  // --- one page ---

  datatype PageResult = PageResult(count: nat, anyOlderThanCutoff: bool, filtered: nat)

  /** The page is being stored and only the live records in `left` are still to be taken. */
  ghost predicate Taking(w: World, left: set<string>, live: map<string, CloudMessage>, store: State) {
    && w.phase.Storing? && w.phase.tombstones == {} && w.phase.linking.None? && w.phase.live == left
    && w.store == store
    && forall id :: id in live ==> id in w.phase.page && w.phase.page[id] == Some(live[id])
  }

  /** What storing a page may change: the store, the history, and the records left. */
  ghost predicate SamePage(w: World, w': World) {
    && w.phase.Storing? && w'.phase.Storing?
    && w' == w.(store := w'.store, done := w'.done, phase := w.phase.(live := w'.phase.live))
  }

  /** The stored records of a page that are dated before a cutoff. */
  function Older(live: map<string, CloudMessage>, scope: Scope, cutoff: int): set<string> {
    set id | id in live && Judge(live[id], scope) == Stored && UnixMs(live[id].time) < cutoff
  }

  /** A record that is not stored is passed over. */
  lemma PassOver(record: string, live: map<string, CloudMessage>, job: Job, mayStartOver: bool, run: seq<World>,
                 left: set<string>, store: State)
    returns (walked: seq<World>)
    requires Path(job, mayStartOver, run) && record in live && record in left
    requires Taking(run[|run| - 1], left, live, store)
    requires EffectOf(live[record], job.scope) == Nothing
    ensures Path(job, mayStartOver, walked) && walked[0] == run[0]
    ensures SamePage(run[|run| - 1], walked[|walked| - 1]) && Taking(walked[|walked| - 1], left - {record}, live, store)
  {
    var w := run[|run| - 1];
    var w' := w.(phase := w.phase.(live := left - {record}),
                 done := Done(w.done.rows + {record}, w.done.links + {record}));
    assert Passes(job, w, record, w');
    assert TakesLive(job, w, w');
    PathExtends(job, mayStartOver, run, w');
    walked := run + [w'];
  }

  lemma StoredIsInserted(cm: CloudMessage, scope: Scope, s: State)
    requires Judge(cm, scope) == Stored
    ensures EffectOf(cm, scope).Insert? && EffectOf(cm, scope).guid == cm.guid
    ensures Apply(s, Translate(cm, scope)) == InsertRow(s, cm.guid, EffectOf(cm, scope).row)
  {
    EffectCarriesGuid(cm, scope);
  }

  lemma SeenIsLinked(s: State, record: string, guid: string)
    ensures Apply(s, CloudRecordSeen(record, guid)) == s.(records := s.records[record := guid])
  {
  }

  /** The two transactions of a stored record. */
  method CommitRecord(record: string, live: map<string, CloudMessage>, ingest: Ingest, store: Store,
                      ghost job: Job, ghost mayStartOver: bool, ghost run: seq<World>, ghost left: set<string>)
    returns (ghost walked: seq<World>)
    requires Path(job, mayStartOver, run)
    requires record in live && record in left && Taking(run[|run| - 1], left, live, store.Value())
    requires ingest == Translate(live[record], job.scope) && Judge(live[record], job.scope) == Stored
    modifies store
    ensures walked != [] && Path(job, mayStartOver, walked) && walked[0] == run[0]
    ensures SamePage(run[|run| - 1], walked[|walked| - 1])
    ensures Taking(walked[|walked| - 1], left - {record}, live, store.Value())
  {
    hide Translate, Judge, EffectOf, InsertRow, Apply, UnixMs;
    ghost var effect := EffectOf(live[record], job.scope);
    var guid := live[record].guid;
    ghost var w := run[|run| - 1];
    StoredIsInserted(live[record], job.scope, w.store);
    store.ApplyIngest(ingest);
    ghost var w' := w.(store := store.Value(), phase := w.phase.(live := left - {record}, linking := Some(record)),
                       done := w.done.(rows := w.done.rows + {record}));
    assert StoresRow(job, w, record, w');
    assert TakesLive(job, w, w');
    PathExtends(job, mayStartOver, run, w');
    walked := run + [w'];
    if guid != record {
      SeenIsLinked(store.Value(), record, guid);
      store.ApplyIngest(CloudRecordSeen(record, guid));
    }
    ghost var w'' := w'.(store := store.Value(), phase := w'.phase.(linking := None),
                         done := w'.done.(links := w'.done.links + {record}));
    assert Links(job, w', w'');
    PathExtends(job, mayStartOver, walked, w'');
    walked := walked + [w''];
  }

  /** Translate one live record and commit what it means. */
  method StoreRecord(record: string, live: map<string, CloudMessage>, scope: Scope, store: Store, cutoff: int,
                     ghost job: Job, ghost mayStartOver: bool, ghost run: seq<World>, ghost left: set<string>)
    returns (verdict: Verdict, tooOld: bool, ghost walked: seq<World>)
    requires Path(job, mayStartOver, run) && job.scope == scope
    requires record in live && record in left && Taking(run[|run| - 1], left, live, store.Value())
    modifies store
    ensures verdict == Judge(live[record], scope)
    ensures tooOld == (UnixMs(live[record].time) < cutoff)
    ensures walked != [] && Path(job, mayStartOver, walked) && walked[0] == run[0]
    ensures SamePage(run[|run| - 1], walked[|walked| - 1])
    ensures Taking(walked[|walked| - 1], left - {record}, live, store.Value())
  {
    var ingest := Translate(live[record], scope);
    var key := ConversationOf(ingest);
    tooOld := UnixMs(live[record].time) < cutoff;
    if scope.existing.Some? && key.Some? && key.value !in scope.existing.value {
      verdict := OtherConversation;
      walked := PassOver(record, live, job, mayStartOver, run, left, store.Value());
    } else if ingest.Ignored? {
      verdict := Untranslatable;
      walked := PassOver(record, live, job, mayStartOver, run, left, store.Value());
    } else {
      verdict := Stored;
      walked := CommitRecord(record, live, ingest, store, job, mayStartOver, run, left);
    }
  }

  /** What has been counted once only the records in `remaining` are left. */
  ghost predicate CountedAllBut(result: PageResult, live: map<string, CloudMessage>, scope: Scope, cutoff: int,
                                remaining: set<string>)
  {
    result == PageResult(|Judged(live, scope, Stored) - remaining|, Older(live, scope, cutoff) - remaining != {},
                         |Judged(live, scope, OtherConversation) - remaining|)
  }

  lemma NothingCounted(live: map<string, CloudMessage>, scope: Scope, cutoff: int)
    ensures CountedAllBut(PageResult(0, false, 0), live, scope, cutoff, live.Keys)
  {
  }

  lemma AllCounted(result: PageResult, live: map<string, CloudMessage>, scope: Scope, cutoff: int)
    requires CountedAllBut(result, live, scope, cutoff, {})
    ensures result == PageResult(|Judged(live, scope, Stored)|, Older(live, scope, cutoff) != {},
                                 |Judged(live, scope, OtherConversation)|)
  {
  }

  /** Count one record by its verdict. */
  function Tick(result: PageResult, verdict: Verdict, tooOld: bool): PageResult {
    match verdict
    case OtherConversation => result.(filtered := result.filtered + 1)
    case Untranslatable => result
    case Stored => result.(count := result.count + 1, anyOlderThanCutoff := result.anyOlderThanCutoff || tooOld)
  }

  lemma CountedOneMore(result: PageResult, live: map<string, CloudMessage>, scope: Scope, cutoff: int,
                       remaining: set<string>, record: string)
    requires record in live && record in remaining && CountedAllBut(result, live, scope, cutoff, remaining)
    ensures CountedAllBut(Tick(result, Judge(live[record], scope), UnixMs(live[record].time) < cutoff),
                          live, scope, cutoff, remaining - {record})
  {
    TakeOne(Judged(live, scope, Stored), remaining, record);
    TakeOne(Judged(live, scope, OtherConversation), remaining, record);
    TakeOne(Older(live, scope, cutoff), remaining, record);
  }

  /** Store one record and count it. */
  method StoreAndCount(record: string, live: map<string, CloudMessage>, scope: Scope, store: Store, cutoff: int,
                       ghost job: Job, ghost mayStartOver: bool, ghost run: seq<World>, ghost remaining: set<string>,
                       before: PageResult)
    returns (result: PageResult, ghost walked: seq<World>)
    requires Path(job, mayStartOver, run) && job.scope == scope
    requires record in live && record in remaining && Taking(run[|run| - 1], remaining, live, store.Value())
    requires CountedAllBut(before, live, scope, cutoff, remaining)
    modifies store
    ensures CountedAllBut(result, live, scope, cutoff, remaining - {record})
    ensures Path(job, mayStartOver, walked) && walked[0] == run[0]
    ensures SamePage(run[|run| - 1], walked[|walked| - 1])
    ensures Taking(walked[|walked| - 1], remaining - {record}, live, store.Value())
  {
    hide Judge, UnixMs, CountedAllBut;
    CountedOneMore(before, live, scope, cutoff, remaining, record);
    var verdict, tooOld;
    verdict, tooOld, walked := StoreRecord(record, live, scope, store, cutoff, job, mayStartOver, run, remaining);
    result := before;
    match verdict {
      case OtherConversation =>
        result := result.(filtered := result.filtered + 1);
      case Untranslatable =>
      case Stored =>
        result := result.(count := result.count + 1);
        if tooOld {
          result := result.(anyOlderThanCutoff := true);
        }
    }
  }

  /** Store the live records of one page, in whatever order they come. */
  method ProcessSyncPage(live: map<string, CloudMessage>, scope: Scope, store: Store, cutoff: int,
                         ghost job: Job, ghost mayStartOver: bool, ghost run: seq<World>)
    returns (result: PageResult, ghost walked: seq<World>)
    requires Path(job, mayStartOver, run) && job.scope == scope
    requires Taking(run[|run| - 1], live.Keys, live, store.Value())
    modifies store
    ensures result == PageResult(|Judged(live, scope, Stored)|, Older(live, scope, cutoff) != {},
                                 |Judged(live, scope, OtherConversation)|)
    // By what the records say: those for conversations that are not wanted are filtered.
    ensures result.count == |Having(live, scope, true)| && result.filtered == |Having(live, scope, false)|
    ensures result.anyOlderThanCutoff <==>
              exists id :: id in Having(live, scope, true) && UnixMs(live[id].time) < cutoff
    ensures Path(job, mayStartOver, walked) && walked[0] == run[0]
    ensures SamePage(run[|run| - 1], walked[|walked| - 1])
    ensures Taking(walked[|walked| - 1], {}, live, store.Value())
  {
    hide Judge, Judged, Older, Having, UnixMs, CountedAllBut, Step;
    result := PageResult(0, false, 0);
    NothingCounted(live, scope, cutoff);
    walked := run;
    var remaining := live.Keys;
    while remaining != {}
      invariant remaining <= live.Keys
      invariant Path(job, mayStartOver, walked) && walked[0] == run[0]
      invariant SamePage(run[|run| - 1], walked[|walked| - 1])
      invariant Taking(walked[|walked| - 1], remaining, live, store.Value())
      invariant CountedAllBut(result, live, scope, cutoff, remaining)
      decreases remaining
    {
      var record :| record in remaining;
      result, walked := StoreAndCount(record, live, scope, store, cutoff, job, mayStartOver, walked, remaining, result);
      remaining := remaining - {record};
    }
    AllCounted(result, live, scope, cutoff);
    JudgedBySaying(live, scope, cutoff);
  }

  /** The records that can be translated and whose conversation is wanted, or is not. */
  ghost function Having(live: map<string, CloudMessage>, scope: Scope, wanted: bool): (ids: set<string>)
    ensures ids <= live.Keys
  {
    set id | id in live && Translatable(live[id]) && Wanted(live[id], scope) == wanted
  }

  lemma JudgedBySaying(live: map<string, CloudMessage>, scope: Scope, cutoff: int)
    ensures Judged(live, scope, Stored) == Having(live, scope, true)
    ensures Judged(live, scope, OtherConversation) == Having(live, scope, false)
    ensures Older(live, scope, cutoff) != {} <==>
            exists id :: id in Having(live, scope, true) && UnixMs(live[id].time) < cutoff
  {
    hide Judge, Translatable, Wanted, UnixMs;
    forall id | id in live
      ensures Judge(live[id], scope) == Stored <==> Translatable(live[id]) && Wanted(live[id], scope)
      ensures Judge(live[id], scope) == OtherConversation <==> Translatable(live[id]) && !Wanted(live[id], scope)
    {
      StoredIff(live[id], scope);
    }
    if id :| id in Having(live, scope, true) && UnixMs(live[id].time) < cutoff {
      assert id in Older(live, scope, cutoff);
    }
    if Older(live, scope, cutoff) != {} {
      var id :| id in Older(live, scope, cutoff);
      assert id in Having(live, scope, true);
    }
  }
}
