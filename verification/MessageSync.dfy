/** One run of the message walk, from the saved cursor to the end of the zone, to an error or to
    the page limit. */
module MessageSync {
  import opened Options
  import opened MessageStore
  import opened Convergence
  import opened CloudRecords
  import opened Zone
  import opened SyncMachine
  import opened SyncState
  import opened MessageWalk
  import opened SyncConvergence

  datatype SyncResult = SyncResult(
    pagesProcessed: nat,
    messagesProcessed: nat,
    done: bool,
    finalToken: Option<Token>,
    failed: bool,
    deleted: nat,
    scanned: nat,
    filtered: nat,
    scanComplete: bool)

  const MIN_INT64 := -0x8000_0000_0000_0000

  /** The counters the program reports agree with the specification's tally. */
  ghost predicate Reports(result: SyncResult, t: Tally) {
    && result.pagesProcessed == t.pages
    && result.messagesProcessed == t.processed
    && result.filtered == t.filtered
    && result.scanned == t.skipped
    && result.deleted == t.deleted
  }

  // --- the parts of a page ---

  /** The initial scan skips records dated before the window. */
  predicate Keeps(job: Job, scanning: bool, cm: CloudMessage) {
    !(scanning && TooOld(job, cm))
  }

  /** Where each record of a page belongs, looked up record by record. */
  ghost predicate Sorted(page: map<string, Option<CloudMessage>>, scanning: bool, job: Job,
                         tombstones: set<string>, looked: set<string>, outside: set<string>)
  {
    && tombstones <= page.Keys && looked <= page.Keys && outside <= page.Keys
    && (forall id :: id in page ==>
          (id in tombstones <==> page[id].None?) && (id in looked + outside <==> page[id].Some?))
    && (forall id {:trigger Keeps(job, scanning, page[id].value)} :: id in page && page[id].Some? ==>
          && (id in looked <==> Keeps(job, scanning, page[id].value))
          && (id in outside <==> !Keeps(job, scanning, page[id].value)))
  }

  lemma SortedExists(page: map<string, Option<CloudMessage>>, scanning: bool, job: Job)
    ensures Sorted(page, scanning, job, Tombstones(page), Looked(job, scanning, page),
                   LiveRecords(page) - Looked(job, scanning, page))
  {}

  /** Separate tombstones from live records and drop live records outside the window. */
  method SplitPage(page: map<string, Option<CloudMessage>>, scanning: bool, job: Job)
    returns (live: map<string, CloudMessage>, tombstones: set<string>, skipped: nat)
    ensures tombstones == Tombstones(page)
    ensures live == LiveOf(page, Looked(job, scanning, page))
    ensures skipped == |LiveRecords(page) - Looked(job, scanning, page)|
  {
    SortedExists(page, scanning, job);
    live, tombstones, skipped := SplitInto(page, scanning, job, Tombstones(page), Looked(job, scanning, page),
                                           LiveRecords(page) - Looked(job, scanning, page));
    TakeNone(Tombstones(page));
    TakeNone(Looked(job, scanning, page));
    TakeNone(LiveRecords(page) - Looked(job, scanning, page));
  }

  /** The split once only the records in `remaining` are left. */
  ghost predicate SplitAllBut(page: map<string, Option<CloudMessage>>,
                              buried: set<string>, looked: set<string>, outside: set<string>, remaining: set<string>,
                              live: map<string, CloudMessage>, tombstones: set<string>, skipped: nat)
  {
    && tombstones == buried - remaining
    && live.Keys == looked - remaining
    && (forall id :: id in live ==> id in page && page[id] == Some(live[id]))
    && skipped == |outside - remaining|
  }

  /** Put one record where it belongs. */
  method SplitOne(page: map<string, Option<CloudMessage>>, scanning: bool, job: Job, id: string,
                  ghost buried: set<string>, ghost looked: set<string>, ghost outside: set<string>,
                  ghost remaining: set<string>,
                  live0: map<string, CloudMessage>, tombstones0: set<string>, skipped0: nat)
    returns (live: map<string, CloudMessage>, tombstones: set<string>, skipped: nat)
    requires Sorted(page, scanning, job, buried, looked, outside)
    requires id in remaining && id in page
    requires SplitAllBut(page, buried, looked, outside, remaining, live0, tombstones0, skipped0)
    ensures SplitAllBut(page, buried, looked, outside, remaining - {id}, live, tombstones, skipped)
  {
    live, tombstones, skipped := live0, tombstones0, skipped0;
    TakeOne(outside, remaining, id);
    TakeOne(looked, remaining, id);
    TakeOne(buried, remaining, id);
    match page[id] {
      case Some(cm) =>
        if Keeps(job, scanning, cm) {
          live := live[id := cm];
        } else {
          skipped := skipped + 1;
        }
      case None =>
        tombstones := tombstones + {id};
    }
  }

  /** The loop over a page. */
  method SplitInto(page: map<string, Option<CloudMessage>>, scanning: bool, job: Job,
                   ghost buried: set<string>, ghost looked: set<string>, ghost outside: set<string>)
    returns (live: map<string, CloudMessage>, tombstones: set<string>, skipped: nat)
    requires Sorted(page, scanning, job, buried, looked, outside)
    ensures SplitAllBut(page, buried, looked, outside, {}, live, tombstones, skipped)
  {
    live, tombstones, skipped := map[], {}, 0;
    var remaining := page.Keys;
    assert outside - remaining == {};
    while remaining != {}
      invariant remaining <= page.Keys
      invariant SplitAllBut(page, buried, looked, outside, remaining, live, tombstones, skipped)
      decreases remaining
    {
      var id :| id in remaining;
      live, tombstones, skipped := SplitOne(page, scanning, job, id, buried, looked, outside, remaining,
                                            live, tombstones, skipped);
      remaining := remaining - {id};
    }
  }

  /** Apply the tombstones of a page. */
  method ApplyTombstones(tombstones: set<string>, store: Store,
                         ghost job: Job, ghost mayStartOver: bool, ghost run: seq<World>)
    returns (deleted: nat, ghost walked: seq<World>)
    requires Path(job, mayStartOver, run)
    requires var w := run[|run| - 1]; w.phase.Storing? && w.phase.tombstones == tombstones && w.store == store.Value()
    modifies store
    ensures deleted == |tombstones|
    ensures Path(job, mayStartOver, walked) && walked != [] && walked[0] == run[0]
    ensures var w, w' := run[|run| - 1], walked[|walked| - 1];
            w' == w.(store := store.Value(), done := w'.done, phase := w.phase.(tombstones := {}))
  {
    hide DeleteRecord, Step;
    deleted, walked := 0, run;
    var remaining := tombstones;
    while remaining != {}
      invariant remaining <= tombstones
      invariant Path(job, mayStartOver, walked) && walked != [] && walked[0] == run[0]
      invariant var w, w' := run[|run| - 1], walked[|walked| - 1];
                w' == w.(store := store.Value(), done := w'.done, phase := w.phase.(tombstones := remaining))
      invariant deleted + |remaining| == |tombstones|
      decreases remaining
    {
      var record :| record in remaining;
      store.ApplyIngest(CloudRecordDeleted(record));
      deleted := deleted + 1;
      walked := BuryRun(job, mayStartOver, walked, record);
      remaining := remaining - {record};
    }
  }

  datatype PageCounts = PageCounts(deleted: nat, stored: nat, filtered: nat, skipped: nat, read: nat)

  /** The specification of a page's counts. */
  function CountsOf(job: Job, scanning: bool, page: map<string, Option<CloudMessage>>): PageCounts {
    var looked := Looked(job, scanning, page);
    PageCounts(|Tombstones(page)|, |Judged(LiveOf(page, looked), job.scope, Stored)|,
               |Judged(LiveOf(page, looked), job.scope, OtherConversation)|, |LiveRecords(page) - looked|, |page|)
  }

  /** Store everything a page carries: tombstones first, then the live records. */
  method StorePage(page: map<string, Option<CloudMessage>>, scanning: bool, job: Job, store: Store,
                   ghost mayStartOver: bool, ghost run: seq<World>)
    returns (counts: PageCounts, ghost walked: seq<World>)
    requires Path(job, mayStartOver, run)
    requires var w := run[|run| - 1];
             && w.phase.Storing? && w.phase.page == page && w.store == store.Value() && w.phase.linking.None?
             && w.phase.tombstones == Tombstones(page) && w.phase.live == Looked(job, scanning, page)
    modifies store
    ensures counts == CountsOf(job, scanning, page)
    ensures Path(job, mayStartOver, walked) && walked[0] == run[0]
    ensures var w, w' := run[|run| - 1], walked[|walked| - 1];
            w' == w.(store := store.Value(), done := w'.done, phase := w.phase.(tombstones := {}, live := {}))
  {
    var live, tombstones, skipped := SplitPage(page, scanning, job);
    var deleted;
    deleted, walked := ApplyTombstones(tombstones, store, job, mayStartOver, run);
    var stored;
    stored, walked := ProcessSyncPage(live, job.scope, store, MIN_INT64, job, mayStartOver, walked);
    counts := PageCounts(deleted, stored.count, stored.filtered, skipped, skipped + |live| + |tombstones|);
    PageRead(job, scanning, page);
  }

  lemma PageRead(job: Job, scanning: bool, page: map<string, Option<CloudMessage>>)
    ensures
      var looked := Looked(job, scanning, page);
      |page| == |LiveRecords(page) - looked| + |LiveOf(page, looked)| + |Tombstones(page)|
  {
    var looked := Looked(job, scanning, page);
    PagePartition(job, scanning, page);
    assert LiveOf(page, looked).Keys == looked;
    assert |LiveOf(page, looked)| == |LiveOf(page, looked).Keys|;
  }

  function AddCounts(result: SyncResult, counts: PageCounts): SyncResult {
    result.(pagesProcessed := result.pagesProcessed + 1,
            deleted := result.deleted + counts.deleted,
            messagesProcessed := result.messagesProcessed + counts.stored,
            filtered := result.filtered + counts.filtered,
            scanned := result.scanned + counts.skipped)
  }

  lemma CountsReported(job: Job, before: SyncResult, t: Tally, next: Token, page: map<string, Option<CloudMessage>>,
                       status: int)
    requires Reports(before, t)
    ensures Reports(AddCounts(before, CountsOf(job, !t.cursor.complete, page)), CountPage(job, t, next, page, status))
  {}

  // --- the walk ---

  /** The part of the cursor the message walk does not touch. */
  ghost predicate SameElsewhere(a: CursorFile, b: CursorFile) {
    a.chatsToken == b.chatsToken && a.chatsComplete == b.chatsComplete && a.accountDsid == b.accountDsid
  }

  /** A cursor file this walk wrote: its message token is none or the account's own. */
  ghost predicate WrittenFor(account: string, file: CursorFile, cursor: CursorFile) {
    SameElsewhere(file, cursor) && (file.messagesToken.Some? ==> file.messagesToken.value.account == account)
  }

  /** The cursor in memory, the cursor file, the writes so far and whether one broke off. */
  datatype Files = Files(cursor: CursorFile, saved: CursorFile, writes: seq<Write>, torn: bool)

  ghost function Seen(cursor: SyncCursor, disk: Disk): Files
    reads cursor, disk
  {
    Files(cursor.Value(), disk.cursor, disk.writes, disk.torn)
  }

  /** What the walk keeps: the rest of the cursor, in memory and in everything it wrote; and the file
      is the one it found, one it wrote, or reads as none. */
  ghost predicate Kept(account: string, before: Files, now: Files) {
    && SameElsewhere(now.cursor, before.cursor)
    && before.writes <= now.writes && (before.torn ==> now.torn)
    && (forall i :: |before.writes| <= i < |now.writes| ==>
          now.writes[i].CursorWrite? && WrittenFor(account, now.writes[i].file, before.cursor))
    && (now.saved == before.saved || now.saved == EMPTY_CURSOR
        || exists i :: |before.writes| <= i < |now.writes| && now.writes[i] == CursorWrite(now.saved))
  }

  lemma KeptByWriting(account: string, before: Files, now: Files)
    requires SameElsewhere(now.cursor, before.cursor) && now.writes == before.writes + [CursorWrite(now.cursor)]
    requires now.saved in {before.saved, now.cursor, EMPTY_CURSOR} && (before.torn ==> now.torn)
    requires now.cursor.messagesToken.Some? ==> now.cursor.messagesToken.value.account == account
    ensures Kept(account, before, now)
  {
    assert now.writes[|before.writes|] == CursorWrite(now.cursor);
  }

  lemma KeptAgain(account: string, before: Files, mid: Files, now: Files)
    requires Kept(account, before, mid) && Kept(account, mid, now)
    ensures Kept(account, before, now)
  {
    forall i | |before.writes| <= i < |now.writes|
      ensures now.writes[i].CursorWrite? && WrittenFor(account, now.writes[i].file, before.cursor)
    {
      if i < |mid.writes| {
        assert now.writes[i] == mid.writes[i];
      }
    }
    if mid.saved != before.saved && mid.saved != EMPTY_CURSOR && now.saved == mid.saved {
      var i :| |before.writes| <= i < |mid.writes| && mid.writes[i] == CursorWrite(mid.saved);
      assert now.writes[i] == CursorWrite(now.saved);
    }
  }

  /** A run in progress: the cursor, the counters and the machine agree with the tally, and the
      machine waits for an answer. */
  ghost predicate Underway(job: Job, t: Tally, requests: nat, run: seq<World>,
                           cursor: SyncCursor, store: Store, disk: Disk)
    reads cursor, store, disk
  {
    && cursor.Value().Messages() == t.cursor
    && Path(job, t.restarted || disk.torn, run)
    && var w := run[|run| - 1];
       && w.store == store.Value() && w.disk == disk.cursor.Messages()
       && w.phase == Asking(t.cursor, t.restarted, requests)
  }

  ghost predicate Over(job: Job, t: Tally, run: seq<World>, cursor: SyncCursor, store: Store, disk: Disk)
    reads cursor, store, disk
  {
    && cursor.Value().Messages() == t.cursor
    && Path(job, t.restarted || disk.torn, run)
    && var w := run[|run| - 1];
       w.store == store.Value() && w.disk == disk.cursor.Messages() && w.phase.Stopped?
  }

  /** An expired token: forget the position, persist that, and walk from the beginning. */
  method RestartWalk(job: Job, store: Store, cursor: SyncCursor, disk: Disk,
                     ghost t: Tally, ghost requests: nat, ghost run: seq<World>)
    returns (ghost walked: seq<World>)
    requires requests < MAX_CURSOR_PAGES && Underway(job, t, requests, run, cursor, store, disk) && !t.restarted
    modifies cursor, disk`cursor, disk`writes, disk`torn
    ensures Kept(job.account, old(Seen(cursor, disk)), Seen(cursor, disk))
    ensures Underway(job, Count(job, t, Expired), requests + 1, walked, cursor, store, disk)
    ensures walked[0] == run[0]
    ensures disk.writes == old(disk.writes) + [CursorWrite(cursor.Value())]
  {
    hide Kept;
    cursor.messagesToken, cursor.messagesComplete, cursor.recordsScanned := None, false, 0;
    disk.WriteCursor(cursor.Value());
    KeptByWriting(job.account, old(Seen(cursor, disk)), Seen(cursor, disk));
    walked := RestartRun(job, old(disk.torn), run, disk.cursor.Messages());
  }

  /** A page: store it, move the cursor past it, persist the cursor. */
  method TakePage(job: Job, store: Store, cursor: SyncCursor, disk: Disk, before: SyncResult,
                  next: Token, page: map<string, Option<CloudMessage>>, status: int,
                  ghost t: Tally, ghost requests: nat, ghost run: seq<World>)
    returns (result: SyncResult, ghost walked: seq<World>)
    requires requests < MAX_CURSOR_PAGES && Underway(job, t, requests, run, cursor, store, disk)
    requires Serves(job.log, job.account, t.cursor.token, Page(next, page, status))
    requires Reports(before, t) && !before.done && !before.failed
    modifies store, cursor, disk`cursor, disk`writes, disk`torn
    ensures Kept(job.account, old(Seen(cursor, disk)), Seen(cursor, disk))
    ensures Reports(result, CountPage(job, t, next, page, status)) && !result.failed
    ensures result.done <==> status == DONE
    ensures result.done ==> result.finalToken == Some(next)
    ensures walked != [] && walked[0] == run[0]
    ensures status == DONE ==> Over(job, CountPage(job, t, next, page, status), walked, cursor, store, disk)
    ensures status != DONE ==>
              Underway(job, CountPage(job, t, next, page, status), requests + 1, walked, cursor, store, disk)
    ensures disk.writes == old(disk.writes) + [CursorWrite(cursor.Value())]
  {
    hide Judge, Translate, EffectOf, Kept, Over, Step, Advance, SameElsewhere, CountPage, Looked, LiveOf;
    var scanning := !cursor.messagesComplete;
    walked := PageRun(job, t.restarted || disk.torn, run, next, page, status);
    var counts;
    counts, walked := StorePage(page, scanning, job, store, t.restarted || disk.torn, walked);
    result := AddCounts(before, counts);
    CountsReported(job, before, t, next, page, status);
    walked := PersistPage(job, store, cursor, disk, next, status, counts.read, page, t, requests, walked);
    if status == DONE {
      result := result.(done := true, finalToken := cursor.messagesToken);
    }
  }

  /** The end of a page: move the cursor past it and write it. */
  method PersistPage(job: Job, store: Store, cursor: SyncCursor, disk: Disk, next: Token, status: int, read: nat,
                     ghost page: map<string, Option<CloudMessage>>, ghost t: Tally, ghost requests: nat,
                     ghost run: seq<World>)
    returns (ghost walked: seq<World>)
    requires cursor.Value().Messages() == t.cursor && Path(job, t.restarted || disk.torn, run)
    requires next.account == job.account && read == |page|
    requires var w := run[|run| - 1];
             && w.store == store.Value() && w.disk == disk.cursor.Messages()
             && w.phase == Storing(t.cursor, t.restarted, requests + 1, next, status, page, {}, {}, None)
    modifies cursor, disk`cursor, disk`writes, disk`torn
    ensures Kept(job.account, old(Seen(cursor, disk)), Seen(cursor, disk))
    ensures walked != [] && walked[0] == run[0] && cursor.messagesToken == Some(next)
    ensures status == DONE ==> Over(job, CountPage(job, t, next, page, status), walked, cursor, store, disk)
    ensures status != DONE ==>
              Underway(job, CountPage(job, t, next, page, status), requests + 1, walked, cursor, store, disk)
    ensures disk.writes == old(disk.writes) + [CursorWrite(cursor.Value())]
  {
    hide Looked, Judged, Step, Kept, Advance, SameElsewhere;
    MoveCursor(cursor, next, status, read);
    disk.WriteCursor(cursor.Value());
    KeptByWriting(job.account, old(Seen(cursor, disk)), Seen(cursor, disk));
    walked := FinishRun(job, t.restarted || old(disk.torn), t.restarted || disk.torn, run, disk.cursor.Messages());
  }

  /** Move the cursor past a page of `read` records. */
  method MoveCursor(cursor: SyncCursor, next: Token, status: int, read: nat)
    modifies cursor
    ensures cursor.Value().Messages() == Advance(old(cursor.Value()).Messages(), next, status, read)
    ensures cursor.messagesToken == Some(next) && SameElsewhere(cursor.Value(), old(cursor.Value()))
  {
    var scanning := !cursor.messagesComplete;
    cursor.recordsScanned := cursor.recordsScanned + read;
    cursor.messagesToken := Some(next);
    if status == DONE {
      if scanning {
        cursor.lastScanTotal := cursor.recordsScanned;
      }
      cursor.messagesComplete := true;
    }
  }

  /** One pass through the loop: ask, and deal with the answer. */
  method AskOnce(job: Job, store: Store, cursor: SyncCursor, disk: Disk, restarted: bool, before: SyncResult,
                 ghost t: Tally, ghost requests: nat, ghost run: seq<World>)
    returns (response: Response<CloudMessage>, result: SyncResult, ghost walked: seq<World>)
    requires requests < MAX_CURSOR_PAGES && Underway(job, t, requests, run, cursor, store, disk)
    requires restarted == t.restarted
    requires Reports(before, t) && !before.done && !before.failed
    modifies store, cursor, disk`cursor, disk`writes, disk`torn
    ensures Kept(job.account, old(Seen(cursor, disk)), Seen(cursor, disk))
    ensures Reports(result, Count(job, t, response)) && walked != [] && walked[0] == run[0]
    ensures Serves(job.log, job.account, t.cursor.token, response) && Ending(result, restarted, response)
    ensures result.done || result.failed ==> Over(job, Count(job, t, response), walked, cursor, store, disk)
    ensures !(result.done || result.failed) ==>
              Underway(job, Count(job, t, response), requests + 1, walked, cursor, store, disk)
    // The cursor is written after every page and after the one reset, before anything else is asked.
    ensures disk.writes == old(disk.writes)
              + (if response.Page? || (response.Expired? && !restarted) then [CursorWrite(cursor.Value())] else [])
  {
    response := Fetch(job.log, job.account, cursor.messagesToken);
    result := before;
    match response {
      case Expired =>
        if !restarted {
          walked := RestartWalk(job, store, cursor, disk, t, requests, run);
        } else {
          result := result.(failed := true);
          walked := StopRun(job, true, run);
        }
      case Failed =>
        result := result.(failed := true);
        walked := StopRun(job, restarted || disk.torn, run);
      case Page(next, page, status) =>
        result, walked := TakePage(job, store, cursor, disk, before, next, page, status, t, requests, run);
    }
  }

  /** How an answer shows in the result. */
  ghost predicate Ending(result: SyncResult, restarted: bool, response: Response<CloudMessage>) {
    && (result.failed <==> response.Failed? || (response.Expired? && restarted))
    && (result.done <==> response.Page? && response.status == 3)
    && (result.done ==> result.finalToken == Some(response.next))
  }

  /** What a run may say about itself after some exchanges. */
  ghost predicate Truthful(job: Job, start: Cursor, t: Tally, exchanges: seq<Exchange<CloudMessage>>,
                           result: SyncResult)
  {
    && Reports(result, t)
    && Chained(start.token, exchanges) && Answered(job.log, job.account, exchanges)
    && (!result.done && !result.failed ==>
          Open(start.token, exchanges, t.cursor.token) && (!t.restarted ==> NoExpiry(exchanges)))
    && (result.done ==>
          && exchanges != []
          && var last := exchanges[|exchanges| - 1].response;
             last.Page? && last.status == DONE && result.finalToken == Some(last.next))
    && (result.failed ==> exchanges != [] && !exchanges[|exchanges| - 1].response.Page?)
  }

  lemma StaysTruthful(job: Job, start: Cursor, t: Tally, exchanges: seq<Exchange<CloudMessage>>, before: SyncResult,
                      response: Response<CloudMessage>, result: SyncResult)
    requires t == Walked(job, start, exchanges) && Truthful(job, start, t, exchanges, before)
    requires !before.done && !before.failed
    requires Reports(result, Count(job, t, response)) && Ending(result, t.restarted, response)
    requires Serves(job.log, job.account, t.cursor.token, response)
    ensures
      var more := exchanges + [Exchange(t.cursor.token, response)];
      Truthful(job, start, Count(job, t, response), more, result) && Count(job, t, response) == Walked(job, start, more)
      && Count(job, t, response).restarted == (t.restarted || response.Expired?)
  {
    var e := Exchange(t.cursor.token, response);
    ChainExtends(start.token, exchanges, e);
    WalkExtends(job, start, exchanges, e);
  }

  lemma TruthfulOfScan(job: Job, start: Cursor, t: Tally, exchanges: seq<Exchange<CloudMessage>>, result: SyncResult,
                       complete: bool)
    requires Truthful(job, start, t, exchanges, result)
    ensures Truthful(job, start, t, exchanges, result.(scanComplete := complete))
  {
  }

  /** A run that has not asked yet. */
  ghost function Initial(cursor: CursorFile, store: State, saved: CursorFile): World {
    World(saved.Messages(), store, Asking(cursor.Messages(), false, 0), NOTHING)
  }

  lemma StartsUnderway(job: Job, cursor: SyncCursor, store: Store, disk: Disk, result: SyncResult)
    requires result == SyncResult(0, 0, false, None, false, 0, 0, 0, false)
    ensures
      var start := cursor.Value().Messages();
      var t := Fresh(start);
      && t == Walked(job, start, []) && !t.restarted
      && Reports(result, t) && Truthful(job, start, t, [], result)
      && Underway(job, t, 0, [Initial(cursor.Value(), store.Value(), disk.cursor)], cursor, store, disk)
      && Kept(job.account, Seen(cursor, disk), Seen(cursor, disk))
  {
  }

  /** The loop: one request after another until the end of the zone, an error or the page limit. */
  method WalkPages(job: Job, store: Store, cursor: SyncCursor, disk: Disk)
    returns (result: SyncResult, ghost run: seq<World>, ghost exchanges: seq<Exchange<CloudMessage>>, ghost t: Tally)
    modifies store, cursor, disk`cursor, disk`writes, disk`torn
    ensures t == Walked(job, old(cursor.Value()).Messages(), exchanges)
    ensures run != [] && run[0] == Initial(old(cursor.Value()), old(store.Value()), old(disk.cursor))
    ensures Kept(job.account, old(Seen(cursor, disk)), Seen(cursor, disk))
    ensures |exchanges| <= MAX_CURSOR_PAGES && Truthful(job, old(cursor.Value()).Messages(), t, exchanges, result)
    ensures result.done || result.failed ==> Over(job, t, run, cursor, store, disk)
    ensures !result.done && !result.failed ==>
              |exchanges| == MAX_CURSOR_PAGES && Underway(job, t, MAX_CURSOR_PAGES, run, cursor, store, disk)
  {
    hide Walked, Count, Step, Reports, Truthful, Path, Kept, Over, Underway, Serves, Ending;
    ghost var start := cursor.Value().Messages();
    result := SyncResult(0, 0, false, None, false, 0, 0, 0, false);
    exchanges := [];
    t, run := Fresh(start), [Initial(cursor.Value(), store.Value(), disk.cursor)];
    ghost var first := run[0];
    var restarted := false;
    var requests := 0;
    StartsUnderway(job, cursor, store, disk, result);

    while requests < MAX_CURSOR_PAGES && !result.done && !result.failed
      invariant 0 <= requests <= MAX_CURSOR_PAGES && |exchanges| == requests
      invariant t == Walked(job, start, exchanges) && t.restarted == restarted
      invariant Kept(job.account, old(Seen(cursor, disk)), Seen(cursor, disk))
      invariant run != [] && run[0] == first
      invariant Reports(result, t) && Truthful(job, start, t, exchanges, result)
      invariant result.done || result.failed ==> Over(job, t, run, cursor, store, disk)
      invariant !(result.done || result.failed) ==> Underway(job, t, requests, run, cursor, store, disk)
      decreases MAX_CURSOR_PAGES - requests
    {
      ghost var before, mid := result, Seen(cursor, disk);
      var response;
      response, result, run := AskOnce(job, store, cursor, disk, restarted, result, t, requests, run);
      KeptAgain(job.account, old(Seen(cursor, disk)), mid, Seen(cursor, disk));
      StaysTruthful(job, start, t, exchanges, before, response, result);
      exchanges := exchanges + [Exchange(t.cursor.token, response)];
      t := Count(job, t, response);
      restarted := restarted || response.Expired?;
      requests := requests + 1;
    }
  }

  method SyncMessagesWithCursor(log: seq<Change<CloudMessage>>, account: string, store: Store, scope: Scope,
                                cursor: SyncCursor, applySince: int, disk: Disk)
    returns (result: SyncResult, ghost run: seq<World>, ghost exchanges: seq<Exchange<CloudMessage>>)
    modifies store, cursor, disk`cursor, disk`writes, disk`torn
    // The run is a path of the machine from what was saved to what is saved now; the cursor and
    // the counters follow the answers.
    ensures Over(Job(log, account, scope, applySince),
                 Walked(Job(log, account, scope, applySince), old(cursor.Value()).Messages(), exchanges),
                 run, cursor, store, disk)
    ensures run[0] == Initial(old(cursor.Value()), old(store.Value()), old(disk.cursor))
    ensures Kept(account, old(Seen(cursor, disk)), Seen(cursor, disk))
    // The requests are chained by tokens and bounded; the end of the zone, an error and the page
    // limit are told apart.
    ensures |exchanges| <= 5000
    ensures Truthful(Job(log, account, scope, applySince), old(cursor.Value()).Messages(),
                     Walked(Job(log, account, scope, applySince), old(cursor.Value()).Messages(), exchanges),
                     exchanges, result)
    ensures !result.done && !result.failed ==> |exchanges| == 5000
    ensures result.scanComplete == cursor.messagesComplete
  {
    var job := Job(log, account, scope, applySince);
    ghost var start := cursor.Value().Messages();
    ghost var t;
    result, run, exchanges, t := WalkPages(job, store, cursor, disk);
    hide Walked, Truthful, Path, Kept;
    if !result.done && !result.failed {
      run := StopRun(job, t.restarted || disk.torn, run);
    }
    TruthfulOfScan(job, start, t, exchanges, result, cursor.messagesComplete);
    result := result.(scanComplete := cursor.messagesComplete);
  }

  lemma WalkExtends(job: Job, start: Cursor, exchanges: seq<Exchange<CloudMessage>>, e: Exchange<CloudMessage>)
    ensures Walked(job, start, exchanges + [e]) == Count(job, Walked(job, start, exchanges), e.response)
    ensures Count(job, Walked(job, start, exchanges), e.response).restarted
            == (Walked(job, start, exchanges).restarted || e.response.Expired?)
    ensures !Final(e.response) && !(e.response.Expired? && Walked(job, start, exchanges).restarted) ==>
              Count(job, Walked(job, start, exchanges), e.response).cursor.token == Continuation(e)
  {
  }

  // --- the machine's view of one step of the loop ---

  ghost function StopRun(job: Job, mayStartOver: bool, run: seq<World>): (longer: seq<World>)
    requires Path(job, mayStartOver, run)
    ensures Path(job, mayStartOver, longer) && longer[0] == run[0]
    ensures longer[|longer| - 1] == run[|run| - 1].(phase := Stopped)
  {
    var w := run[|run| - 1];
    PathExtends(job, mayStartOver, run, w.(phase := Stopped));
    run + [w.(phase := Stopped)]
  }

  /** The run after a write, broken off or not. */
  ghost function TearRun(job: Job, before: bool, after: bool, run: seq<World>, disk: Cursor): (longer: seq<World>)
    requires Path(job, before, run) && (before ==> after)
    requires run[|run| - 1].disk == disk || (after && disk == NOT_SAVED)
    ensures Path(job, after, longer) && longer[0] == run[0]
    ensures longer[|longer| - 1] == run[|run| - 1].(disk := disk)
  {
    var w := run[|run| - 1];
    assert Path(job, after, run) by { if after { PathMayStartOver(job, before, run); } }
    if w.disk == disk then run
    else
      PathExtends(job, after, run, w.(disk := disk));
      run + [w.(disk := disk)]
  }

  ghost function RestartRun(job: Job, mayStartOver: bool, run: seq<World>, disk: Cursor): (longer: seq<World>)
    requires Path(job, mayStartOver, run)
    requires var w := run[|run| - 1];
             && w.phase.Asking? && !w.phase.restarted && w.phase.requests < MAX_CURSOR_PAGES
             && (Persists(w, Reset(w.phase.cursor), disk) || disk == NOT_SAVED)
    ensures Path(job, true, longer) && longer[0] == run[0]
    ensures var w := run[|run| - 1];
            longer[|longer| - 1]
            == w.(disk := disk, phase := Asking(Reset(w.phase.cursor), true, w.phase.requests + 1))
  {
    var w := run[|run| - 1];
    var intact := if Persists(w, Reset(w.phase.cursor), disk) then disk else w.disk;
    var w' := w.(disk := intact, phase := Asking(Reset(w.phase.cursor), true, w.phase.requests + 1));
    PathMayStartOver(job, mayStartOver, run);
    PathExtends(job, true, run, w');
    TearRun(job, true, true, run + [w'], disk)
  }

  ghost function BuryRun(job: Job, mayStartOver: bool, run: seq<World>, record: string): (longer: seq<World>)
    requires Path(job, mayStartOver, run)
    requires var w := run[|run| - 1]; w.phase.Storing? && record in w.phase.tombstones
    ensures Path(job, mayStartOver, longer) && longer[0] == run[0]
    ensures
      var w, w' := run[|run| - 1], longer[|longer| - 1];
      w' == w.(store := DeleteRecord(w.store, record), done := w'.done,
               phase := w.phase.(tombstones := w.phase.tombstones - {record}))
  {
    var w := run[|run| - 1];
    var w' := w.(store := DeleteRecord(w.store, record),
                 phase := w.phase.(tombstones := w.phase.tombstones - {record}),
                 done := Done(w.done.rows + {record}, w.done.links + {record}));
    assert Forgets(w, record, w');
    PathExtends(job, mayStartOver, run, w');
    run + [w']
  }

  ghost function PageRun(job: Job, mayStartOver: bool, run: seq<World>, next: Token,
                         page: map<string, Option<CloudMessage>>, status: int): (longer: seq<World>)
    requires Path(job, mayStartOver, run)
    requires var w := run[|run| - 1];
             && w.phase.Asking? && w.phase.requests < MAX_CURSOR_PAGES
             && Serves(job.log, job.account, w.phase.cursor.token, Page(next, page, status))
    ensures Path(job, mayStartOver, longer) && longer[0] == run[0]
    ensures var w := run[|run| - 1];
            longer[|longer| - 1]
            == w.(phase := Storing(w.phase.cursor, w.phase.restarted, w.phase.requests + 1, next, status, page,
                                   Tombstones(page), Looked(job, !w.phase.cursor.complete, page), None))
  {
    var w := run[|run| - 1];
    var w' := w.(phase := Storing(w.phase.cursor, w.phase.restarted, w.phase.requests + 1, next, status, page,
                                  Tombstones(page), Looked(job, !w.phase.cursor.complete, page), None));
    assert GetsPage(job, w, w');
    PathExtends(job, mayStartOver, run, w');
    run + [w']
  }

  ghost function FinishRun(job: Job, before: bool, after: bool, run: seq<World>, disk: Cursor): (longer: seq<World>)
    requires Path(job, before, run) && (before ==> after)
    requires var w := run[|run| - 1];
             && w.phase.Storing? && w.phase.tombstones == {} && w.phase.live == {} && w.phase.linking.None?
             && (Persists(w, Advance(w.phase.cursor, w.phase.next, w.phase.status, |w.phase.page|), disk)
                 || (after && disk == NOT_SAVED))
    ensures Path(job, after, longer) && longer[0] == run[0]
    ensures longer[|longer| - 1] == Finished(run[|run| - 1], disk)
  {
    var w := run[|run| - 1];
    var intact := if Persists(w, Advance(w.phase.cursor, w.phase.next, w.phase.status, |w.phase.page|), disk)
                  then disk else w.disk;
    var w' := Finished(w, intact);
    assert FinishesPage(w, w');
    PathExtends(job, before, run, w');
    TearRun(job, before, after, run + [w'], disk)
  }

  /** A world whose page has been stored, with the cursor moved past it. */
  ghost function Finished(w: World, disk: Cursor): World
    requires w.phase.Storing?
  {
    w.(disk := disk,
       phase := if w.phase.status == DONE then Stopped
                else Asking(Advance(w.phase.cursor, w.phase.next, w.phase.status, |w.phase.page|),
                            w.phase.restarted, w.phase.requests))
  }
}
