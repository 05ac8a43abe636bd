/** One whole sync: whose cursor it is, the chat zone, then the message zone, and what is
    written to disk in which order. */
module SyncRun {
  import opened Options
  import opened Text
  import opened Conversations
  import opened MessageStore
  import opened Convergence
  import opened CloudRecords
  import opened Zone
  import opened SyncState
  import opened TokenIsolation
  import SyncMachine
  import SyncConvergence
  import ChatDisk
  import ChatWalk
  import MessageSync
  import MessageWalk

  // --- whose cursor ---

  /** Make the cursor and the cache belong to `dsid`: a cursor of another account is reset, an
      untagged one is claimed. Returns whether a reset happened. */
  method EnsureCursorAccount(disk: Disk, cursor: SyncCursor, cache: ChatCache, dsid: string) returns (reset: bool)
    modifies disk, cursor, cache
    ensures reset <==> old(cursor.accountDsid).Some? && old(cursor.accountDsid) != Some(dsid)
    ensures cursor.Value() == Loaded(old(cursor.Value()), dsid)
    ensures reset ==> cursor.Value() == EMPTY_CURSOR.(accountDsid := Some(dsid)) && cache.chats == map[]
    ensures !reset ==> cursor.Value() == old(cursor.Value()).(accountDsid := Some(dsid))
                       && cache.chats == old(cache.chats)
    ensures disk.cursor in {cursor.Value(), old(disk.cursor), EMPTY_CURSOR} && (old(disk.torn) ==> disk.torn)
    ensures disk.cursor in {cursor.Value(), old(disk.cursor)} || disk.torn
    ensures disk.chats == old(disk.chats) || (reset && disk.chats == map[])
    // The cursor is written before the cleared cache.
    ensures disk.writes == old(disk.writes)
              + (if old(cursor.accountDsid) == Some(dsid) then []
                 else if reset then [CursorWrite(cursor.Value()), ChatsWrite(map[])]
                 else [CursorWrite(cursor.Value())])
  {
    match cursor.accountDsid {
      case Some(current) =>
        if current == dsid {
          return false;
        }
        cursor.Assign(EMPTY_CURSOR.(accountDsid := Some(dsid)));
        cache.chats := map[];
        disk.WriteCursor(cursor.Value());
        disk.WriteChats(cache.chats);
        return true;
      case None =>
        cursor.accountDsid := Some(dsid);
        disk.WriteCursor(cursor.Value());
        return false;
    }
  }

  // --- the walks end with tokens of the account ---

  /** The token a chat walk ends with is its own. */
  lemma ChatTokenOwn(log: seq<Change<CloudChat>>, account: string, saved: Option<Token>,
                     exchanges: seq<Exchange<CloudChat>>, restarted: bool, progress: ChatWalk.Progress,
                     token: Option<Token>)
    requires ChatWalk.Conversed(saved, exchanges, restarted, token, progress)
    requires Answered(log, account, exchanges) && Own(account, saved)
    ensures Own(account, token)
  {
    SentTokensOwn(log, account, saved, exchanges);
    if exchanges != [] {
      var last := exchanges[|exchanges| - 1];
      assert Serves(log, account, last.sent, last.response);
    }
  }

  /** The token a message walk ends with is its own. */
  lemma MessageTokenOwn(job: SyncMachine.Job, start: SyncMachine.Cursor, t: MessageWalk.Tally,
                        exchanges: seq<Exchange<CloudMessage>>, result: MessageSync.SyncResult)
    requires MessageSync.Truthful(job, start, t, exchanges, result) && Own(job.account, start.token)
    requires t == MessageWalk.Walked(job, start, exchanges)
    ensures Own(job.account, t.cursor.token)
  {
    WalkedTokenOwn(job, start, exchanges);
  }

  lemma {:induction false} WalkedTokenOwn(job: SyncMachine.Job, start: SyncMachine.Cursor,
                                          exchanges: seq<Exchange<CloudMessage>>)
    requires Answered(job.log, job.account, exchanges) && Own(job.account, start.token)
    ensures Own(job.account, MessageWalk.Walked(job, start, exchanges).cursor.token)
  {
    if exchanges != [] {
      var last := |exchanges| - 1;
      WalkedTokenOwn(job, start, exchanges[..last]);
      assert Serves(job.log, job.account, exchanges[last].sent, exchanges[last].response);
    }
  }

  ghost predicate OwnPhase(account: string, phase: SyncMachine.Phase) {
    match phase
    case Stopped => true
    case Asking(cursor, _, _) => Own(account, cursor.token)
    case Storing(cursor, _, _, next, _, _, _, _, _) => Own(account, cursor.token) && next.account == account
  }

  lemma StepKeepsOwn(job: SyncMachine.Job, mayStartOver: bool, w: SyncMachine.World, w': SyncMachine.World)
    requires SyncMachine.Step(job, mayStartOver, w, w')
    requires Own(job.account, w.disk.token) && OwnPhase(job.account, w.phase)
    ensures Own(job.account, w'.disk.token) && OwnPhase(job.account, w'.phase)
  {
    if SyncMachine.AppliesTombstone(w, w') {
      var id :| id in w.phase.tombstones && SyncMachine.Forgets(w, id, w');
    } else if SyncMachine.TakesLive(job, w, w') {
      var id :| id in w.phase.live && (SyncMachine.Passes(job, w, id, w') || SyncMachine.StoresRow(job, w, id, w'));
    }
  }

  /** Over any sequence of runs, crashes and expiries, the token on disk stays the account's own. */
  lemma {:induction false} DiskTokensOwn(job: SyncMachine.Job, mayStartOver: bool, run: seq<SyncMachine.World>)
    requires SyncMachine.Path(job, mayStartOver, run)
    requires Own(job.account, run[0].disk.token) && OwnPhase(job.account, run[0].phase)
    ensures forall i :: 0 <= i < |run| ==> Own(job.account, run[i].disk.token) && OwnPhase(job.account, run[i].phase)
  {
    if |run| > 1 {
      var before := run[..|run| - 1];
      DiskTokensOwn(job, mayStartOver, before);
      var last := |run| - 2;
      assert before[last] == run[last];
      assert SyncMachine.Step(job, mayStartOver, run[last], run[last + 1]);
      StepKeepsOwn(job, mayStartOver, run[last], run[last + 1]);
    }
  }

  // --- looking up conversations ---

  const GROUP_STYLE := 43

  /** Every identifier a message's chat id might carry for this chat record. */
  function ChatMapKeys(record: string, chat: CloudChat): seq<string> {
    SortDedup([record]
              + (if chat.guid == "" then [] else [chat.guid])
              + (if chat.chatIdentifier == "" then []
                 else [chat.serviceName + ";" + (if chat.style == GROUP_STYLE then "+" else "-") + ";"
                       + chat.chatIdentifier]))
  }

  /** The compound identifier of a chat record is a chat id that parses back to its parts. */
  lemma ChatMapKeyParses(record: string, chat: CloudChat)
    requires chat.chatIdentifier != "" && ';' !in chat.serviceName
    ensures
      var kind := if chat.style == GROUP_STYLE then "+" else "-";
      exists key :: key in ChatMapKeys(record, chat)
                    && ParseChatId(key) == Some(ChatId(chat.serviceName, kind, chat.chatIdentifier))
  {
    var kind := if chat.style == GROUP_STYLE then "+" else "-";
    var key := chat.serviceName + ";" + kind + ";" + chat.chatIdentifier;
    var keys := [record] + (if chat.guid == "" then [] else [chat.guid]) + [key];
    SortDedupShape(keys);
    assert key in keys && ChatMapKeys(record, chat) == SortDedup(keys);
    ParseChatIdIff(key, ChatId(chat.serviceName, kind, chat.chatIdentifier));
  }

  /** A chat record is found under its record name, its guid and its compound identifier, as far as it has
      them. */
  lemma ChatMapKeysIff(record: string, chat: CloudChat, key: string)
    ensures key in ChatMapKeys(record, chat) <==>
            || key == record || (key == chat.guid && key != "")
            || (chat.chatIdentifier != ""
                && key == chat.serviceName + (if chat.style == 43 then ";+;" else ";-;") + chat.chatIdentifier)
  {
    var kind := if chat.style == GROUP_STYLE then "+" else "-";
    var compound := chat.serviceName + ";" + kind + ";" + chat.chatIdentifier;
    var keys := [record] + (if chat.guid == "" then [] else [chat.guid])
                + (if chat.chatIdentifier == "" then [] else [compound]);
    SortDedupShape(keys);
    assert key in keys <==> key == record || (key == chat.guid && key != "")
                            || (chat.chatIdentifier != "" && key == compound);
    CompoundSpelled(chat.serviceName, chat.chatIdentifier);
  }

  lemma CompoundSpelled(service: string, identifier: string)
    ensures service + ";" + "+" + ";" + identifier == service + ";+;" + identifier
    ensures service + ";" + "-" + ";" + identifier == service + ";-;" + identifier
  {
    assert ";" + "+" + ";" == ";+;" && ";" + "-" + ";" == ";-;";
    assert service + ";" + "+" + ";" == service + (";" + "+" + ";");
    assert service + ";" + "-" + ";" == service + (";" + "-" + ";");
  }

  /** The lookup map has exactly the identifiers of the cached chats, each leading to one of its
      chats. */
  ghost predicate Expands(cache: map<string, CloudChat>, lookup: map<string, CloudChat>) {
    && (forall key :: key in lookup <==> exists r :: r in cache && key in ChatMapKeys(r, cache[r]))
    && (forall key :: key in lookup ==>
          exists r :: r in cache && key in ChatMapKeys(r, cache[r]) && lookup[key] == cache[r])
  }

  /** Expand the cache into a lookup map. Where several records share an identifier, one of them
      is found. */
  method ChatLookupMap(cache: map<string, CloudChat>) returns (lookup: map<string, CloudChat>)
    ensures Expands(cache, lookup)
  {
    hide ChatMapKeys;
    lookup := map[];
    var remaining := cache.Keys;
    while remaining != {}
      invariant remaining <= cache.Keys
      invariant forall key :: key in lookup ==>
                  exists r :: r in cache && key in ChatMapKeys(r, cache[r]) && lookup[key] == cache[r]
      invariant forall r :: r in cache && r !in remaining ==>
                  forall key :: key in ChatMapKeys(r, cache[r]) ==> key in lookup
      decreases remaining
    {
      var record :| record in remaining;
      var keys := ChatMapKeys(record, cache[record]);
      var i := 0;
      while i < |keys|
        invariant 0 <= i <= |keys|
        invariant forall key :: key in lookup ==>
                    exists r :: r in cache && key in ChatMapKeys(r, cache[r]) && lookup[key] == cache[r]
        invariant forall r :: r in cache && r !in remaining ==>
                    forall key :: key in ChatMapKeys(r, cache[r]) ==> key in lookup
        invariant forall j :: 0 <= j < i ==> keys[j] in lookup
      {
        lookup := lookup[keys[i] := cache[record]];
        i := i + 1;
      }
      remaining := remaining - {record};
    }
  }

  // --- the whole run ---

  /** The cursor in memory and the file on disk, between two parts of a run. */
  ghost predicate InOrder(dsid: string, disk: Disk, cursor: SyncCursor)
    reads disk, cursor
  {
    Trusted(dsid, disk.cursor) && Tagged(dsid, cursor.Value())
  }

  /** The chat zone: on success the cache is written first, then the cursor. */
  method SyncChats(dsid: string, disk: Disk, cursor: SyncCursor, cache: ChatCache, chatLog: seq<Change<CloudChat>>)
    returns (ghost chats: seq<Exchange<CloudChat>>, ghost restarted: bool, ghost progress: ChatWalk.Progress)
    requires InOrder(dsid, disk, cursor)
    modifies disk, cursor, cache
    ensures InOrder(dsid, disk, cursor) && ChatWalk.SameElsewhere(cursor.Value(), old(cursor.Value()))
    // On success and on failure, the cache in memory agrees with the token in memory.
    ensures ChatWalk.Caught(chatLog, old(cache.chats), old(cursor.chatsToken), restarted,
                            cache.chats, cursor.chatsToken)
    ensures ChatWalk.Conversed(old(cursor.chatsToken), chats, restarted, cursor.chatsToken, progress)
    ensures disk.writes == old(disk.writes) + ChatWrites(progress, cache.chats, cursor.Value())
    ensures disk.cursor == old(disk.cursor) || (!progress.GaveUp? && disk.cursor in {cursor.Value(), EMPTY_CURSOR})
    ensures old(disk.torn) ==> disk.torn
    ensures disk.cursor in {cursor.Value(), old(disk.cursor)} || disk.torn
    ensures disk.chats == old(disk.chats) || (!progress.GaveUp? && disk.chats in {cache.chats, map[]})
    ensures Answered(chatLog, dsid, chats) && |chats| <= SyncMachine.MAX_CURSOR_PAGES
  {
    hide ChatWalk.Caught, ChatWalk.Merge, ChatWalk.ReadTotal;
    ghost var saved := cursor.chatsToken;
    var applied;
    applied, chats, restarted, progress := ChatWalk.SyncChatsWithCursor(chatLog, dsid, cache, cursor);
    ChatTokenOwn(chatLog, dsid, saved, chats, restarted, progress, cursor.chatsToken);
    if applied.Some? {
      disk.WriteChats(cache.chats);
      disk.WriteCursor(cursor.Value());
    }
  }

  /** The writes of the chat part. */
  ghost function ChatWrites(progress: ChatWalk.Progress, cache: map<string, CloudChat>, file: CursorFile): seq<Write> {
    if progress.GaveUp? then [] else [ChatsWrite(cache), CursorWrite(file)]
  }

  /** The message zone of a sync: a path of the machine from the cursor `start`, with `onDisk` in the
      file, to what is left in store and file. */
  ghost predicate MessagePart(job: SyncMachine.Job, start: SyncMachine.Cursor, onDisk: SyncMachine.Cursor,
                              before: State, messages: seq<Exchange<CloudMessage>>, torn: bool,
                              run: seq<SyncMachine.World>, after: State, saved: SyncMachine.Cursor)
  {
    && SyncMachine.Path(job, MessageWalk.Walked(job, start, messages).restarted || torn, run)
    && run[0] == SyncMachine.World(onDisk, before, SyncMachine.Asking(start, false, 0), NOTHING)
    && var last := run[|run| - 1];
       last.store == after && last.disk == saved && last.phase.Stopped?
  }

  /** The message zone. */
  method SyncMessages(dsid: string, disk: Disk, cursor: SyncCursor, store: Store, scope: Scope,
                      messageLog: seq<Change<CloudMessage>>, applySince: int)
    returns (result: MessageSync.SyncResult, ghost messages: seq<Exchange<CloudMessage>>,
             ghost run: seq<SyncMachine.World>)
    requires InOrder(dsid, disk, cursor)
    modifies disk`cursor, disk`writes, disk`torn, cursor, store
    ensures InOrder(dsid, disk, cursor)
    // The store and the cursor are where a path of the machine from the saved cursor leads.
    ensures
      var job, start := SyncMachine.Job(messageLog, dsid, scope, applySince), old(cursor.Value()).Messages();
      && MessagePart(job, start, old(disk.cursor).Messages(), old(store.Value()), messages, disk.torn, run,
                     store.Value(), disk.cursor.Messages())
      && cursor.Value().Messages() == MessageWalk.Walked(job, start, messages).cursor
    ensures run != [] && run[0].disk == old(disk.cursor).Messages()
    ensures MessageSync.Kept(dsid, old(MessageSync.Seen(cursor, disk)), MessageSync.Seen(cursor, disk))
    ensures Chained(old(cursor.messagesToken), messages) && Answered(messageLog, dsid, messages)
    ensures |messages| <= SyncMachine.MAX_CURSOR_PAGES
    ensures Own(dsid, run[0].disk.token) ==> forall i :: 0 <= i < |run| ==> Own(dsid, run[i].disk.token)
  {
    hide MessageWalk.Walked, MessageWalk.Count, SyncMachine.Step, MessageSync.Reports;
    ghost var start := cursor.Value().Messages();
    result, run, messages :=
      MessageSync.SyncMessagesWithCursor(messageLog, dsid, store, scope, cursor, applySince, disk);
    ghost var job := SyncMachine.Job(messageLog, dsid, scope, applySince);
    ghost var t := MessageWalk.Walked(job, start, messages);
    MessageTokenOwn(job, start, t, messages, result);
    if Own(dsid, run[0].disk.token) {
      DiskTokensOwn(job, t.restarted || disk.torn, run);
    }
  }

  // --- what a whole sync promises ---

  /** The writes of the account check. */
  ghost function AccountWrites(found: CursorFile, dsid: string): seq<Write> {
    if found.accountDsid == Some(dsid) then []
    else if found.accountDsid.None? then [CursorWrite(Loaded(found, dsid))]
    else [CursorWrite(Loaded(found, dsid)), ChatsWrite(map[])]
  }

  /** The chat part of a sync for the account that the files belong to: a path of the launch machine
      from the files that were found to the files that are left. */
  ghost predicate ChatPart(chatLog: seq<Change<CloudChat>>, found: CursorFile, foundChats: map<string, CloudChat>,
                           taken: nat, trail: seq<ChatDisk.World>, saved: CursorFile, chats: map<string, CloudChat>,
                           chatMap: map<string, CloudChat>)
  {
    var at := Position(found.chatsToken);
    && ChatDisk.Path(chatLog, trail)
    && trail[0] == ChatDisk.World(foundChats, taken, at, foundChats, at, ChatDisk.Idle)
    && var last := trail[|trail| - 1];
       && last.diskCache == chats && last.diskPosition == Position(saved.chatsToken) && last.stage.Idle?
       && Expands(last.cache, chatMap)
  }

  lemma ChatsAreFaithful(dsid: string, found: CursorFile, log: seq<Change<CloudChat>>, restarted: bool,
                         token: Option<Token>, progress: ChatWalk.Progress, chats: seq<Exchange<CloudChat>>)
    requires ChatWalk.Conversed(Loaded(found, dsid).chatsToken, chats, restarted, token, progress)
    ensures Chained(Loaded(found, dsid).chatsToken, chats)
  {
  }

  /** The writes before the message walk and those of the walk, and what they leave in the cursor
      file. */
  lemma WritesAreFaithful(dsid: string, found: CursorFile, front: seq<Write>, before: MessageSync.Files,
                          after: MessageSync.Files, l: Launch)
    requires Tagged(dsid, before.cursor) && MessageSync.Kept(dsid, before, after)
    requires l.dsid == dsid && l.found == found && l.writes == front + after.writes[|before.writes|..]
    requires forall w :: w in front && w.CursorWrite? ==> Tagged(dsid, w.file)
    requires before.saved in {found, EMPTY_CURSOR} || CursorWrite(before.saved) in front
    ensures forall i :: 0 <= i < |l.writes| && l.writes[i].CursorWrite? ==> Tagged(dsid, l.writes[i].file)
    ensures Left(l, after.saved)
  {
    var late := after.writes[|before.writes|..];
    forall i | 0 <= i < |l.writes| && l.writes[i].CursorWrite?
      ensures Tagged(dsid, l.writes[i].file)
    {
      if i < |front| {
        assert l.writes[i] == front[i] && front[i] in front;
      } else {
        assert l.writes[i] == late[i - |front|] == after.writes[|before.writes| + (i - |front|)];
      }
    }
    if after.saved == EMPTY_CURSOR {
    } else if after.saved != before.saved {
      var i :| |before.writes| <= i < |after.writes| && after.writes[i] == CursorWrite(after.saved);
      assert l.writes[|front| + (i - |before.writes|)] == CursorWrite(after.saved);
    } else if before.saved != found {
      var i :| 0 <= i < |front| && front[i] == CursorWrite(before.saved);
      assert l.writes[i] == CursorWrite(after.saved);
    }
  }

  /** What the chat part did to cache, cursor and files: they were `foundChats` and `found`. */
  ghost predicate ChatsMoved(chatLog: seq<Change<CloudChat>>, found: CursorFile, foundChats: map<string, CloudChat>,
                             restarted: bool, ok: bool, cache: map<string, CloudChat>, cursor: CursorFile,
                             chats: map<string, CloudChat>, saved: CursorFile)
  {
    && ChatWalk.Caught(chatLog, foundChats, found.chatsToken, restarted, cache, cursor.chatsToken)
    && (chats == foundChats || (ok && chats in {cache, map[]}))
    && (saved.chatsToken in {found.chatsToken, None} || (ok && saved.chatsToken == cursor.chatsToken))
  }

  /** The trail of a launch for the account that the files belong to. */
  lemma LaunchTrail(chatLog: seq<Change<CloudChat>>, found: CursorFile, foundChats: map<string, CloudChat>,
                    taken: nat, restarted: bool, ok: bool, cache: map<string, CloudChat>, cursor: CursorFile,
                    midChats: map<string, CloudChat>, mid: CursorFile, saved: CursorFile,
                    chatMap: map<string, CloudChat>)
    returns (trail: seq<ChatDisk.World>)
    requires Position(found.chatsToken) <= |chatLog|
    requires ChatsMoved(chatLog, found, foundChats, restarted, ok, cache, cursor, midChats, mid)
    requires saved.chatsToken in {mid.chatsToken, cursor.chatsToken, None}
    requires Expands(cache, chatMap)
    ensures ChatPart(chatLog, found, foundChats, taken, trail, saved, midChats, chatMap)
  {
    hide ChatWalk.Caught, ChatDisk.Path, ChatDisk.Step, Expands;
    var at := Position(found.chatsToken);
    var start := ChatDisk.World(foundChats, taken, at, foundChats, at, ChatDisk.Idle);
    var part := ChatDisk.ChatPartIsPath(chatLog, start.(stage := ChatDisk.Walking), found.chatsToken, restarted, cache,
                                        cursor.chatsToken, ok, midChats, Position(mid.chatsToken));
    NonEmptyPath(chatLog, part);
    trail := ChatDisk.LaunchIsPath(chatLog, start, part, Position(saved.chatsToken));
    NonEmptyPath(chatLog, trail);
  }

  lemma NonEmptyPath(chatLog: seq<Change<CloudChat>>, worlds: seq<ChatDisk.World>)
    requires ChatDisk.Path(chatLog, worlds)
    ensures worlds != []
  {
  }

  /** Whose cursor it is, then the chat zone. `front` is what was written. */
  method SyncOwnChats(dsid: string, disk: Disk, cursor: SyncCursor, cache: ChatCache, chatLog: seq<Change<CloudChat>>)
    returns (ghost chats: seq<Exchange<CloudChat>>, ghost front: seq<Write>, ghost restarted: bool, ghost ok: bool)
    requires Trusted(dsid, disk.cursor) && cursor.Value() == disk.cursor && cache.chats == disk.chats
    modifies disk, cursor, cache
    ensures InOrder(dsid, disk, cursor)
    ensures ChatWalk.SameElsewhere(cursor.Value(), Loaded(old(disk.cursor), dsid))
    ensures disk.cursor.Messages() in {old(disk.cursor).Messages(), cursor.Value().Messages()}
            || (disk.torn && disk.cursor == EMPTY_CURSOR)
    ensures Chained(Loaded(old(disk.cursor), dsid).chatsToken, chats) && Answered(chatLog, dsid, chats)
    ensures |chats| <= SyncMachine.MAX_CURSOR_PAGES
    ensures disk.writes == old(disk.writes) + front
    ensures forall w :: w in front && w.CursorWrite? ==> Tagged(dsid, w.file)
    ensures disk.cursor in {old(disk.cursor), EMPTY_CURSOR} || CursorWrite(disk.cursor) in front
    ensures old(disk.cursor).accountDsid in {None, Some(dsid)} ==>
              ChatsMoved(chatLog, old(disk.cursor), old(disk.chats), restarted, ok, cache.chats, cursor.Value(),
                         disk.chats, disk.cursor)
  {
    hide ChatWalk.Caught, ChatWalk.Conversed, Answered, Chained;
    LoadedIsTagged(disk.cursor, dsid);
    ghost var found := disk.cursor;
    var reset := EnsureCursorAccount(disk, cursor, cache, dsid);
    ghost var progress;
    chats, restarted, progress := SyncChats(dsid, disk, cursor, cache, chatLog);
    ok := !progress.GaveUp?;
    ChatsAreFaithful(dsid, found, chatLog, restarted, cursor.chatsToken, progress, chats);
    front := AccountWrites(found, dsid) + ChatWrites(progress, cache.chats, cursor.Value());
  }

  /** One sync for the signed-in account. `taken` is where the chat cache on disk was taken. */
  method SyncMissedMessages(dsid: string, disk: Disk, store: Store,
                            chatLog: seq<Change<CloudChat>>, messageLog: seq<Change<CloudMessage>>,
                            myHandles: seq<string>, existing: Option<set<string>>, applySince: int, ghost taken: nat)
    returns (result: MessageSync.SyncResult, ghost launch: Launch, ghost job: SyncMachine.Job,
             ghost run: seq<SyncMachine.World>, ghost trail: seq<ChatDisk.World>)
    requires Trusted(dsid, disk.cursor)
    modifies disk, store
    // The next run may rely on the file, whatever was written and whatever failed to be.
    ensures Trusted(dsid, disk.cursor)
    // Requests, answers and writes are those of a faithful launch.
    ensures launch == Launch(dsid, old(disk.cursor), chatLog, messageLog, launch.chats, launch.messages, launch.writes)
    ensures Faithful(launch) && Left(launch, disk.cursor) && disk.writes == old(disk.writes) + launch.writes
    ensures |launch.chats| <= 5000 && |launch.messages| <= 5000
    // Store and cursor file follow a path of the message machine.
    ensures job == SyncMachine.Job(messageLog, dsid, Scope(myHandles, job.scope.chatMap, existing), applySince)
    ensures run != [] && (run[0].disk in {old(disk.cursor).Messages(), Loaded(old(disk.cursor), dsid).Messages()}
                          || (disk.torn && run[0].disk == SyncMachine.NOT_SAVED))
    ensures MessagePart(job, Loaded(old(disk.cursor), dsid).Messages(), run[0].disk, old(store.Value()),
                        launch.messages, disk.torn, run, store.Value(), disk.cursor.Messages())
    ensures Own(dsid, run[0].disk.token) ==> forall i :: 0 <= i < |run| ==> Own(dsid, run[i].disk.token)
    // Cache and chat token on disk follow a path of the launch machine, if they are this account's.
    ensures old(disk.cursor).accountDsid in {None, Some(dsid)} && Position(old(disk.cursor).chatsToken) <= |chatLog| ==>
              ChatPart(chatLog, old(disk.cursor), old(disk.chats), taken, trail, disk.cursor, disk.chats,
                       job.scope.chatMap)
  {
    hide ChatWalk.Caught, ChatWalk.Conversed, ChatPart, Expands, MessageSync.Kept, MessageWalk.Walked, Faithful, Left,
         MessagePart, Chained, Answered;
    ghost var found, foundChats := disk.cursor, disk.chats;
    var cursor := new SyncCursor(disk.cursor);
    var cache := new ChatCache(disk.chats);
    ghost var chats, front, restarted, ok := SyncOwnChats(dsid, disk, cursor, cache, chatLog);
    ghost var midChats, before := disk.chats, MessageSync.Seen(cursor, disk);
    var chatMap := ChatLookupMap(cache.chats);
    var scope := Scope(myHandles, chatMap, existing);
    job := SyncMachine.Job(messageLog, dsid, scope, applySince);
    ghost var messages;
    result, messages, run := SyncMessages(dsid, disk, cursor, store, scope, messageLog, applySince);
    ghost var after := MessageSync.Seen(cursor, disk);
    KeptWrites(dsid, before, after);
    launch := Launch(dsid, found, chatLog, messageLog, chats, messages, front + after.writes[|before.writes|..]);
    WritesAreFaithful(dsid, found, front, before, after, launch);
    FaithfulOf(launch);
    trail := [];
    if found.accountDsid in {None, Some(dsid)} && Position(found.chatsToken) <= |chatLog| {
      trail := LaunchTrail(chatLog, found, foundChats, taken, restarted, ok, cache.chats, before.cursor,
                           midChats, before.saved, disk.cursor, chatMap);
    }
  }

  lemma FaithfulOf(l: Launch)
    requires Chained(Loaded(l.found, l.dsid).chatsToken, l.chats) && Answered(l.chatLog, l.dsid, l.chats)
    requires Chained(Loaded(l.found, l.dsid).messagesToken, l.messages) && Answered(l.messageLog, l.dsid, l.messages)
    requires forall i :: 0 <= i < |l.writes| && l.writes[i].CursorWrite? ==> Tagged(l.dsid, l.writes[i].file)
    ensures Faithful(l)
  {
  }

  lemma KeptWrites(dsid: string, before: MessageSync.Files, after: MessageSync.Files)
    requires MessageSync.Kept(dsid, before, after)
    ensures before.writes <= after.writes && MessageSync.SameElsewhere(after.cursor, before.cursor)
    ensures before.torn ==> after.torn
    ensures after.saved in {before.saved, EMPTY_CURSOR} || after.saved.chatsToken == before.cursor.chatsToken
  {
  }

  // --- syncs make up histories ---

  /** The message part of a sync for the account that the file belongs to carries on the history that
      left file and store, so what holds of histories holds of syncs, one after the other. */
  lemma SyncContinues(dsid: string, found: CursorFile, before: State, job: SyncMachine.Job,
                      messages: seq<Exchange<CloudMessage>>, torn: bool, run: seq<SyncMachine.World>, after: State,
                      saved: SyncMachine.Cursor, mayStartOver: bool, history: seq<SyncMachine.World>)
    returns (longer: seq<SyncMachine.World>)
    requires found.accountDsid in {None, Some(dsid)}
    requires run != [] && (run[0].disk in {found.Messages(), Loaded(found, dsid).Messages()}
                           || (torn && run[0].disk == SyncMachine.NOT_SAVED))
    requires MessagePart(job, Loaded(found, dsid).Messages(), run[0].disk, before, messages, torn, run, after, saved)
    requires MessageWalk.Walked(job, Loaded(found, dsid).Messages(), messages).restarted || torn ==> mayStartOver
    requires SyncMachine.Path(job, mayStartOver, history)
    requires history[|history| - 1].disk == found.Messages() && history[|history| - 1].store == before
    ensures SyncMachine.Path(job, mayStartOver, longer) && longer[0] == history[0]
    ensures longer[|longer| - 1].store == after && longer[|longer| - 1].disk == saved
    ensures longer[|longer| - 1].phase.Stopped?
  {
    hide MessageWalk.Walked, SyncMachine.Step;
    if mayStartOver {
      var restarted := MessageWalk.Walked(job, Loaded(found, dsid).Messages(), messages).restarted;
      SyncMachine.PathMayStartOver(job, restarted || torn, run);
    }
    longer := SyncConvergence.RunContinues(job, mayStartOver, history, run);
  }
}
