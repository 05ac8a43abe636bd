/** The token-based walk of the chat zone and the cache it keeps. */
module ChatWalk {
  import opened Options
  import opened Conversations
  import opened Zone
  import opened SyncState
  import SyncMachine

  type Chats = map<string, CloudChat>

  type Changes = map<string, Option<CloudChat>>

  // --- last writer wins ---

  /** A record replaces its entry, a tombstone removes it. */
  function Merge(cache: Chats, changes: Changes): Chats {
    map id | id in cache.Keys + changes.Keys && (id in changes ==> changes[id].Some?)
      :: if id in changes then changes[id].value else cache[id]
  }

  /** The zone as it stands after a log: each record in its last version. */
  function Replay(log: seq<Change<CloudChat>>): Chats {
    Merge(map[], Net(log))
  }

  function Stretch(log: seq<Change<CloudChat>>, lo: nat, hi: nat): seq<Change<CloudChat>> {
    if lo <= hi <= |log| then log[lo..hi] else []
  }

  lemma MergeTwice(cache: Chats, a: Changes, b: Changes)
    ensures Merge(Merge(cache, a), b) == Merge(cache, a + b)
  {}

  lemma MergeNothing(cache: Chats)
    ensures Merge(cache, map[]) == cache
  {}

  lemma ReplayNothing(log: seq<Change<CloudChat>>)
    ensures Replay(log[..0]) == map[]
  {
  }

  lemma MergeStretches(cache: Chats, log: seq<Change<CloudChat>>, lo: nat, mid: nat, hi: nat)
    requires lo <= mid <= hi <= |log|
    ensures Merge(Merge(cache, Net(log[lo..mid])), Net(log[mid..hi])) == Merge(cache, Net(log[lo..hi]))
  {
    assert log[lo..hi] == log[lo..mid] + log[mid..hi];
    NetConcat(log[lo..mid], log[mid..hi]);
    MergeTwice(cache, Net(log[lo..mid]), Net(log[mid..hi]));
  }

  // --- the walk ---

  function ReadTotal(exchanges: seq<Exchange<CloudChat>>): nat {
    if exchanges == [] then 0
    else
      var last := exchanges[|exchanges| - 1].response;
      ReadTotal(exchanges[..|exchanges| - 1]) + if last.Page? then |last.page| else 0
  }

  lemma ReadNothing()
    ensures ReadTotal([]) == 0
  {}

  lemma ReadOneMore(exchanges: seq<Exchange<CloudChat>>, e: Exchange<CloudChat>)
    ensures ReadTotal(exchanges + [e]) == ReadTotal(exchanges) + if e.response.Page? then |e.response.page| else 0
  {
  }

  lemma MergeOne(cache: Chats, page: Changes, left: set<string>, id: string)
    requires id in page && id in left && left <= page.Keys
    ensures page[id].Some? ==>
              Merge(cache, page - left)[id := page[id].value] == Merge(cache, page - (left - {id}))
    ensures page[id].None? ==>
              Merge(cache, page - left) - {id} == Merge(cache, page - (left - {id}))
  {}

  /** Merge one page, record by record in any order. */
  method MergePage(cache: ChatCache, page: Changes) returns (applied: nat)
    modifies cache
    ensures cache.chats == Merge(old(cache.chats), page)
    ensures applied == |page|
  {
    applied := 0;
    var remaining := page.Keys;
    MergeNothing(cache.chats);
    assert page - remaining == map[];
    while remaining != {}
      invariant remaining <= page.Keys
      invariant cache.chats == Merge(old(cache.chats), page - remaining)
      invariant applied + |remaining| == |page.Keys|
      decreases remaining
    {
      var id :| id in remaining;
      MergeOne(old(cache.chats), page, remaining, id);
      match page[id] {
        case Some(chat) =>
          cache.chats := cache.chats[id := chat];
        case None =>
          cache.chats := cache.chats - {id};
      }
      applied := applied + 1;
      remaining := remaining - {id};
    }
    assert page - {} == page;
    assert |page| == |page.Keys|;
  }

  /** The cursor's part the chat walk does not touch. */
  ghost predicate SameElsewhere(a: CursorFile, b: CursorFile) {
    a.Messages() == b.Messages() && a.accountDsid == b.accountDsid
  }

  /** The cache is the merge of exactly the log between the token it started with and the token
      it ended with; after an expiry it is the zone itself up to that token. */
  ghost predicate Caught(log: seq<Change<CloudChat>>, before: Chats, first: Option<Token>, restarted: bool,
                         cache: Chats, token: Option<Token>)
  {
    && (if restarted then Position(token) <= |log| && cache == Replay(log[..Position(token)])
        else cache == Merge(before, Net(Stretch(log, Position(first), Position(token)))))
    && (token == first || token.None? || Position(token) <= |log|)
    && (!restarted && token != first ==> Position(first) <= Position(token))
  }

  lemma PageCaught(log: seq<Change<CloudChat>>, account: string, before: Chats, first: Option<Token>, restarted: bool,
                   cache: Chats, token: Option<Token>, response: Response<CloudChat>)
    requires Caught(log, before, first, restarted, cache, token)
    requires Serves(log, account, token, response) && response.Page?
    ensures Caught(log, before, first, restarted, Merge(cache, response.page), Some(response.next))
  {
    var mid, hi := Position(token), response.next.position;
    if restarted {
      assert log[0..mid] == log[..mid] && log[0..hi] == log[..hi];
      MergeStretches(map[], log, 0, mid, hi);
    } else {
      MergeStretches(before, log, Position(first), mid, hi);
    }
  }

  datatype Progress = GoingOn | AtTheEnd | GaveUp

  /** What a walk has exchanged with the server, and how it stands. */
  ghost predicate Conversed(saved: Option<Token>, exchanges: seq<Exchange<CloudChat>>, restarted: bool,
                            token: Option<Token>, progress: Progress)
  {
    && Chained(saved, exchanges)
    && match progress
       case GoingOn =>
         Open(saved, exchanges, token) && (restarted <==> !NoExpiry(exchanges))
       case AtTheEnd =>
         && exchanges != []
         && var last := exchanges[|exchanges| - 1].response;
            last.Page? && last.status == DONE && token == Some(last.next)
       case GaveUp =>
         && exchanges != []
         && token == exchanges[|exchanges| - 1].sent
         && var last := exchanges[|exchanges| - 1].response;
            last.Failed? || (last.Expired? && restarted)
  }

  function ProgressAfter(response: Response<CloudChat>, restarted: bool): Progress {
    if response.Failed? || (response.Expired? && restarted) then GaveUp
    else if response.Page? && response.status == DONE then AtTheEnd
    else GoingOn
  }

  lemma ConversesOn(saved: Option<Token>, exchanges: seq<Exchange<CloudChat>>, restarted: bool,
                    token: Option<Token>, response: Response<CloudChat>)
    requires Conversed(saved, exchanges, restarted, token, GoingOn)
    ensures
      var e := Exchange(token, response);
      var progress := ProgressAfter(response, restarted);
      Conversed(saved, exchanges + [e], restarted || response.Expired?,
                if progress == GaveUp then token else Continuation(e), progress)
  {
    var e := Exchange(token, response);
    ChainExtends(saved, exchanges, e);
    if !NoExpiry(exchanges) {
      var i :| 0 <= i < |exchanges| && exchanges[i].response.Expired?;
      assert (exchanges + [e])[i].response.Expired?;
    } else if response.Expired? {
      assert (exchanges + [e])[|exchanges|].response.Expired?;
    }
  }

  /** One pass through the loop: ask, and deal with the answer. */
  method AskChatsOnce(log: seq<Change<CloudChat>>, account: string, cache: ChatCache, cursor: SyncCursor,
                      restarted: bool, ghost before: Chats, ghost first: Option<Token>)
    returns (response: Response<CloudChat>, applied: nat)
    requires Caught(log, before, first, restarted, cache.chats, cursor.chatsToken)
    modifies cache, cursor
    ensures Serves(log, account, old(cursor.chatsToken), response)
    ensures SameElsewhere(cursor.Value(), old(cursor.Value()))
    ensures applied == if response.Page? then |response.page| else 0
    ensures Caught(log, before, first, restarted || response.Expired?, cache.chats, cursor.chatsToken)
    ensures ProgressAfter(response, restarted) == GaveUp ==>
              cursor.chatsToken == old(cursor.chatsToken) && cache.chats == old(cache.chats)
    ensures ProgressAfter(response, restarted) != GaveUp ==>
              cursor.chatsToken == Continuation(Exchange(old(cursor.chatsToken), response))
    ensures response.Page? && response.status == 3 ==> response.next.position == |log|
    ensures ProgressAfter(response, restarted) == AtTheEnd <==> response.Page? && response.status == 3
    ensures cursor.chatsComplete ==
            match ProgressAfter(response, restarted) {
              case AtTheEnd => true
              case GaveUp => old(cursor.chatsComplete)
              case GoingOn => old(cursor.chatsComplete) && !response.Expired?
            }
  {
    hide Merge;
    applied := 0;
    response := Fetch(log, account, cursor.chatsToken);
    match response {
      case Expired =>
        if !restarted {
          cache.chats := map[];
          cursor.chatsToken := None;
          cursor.chatsComplete := false;
          ReplayNothing(log);
        }
      case Failed =>
      case Page(next, page, status) =>
        applied := TakeChatPage(log, account, cache, cursor, response, restarted, before, first);
    }
  }

  /** Merge a page and move the token past it. */
  method TakeChatPage(log: seq<Change<CloudChat>>, account: string, cache: ChatCache, cursor: SyncCursor,
                      response: Response<CloudChat>, ghost restarted: bool, ghost before: Chats,
                      ghost first: Option<Token>)
    returns (applied: nat)
    requires Caught(log, before, first, restarted, cache.chats, cursor.chatsToken)
    requires Serves(log, account, cursor.chatsToken, response) && response.Page?
    modifies cache, cursor
    ensures SameElsewhere(cursor.Value(), old(cursor.Value()))
    ensures applied == |response.page|
    ensures Caught(log, before, first, restarted, cache.chats, cursor.chatsToken)
    ensures cursor.chatsToken == Some(response.next)
    ensures cursor.chatsComplete == (old(cursor.chatsComplete) || response.status == DONE)
  {
    PageCaught(log, account, before, first, restarted, cache.chats, cursor.chatsToken, response);
    applied := MergePage(cache, response.page);
    cursor.chatsToken := Some(response.next);
    if response.status == DONE {
      cursor.chatsComplete := true;
    }
  }

  /** Walk the chat zone from the saved token. On an expired token the cache is cleared and the
      walk starts over, once; any other failure is returned, with the pages merged so far kept in
      memory. Returns the number of changes applied, or None for an error. */
  method SyncChatsWithCursor(log: seq<Change<CloudChat>>, account: string, cache: ChatCache, cursor: SyncCursor)
    returns (result: Option<nat>, ghost exchanges: seq<Exchange<CloudChat>>, ghost restarted: bool,
             ghost progress: Progress)
    modifies cache, cursor
    ensures Caught(log, old(cache.chats), old(cursor.chatsToken), restarted, cache.chats, cursor.chatsToken)
    ensures SameElsewhere(cursor.Value(), old(cursor.Value()))
    ensures |exchanges| <= 5000 && Answered(log, account, exchanges)
    ensures progress == GoingOn ==> |exchanges| == 5000
    ensures Conversed(old(cursor.chatsToken), exchanges, restarted, cursor.chatsToken, progress)
    ensures result == if progress == GaveUp then None else Some(ReadTotal(exchanges))
    ensures progress == AtTheEnd ==> Position(cursor.chatsToken) == |log| && cursor.chatsComplete
    ensures progress != AtTheEnd ==> cursor.chatsComplete == (old(cursor.chatsComplete) && !restarted)
  {
    hide Merge, ReadTotal;
    ghost var before, first := cache.chats, cursor.chatsToken;
    var applied, expired, over := 0, false, false;
    exchanges, restarted, progress := [], false, GoingOn;
    result := Some(0);
    MergeNothing(before);
    assert Net(Stretch(log, Position(first), Position(first))) == map[];
    ReadNothing();
    var requests := 0;
    while requests < SyncMachine.MAX_CURSOR_PAGES && !over
      invariant 0 <= requests <= SyncMachine.MAX_CURSOR_PAGES && |exchanges| == requests
      invariant restarted == expired && (over <==> progress != GoingOn)
      invariant Caught(log, before, first, restarted, cache.chats, cursor.chatsToken)
      invariant SameElsewhere(cursor.Value(), old(cursor.Value()))
      invariant Conversed(first, exchanges, restarted, cursor.chatsToken, progress) && Answered(log, account, exchanges)
      invariant progress == AtTheEnd ==> Position(cursor.chatsToken) == |log| && cursor.chatsComplete
      invariant progress != AtTheEnd ==> cursor.chatsComplete == (old(cursor.chatsComplete) && !restarted)
      invariant applied == ReadTotal(exchanges)
      invariant result.None? <==> progress == GaveUp
      decreases SyncMachine.MAX_CURSOR_PAGES - requests
    {
      ghost var token := cursor.chatsToken;
      var response, read := AskChatsOnce(log, account, cache, cursor, expired, before, first);
      ConversesOn(first, exchanges, restarted, token, response);
      ReadOneMore(exchanges, Exchange(token, response));
      exchanges := exchanges + [Exchange(token, response)];
      progress := ProgressAfter(response, restarted);
      applied := applied + read;
      requests := requests + 1;
      if response.Failed? || (response.Expired? && expired) {
        result, over := None, true;
      } else if response.Page? && response.status == DONE {
        over := true;
      }
      expired := expired || response.Expired?;
      restarted := expired;
    }
    if result.Some? {
      result := Some(applied);
    }
  }
}
