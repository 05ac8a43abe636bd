/** The chat cache on disk: what the order of the two writes guarantees, and what is lost when
    only one of them happens. */
module ChatDisk {
  import opened Options
  import opened Conversations
  import opened Zone
  import opened ChatWalk

  /** Walking on from the token to the end of the zone gives the zone. */
  ghost predicate Converges(log: seq<Change<CloudChat>>, cache: Chats, position: nat) {
    position <= |log| && Merge(cache, Net(log[position..])) == Replay(log)
  }

  lemma ReplaysConverge(log: seq<Change<CloudChat>>, position: nat)
    requires position <= |log|
    ensures Converges(log, Replay(log[..position]), position)
  {
    assert log[..position] + log[position..] == log;
    NetConcat(log[..position], log[position..]);
    MergeTwice(map[], Net(log[..position]), Net(log[position..]));
  }

  /** A cache at the end of the zone is the zone. */
  lemma ConvergedAtEnd(log: seq<Change<CloudChat>>, cache: Chats)
    requires Converges(log, cache, |log|)
    ensures cache == Replay(log)
  {
  }

  /** Any walk, complete or cut short, keeps the pair of cache and token good. */
  lemma WalkKeeps(log: seq<Change<CloudChat>>, cache: Chats, lo: nat, hi: nat)
    requires lo <= hi <= |log| && Converges(log, cache, lo)
    ensures Converges(log, Merge(cache, Net(log[lo..hi])), hi)
  {
    MergeStretches(cache, log, lo, hi, |log|);
    assert log[lo..|log|] == log[lo..] && log[hi..|log|] == log[hi..];
  }

  /** A cache that is ahead of its token is harmless: replaying what it already holds changes
      nothing in the end. */
  lemma CacheAheadOfToken(log: seq<Change<CloudChat>>, cache: Chats, lo: nat, hi: nat)
    requires lo <= hi <= |log| && Converges(log, cache, lo)
    ensures Converges(log, Merge(cache, Net(log[lo..hi])), lo)
  {
    var skipped, rest := Net(log[lo..hi]), Net(log[hi..]);
    assert log[lo..] == log[lo..hi] + log[hi..];
    NetConcat(log[lo..hi], log[hi..]);
    MergeTwice(cache, skipped, skipped + rest);
    assert skipped + (skipped + rest) == skipped + rest;
  }

  /** The zone may grow meanwhile. */
  lemma GrowthKeeps(log: seq<Change<CloudChat>>, more: seq<Change<CloudChat>>, cache: Chats, position: nat)
    requires Converges(log, cache, position)
    ensures Converges(log + more, cache, position)
  {
    assert (log + more)[position..] == log[position..] + more;
    NetConcat(log[position..], more);
    NetConcat(log, more);
    MergeTwice(cache, Net(log[position..]), Net(more));
    MergeTwice(map[], Net(log), Net(more));
  }

  // --- when only one of the two is written ---

  ghost predicate SameEntry(a: Chats, b: Chats, id: string) {
    (id in a <==> id in b) && (id in a ==> a[id] == b[id])
  }

  lemma MergedEntry(cache: Chats, changes: Changes, id: string)
    ensures id !in changes ==> SameEntry(Merge(cache, changes), cache, id)
    ensures id in changes ==>
              (id in Merge(cache, changes) <==> changes[id].Some?)
              && (changes[id].Some? ==> Merge(cache, changes)[id] == changes[id].value)
  {}

  lemma SameEverywhere(a: Chats, b: Chats)
    requires forall id :: SameEntry(a, b, id)
    ensures a == b
  {
    forall id
      ensures id in a <==> id in b
      ensures id in a ==> a[id] == b[id]
    {
      assert SameEntry(a, b, id);
    }
  }

  /** The token moved on to `hi` but the cache stayed as it was at `lo`. That happens when the
      chat walk fails after some pages and the message walk then persists the cursor. The cache
      still converges exactly when every record that changed in the skipped stretch either
      changes again later or was already in its final version. */
  lemma SkippedStretchIff(log: seq<Change<CloudChat>>, cache: Chats, lo: nat, hi: nat)
    requires lo <= hi <= |log| && Converges(log, cache, lo)
    ensures Converges(log, cache, hi)
            <==> forall id :: id in Net(log[lo..hi]) && id !in Net(log[hi..]) ==> SameEntry(cache, Replay(log), id)
  {
    hide Merge, Replay;
    var skipped, rest := Net(log[lo..hi]), Net(log[hi..]);
    assert log[lo..] == log[lo..hi] + log[hi..];
    NetConcat(log[lo..hi], log[hi..]);
    forall id
      ensures id in rest ==> SameEntry(Merge(cache, rest), Replay(log), id)
      ensures id !in rest && id !in skipped ==> SameEntry(Merge(cache, rest), Replay(log), id)
      ensures id !in rest ==> SameEntry(Merge(cache, rest), cache, id)
    {
      MergedEntry(cache, skipped + rest, id);
      MergedEntry(cache, rest, id);
    }
    if forall id :: id in skipped && id !in rest ==> SameEntry(cache, Replay(log), id) {
      SameEverywhere(Merge(cache, rest), Replay(log));
    }
  }

  /** A cache that is kept although its token was reset converges exactly when the zone still
      mentions every record in it: the walk from the start does not clear the cache. */
  lemma ResetTokenIff(log: seq<Change<CloudChat>>, cache: Chats)
    ensures Converges(log, cache, 0) <==> forall id :: id in cache ==> id in Net(log)
  {
  }

  /** A token that is behind its cache is harmless, too. */
  lemma TokenBehindCache(log: seq<Change<CloudChat>>, cache: Chats, taken: nat, position: nat)
    requires position <= taken <= |log| && Converges(log, cache, taken)
    ensures Converges(log, cache, position)
  {
    hide Merge, Replay;
    var rest, all := Net(log[position..]), Net(log[taken..]);
    forall id
      ensures SameEntry(Merge(cache, rest), Replay(log), id)
    {
      assert log[position..] == log[position..taken] + log[taken..];
      assert log == log[..position] + log[position..];
      NetConcat(log[position..taken], log[taken..]);
      NetConcat(log[..position], log[position..]);
      MergedEntry(cache, rest, id);
      MergedEntry(cache, all, id);
      EntryOfReplay(log, id);
    }
    SameEverywhere(Merge(cache, rest), Replay(log));
  }

  lemma EntryOfReplay(log: seq<Change<CloudChat>>, id: string)
    ensures id in Net(log) ==> (id in Replay(log) <==> Net(log)[id].Some?)
                               && (Net(log)[id].Some? ==> Replay(log)[id] == Net(log)[id].value)
  {
  }

  // --- what the walk leaves in memory ---

  /** On every exit of the walk a cache that was the zone up to its token is so again. */
  lemma WalkReplays(log: seq<Change<CloudChat>>, before: Chats, first: Option<Token>, restarted: bool,
                    cache: Chats, token: Option<Token>)
    requires Position(first) <= |log| && before == Replay(log[..Position(first)])
    requires Caught(log, before, first, restarted, cache, token)
    ensures Position(token) <= |log| && cache == Replay(log[..Position(token)])
  {
    if !restarted {
      var lo, hi := Position(first), Position(token);
      assert log[0..lo] == log[..lo] && log[0..hi] == log[..hi];
      MergeStretches(map[], log, 0, lo, hi);
    }
  }

  /** And one that leads to the zone still does. */
  lemma WalkConverges(log: seq<Change<CloudChat>>, before: Chats, first: Option<Token>, restarted: bool,
                      cache: Chats, token: Option<Token>)
    requires Converges(log, before, Position(first)) && Caught(log, before, first, restarted, cache, token)
    ensures Converges(log, cache, Position(token))
  {
    if restarted {
      ReplaysConverge(log, Position(token));
    } else {
      WalkKeeps(log, before, Position(first), Position(token));
    }
  }

  // --- launches ---

  /** One launch of the sync, as far as the chat zone goes: not running, walking the chat zone, back
      with success, the cache write tried, or walking the message zone. */
  datatype Stage = Idle | Walking | Returned | CacheTried | Serving

  /** The pair on disk and the pair in memory. `taken` is the position at which the cache on disk
      was taken; the program does not keep it. */
  datatype World = World(diskCache: Chats, taken: nat, diskPosition: nat, cache: Chats, position: nat, stage: Stage)

  ghost predicate Reads(w: World, w': World) {
    w.stage.Idle? && w' == w.(cache := w.diskCache, position := w.diskPosition, stage := Walking)
  }

  ghost predicate Pages(log: seq<Change<CloudChat>>, w: World, w': World) {
    && w.stage.Walking? && w.position <= w'.position <= |log|
    && w' == w.(cache := Merge(w.cache, Net(log[w.position..w'.position])), position := w'.position)
  }

  ghost predicate Expires(w: World, w': World) {
    w.stage.Walking? && w' == w.(cache := map[], position := 0)
  }

  /** The walk returns Ok, at the end of the zone or at the page limit. */
  ghost predicate Returns(w: World, w': World) {
    w.stage.Walking? && w' == w.(stage := Returned)
  }

  /** The walk returns an error: neither file is written, and the message walk goes on. */
  ghost predicate GivesUp(w: World, w': World) {
    w.stage.Walking? && w' == w.(stage := Serving)
  }

  /** The cache is written; or that fails and the old file stays, or it breaks off and the file reads as
      empty. */
  ghost predicate TriesCache(w: World, w': World) {
    && w.stage.Returned?
    && (|| w' == w.(diskCache := w.cache, taken := w.position, stage := CacheTried)
        || w' == w.(stage := CacheTried)
        || w' == w.(diskCache := map[], taken := 0, stage := CacheTried))
  }

  /** A write of the cursor at a position, with the same three outcomes. */
  ghost predicate CursorWritten(w: World, position: nat, diskPosition: nat) {
    diskPosition in {position, w.diskPosition, 0}
  }

  ghost predicate TriesCursor(w: World, w': World) {
    && w.stage.CacheTried? && CursorWritten(w, w.position, w'.diskPosition)
    && w' == w.(diskPosition := w'.diskPosition, stage := Serving)
  }

  /** The account check writes an untagged cursor again as it was read. */
  ghost predicate Claims(w: World, w': World) {
    && w.stage.Walking? && CursorWritten(w, w.diskPosition, w'.diskPosition)
    && w' == w.(diskPosition := w'.diskPosition)
  }

  /** The message walk writes the cursor, the chat token with it. */
  ghost predicate Persists(w: World, w': World) {
    && w.stage.Serving? && CursorWritten(w, w.position, w'.diskPosition)
    && w' == w.(diskPosition := w'.diskPosition)
  }

  ghost predicate Crashes(w: World, w': World) {
    w' == w.(stage := Idle)
  }

  ghost predicate Step(log: seq<Change<CloudChat>>, w: World, w': World) {
    || Reads(w, w') || Pages(log, w, w') || Expires(w, w') || Returns(w, w') || GivesUp(w, w')
    || TriesCache(w, w') || TriesCursor(w, w') || Claims(w, w') || Persists(w, w') || Crashes(w, w')
  }

  /** Launches, walks, expiries, errors, page limits, writes, failed and broken-off writes and crashes
      in any order. */
  ghost predicate Path(log: seq<Change<CloudChat>>, worlds: seq<World>) {
    && worlds != []
    && forall i :: 0 <= i < |worlds| - 1 ==> Step(log, worlds[i], worlds[i + 1])
  }

  lemma PathExtends(log: seq<Change<CloudChat>>, worlds: seq<World>, w: World)
    requires Path(log, worlds) && Step(log, worlds[|worlds| - 1], w)
    ensures Path(log, worlds + [w])
  {
  }

  /** The pairs on disk and in memory both lead to the zone. */
  ghost predicate Sound(log: seq<Change<CloudChat>>, w: World) {
    && Converges(log, w.diskCache, w.taken) && Converges(log, w.diskCache, w.diskPosition)
    && (!w.stage.Idle? ==> Converges(log, w.cache, w.position))
  }

  /** The token on disk is not past the place where the cache was taken, or whatever changed between
      the two changes again later or is in the cache in its final version. */
  ghost predicate Settled(log: seq<Change<CloudChat>>, w: World) {
    w.taken < w.diskPosition <= |log| ==>
      forall id :: id in Net(log[w.taken..w.diskPosition]) && id !in Net(log[w.diskPosition..]) ==>
        SameEntry(w.diskCache, Replay(log), id)
  }

  lemma SettledIff(log: seq<Change<CloudChat>>, w: World)
    requires Converges(log, w.diskCache, w.taken) && w.diskPosition <= |log|
    ensures Converges(log, w.diskCache, w.diskPosition) <==> Settled(log, w)
  {
    hide Converges;
    assert w.taken <= |log| by { ConvergesWithin(log, w.diskCache, w.taken); }
    if w.diskPosition <= w.taken {
      TokenBehindCache(log, w.diskCache, w.taken, w.diskPosition);
    } else {
      SkippedStretchIff(log, w.diskCache, w.taken, w.diskPosition);
    }
  }

  lemma ConvergesWithin(log: seq<Change<CloudChat>>, cache: Chats, position: nat)
    requires Converges(log, cache, position)
    ensures position <= |log|
  {
  }

  /** One step keeps both pairs good exactly when it leaves the token on disk settled. */
  lemma StepSoundIff(log: seq<Change<CloudChat>>, w: World, w': World)
    requires Sound(log, w) && Step(log, w, w')
    ensures Sound(log, w') <==> Settled(log, w')
  {
    hide Merge, Replay, SameEntry;
    if Pages(log, w, w') {
      WalkKeeps(log, w.cache, w.position, w'.position);
    } else if Expires(w, w') || TriesCache(w, w') {
      ReplayNothing(log);
      ReplaysConverge(log, 0);
    }
    SettledIff(log, w');
  }

  /** Over any history: the files lead to the zone at every moment exactly when the token on disk is
      settled at every moment. */
  lemma {:induction false} SoundIffSettled(log: seq<Change<CloudChat>>, worlds: seq<World>)
    requires Path(log, worlds) && Sound(log, worlds[0])
    ensures (forall i :: 0 <= i < |worlds| ==> Sound(log, worlds[i]))
            <==> (forall i :: 0 <= i < |worlds| ==> Settled(log, worlds[i]))
    decreases |worlds|
  {
    hide Sound, Settled, Step;
    var last := |worlds| - 1;
    if last == 0 {
      StartSettled(log, worlds[0]);
    } else {
      var before := worlds[..last];
      SoundIffSettled(log, before);
      assert forall i :: 0 <= i < last ==> before[i] == worlds[i];
      if Sound(log, worlds[last - 1]) {
        StepSoundIff(log, worlds[last - 1], worlds[last]);
      } else {
        assert !Sound(log, before[last - 1]);
      }
    }
  }

  lemma StartSettled(log: seq<Change<CloudChat>>, w: World)
    requires Sound(log, w)
    ensures Settled(log, w)
  {
    SettledIff(log, w);
  }

  /** In particular while the token on disk is never past the place where the cache was taken; and a
      walk that reaches the end then has the zone itself in memory. */
  lemma LaunchesConverge(log: seq<Change<CloudChat>>, worlds: seq<World>)
    requires Path(log, worlds) && Sound(log, worlds[0])
    requires forall i :: 0 <= i < |worlds| ==> worlds[i].diskPosition <= worlds[i].taken
    ensures forall i :: 0 <= i < |worlds| ==> Sound(log, worlds[i])
    ensures forall i :: 0 <= i < |worlds| && !worlds[i].stage.Idle? && worlds[i].position == |log| ==>
              worlds[i].cache == Replay(log)
  {
    hide Path, Replay;
    assert forall i :: 0 <= i < |worlds| ==> Settled(log, worlds[i]);
    SoundIffSettled(log, worlds);
    forall i | 0 <= i < |worlds| && !worlds[i].stage.Idle? && worlds[i].position == |log|
      ensures worlds[i].cache == Replay(log)
    {
      assert Sound(log, worlds[i]);
      ConvergedAtEnd(log, worlds[i].cache);
    }
  }

  /** A launch: one page read, then an error, then the cursor written by the message walk. The
      conversation on that page never reaches the cache. */
  lemma FailedWalkLosesChat(chat: CloudChat)
    ensures
      var log := [Change("rec", Some(chat))];
      var start, left := World(map[], 0, 0, map[], 0, Idle), World(map[], 0, 1, Replay(log), 1, Idle);
      Sound(log, start) && !Converges(log, left.diskCache, left.diskPosition)
      && exists worlds :: Path(log, worlds) && worlds[0] == start && worlds[|worlds| - 1] == left
  {
    hide Replay, Merge;
    var log := [Change("rec", Some(chat))];
    var start := World(map[], 0, 0, map[], 0, Idle);
    OneChat(log, chat);
    ReplaysConverge(log, 0);
    ReplayIsMerge(log);
    var w1 := start.(stage := Walking);
    var w2 := w1.(cache := Replay(log), position := 1);
    var w3 := w2.(stage := Serving);
    var w4 := w3.(diskPosition := 1);
    var left := w4.(stage := Idle);
    assert Reads(start, w1) && GivesUp(w2, w3) && Persists(w3, w4) && Crashes(w4, left);
    assert log[0..1] == log && Pages(log, w1, w2);
    var worlds := [start, w1, w2, w3, w4, left];
    assert Path(log, worlds);
    SkippedStretchIff(log, map[], 0, 1);
    assert !SameEntry(map[], Replay(log), "rec");
  }

  lemma OneChat(log: seq<Change<CloudChat>>, chat: CloudChat)
    requires log == [Change("rec", Some(chat))]
    ensures Net(log[0..1]) == map["rec" := Some(chat)] && Net(log[1..]) == map[]
    ensures "rec" in Replay(log) && Replay(log[..0]) == map[]
  {
    NetAppend([], log[0]);
    assert [] + [log[0]] == log == log[0..1];
  }

  /** A launch with nothing new in the zone: the write of the cache breaks off, and the launch dies. The
      cache is lost, and the token stays. */
  lemma TornCacheLosesChat(chat: CloudChat)
    ensures
      var log := [Change("rec", Some(chat))];
      var start, left := World(Replay(log), 1, 1, map[], 0, Idle), World(map[], 0, 1, Replay(log), 1, Idle);
      Sound(log, start) && !Converges(log, left.diskCache, left.diskPosition)
      && exists worlds :: Path(log, worlds) && worlds[0] == start && worlds[|worlds| - 1] == left
  {
    hide Replay, Merge;
    var log := [Change("rec", Some(chat))];
    var start := World(Replay(log), 1, 1, map[], 0, Idle);
    OneChat(log, chat);
    assert log[..1] == log;
    ReplaysConverge(log, 0);
    ReplaysConverge(log, 1);
    var w1 := start.(cache := Replay(log), position := 1, stage := Walking);
    var w2 := w1.(stage := Returned);
    var w3 := w2.(diskCache := map[], taken := 0, stage := CacheTried);
    var left := w3.(stage := Idle);
    assert Reads(start, w1) && Returns(w1, w2) && TriesCache(w2, w3) && Crashes(w3, left);
    var worlds := [start, w1, w2, w3, left];
    assert Path(log, worlds);
    SkippedStretchIff(log, map[], 0, 1);
    assert !SameEntry(map[], Replay(log), "rec");
  }

  /** After an expiry the page limit can end the walk short of the position on disk. If the launch
      then dies between its two writes, the files lead to the zone exactly when nothing that the
      cache lacks had its last change before the token. */
  lemma RestartCutOffIff(log: seq<Change<CloudChat>>, position: nat, token: nat)
    requires position <= token <= |log|
    ensures Converges(log, Replay(log[..position]), token)
            <==> forall id :: id in Net(log[position..token]) && id !in Net(log[token..]) ==>
                   SameEntry(Replay(log[..position]), Replay(log), id)
  {
    ReplaysConverge(log, position);
    SkippedStretchIff(log, Replay(log[..position]), position, token);
  }

  /** A history in which that loses a conversation. */
  lemma PageLimitLosesChat(a: CloudChat, b: CloudChat)
    ensures
      var log := [Change("r", Some(a)), Change("q", Some(b))];
      var start := World(Replay(log), 2, 2, map[], 0, Idle);
      var cut := World(Replay(log[..1]), 1, 2, Replay(log[..1]), 1, Idle);
      Sound(log, start) && !Converges(log, cut.diskCache, cut.diskPosition)
      && exists worlds :: Path(log, worlds) && worlds[0] == start && worlds[|worlds| - 1] == cut
  {
    hide Replay, Merge;
    var log := [Change("r", Some(a)), Change("q", Some(b))];
    var start := World(Replay(log), 2, 2, map[], 0, Idle);
    var short := Replay(log[..1]);
    assert log[..2] == log && log[..1] == log[0..1];
    ReplaysConverge(log, 2);
    var w1 := start.(cache := start.diskCache, position := 2, stage := Walking);
    var w2 := w1.(cache := map[], position := 0);
    var w3 := w2.(cache := short, position := 1);
    var w4 := w3.(stage := Returned);
    var w5 := w4.(diskCache := short, taken := 1, stage := CacheTried);
    var cut := w5.(stage := Idle);
    assert Reads(start, w1) && Expires(w1, w2) && Returns(w3, w4) && TriesCache(w4, w5) && Crashes(w5, cut);
    assert Pages(log, w2, w3) by { ReplayIsMerge(log[..1]); }
    var worlds := [start, w1, w2, w3, w4, w5, cut];
    assert Path(log, worlds);
    TwoChats(log, a, b);
    RestartCutOffIff(log, 1, 2);
    assert !SameEntry(short, Replay(log), "q");
  }

  lemma ReplayIsMerge(log: seq<Change<CloudChat>>)
    ensures Replay(log) == Merge(map[], Net(log))
  {
  }

  lemma TwoChats(log: seq<Change<CloudChat>>, a: CloudChat, b: CloudChat)
    requires log == [Change("r", Some(a)), Change("q", Some(b))]
    ensures Net(log[1..2]) == map["q" := Some(b)] && Net(log[2..]) == map[]
    ensures "q" !in Replay(log[..1]) && "q" in Replay(log)
  {
    NetAppend([], log[0]);
    NetAppend([], log[1]);
    NetAppend([log[0]], log[1]);
    assert [] + [log[0]] == log[..1] && [] + [log[1]] == log[1..2] && [log[0]] + [log[1]] == log;
  }

  // --- the code's walk is one ---

  /** What the chat walk did in memory, as a path: an expiry if there was one, then all its pages. */
  lemma WalkIsPath(log: seq<Change<CloudChat>>, w: World, before: Chats, first: Option<Token>, restarted: bool,
                   cache: Chats, token: Option<Token>)
    returns (worlds: seq<World>)
    requires w.stage.Walking? && w.cache == before && w.position == Position(first) && Position(first) <= |log|
    requires Caught(log, before, first, restarted, cache, token)
    ensures Path(log, worlds) && worlds[0] == w
    ensures worlds[|worlds| - 1] == w.(cache := cache, position := Position(token))
  {
    hide Merge, Net;
    var hi := Position(token);
    worlds := [w];
    if restarted {
      var cleared := w.(cache := map[], position := 0);
      assert Expires(w, cleared);
      PathExtends(log, worlds, cleared);
      worlds := worlds + [cleared];
      assert log[0..hi] == log[..hi];
    }
    var last, next := worlds[|worlds| - 1], w.(cache := cache, position := hi);
    assert Pages(log, last, next);
    PathExtends(log, worlds, next);
    worlds := worlds + [next];
  }

  lemma PathPrepends(log: seq<Change<CloudChat>>, w: World, worlds: seq<World>)
    requires Path(log, worlds) && Step(log, w, worlds[0])
    ensures Path(log, [w] + worlds)
  {
    var longer := [w] + worlds;
    forall i | 0 <= i < |longer| - 1
      ensures Step(log, longer[i], longer[i + 1])
    {
      assert i > 0 ==> longer[i] == worlds[i - 1] && longer[i + 1] == worlds[i];
    }
  }

  /** What the chat part may leave on disk. */
  ghost predicate ChatPartLeaves(w: World, ok: bool, cache: Chats, position: nat, diskCache: Chats, diskPosition: nat) {
    && (diskCache == w.diskCache || (ok && diskCache in {cache, map[]}))
    && (diskPosition in {w.diskPosition, 0} || (ok && diskPosition == position))
  }

  /** The chat part of a launch: the account check may write the cursor, then the walk, and after
      success the two writes, each of which may fail or break off. */
  lemma ChatPartIsPath(log: seq<Change<CloudChat>>, w: World, first: Option<Token>, restarted: bool, cache: Chats,
                       token: Option<Token>, ok: bool, diskCache: Chats, diskPosition: nat)
    returns (worlds: seq<World>)
    requires w.stage.Walking? && w.position == Position(first) <= |log|
    requires Caught(log, w.cache, first, restarted, cache, token)
    requires ChatPartLeaves(w, ok, cache, Position(token), diskCache, diskPosition)
    ensures Path(log, worlds) && worlds[0] == w
    ensures var last := worlds[|worlds| - 1];
            last == World(diskCache, last.taken, diskPosition, cache, Position(token), Serving)
  {
    hide Caught, Pages, Expires, Reads;
    // A file that reads as empty may be so from the account check on.
    var claimed := if diskPosition == 0 then w.(diskPosition := 0) else w;
    var walk := WalkIsPath(log, claimed, w.cache, first, restarted, cache, token);
    assert Claims(w, claimed);
    PathPrepends(log, w, walk);
    worlds := [w] + walk;
    var walked := walk[|walk| - 1];
    if ok {
      var back := walked.(stage := Returned);
      PathExtends(log, worlds, back);
      var written := AfterCacheWrite(back, diskCache);
      PathExtends(log, worlds + [back], written);
      var serving := written.(diskPosition := diskPosition, stage := Serving);
      PathExtends(log, worlds + [back] + [written], serving);
      worlds := worlds + [back] + [written] + [serving];
    } else {
      PathExtends(log, worlds, walked.(stage := Serving));
      worlds := worlds + [walked.(stage := Serving)];
    }
  }

  ghost function AfterCacheWrite(w: World, diskCache: Chats): World {
    if diskCache == w.diskCache then w.(stage := CacheTried)
    else if diskCache == w.cache then w.(diskCache := w.cache, taken := w.position, stage := CacheTried)
    else w.(diskCache := map[], taken := 0, stage := CacheTried)
  }

  /** A whole launch: the files are read, the chat part runs, the message walk may write the cursor
      again, and the launch ends. */
  lemma LaunchIsPath(log: seq<Change<CloudChat>>, start: World, part: seq<World>, diskPosition: nat)
    returns (worlds: seq<World>)
    requires start.stage.Idle? && Path(log, part)
    requires part[0] == start.(cache := start.diskCache, position := start.diskPosition, stage := Walking)
    requires part[|part| - 1].stage.Serving?
    requires diskPosition in {part[|part| - 1].diskPosition, part[|part| - 1].position, 0}
    ensures Path(log, worlds) && worlds[0] == start
    ensures worlds[|worlds| - 1] == part[|part| - 1].(diskPosition := diskPosition, stage := Idle)
  {
    hide Pages, Expires;
    var last := part[|part| - 1];
    assert Reads(start, part[0]);
    PathPrepends(log, start, part);
    var served := last.(diskPosition := diskPosition);
    PathExtends(log, [start] + part, served);
    PathExtends(log, [start] + part + [served], served.(stage := Idle));
    worlds := [start] + part + [served] + [served.(stage := Idle)];
  }
}
