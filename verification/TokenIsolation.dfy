/**
 * Whose change tokens a sync sends. A token is good for the account that it was issued to; the
 * cursor file names that account. The results are about any sequence of launches, each for the
 * account then signed in, and each cut off wherever it crashed.
 */
module TokenIsolation {
  import opened Options
  import opened Conversations
  import opened CloudRecords
  import opened Zone
  import opened SyncState

  // --- whose tokens ---

  /** No token, or one that this account's zones issued. */
  predicate Own(account: string, token: Option<Token>) {
    token.Some? ==> token.value.account == account
  }

  predicate OwnedBy(account: string, file: CursorFile) {
    Own(account, file.messagesToken) && Own(account, file.chatsToken)
  }

  /** A tagged cursor holds only tokens of the account it names. */
  ghost predicate Isolated(file: CursorFile) {
    file.accountDsid.Some? ==> OwnedBy(file.accountDsid.value, file)
  }

  /** A cursor that the launch of an account may work with. */
  ghost predicate Tagged(dsid: string, file: CursorFile) {
    file.accountDsid == Some(dsid) && OwnedBy(dsid, file)
  }

  /** The cursor a launch starts from: another account's is dropped, an untagged one claimed. */
  function Loaded(found: CursorFile, dsid: string): CursorFile {
    if found.accountDsid.Some? && found.accountDsid.value != dsid
    then EMPTY_CURSOR.(accountDsid := Some(dsid))
    else found.(accountDsid := Some(dsid))
  }

  /** The file holds no foreign token under a wrong name; an untagged one was made by the account now
      signed in. */
  ghost predicate Trusted(dsid: string, found: CursorFile) {
    Isolated(found) && (found.accountDsid.None? ==> OwnedBy(dsid, found))
  }

  lemma LoadedIsTagged(found: CursorFile, dsid: string)
    requires Trusted(dsid, found)
    ensures Tagged(dsid, Loaded(found, dsid))
  {
  }

  // --- chains of requests keep to the account ---

  /** If a walk starts from its own token and every page comes from the account's zone, every
      token it ever sends is its own. */
  lemma SentTokensOwn<T>(log: seq<Change<T>>, account: string, saved: Option<Token>, exchanges: seq<Exchange<T>>)
    requires Chained(saved, exchanges) && Answered(log, account, exchanges) && Own(account, saved)
    ensures forall i :: 0 <= i < |exchanges| ==> Own(account, exchanges[i].sent)
  {
    forall i | 0 <= i < |exchanges|
      ensures Own(account, exchanges[i].sent)
    {
      if i > 0 {
        var previous := exchanges[i - 1];
        assert exchanges[i - 1 + 1].sent == Continuation(previous);
        assert Serves(log, account, previous.sent, previous.response);
      }
    }
  }

  // --- launches ---

  /** What one launch found, exchanged with the server in the two zones, and wrote or tried to. */
  datatype Launch = Launch(
    dsid: string,
    found: CursorFile,
    chatLog: seq<Change<CloudChat>>,
    messageLog: seq<Change<CloudMessage>>,
    chats: seq<Exchange<CloudChat>>,
    messages: seq<Exchange<CloudMessage>>,
    writes: seq<Write>)

  /** What a launch keeps to, whether it came to its end or not. */
  ghost predicate Faithful(l: Launch) {
    var loaded := Loaded(l.found, l.dsid);
    && Chained(loaded.chatsToken, l.chats) && Answered(l.chatLog, l.dsid, l.chats)
    && Chained(loaded.messagesToken, l.messages) && Answered(l.messageLog, l.dsid, l.messages)
    && (forall i :: 0 <= i < |l.writes| && l.writes[i].CursorWrite? ==> Tagged(l.dsid, l.writes[i].file))
  }

  /** A launch that crashed after some of its requests and some of its writes. */
  ghost predicate CutOff(l: Launch, cut: Launch) {
    && cut == l.(chats := cut.chats, messages := cut.messages, writes := cut.writes)
    && cut.chats <= l.chats && cut.messages <= l.messages && cut.writes <= l.writes
  }

  lemma CutOffIsFaithful(l: Launch, cut: Launch)
    requires Faithful(l) && CutOff(l, cut)
    ensures Faithful(cut)
  {
    ChainCut(Loaded(l.found, l.dsid).chatsToken, l.chats, cut.chats);
    ChainCut(Loaded(l.found, l.dsid).messagesToken, l.messages, cut.messages);
  }

  lemma ChainCut<T>(saved: Option<Token>, exchanges: seq<Exchange<T>>, cut: seq<Exchange<T>>)
    requires Chained(saved, exchanges) && cut <= exchanges
    ensures Chained(saved, cut)
  {
    assert forall i :: 0 <= i < |cut| ==> cut[i] == exchanges[i];
  }

  /** The file is the one that was found, or one of those written, or none: any write may have failed
      or broken off. */
  ghost predicate Left(l: Launch, file: CursorFile) {
    file == l.found || file == EMPTY_CURSOR || exists i :: 0 <= i < |l.writes| && l.writes[i] == CursorWrite(file)
  }

  /** One launch after another, each finding what the one before left. */
  ghost predicate History(launches: seq<Launch>) {
    && (forall i :: 0 <= i < |launches| ==> Faithful(launches[i]))
    && (forall i :: 0 <= i < |launches| - 1 ==> Left(launches[i], launches[i + 1].found))
  }

  /** A token sent is none, or the one on disk when the launch began and that file was the account's
      or untagged, or the one returned with the preceding page; and it is the account's own. */
  ghost predicate Legitimate<T>(l: Launch, persisted: Option<Token>, exchanges: seq<Exchange<T>>, k: nat)
    requires k < |exchanges|
  {
    var sent := exchanges[k].sent;
    && Own(l.dsid, sent)
    && (sent.None?
        || (k == 0 && sent == persisted && l.found.accountDsid in {None, Some(l.dsid)})
        || (k > 0 && exchanges[k - 1].response.Page? && sent == Some(exchanges[k - 1].response.next)))
  }

  lemma ChainIsLegitimate<T>(l: Launch, log: seq<Change<T>>, loaded: Option<Token>, persisted: Option<Token>,
                             exchanges: seq<Exchange<T>>, k: nat)
    requires Chained(loaded, exchanges) && Answered(log, l.dsid, exchanges) && Own(l.dsid, loaded) && k < |exchanges|
    requires loaded == if l.found.accountDsid in {None, Some(l.dsid)} then persisted else None
    ensures Legitimate(l, persisted, exchanges, k)
  {
    SentTokensOwn(log, l.dsid, loaded, exchanges);
    if k > 0 {
      assert exchanges[k - 1 + 1].sent == Continuation(exchanges[k - 1]);
    }
  }

  lemma LaunchIsLegitimate(l: Launch)
    requires Faithful(l) && Trusted(l.dsid, l.found)
    ensures forall k :: 0 <= k < |l.chats| ==> Legitimate(l, l.found.chatsToken, l.chats, k)
    ensures forall k :: 0 <= k < |l.messages| ==> Legitimate(l, l.found.messagesToken, l.messages, k)
  {
    var loaded := Loaded(l.found, l.dsid);
    LoadedIsTagged(l.found, l.dsid);
    forall k | 0 <= k < |l.chats|
      ensures Legitimate(l, l.found.chatsToken, l.chats, k)
    {
      ChainIsLegitimate(l, l.chatLog, loaded.chatsToken, l.found.chatsToken, l.chats, k);
    }
    forall k | 0 <= k < |l.messages|
      ensures Legitimate(l, l.found.messagesToken, l.messages, k)
    {
      ChainIsLegitimate(l, l.messageLog, loaded.messagesToken, l.found.messagesToken, l.messages, k);
    }
  }

  /** The file never holds a foreign token under a wrong name. */
  lemma {:induction false} FilesStayIsolated(launches: seq<Launch>)
    requires History(launches) && launches != [] && Isolated(launches[0].found)
    ensures forall i :: 0 <= i < |launches| ==> Isolated(launches[i].found)
    decreases |launches|
  {
    if |launches| > 1 {
      var before, last := launches[..|launches| - 1], |launches| - 1;
      assert forall i :: 0 <= i < last ==> before[i] == launches[i];
      assert forall i :: 0 <= i < last - 1 ==> Left(launches[i], launches[i + 1].found);
      FilesStayIsolated(before);
      assert Isolated(before[last - 1].found) && Faithful(launches[last - 1]);
      assert Left(launches[last - 1], launches[last - 1 + 1].found);
    }
  }

  /** Across launches, account switches, expiries, failed writes and crashes, every token sent is
      legitimate, if an untagged file always was the signed-in account's. */
  lemma TokensStayIsolated(launches: seq<Launch>)
    requires History(launches) && launches != [] && Isolated(launches[0].found)
    requires forall i :: 0 <= i < |launches| && launches[i].found.accountDsid.None? ==>
               OwnedBy(launches[i].dsid, launches[i].found)
    ensures forall i, k :: 0 <= i < |launches| && 0 <= k < |launches[i].chats| ==>
              Legitimate(launches[i], launches[i].found.chatsToken, launches[i].chats, k)
    ensures forall i, k :: 0 <= i < |launches| && 0 <= k < |launches[i].messages| ==>
              Legitimate(launches[i], launches[i].found.messagesToken, launches[i].messages, k)
  {
    hide Legitimate, Faithful, Left;
    FilesStayIsolated(launches);
    forall i | 0 <= i < |launches|
      ensures forall k :: 0 <= k < |launches[i].chats| ==>
                Legitimate(launches[i], launches[i].found.chatsToken, launches[i].chats, k)
      ensures forall k :: 0 <= k < |launches[i].messages| ==>
                Legitimate(launches[i], launches[i].found.messagesToken, launches[i].messages, k)
    {
      LaunchIsLegitimate(launches[i]);
    }
  }
}
