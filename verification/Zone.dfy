/** A CloudKit zone: a change log served in pages cut at arbitrary places. A token is an
    opaque position in one account's zone. */
module Zone {
  import opened Options

  datatype Change<T> = Change(id: string, record: Option<T>)

  datatype Token = Token(account: string, position: nat)

  datatype Response<T> =
    | Page(next: Token, page: map<string, Option<T>>, status: int)
    | Expired
    | Failed

  const DONE := 3

  /** The last change of each record in a stretch of the log; a tombstone is None. */
  function Net<T>(log: seq<Change<T>>): (net: map<string, Option<T>>)
    ensures forall id :: id in net <==> exists i :: 0 <= i < |log| && log[i].id == id
  {
    if log == [] then map[]
    else
      var last := |log| - 1;
      assert forall i :: 0 <= i < last ==> log[..last][i] == log[i];
      Net(log[..last])[log[last].id := log[last].record]
  }

  lemma UpdateLast<K, V>(a: map<K, V>, b: map<K, V>, k: K, v: V)
    ensures (a + b)[k := v] == a + b[k := v]
  {}

  lemma NetAppend<T>(log: seq<Change<T>>, change: Change<T>)
    ensures Net(log + [change]) == Net(log)[change.id := change.record]
  {
  }

  lemma {:induction false} NetConcat<T>(a: seq<Change<T>>, b: seq<Change<T>>)
    ensures Net(a + b) == Net(a) + Net(b)
  {
    if b == [] {
      assert a + b == a;
      assert Net(b) == map[];
    } else {
      var init, last := b[..|b| - 1], b[|b| - 1];
      assert b == init + [last] && a + b == (a + init) + [last];
      NetAppend(init, last);
      NetAppend(a + init, last);
      NetConcat(a, init);
      UpdateLast(Net(a), Net(init), last.id, last.record);
    }
  }

  function Position(token: Option<Token>): nat {
    if token.None? then 0 else token.value.position
  }

  /** The server's side of the protocol. A page continues from the token it was asked for,
      covers some stretch of the log, and reports completion exactly at the end of the log.
      A token of another account gets no page. Errors and expiry can come at any time. */
  ghost predicate Serves<T>(log: seq<Change<T>>, account: string, sent: Option<Token>, response: Response<T>) {
    response.Page? ==>
      && (sent.None? || sent.value.account == account)
      && response.next.account == account
      && Position(sent) <= response.next.position <= |log|
      && response.page == Net(log[Position(sent)..response.next.position])
      && (response.status == DONE <==> response.next.position == |log|)
  }

  /** One request, answered in any way the protocol allows. */
  method Fetch<T>(log: seq<Change<T>>, account: string, sent: Option<Token>) returns (response: Response<T>)
    ensures Serves(log, account, sent, response)
  {
    if
    case sent.None? || (sent.value.account == account && sent.value.position <= |log|) =>
      var cut: nat :| Position(sent) <= cut <= |log|;
      response := Page(Token(account, cut), Net(log[Position(sent)..cut]), if cut == |log| then DONE else 0);
    case true =>
      response := Expired;
    case true =>
      response := Failed;
  }

  // --- what a walk sends ---

  datatype Exchange<T> = Exchange(sent: Option<Token>, response: Response<T>)

  /** The token a walk must send next: the one just returned, or none after an expiry. */
  function Continuation<T>(exchange: Exchange<T>): Option<Token> {
    if exchange.response.Page? then Some(exchange.response.next) else None
  }

  /** Every request continues from the saved token or from the previous answer, nothing is sent
      after a failure or after the end, and only one expiry is followed by another request. */
  ghost predicate Chained<T>(saved: Option<Token>, exchanges: seq<Exchange<T>>) {
    && (exchanges != [] ==> exchanges[0].sent == saved)
    && (forall i :: 0 <= i < |exchanges| - 1 ==>
          && exchanges[i + 1].sent == Continuation(exchanges[i])
          && !Final(exchanges[i].response))
    && (forall i, j :: 0 <= i < j < |exchanges| - 1 ==>
          !(exchanges[i].response.Expired? && exchanges[j].response.Expired?))
  }

  /** Every answer came from this account's zone. */
  ghost predicate Answered<T>(log: seq<Change<T>>, account: string, exchanges: seq<Exchange<T>>) {
    forall i :: 0 <= i < |exchanges| ==> Serves(log, account, exchanges[i].sent, exchanges[i].response)
  }

  /** An answer after which a walk asks nothing more. */
  predicate Final<T>(response: Response<T>) {
    response.Failed? || (response.Page? && response.status == DONE)
  }

  ghost predicate AtMostOneExpiry<T>(exchanges: seq<Exchange<T>>) {
    forall i, j :: 0 <= i < j < |exchanges| ==> !(exchanges[i].response.Expired? && exchanges[j].response.Expired?)
  }

  ghost predicate NoExpiry<T>(exchanges: seq<Exchange<T>>) {
    forall i :: 0 <= i < |exchanges| ==> !exchanges[i].response.Expired?
  }

  /** A chain that goes on: its last answer was not final, and `token` is what must be sent next. */
  ghost predicate Open<T>(saved: Option<Token>, exchanges: seq<Exchange<T>>, token: Option<Token>) {
    && Chained(saved, exchanges)
    && AtMostOneExpiry(exchanges)
    && (if exchanges == [] then token == saved
        else token == Continuation(exchanges[|exchanges| - 1]) && !Final(exchanges[|exchanges| - 1].response))
  }

  lemma ChainExtends<T>(saved: Option<Token>, exchanges: seq<Exchange<T>>, e: Exchange<T>)
    requires Open(saved, exchanges, e.sent)
    ensures Chained(saved, exchanges + [e])
    ensures !Final(e.response) && (e.response.Expired? ==> NoExpiry(exchanges)) ==>
              Open(saved, exchanges + [e], Continuation(e))
    ensures NoExpiry(exchanges) && !e.response.Expired? ==> NoExpiry(exchanges + [e])
  {}
}
