/** Cloud message records and what one of them means to the store. */
module CloudRecords {
  import opened Options
  import opened Conversations
  import opened MessageStore
  import opened Convergence

  datatype CloudMessage = CloudMessage(
    guid: string,
    chatId: string,
    sender: string,
    destination: string,
    service: string,
    time: int,
    flaggedFromMe: bool,
    text: Option<string>,
    subject: Option<string>,
    effect: Option<string>,
    associatedGuid: Option<string>,
    associatedType: Option<int>)

  /** What records are resolved against: our handles, the chat records, and the keys of the
      conversations a restricted sync may touch. */
  datatype Scope = Scope(
    myHandles: seq<string>,
    chatMap: map<string, CloudChat>,
    existing: Option<set<string>>)

  /** Integer division that truncates toward zero. */
  function Truncate(a: int, b: int): int
    requires b > 0
  {
    if a >= 0 then a / b else -((-a) / b)
  }

  /** Nanoseconds since 2001 to milliseconds since 1970. */
  function UnixMs(appleNs: int): int {
    Truncate(appleNs, 1_000_000) + 978_307_200_000
  }

  predicate IsTapbackCode(code: int) {
    2000 <= code <= 2005 || 3000 <= code <= 3005
  }

  predicate IsFromMe(flagged: bool, sender: string, myHandles: seq<string>) {
    flagged || (NormalizeHandle(sender).Some?
                && exists h :: h in myHandles && NormalizeHandle(h) == NormalizeHandle(sender))
  }

  function Translate(cm: CloudMessage, scope: Scope): Ingest {
    var fromMe := IsFromMe(cm.flaggedFromMe, cm.sender, scope.myHandles);
    var sender := NormalizeHandle(cm.sender);
    var chat := ChatRefFor(cm.chatId, cm.service, scope.chatMap, cm.sender, cm.destination);
    if cm.associatedGuid.Some? && cm.associatedType.Some? && IsTapbackCode(cm.associatedType.value) then
      Reaction(Tapback(cm.guid, chat, sender, fromMe, UnixMs(cm.time), cm.associatedGuid.value,
                       cm.associatedType.value))
    else if cm.text.Some? then
      Message(IncomingMessage(cm.guid, chat, sender, fromMe, cm.text, cm.subject, Some(cm.service),
                              UnixMs(cm.time), cm.effect))
    else Ignored
  }

  /** How a page counts one live record. */
  datatype Verdict = Stored | OtherConversation | Untranslatable

  function ConversationOf(ingest: Ingest): Option<string> {
    match ingest
    case Message(m) => Some(Key(m.chat.participants))
    case Reaction(t) => Some(Key(t.chat.participants))
    case _ => None
  }

  function Judge(cm: CloudMessage, scope: Scope): Verdict {
    var key := ConversationOf(Translate(cm, scope));
    if key.None? then Untranslatable
    else if scope.existing.Some? && key.value !in scope.existing.value then OtherConversation
    else Stored
  }

  /** The one effect a live record has on the store. */
  function EffectOf(cm: CloudMessage, scope: Scope): Effect {
    if Judge(cm, scope) != Stored then Nothing
    else
      match Translate(cm, scope)
      case Message(m) => Insert(m.guid, MessageRow(m))
      case Reaction(t) => Insert(t.guid, TapbackRow(t))
      case _ => Nothing
  }

  // --- the same by what the record says ---

  /** A reaction with one of the twelve codes. */
  ghost predicate IsReaction(cm: CloudMessage) {
    && cm.associatedGuid.Some? && cm.associatedType.Some?
    && cm.associatedType.value in {2000, 2001, 2002, 2003, 2004, 2005, 3000, 3001, 3002, 3003, 3004, 3005}
  }

  ghost predicate Translatable(cm: CloudMessage) { IsReaction(cm) || cm.text.Some? }

  /** The record's conversation is one that the sync may touch. */
  ghost predicate Wanted(cm: CloudMessage, scope: Scope) {
    scope.existing.None?
    || KeyFor(cm.chatId, cm.service, scope.chatMap, cm.sender, cm.destination) in scope.existing.value
  }

  /** A record is stored exactly when it can be translated and its conversation is wanted. */
  lemma StoredIff(cm: CloudMessage, scope: Scope)
    ensures EffectOf(cm, scope).Insert? <==> Translatable(cm) && Wanted(cm, scope)
    ensures Judge(cm, scope) == Stored <==> Translatable(cm) && Wanted(cm, scope)
    ensures Judge(cm, scope) == OtherConversation <==> Translatable(cm) && !Wanted(cm, scope)
    ensures Judge(cm, scope) == Untranslatable <==> !Translatable(cm)
  {
    hide ChatRefFor, IsFromMe, NormalizeHandle, Key, UnixMs;
  }

  /** Sent by ourselves: flagged so, or from one of our handles in any spelling. */
  ghost predicate Ours(cm: CloudMessage, scope: Scope) {
    cm.flaggedFromMe
    || exists h :: h in scope.myHandles && NormalizeHandle(h).Some? && NormalizeHandle(h) == NormalizeHandle(cm.sender)
  }

  /** What is stored for a record. */
  lemma EffectIsRecord(cm: CloudMessage, scope: Scope)
    requires Translatable(cm) && Wanted(cm, scope)
    ensures EffectOf(cm, scope).Insert? && EffectOf(cm, scope).guid == cm.guid
    ensures
      var row := EffectOf(cm, scope).row;
      && row.chat == KeyFor(cm.chatId, cm.service, scope.chatMap, cm.sender, cm.destination)
      && (row.fromMe <==> Ours(cm, scope)) && row.date == UnixMs(cm.time)
      && (forall name :: row.sender == Some(name) <==> Calls(cm.sender, name))
      && (IsReaction(cm) ==>
            row.target == cm.associatedGuid && Some(row.reaction) == cm.associatedType
            && row.text == row.subject == row.service == row.effect == None)
      && (!IsReaction(cm) ==>
            row.target.None? && row.text == cm.text && row.subject == cm.subject && row.service == Some(cm.service)
            && row.effect == cm.effect)
  {
    hide ChatRefFor, NormalizeHandle, Key, UnixMs;
    StoredIff(cm, scope);
  }

  /** Dates: nanoseconds from the first of January 2001 on, which is 31 years with 8 leap days after the
      epoch; parts of a millisecond are cut off toward zero. */
  lemma DatesCount(ns: int)
    ensures UnixMs(0) == (31 * 365 + 8) * 24 * 60 * 60 * 1000
    ensures ns >= 0 ==> 0 <= ns - (UnixMs(ns) - UnixMs(0)) * 1_000_000 < 1_000_000
    ensures ns <= 0 ==> -1_000_000 < ns - (UnixMs(ns) - UnixMs(0)) * 1_000_000 <= 0
  {
  }

  /** A stored record keeps its own guid. */
  lemma EffectCarriesGuid(cm: CloudMessage, scope: Scope)
    ensures EffectOf(cm, scope).Insert? <==> Judge(cm, scope) == Stored
    ensures EffectOf(cm, scope).Insert? ==> EffectOf(cm, scope).guid == cm.guid
  {}
}
