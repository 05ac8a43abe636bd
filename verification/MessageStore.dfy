/** The part of the message store that a cloud sync writes: message rows by guid and the
    table from CloudKit record names to guids. Every ingest is one transaction. */
module MessageStore {
  import opened Options
  import opened Text
  import opened Conversations

  datatype Row = Row(
    chat: string,
    sender: Option<string>,
    fromMe: bool,
    text: Option<string>,
    subject: Option<string>,
    service: Option<string>,
    date: int,
    effect: Option<string>,
    target: Option<string>,
    reaction: int)

  datatype State = State(rows: map<string, Row>, records: map<string, string>)

  datatype IncomingMessage = IncomingMessage(
    guid: string, chat: ChatRef, sender: Option<string>, fromMe: bool, text: Option<string>,
    subject: Option<string>, service: Option<string>, date: int, effect: Option<string>)

  datatype Tapback = Tapback(
    guid: string, chat: ChatRef, sender: Option<string>, fromMe: bool, date: int,
    target: string, kind: int)

  datatype Ingest =
    | Message(message: IncomingMessage)
    | Reaction(tapback: Tapback)
    | CloudRecordSeen(seenRecord: string, guid: string)
    | CloudRecordDeleted(deletedRecord: string)
    | Ignored

  // --- placeholder conversations left behind by an older sync ---

  predicate IsBareHandle(p: string) {
    ':' !in p && ("+" <= p || (p != "" && IsDigit(p[0])) || '@' in p)
  }

  function NonEmpty(parts: seq<string>): seq<string> {
    if parts == [] then [] else (if parts[0] == "" then [] else [parts[0]]) + NonEmpty(parts[1..])
  }

  predicate IsPlaceholderKey(key: string) {
    var parts := NonEmpty(Split(key, ';'));
    |parts| < 2 || exists p :: p in parts && ("unknown-" <= p || IsBareHandle(p))
  }

  // --- one transaction ---

  function LowerOption(s: Option<string>): Option<string> {
    if s.Some? then Some(Lower(s.value)) else None
  }

  function MessageRow(m: IncomingMessage): Row {
    Row(Key(m.chat.participants), LowerOption(m.sender), m.fromMe, m.text, m.subject, m.service, m.date,
        m.effect, None, 0)
  }

  function TapbackRow(t: Tapback): Row {
    Row(Key(t.chat.participants), LowerOption(t.sender), t.fromMe, None, None, None, t.date, None,
        Some(t.target), t.kind)
  }

  /** A guid that is already stored keeps its row: it can only move out of a placeholder
      conversation and take over a newer text. */
  function Merge(stored: Row, incoming: Row): Row {
    var chat :=
      if IsPlaceholderKey(stored.chat) && !IsPlaceholderKey(incoming.chat) then incoming.chat else stored.chat;
    if incoming.text.Some? && incoming.text != stored.text then
      stored.(chat := chat, text := incoming.text,
              subject := if incoming.subject.Some? then incoming.subject else stored.subject)
    else stored.(chat := chat)
  }

  function Arriving(rows: map<string, Row>, guid: string, row: Row): Row {
    if guid in rows then Merge(rows[guid], row) else row
  }

  function InsertRow(s: State, guid: string, row: Row): State {
    s.(rows := s.rows[guid := Arriving(s.rows, guid, row)])
  }

  /** The guid a record name stands for; an unmapped name is tried as the guid itself. */
  function Named(s: State, record: string): string {
    if record in s.records then s.records[record] else record
  }

  predicate GoesWith(guid: string, row: Row, deleted: string) {
    guid == deleted || row.target == Some(deleted)
  }

  function DeleteRecord(s: State, record: string): State {
    var guid := Named(s, record);
    State(if guid in s.rows then map g | g in s.rows && !GoesWith(g, s.rows[g], guid) :: s.rows[g] else s.rows,
          s.records - {record})
  }

  function Apply(s: State, ingest: Ingest): State {
    match ingest
    case Message(m) => InsertRow(s, m.guid, MessageRow(m))
    case Reaction(t) => InsertRow(s, t.guid, TapbackRow(t))
    case CloudRecordSeen(record, guid) => s.(records := s.records[record := guid])
    case CloudRecordDeleted(record) => DeleteRecord(s, record)
    case Ignored => s
  }

  lemma MergeTwice(stored: Row, row: Row)
    ensures Merge(Merge(stored, row), row) == Merge(stored, row)
    ensures Merge(row, row) == row
  {}

  /** Storing the same guid again changes nothing. */
  lemma InsertIdempotent(s: State, guid: string, row: Row)
    ensures InsertRow(InsertRow(s, guid, row), guid, row) == InsertRow(s, guid, row)
  {
  }

  /** A guid that is stored again keeps who sent it and when; it takes over a text, and with a new text
      a subject; it leaves a placeholder conversation, never enters one, and nothing else moves. */
  lemma StoredAgain(s: State, guid: string, row: Row)
    requires guid in s.rows
    ensures
      var was, now := s.rows[guid], InsertRow(s, guid, row).rows[guid];
      && now.sender == was.sender && now.fromMe == was.fromMe && now.service == was.service && now.date == was.date
      && now.effect == was.effect && now.target == was.target && now.reaction == was.reaction
      && (row.text.None? ==> now.text == was.text && now.subject == was.subject)
      && (row.text.Some? ==> now.text == row.text)
      && (row.text == was.text || row.subject.None? ==> now.subject == was.subject)
      && (row.text.Some? && row.text != was.text && row.subject.Some? ==> now.subject == row.subject)
      && (IsPlaceholderKey(was.chat) && !IsPlaceholderKey(row.chat) ==> now.chat == row.chat)
      && (!IsPlaceholderKey(was.chat) || IsPlaceholderKey(row.chat) ==> now.chat == was.chat)
    ensures InsertRow(s, guid, row).records == s.records
    ensures forall g :: g != guid ==>
              (g in InsertRow(s, guid, row).rows <==> g in s.rows)
              && (g in s.rows ==> InsertRow(s, guid, row).rows[g] == s.rows[g])
  {
    hide IsPlaceholderKey;
  }

  /** A tombstone takes the message that the record name stands for, or whose guid it is, and the
      reactions to it if it is there, and the name itself. */
  lemma DeletedIff(s: State, record: string, guid: string, g: string)
    requires if record in s.records then guid == s.records[record] else guid == record
    ensures g in DeleteRecord(s, record).rows <==>
            g in s.rows && !(guid in s.rows && (g == guid || s.rows[g].target == Some(guid)))
    ensures g in DeleteRecord(s, record).rows ==> DeleteRecord(s, record).rows[g] == s.rows[g]
    ensures g in DeleteRecord(s, record).records <==> g in s.records && g != record
    ensures g in DeleteRecord(s, record).records ==> DeleteRecord(s, record).records[g] == s.records[g]
  {
  }

  /** A member that a properly keyed conversation cannot have: the label of an unknown conversation, or
      an address without a scheme. */
  ghost predicate Makeshift(member: string) {
    || "unknown-" <= member
    || (':' !in member && member != "" && (member[0] in "+0123456789" || '@' in member))
  }

  /** The key of well-formed members is a placeholder exactly when it has a single one or a makeshift
      one. */
  lemma PlaceholderIff(participants: seq<string>)
    requires Separable(participants, ';')
    ensures IsPlaceholderKey(Key(participants)) <==>
            |Members(participants)| < 2 || exists m :: m in Members(participants) && Makeshift(m)
  {
    hide IndexOf, LexLess;
    var list := Normalized(participants);
    MembersOfNormalized(participants);
    AscendingSize(list);
    NormalizedSeparable(participants);
    assert (set x | x in list) == Members(participants);
    KeyParts(list);
    forall m | m in list
      ensures Makeshift(m) <==> "unknown-" <= m || IsBareHandle(m)
    {
      BareIsMakeshift(m);
    }
  }

  /** A group without a record has a placeholder key, so its messages move once the group is known. */
  lemma UnknownGroupIsPlaceholder(chatId: string, service: string, chatMap: map<string, CloudChat>,
                                  sender: string, destination: string)
    requires UnknownGroup(chatId, chatMap) && ';' !in ParseChatId(chatId).value.identifier
    requires WithoutSemicolon(sender) && WithoutSemicolon(destination)
    ensures IsPlaceholderKey(KeyFor(chatId, service, chatMap, sender, destination))
  {
    hide ParseChatId, NormalizeHandle, IsPlaceholderKey, ChatRefFor;
    UnknownGroupSeparable(chatId, service, chatMap, sender, destination);
    PlaceholderIff(ChatRefFor(chatId, service, chatMap, sender, destination).participants);
    LabelIsMakeshift(ParseChatId(chatId).value.identifier);
    assert Label(chatId) in Members(ChatRefFor(chatId, service, chatMap, sender, destination).participants);
  }

  lemma LabelIsMakeshift(identifier: string)
    ensures Makeshift(Lower(GroupTag(identifier)))
  {
    var l := Lower(GroupTag(identifier));
    assert l[..8] == "unknown-";
  }

  lemma BareIsMakeshift(member: string)
    ensures Makeshift(member) <==> "unknown-" <= member || IsBareHandle(member)
  {
    if member != "" {
      DigitsSpelled(member[0]);
      assert "+" <= member <==> member[0] == '+';
      assert "+0123456789" == "+" + "0123456789";
    }
  }

  lemma KeyParts(list: seq<string>)
    requires Separable(list, ';')
    ensures NonEmpty(Split(Join(list, ';'), ';')) == list
  {
    if list == [] {
      assert Split("", ';') == [""];
    } else {
      SplitOfJoin(list, ';');
      SplitSeparable(list);
    }
  }

  lemma {:induction false} SplitSeparable(list: seq<string>)
    requires Separable(list, ';')
    ensures SplitAll(list, ';') == list && NonEmpty(list) == list
  {
    if list != [] {
      assert list[0] in list && forall p :: p in list[1..] ==> p in list;
      SplitShape(list[0], ';');
      SplitSeparable(list[1..]);
      assert list == [list[0]] + list[1..];
    }
  }

  class Store {
    var rows: map<string, Row>
    var records: map<string, string>

    constructor ()
      ensures Value() == State(map[], map[])
    {
      rows, records := map[], map[];
    }

    function Value(): State
      reads this
    {
      State(rows, records)
    }

    method ApplyIngest(ingest: Ingest)
      modifies this
      ensures Value() == Apply(old(Value()), ingest)
    {
      match ingest
      case Message(m) =>
        rows := rows[m.guid := Arriving(rows, m.guid, MessageRow(m))];
      case Reaction(t) =>
        rows := rows[t.guid := Arriving(rows, t.guid, TapbackRow(t))];
      case CloudRecordSeen(record, guid) =>
        records := records[record := guid];
      case CloudRecordDeleted(record) =>
        var guid := if record in records then records[record] else record;
        records := records - {record};
        if guid in rows {
          // Reactions to the message go first, then the message itself.
          rows := map g | g in rows && rows[g].target != Some(guid) :: rows[g];
          rows := rows - {guid};
        }
      case Ignored =>
    }
  }
}
