/** How a synced message is assigned to a conversation: handles in Apple's bare form are
    turned into IDS URIs, the members of the conversation are collected, and the key is the
    lowercased, sorted, duplicate-free member list joined with ';'. */
module Conversations {
  import opened Options
  import opened Text

  datatype ChatRef = ChatRef(participants: seq<string>, displayName: Option<string>, service: Option<string>)

  datatype CloudChat = CloudChat(
    guid: string,
    chatIdentifier: string,
    serviceName: string,
    style: int,
    participants: seq<string>,
    lastAddressedHandle: string,
    displayName: Option<string>)

  // --- keys ---

  function LowerAll(parts: seq<string>): (r: seq<string>)
    ensures |r| == |parts| && forall i :: 0 <= i < |parts| ==> r[i] == Lower(parts[i])
  {
    seq(|parts|, i requires 0 <= i < |parts| => Lower(parts[i]))
  }

  function Normalized(participants: seq<string>): seq<string> {
    SortDedup(LowerAll(participants))
  }

  function Key(participants: seq<string>): string {
    Join(Normalized(participants), ';')
  }

  predicate IsGroup(participants: seq<string>) {
    |Normalized(participants)| > 2
  }

  /** The members of a conversation, letter case ignored. */
  ghost function Members(participants: seq<string>): set<string> {
    set p | p in participants :: Lower(p)
  }

  lemma MembersOfNormalized(participants: seq<string>)
    ensures Ascending(Normalized(participants))
    ensures forall x :: x in Normalized(participants) <==> x in Members(participants)
  {
    var low := LowerAll(participants);
    SortDedupShape(low);
    forall x
      ensures x in low <==> x in Members(participants)
    {
      if x in low {
        var i :| 0 <= i < |low| && low[i] == x;
        assert participants[i] in participants;
      }
      if x in Members(participants) {
        var p :| p in participants && Lower(p) == x;
        var i :| 0 <= i < |participants| && participants[i] == p;
        assert low[i] == x;
      }
    }
  }

  /** Same members, same key: order, repetition and letter case are irrelevant. */
  lemma KeyIgnoresOrderAndCase(a: seq<string>, b: seq<string>)
    requires Members(a) == Members(b)
    ensures Key(a) == Key(b) && IsGroup(a) == IsGroup(b)
  {
    MembersOfNormalized(a);
    MembersOfNormalized(b);
    AscendingUnique(Normalized(a), Normalized(b));
  }

  lemma NormalizedSeparable(a: seq<string>)
    requires Separable(a, ';')
    ensures Separable(Normalized(a), ';')
  {
    MembersOfNormalized(a);
    forall x | x in Normalized(a)
      ensures x != "" && ';' !in x
    {
      var p :| p in a && Lower(p) == x;
      assert forall i :: 0 <= i < |p| ==> p[i] in p;
    }
  }

  /** For well-formed member lists the key identifies the conversation. */
  lemma KeyEqualIffSameMembers(a: seq<string>, b: seq<string>)
    requires Separable(a, ';') && Separable(b, ';')
    ensures Key(a) == Key(b) <==> Members(a) == Members(b)
  {
    if Members(a) == Members(b) {
      KeyIgnoresOrderAndCase(a, b);
    }
    if Key(a) == Key(b) {
      NormalizedSeparable(a);
      NormalizedSeparable(b);
      JoinInjective(Normalized(a), Normalized(b), ';');
      MembersOfNormalized(a);
      MembersOfNormalized(b);
    }
  }

  /** What a key shows of a member list: the members in order, a member with semicolons as its parts. */
  function Pieces(participants: seq<string>): seq<string> {
    SplitAll(Normalized(participants), ';')
  }

  /** For any member lists the keys are the same exactly when these pieces are. */
  lemma KeyEqualIffSamePieces(a: seq<string>, b: seq<string>)
    requires a != [] && b != []
    ensures Key(a) == Key(b) <==> Pieces(a) == Pieces(b)
  {
    MembersOfNormalized(a);
    MembersOfNormalized(b);
    assert Lower(a[0]) in Members(a) && Lower(b[0]) in Members(b);
    JoinEqualIff(Normalized(a), Normalized(b), ';');
  }

  lemma {:induction false} AscendingSize(s: seq<string>)
    requires Ascending(s)
    ensures |s| == |set x | x in s|
  {
    hide LexLess;
    if s != [] {
      var front, last := s[..|s| - 1], s[|s| - 1];
      AscendingSize(front);
      LexTotal(last, last);
      assert last !in front;
      assert s == front + [last];
      assert (set x | x in s) == (set x | x in front) + {last};
    }
  }

  /** A conversation of more than two members is a group. */
  lemma GroupIff(participants: seq<string>)
    ensures IsGroup(participants) <==> |Members(participants)| >= 3
  {
    MembersOfNormalized(participants);
    AscendingSize(Normalized(participants));
    assert (set x | x in Normalized(participants)) == Members(participants);
  }

  // --- handles ---

  function NormalizeHandle(handle: string): Option<string> {
    var raw := Trim(handle);
    if raw == "" then None
    else
      var lower := Lower(raw);
      if "mailto:" <= lower then
        (if lower[7..] == "" then None else Some("mailto:" + lower[7..]))
      else if '@' in lower then Some("mailto:" + lower)
      else NormalizePhone(raw, if "tel:" <= lower then lower[4..] else lower)
  }

  /** A phone number in URI form; anything without a digit is kept verbatim. */
  function NormalizePhone(raw: string, phone: string): Option<string> {
    var digits := Digits(phone);
    if digits == "" then Some(raw)
    else if "+" <= phone || |digits| != 10 then Some("tel:+" + digits)
    else Some("tel:+1" + digits)
  }

  lemma LowerTwice(s: string)
    ensures Lower(Lower(s)) == Lower(s)
    ensures Trimmed(s) ==> Trimmed(Lower(s))
  {
  }

  /** A tel: URI the normaliser printed is a fixed point. */
  lemma PhoneUriFixed(digits: string)
    requires digits != "" && forall c :: c in digits ==> IsDigit(c)
    ensures NormalizeHandle("tel:+" + digits) == Some("tel:+" + digits)
  {
    PhoneUriShape(digits);
    TelUri("tel:+" + digits, "+" + digits);
    DigitsAfterPlus(digits);
  }

  lemma TelUri(uri: string, phone: string)
    requires Trimmed(uri) && Lower(uri) == uri && "tel:" <= uri && '@' !in uri && uri[4..] == phone
    ensures NormalizeHandle(uri) == NormalizePhone(uri, phone)
  {
  }

  lemma PhoneUriShape(digits: string)
    requires digits != "" && forall c :: c in digits ==> IsDigit(c)
    ensures
      var uri := "tel:+" + digits;
      Trimmed(uri) && Lower(uri) == uri && "tel:" <= uri && '@' !in uri && uri[4..] == "+" + digits
  {
    var uri := "tel:+" + digits;
    assert uri[|uri| - 1] == digits[|digits| - 1] && digits[|digits| - 1] in digits;
    forall i | 0 <= i < |uri|
      ensures LowerChar(uri[i]) == uri[i] && uri[i] != '@'
    {
      if i >= 5 {
        assert uri[i] == digits[i - 5] && digits[i - 5] in digits;
      }
    }
  }

  lemma DigitsAfterPlus(digits: string)
    requires forall c :: c in digits ==> IsDigit(c)
    ensures Digits("+" + digits) == digits
  {
    var phone := "+" + digits;
    assert phone[0] == '+' && phone[1..] == digits;
    DigitsOfDigits(digits);
  }

  lemma MailUriFixed(rest: string)
    requires rest != "" && !IsSpace(rest[|rest| - 1]) && Lower(rest) == rest
    ensures NormalizeHandle("mailto:" + rest) == Some("mailto:" + rest)
  {
    MailUriShape(rest);
    MailUri("mailto:" + rest);
  }

  lemma MailUri(uri: string)
    requires Trimmed(uri) && Lower(uri) == uri && "mailto:" <= uri && uri[7..] != ""
    ensures NormalizeHandle(uri) == Some("mailto:" + uri[7..])
  {
  }

  lemma MailUriShape(rest: string)
    requires rest != "" && !IsSpace(rest[|rest| - 1]) && Lower(rest) == rest
    ensures
      var uri := "mailto:" + rest;
      Trimmed(uri) && Lower(uri) == uri && "mailto:" <= uri && uri[7..] == rest
  {
  }

  lemma MailRest(lower: string)
    requires Lower(lower) == lower && Trimmed(lower) && |lower| > 7
    ensures Lower(lower[7..]) == lower[7..] && !IsSpace(lower[7..][|lower[7..]| - 1])
  {
  }

  lemma PhoneFixed(raw: string, phone: string)
    requires Digits(phone) != ""
    ensures NormalizePhone(raw, phone).Some?
    ensures NormalizeHandle(NormalizePhone(raw, phone).value) == NormalizePhone(raw, phone)
  {
    var digits := Digits(phone);
    if "+" <= phone || |digits| != 10 {
      PhoneUriFixed(digits);
    } else {
      PhoneUriFixed("1" + digits);
      assert "tel:+1" + digits == "tel:+" + ("1" + digits);
    }
  }

  /** Normalising a normalised handle changes nothing. */
  lemma NormalizeHandleIdempotent(handle: string)
    ensures NormalizeHandle(handle).Some? ==>
              NormalizeHandle(NormalizeHandle(handle).value) == NormalizeHandle(handle)
  {
    var raw := Trim(handle);
    TrimShape(handle);
    if NormalizeHandle(handle).Some? {
      var lower := Lower(raw);
      LowerTwice(raw);
      if "mailto:" <= lower {
        MailRest(lower);
        MailUriFixed(lower[7..]);
      } else if '@' in lower {
        MailUriFixed(lower);
      } else {
        var phone := if "tel:" <= lower then lower[4..] else lower;
        if Digits(phone) == "" {
          TrimShape(raw);
        } else {
          PhoneFixed(raw, phone);
        }
      }
    }
  }

  /** A handle that is no mail address and holds a digit. */
  ghost predicate IsPhone(handle: string) {
    var lower := Lower(Trim(handle));
    !("mailto:" <= lower) && '@' !in lower && Digits(handle) != ""
  }

  ghost predicate HasPlus(handle: string) {
    var lower := Lower(Trim(handle));
    "+" <= (if "tel:" <= lower then lower[4..] else lower)
  }

  /** A phone number is its digits: spaces, punctuation, letter case and a `tel:` prefix make no
      difference, and ten digits without a plus get the country code. */
  lemma PhoneIsItsDigits(handle: string)
    requires IsPhone(handle)
    ensures
      var digits := Digits(handle);
      NormalizeHandle(handle) == Some("tel:+" + if !HasPlus(handle) && |digits| == 10 then "1" + digits else digits)
  {
    hide Digits, Trim, Lower, IsSpace;
    var lower := Lower(Trim(handle));
    PhoneDigits(handle);
    assert "tel:+" + ("1" + Digits(handle)) == "tel:+1" + Digits(handle);
  }

  lemma PhoneDigits(handle: string)
    ensures
      var lower := Lower(Trim(handle));
      Digits(if "tel:" <= lower then lower[4..] else lower) == Digits(handle)
      && (Trim(handle) == "" ==> Digits(handle) == "")
  {
    hide Digits, TrimStart, TrimEnd;
    var raw := Trim(handle);
    var lower := Lower(raw);
    DigitsTrimEnd(TrimStart(handle));
    DigitsTrimStart(handle);
    DigitsLower(raw);
    NoDigitsInPrefix();
    if "tel:" <= lower {
      assert lower == "tel:" + lower[4..];
      DigitsConcat("tel:", lower[4..]);
    }
  }

  lemma NoDigitsInPrefix()
    ensures Digits("tel:") == "" && Digits("") == ""
  {
    assert "tel:"[1..] == "el:" && "el:"[1..] == "l:" && "l:"[1..] == ":" && ":"[1..] == "";
  }

  /** A mail address is itself in lower case, with the scheme in front whether or not it was there. */
  lemma MailIsItsAddress(address: string)
    requires '@' in address && Trimmed(address) && !("mailto:" <= Lower(address))
    ensures NormalizeHandle(address) == Some("mailto:" + Lower(address))
    ensures NormalizeHandle("mailto:" + address) == Some("mailto:" + Lower(address))
    ensures NormalizeHandle("MAILTO:" + address) == Some("mailto:" + Lower(address))
  {
    hide NormalizePhone, IsSpace;
    TrimShape(address);
    AtInLower(address);
    WithScheme("mailto:", address);
    WithScheme("MAILTO:", address);
    LowerSpelled('a');
    SchemeLowered();
  }

  lemma AtInLower(address: string)
    requires '@' in address
    ensures '@' in Lower(address)
  {
    var i :| 0 <= i < |address| && address[i] == '@';
    assert Lower(address)[i] == '@';
  }

  lemma SchemeLowered()
    ensures Lower("mailto:") == "mailto:" && Lower("MAILTO:") == "mailto:"
  {
  }

  lemma WithScheme(scheme: string, address: string)
    requires scheme == "mailto:" || scheme == "MAILTO:"
    requires address != "" && Trimmed(address)
    ensures NormalizeHandle(scheme + address) == Some("mailto:" + Lower(address))
  {
    hide NormalizePhone;
    var raw := scheme + address;
    SchemeLowered();
    assert Trimmed(raw) by {
      assert raw[0] == scheme[0] && raw[|raw| - 1] == address[|address| - 1];
    }
    TrimShape(raw);
    LowerConcat(scheme, address);
    assert Lower(raw)[7..] == Lower(address);
  }

  lemma LowerConcat(a: string, b: string)
    ensures Lower(a + b) == Lower(a) + Lower(b)
  {
  }

  /** A handle has no normal form exactly when it is blank or a mail scheme alone; space around it makes
      no difference. */
  lemma NoHandleIff(handle: string)
    ensures NormalizeHandle(handle).None? <==> Trim(handle) == "" || Lower(Trim(handle)) == "mailto:"
    ensures NormalizeHandle(Trim(handle)) == NormalizeHandle(handle)
  {
    TrimShape(handle);
    TrimShape(Trim(handle));
    if Lower(Trim(handle)) == "mailto:" {
      assert Lower(Trim(handle))[7..] == "";
    } else if "mailto:" <= Lower(Trim(handle)) {
      assert Lower(Trim(handle)) == "mailto:" + Lower(Trim(handle))[7..];
    }
  }

  // --- compound chat ids ---

  datatype ChatId = ChatId(service: string, kind: string, identifier: string)

  /** Split `service;kind;identifier` at the first two semicolons. */
  function ParseChatId(chatId: string): Option<ChatId> {
    var i := IndexOf(chatId, ';');
    if i == |chatId| then None
    else
      var rest := chatId[i + 1..];
      var j := IndexOf(rest, ';');
      if j == |rest| || rest[j + 1..] == "" then None
      else Some(ChatId(chatId[..i], rest[..j], rest[j + 1..]))
  }

  /** Parsing inverts writing the three parts with semicolons; only the identifier may hold more. */
  lemma ParseChatIdIff(chatId: string, id: ChatId)
    ensures ParseChatId(chatId) == Some(id) <==>
            && chatId == id.service + ";" + id.kind + ";" + id.identifier
            && ';' !in id.service && ';' !in id.kind && id.identifier != ""
  {
    if ParseChatId(chatId) == Some(id) {
      ParsedIsJoined(chatId, id);
    }
    if chatId == id.service + ";" + id.kind + ";" + id.identifier && ';' !in id.service && ';' !in id.kind {
      JoinedIsParsed(id);
    }
  }

  lemma ParsedIsJoined(chatId: string, id: ChatId)
    requires ParseChatId(chatId) == Some(id)
    ensures chatId == id.service + ";" + id.kind + ";" + id.identifier
    ensures ';' !in id.service && ';' !in id.kind && id.identifier != ""
  {
    hide IndexOf;
    var i := IndexOf(chatId, ';');
    IndexOfShape(chatId, ';');
    IndexOfShape(chatId[i + 1..], ';');
    assert chatId == chatId[..i] + ";" + chatId[i + 1..];
  }

  lemma JoinedIsParsed(id: ChatId)
    requires ';' !in id.service && ';' !in id.kind
    ensures
      ParseChatId(id.service + ";" + id.kind + ";" + id.identifier) == if id.identifier == "" then None else Some(id)
  {
    hide IndexOf;
    var chatId, rest := id.service + ";" + id.kind + ";" + id.identifier, id.kind + ";" + id.identifier;
    assert chatId == id.service + (";" + rest) && rest == id.kind + (";" + id.identifier);
    FirstPart(chatId, id.service, rest);
    FirstPart(rest, id.kind, id.identifier);
  }

  lemma FirstPart(s: string, head: string, tail: string)
    requires s == head + (";" + tail) && ';' !in head
    ensures IndexOf(s, ';') == |head| < |s| && s[..|head|] == head && s[|head| + 1..] == tail
  {
    IndexOfConcat(head, ';', ";" + tail);
  }

  lemma IndexOfShape(s: string, c: char)
    ensures
      var i := IndexOf(s, c);
      i <= |s| && c !in s[..i] && (i < |s| ==> s[i] == c && s == s[..i] + [c] + s[i + 1..])
  {
    hide IndexOf;
  }

  const GROUP_LABEL := "unknown-group:"

  function OfOption(o: Option<string>): seq<string> {
    if o.Some? then [o.value] else []
  }

  function NormalizeAll(handles: seq<string>): seq<string> {
    if handles == [] then [] else OfOption(NormalizeHandle(handles[0])) + NormalizeAll(handles[1..])
  }

  /** The members of the conversation as far as the chat record or the chat id name them. */
  function NamedMembers(chatId: string, chatMap: map<string, CloudChat>): seq<string> {
    if chatId in chatMap then
      var chat := chatMap[chatId];
      NormalizeAll(chat.participants) + OfOption(NormalizeHandle(chat.lastAddressedHandle))
    else
      match ParseChatId(chatId)
      case None => []
      case Some(id) =>
        if id.kind == "-" then OfOption(NormalizeHandle(id.identifier))
        else [GROUP_LABEL + id.identifier]
  }

  function ChatRefFor(chatId: string, service: string, chatMap: map<string, CloudChat>,
                      sender: string, destination: string): ChatRef
  {
    var displayName :=
      if chatId in chatMap && chatMap[chatId].displayName != Some("") then chatMap[chatId].displayName else None;
    var members := NamedMembers(chatId, chatMap)
                   + OfOption(NormalizeHandle(destination)) + OfOption(NormalizeHandle(sender));
    var known := if members == [] then ["unknown-" + service] else members;
    ChatRef(SortDedup(known), displayName, Some(service))
  }

  function KeyFor(chatId: string, service: string, chatMap: map<string, CloudChat>,
                  sender: string, destination: string): string
  {
    Key(ChatRefFor(chatId, service, chatMap, sender, destination).participants)
  }

  lemma SortingKeepsMembers(a: seq<string>)
    ensures Members(SortDedup(a)) == Members(a)
  {
    SortDedupShape(a);
    assert forall p :: p in SortDedup(a) <==> p in a;
  }

  lemma MembersOfConcat(a: seq<string>, b: seq<string>)
    ensures Members(a + b) == Members(a) + Members(b)
  {
  }

  /** The conversation a message lands in is exactly the set of parties it names. */
  lemma MembersOfChatRef(chatId: string, service: string, chatMap: map<string, CloudChat>,
                         sender: string, destination: string)
    ensures
      var parties := Members(NamedMembers(chatId, chatMap)) + Members(OfOption(NormalizeHandle(destination)))
                     + Members(OfOption(NormalizeHandle(sender)));
      Members(ChatRefFor(chatId, service, chatMap, sender, destination).participants)
      == if parties == {} then {Lower("unknown-" + service)} else parties
  {
    var named := NamedMembers(chatId, chatMap);
    var dest := OfOption(NormalizeHandle(destination));
    var from := OfOption(NormalizeHandle(sender));
    var members := named + dest + from;
    MembersOfConcat(named, dest);
    MembersOfConcat(named + dest, from);
    SortingKeepsMembers(if members == [] then ["unknown-" + service] else members);
    if members != [] {
      assert Lower(members[0]) in Members(members);
    }
  }

  /** A one-to-one conversation with no chat record: the key does not depend on who wrote the
      message, and it is the key the push path computes from the full member list. */
  lemma DirectConversationKey(chatId: string, service: string, chatMap: map<string, CloudChat>,
                              sender: string, me: string, push: seq<string>)
    requires chatId !in chatMap && ParseChatId(chatId).Some? && ParseChatId(chatId).value.kind == "-"
    requires var other := NormalizeHandle(ParseChatId(chatId).value.identifier);
             && other.Some? && NormalizeHandle(me).Some?
             && NormalizeHandle(sender) in {None, other, NormalizeHandle(me)}
             && Members(push) == {Lower(other.value), Lower(NormalizeHandle(me).value)}
    ensures KeyFor(chatId, service, chatMap, sender, me) == Key(push)
  {
    hide NormalizeHandle, ParseChatId, Key, Lower;
    var other := NormalizeHandle(ParseChatId(chatId).value.identifier).value;
    MembersOfChatRef(chatId, service, chatMap, sender, me);
    assert Members([other]) == {Lower(other)};
    assert Members([NormalizeHandle(me).value]) == {Lower(NormalizeHandle(me).value)};
    assert Lower(other) in Members(push);
    KeyIgnoresOrderAndCase(ChatRefFor(chatId, service, chatMap, sender, me).participants, push);
  }

  /** A handle names a member of a conversation: the member is its normal form, letter case ignored. */
  ghost predicate Calls(handle: string, member: string) {
    NormalizeHandle(handle).Some? && Lower(NormalizeHandle(handle).value) == member
  }

  lemma {:induction false} MembersOfAll(handles: seq<string>, member: string)
    ensures member in Members(NormalizeAll(handles)) <==> exists h :: h in handles && Calls(h, member)
  {
    hide NormalizeHandle;
    if handles != [] {
      MembersOfAll(handles[1..], member);
      MembersOfConcat(OfOption(NormalizeHandle(handles[0])), NormalizeAll(handles[1..]));
      MembersOfOption(handles[0], member);
      assert handles == [handles[0]] + handles[1..];
    }
  }

  lemma MembersOfOption(handle: string, member: string)
    ensures member in Members(OfOption(NormalizeHandle(handle))) <==> Calls(handle, member)
  {
    hide NormalizeHandle;
    if Calls(handle, member) {
      assert NormalizeHandle(handle).value in OfOption(NormalizeHandle(handle));
    }
  }

  /** Whom a message of a recorded conversation names: the participants of the record, the handle it was
      last addressed from, our handle and the sender. */
  ghost predicate Names(chat: CloudChat, sender: string, destination: string, member: string) {
    || (exists p :: p in chat.participants && Calls(p, member))
    || Calls(chat.lastAddressedHandle, member) || Calls(destination, member) || Calls(sender, member)
  }

  /** The members of a recorded conversation are exactly those, or if there are none the bucket of the
      service. */
  lemma MembersOfRecordedChat(chatId: string, service: string, chatMap: map<string, CloudChat>,
                              sender: string, destination: string, member: string)
    requires chatId in chatMap
    ensures
      var chat := chatMap[chatId];
      member in Members(ChatRefFor(chatId, service, chatMap, sender, destination).participants) <==>
        if exists m :: Names(chat, sender, destination, m) then Names(chat, sender, destination, member)
        else member == Lower("unknown-" + service)
  {
    hide NormalizeHandle, NormalizeAll, ChatRefFor, Members;
    var chat := chatMap[chatId];
    var parties := Members(NamedMembers(chatId, chatMap)) + Members(OfOption(NormalizeHandle(destination)))
                   + Members(OfOption(NormalizeHandle(sender)));
    MembersOfChatRef(chatId, service, chatMap, sender, destination);
    forall m
      ensures m in parties <==> Names(chat, sender, destination, m)
    {
      MembersOfAll(chat.participants, m);
      MembersOfConcat(NormalizeAll(chat.participants), OfOption(NormalizeHandle(chat.lastAddressedHandle)));
      MembersOfOption(chat.lastAddressedHandle, m);
      MembersOfOption(destination, m);
      MembersOfOption(sender, m);
    }
    if parties != {} {
      var m :| m in parties;
      assert Names(chat, sender, destination, m);
    }
  }

  /** Whom a message names when there is no record: the other party, or the group's own label, and our
      handle and the sender. */
  ghost predicate NamesUnrecorded(chatId: string, sender: string, destination: string, member: string) {
    || (exists id :: ParseChatId(chatId) == Some(id)
                     && if id.kind == "-" then Calls(id.identifier, member)
                        else member == Lower("unknown-group:" + id.identifier))
    || Calls(destination, member) || Calls(sender, member)
  }

  lemma MembersOfUnrecordedChat(chatId: string, service: string, chatMap: map<string, CloudChat>,
                                sender: string, destination: string, member: string)
    requires chatId !in chatMap
    ensures
      member in Members(ChatRefFor(chatId, service, chatMap, sender, destination).participants) <==>
        if exists m :: NamesUnrecorded(chatId, sender, destination, m)
        then NamesUnrecorded(chatId, sender, destination, member)
        else member == Lower("unknown-" + service)
  {
    hide NormalizeHandle, ParseChatId, ChatRefFor, Members;
    var parties := Members(NamedMembers(chatId, chatMap)) + Members(OfOption(NormalizeHandle(destination)))
                   + Members(OfOption(NormalizeHandle(sender)));
    MembersOfChatRef(chatId, service, chatMap, sender, destination);
    forall m
      ensures m in parties <==> NamesUnrecorded(chatId, sender, destination, m)
    {
      NamedUnrecorded(chatId, chatMap, m);
      MembersOfOption(destination, m);
      MembersOfOption(sender, m);
    }
    if parties != {} {
      var m :| m in parties;
      assert NamesUnrecorded(chatId, sender, destination, m);
    }
  }

  lemma NamedUnrecorded(chatId: string, chatMap: map<string, CloudChat>, member: string)
    requires chatId !in chatMap
    ensures member in Members(NamedMembers(chatId, chatMap)) <==>
            exists id :: ParseChatId(chatId) == Some(id)
                         && if id.kind == "-" then Calls(id.identifier, member)
                            else member == Lower("unknown-group:" + id.identifier)
  {
    hide NormalizeHandle, ParseChatId;
    if ParseChatId(chatId).Some? {
      var id := ParseChatId(chatId).value;
      MembersOfOption(id.identifier, member);
      assert "unknown-group:" + id.identifier in ["unknown-group:" + id.identifier];
    }
  }

  /** A message of a recorded conversation between listed people gets the key that the push path
      computes from the same people, whoever wrote it. */
  lemma RecordedPushKey(chatId: string, service: string, chatMap: map<string, CloudChat>,
                        sender: string, destination: string, push: seq<string>)
    requires chatId in chatMap && push != []
    requires forall m :: m in Members(push) <==>
               (exists p :: p in chatMap[chatId].participants && Calls(p, m))
               || Calls(chatMap[chatId].lastAddressedHandle, m)
    requires forall m :: Calls(sender, m) || Calls(destination, m) ==> m in Members(push)
    ensures KeyFor(chatId, service, chatMap, sender, destination) == Key(push)
  {
    hide NormalizeHandle, ChatRefFor, Key, Calls;
    var participants := ChatRefFor(chatId, service, chatMap, sender, destination).participants;
    assert Lower(push[0]) in Members(push);
    forall m
      ensures m in Members(participants) <==> m in Members(push)
    {
      assert Names(chatMap[chatId], sender, destination, Lower(push[0]));
      MembersOfRecordedChat(chatId, service, chatMap, sender, destination, m);
    }
    KeyIgnoresOrderAndCase(participants, push);
  }

  /** What else a conversation record is read for: a name that is not empty. */
  lemma NameOfChat(chatId: string, service: string, chatMap: map<string, CloudChat>,
                   sender: string, destination: string, name: string)
    ensures ChatRefFor(chatId, service, chatMap, sender, destination).displayName == Some(name)
            <==> chatId in chatMap && chatMap[chatId].displayName == Some(name) && name != ""
    ensures ChatRefFor(chatId, service, chatMap, sender, destination).service == Some(service)
  {
  }

  /** Whom a message names beside the members that the chat record or the chat id names. */
  ghost function Strangers(chatId: string, chatMap: map<string, CloudChat>, sender: string, destination: string):
    set<string>
  {
    Members(OfOption(NormalizeHandle(destination))) + Members(OfOption(NormalizeHandle(sender)))
    - Members(NamedMembers(chatId, chatMap))
  }

  lemma MembersAreNamedOrStrangers(chatId: string, service: string, chatMap: map<string, CloudChat>,
                                   sender: string, destination: string)
    requires Members(NamedMembers(chatId, chatMap)) != {}
    ensures Members(ChatRefFor(chatId, service, chatMap, sender, destination).participants)
            == Members(NamedMembers(chatId, chatMap)) + Strangers(chatId, chatMap, sender, destination)
  {
    hide NamedMembers, NormalizeHandle, Members, ChatRefFor;
    MembersOfChatRef(chatId, service, chatMap, sender, destination);
  }

  /** Two messages of a recorded conversation get one key when they name the same strangers, in
      particular when sender and destination are listed members. */
  lemma RecordedConversationKey(chatId: string, service: string, chatMap: map<string, CloudChat>,
                                sender1: string, destination1: string, sender2: string, destination2: string)
    requires Members(NamedMembers(chatId, chatMap)) != {}
    requires Strangers(chatId, chatMap, sender1, destination1) == Strangers(chatId, chatMap, sender2, destination2)
    ensures KeyFor(chatId, service, chatMap, sender1, destination1)
            == KeyFor(chatId, service, chatMap, sender2, destination2)
  {
    hide Strangers, NamedMembers, ChatRefFor, Key, Members;
    MembersAreNamedOrStrangers(chatId, service, chatMap, sender1, destination1);
    MembersAreNamedOrStrangers(chatId, service, chatMap, sender2, destination2);
    KeyIgnoresOrderAndCase(ChatRefFor(chatId, service, chatMap, sender1, destination1).participants,
                           ChatRefFor(chatId, service, chatMap, sender2, destination2).participants);
  }

  /** And with well-formed members only then: a sender or destination outside the record splits the
      conversation. */
  lemma RecordedConversationKeyIff(chatId: string, service: string, chatMap: map<string, CloudChat>,
                                   sender1: string, destination1: string, sender2: string, destination2: string)
    requires Members(NamedMembers(chatId, chatMap)) != {}
    requires Separable(ChatRefFor(chatId, service, chatMap, sender1, destination1).participants, ';')
    requires Separable(ChatRefFor(chatId, service, chatMap, sender2, destination2).participants, ';')
    ensures KeyFor(chatId, service, chatMap, sender1, destination1)
            == KeyFor(chatId, service, chatMap, sender2, destination2)
            <==> Strangers(chatId, chatMap, sender1, destination1) == Strangers(chatId, chatMap, sender2, destination2)
  {
    hide NamedMembers, NormalizeHandle, ChatRefFor, Key, Members, Separable;
    MembersAreNamedOrStrangers(chatId, service, chatMap, sender1, destination1);
    MembersAreNamedOrStrangers(chatId, service, chatMap, sender2, destination2);
    KeyEqualIffSameMembers(ChatRefFor(chatId, service, chatMap, sender1, destination1).participants,
                           ChatRefFor(chatId, service, chatMap, sender2, destination2).participants);
  }

  // --- groups without a chat record ---

  ghost predicate UnknownGroup(chatId: string, chatMap: map<string, CloudChat>) {
    && chatId !in chatMap
    && ParseChatId(chatId).Some?
    && ParseChatId(chatId).value.kind != "-"
  }

  /** The member that stands for a group without a record. */
  function GroupTag(identifier: string): string {
    GROUP_LABEL + identifier
  }

  lemma GroupTagShape(identifier: string)
    ensures GROUP_LABEL <= GroupTag(identifier) && GroupTag(identifier) != ""
    ensures Lower(GroupTag(identifier)) == GroupTag(Lower(identifier))
    ensures ';' !in identifier ==> ';' !in GroupTag(identifier)
  {
  }

  lemma GroupTagInjective(a: string, b: string)
    requires GroupTag(a) == GroupTag(b)
    ensures a == b
  {
    assert GroupTag(a)[|GROUP_LABEL|..] == a && GroupTag(b)[|GROUP_LABEL|..] == b;
  }

  /** The members of a group without a record: its tag, our handle and the sender. */
  lemma UnknownGroupMembers(chatId: string, service: string, chatMap: map<string, CloudChat>,
                            sender: string, destination: string)
    requires UnknownGroup(chatId, chatMap)
    ensures
      var parties := [GroupTag(ParseChatId(chatId).value.identifier)] + OfOption(NormalizeHandle(destination))
                     + OfOption(NormalizeHandle(sender));
      ChatRefFor(chatId, service, chatMap, sender, destination).participants == SortDedup(parties)
  {
  }

  /** The label of a group without a record, as it stands in the key. */
  ghost function Label(chatId: string): string
    requires ParseChatId(chatId).Some?
  {
    Lower(GroupTag(ParseChatId(chatId).value.identifier))
  }

  /** Our handle and the sender, as they stand in the key. */
  ghost function People(sender: string, destination: string): set<string> {
    Members(OfOption(NormalizeHandle(destination))) + Members(OfOption(NormalizeHandle(sender)))
  }

  ghost predicate WithoutSemicolon(handle: string) {
    NormalizeHandle(handle).Some? ==> ';' !in NormalizeHandle(handle).value
  }

  lemma NormalizedIsNotEmpty(handle: string)
    ensures NormalizeHandle(handle) != Some("")
  {
  }

  lemma UnknownGroupSeparable(chatId: string, service: string, chatMap: map<string, CloudChat>,
                              sender: string, destination: string)
    requires UnknownGroup(chatId, chatMap) && ';' !in ParseChatId(chatId).value.identifier
    requires WithoutSemicolon(sender) && WithoutSemicolon(destination)
    ensures
      var participants := ChatRefFor(chatId, service, chatMap, sender, destination).participants;
      Separable(participants, ';') && Members(participants) == {Label(chatId)} + People(sender, destination)
  {
    hide ParseChatId, NormalizeHandle, SortDedup, ChatRefFor, GroupTag, Lower;
    var tag := GroupTag(ParseChatId(chatId).value.identifier);
    var dest, from := OfOption(NormalizeHandle(destination)), OfOption(NormalizeHandle(sender));
    GroupTagShape(ParseChatId(chatId).value.identifier);
    NormalizedIsNotEmpty(sender);
    NormalizedIsNotEmpty(destination);
    UnknownGroupMembers(chatId, service, chatMap, sender, destination);
    SortDedupShape([tag] + dest + from);
    SortingKeepsMembers([tag] + dest + from);
    MembersOfConcat([tag] + dest, from);
    MembersOfConcat([tag], dest);
    assert Members([tag]) == {Lower(tag)};
  }

  /** Without semicolons, messages of two unknown groups share a key exactly when label, handle and
      sender make up one set. */
  lemma UnknownGroupKeyIff(chatId1: string, chatId2: string, service1: string, service2: string,
                           chatMap: map<string, CloudChat>,
                           sender1: string, destination1: string, sender2: string, destination2: string)
    requires UnknownGroup(chatId1, chatMap) && UnknownGroup(chatId2, chatMap)
    requires ';' !in ParseChatId(chatId1).value.identifier && ';' !in ParseChatId(chatId2).value.identifier
    requires WithoutSemicolon(sender1) && WithoutSemicolon(destination1)
    requires WithoutSemicolon(sender2) && WithoutSemicolon(destination2)
    ensures KeyFor(chatId1, service1, chatMap, sender1, destination1)
            == KeyFor(chatId2, service2, chatMap, sender2, destination2)
            <==> {Label(chatId1)} + People(sender1, destination1) == {Label(chatId2)} + People(sender2, destination2)
  {
    hide ParseChatId, NormalizeHandle, Key, ChatRefFor, Label, People, Members, Separable, UnknownGroup;
    UnknownGroupSeparable(chatId1, service1, chatMap, sender1, destination1);
    UnknownGroupSeparable(chatId2, service2, chatMap, sender2, destination2);
    KeyEqualIffSameMembers(ChatRefFor(chatId1, service1, chatMap, sender1, destination1).participants,
                           ChatRefFor(chatId2, service2, chatMap, sender2, destination2).participants);
  }

  lemma SameLabelIff(chatId1: string, chatId2: string)
    requires ParseChatId(chatId1).Some? && ParseChatId(chatId2).Some?
    ensures Label(chatId1) == Label(chatId2)
            <==> Lower(ParseChatId(chatId1).value.identifier) == Lower(ParseChatId(chatId2).value.identifier)
  {
    hide ParseChatId;
    GroupTagShape(ParseChatId(chatId1).value.identifier);
    GroupTagShape(ParseChatId(chatId2).value.identifier);
    if Label(chatId1) == Label(chatId2) {
      GroupTagInjective(Lower(ParseChatId(chatId1).value.identifier), Lower(ParseChatId(chatId2).value.identifier));
    }
  }

  /** So two unknown groups, their ids different whatever the letter case, collide exactly when each
      message names someone who is called like the other group's label, and otherwise the same
      people. */
  lemma UnknownGroupsKeptApart(chatId1: string, chatId2: string, service1: string, service2: string,
                               chatMap: map<string, CloudChat>,
                               sender1: string, destination1: string, sender2: string, destination2: string)
    requires UnknownGroup(chatId1, chatMap) && UnknownGroup(chatId2, chatMap)
    requires ';' !in ParseChatId(chatId1).value.identifier && ';' !in ParseChatId(chatId2).value.identifier
    requires WithoutSemicolon(sender1) && WithoutSemicolon(destination1)
    requires WithoutSemicolon(sender2) && WithoutSemicolon(destination2)
    requires Lower(ParseChatId(chatId1).value.identifier) != Lower(ParseChatId(chatId2).value.identifier)
    ensures KeyFor(chatId1, service1, chatMap, sender1, destination1)
            == KeyFor(chatId2, service2, chatMap, sender2, destination2)
            <==> Imitated(Label(chatId1), Label(chatId2), People(sender1, destination1), People(sender2, destination2))
  {
    hide ParseChatId, NormalizeHandle, KeyFor, Label, People, Lower;
    UnknownGroupKeyIff(chatId1, chatId2, service1, service2, chatMap, sender1, destination1, sender2, destination2);
    SameLabelIff(chatId1, chatId2);
    ImitatedIff(Label(chatId1), Label(chatId2), People(sender1, destination1), People(sender2, destination2));
  }

  ghost predicate Imitated(label1: string, label2: string, people1: set<string>, people2: set<string>) {
    && label2 in people1 && label1 in people2
    && people1 - {label1, label2} == people2 - {label1, label2}
  }

  lemma ImitatedIff(label1: string, label2: string, people1: set<string>, people2: set<string>)
    requires label1 != label2
    ensures {label1} + people1 == {label2} + people2 <==> Imitated(label1, label2, people1, people2)
  {
    if {label1} + people1 == {label2} + people2 {
      assert label2 in {label1} + people1 && label1 in {label2} + people2;
      forall p
        ensures p in people1 - {label1, label2} <==> p in people2 - {label1, label2}
      {
        assert p in {label1} + people1 <==> p in {label2} + people2;
      }
    }
    if Imitated(label1, label2, people1, people2) {
      forall p
        ensures p in {label1} + people1 <==> p in {label2} + people2
      {
        assert p in people1 - {label1, label2} <==> p in people2 - {label1, label2};
      }
    }
  }

  /** Whatever semicolons there are: messages of two unknown groups share a key exactly when label,
      handle and sender, sorted and cut at every semicolon, give the same pieces. */
  lemma UnknownGroupPiecesIff(chatId1: string, chatId2: string, service1: string, service2: string,
                              chatMap: map<string, CloudChat>,
                              sender1: string, destination1: string, sender2: string, destination2: string)
    requires UnknownGroup(chatId1, chatMap) && UnknownGroup(chatId2, chatMap)
    ensures KeyFor(chatId1, service1, chatMap, sender1, destination1)
            == KeyFor(chatId2, service2, chatMap, sender2, destination2)
            <==> Pieces(Parties(chatId1, sender1, destination1)) == Pieces(Parties(chatId2, sender2, destination2))
  {
    hide ParseChatId, NormalizeHandle, Key, ChatRefFor, SortDedup, Pieces;
    UnknownGroupParties(chatId1, service1, chatMap, sender1, destination1);
    UnknownGroupParties(chatId2, service2, chatMap, sender2, destination2);
    KeyEqualIffSamePieces(Parties(chatId1, sender1, destination1), Parties(chatId2, sender2, destination2));
  }

  ghost function Parties(chatId: string, sender: string, destination: string): seq<string>
    requires ParseChatId(chatId).Some?
  {
    [GroupTag(ParseChatId(chatId).value.identifier)] + OfOption(NormalizeHandle(destination))
    + OfOption(NormalizeHandle(sender))
  }

  lemma UnknownGroupParties(chatId: string, service: string, chatMap: map<string, CloudChat>,
                            sender: string, destination: string)
    requires UnknownGroup(chatId, chatMap)
    ensures KeyFor(chatId, service, chatMap, sender, destination) == Key(Parties(chatId, sender, destination))
  {
    hide ParseChatId, NormalizeHandle, Key, ChatRefFor, SortDedup;
    UnknownGroupMembers(chatId, service, chatMap, sender, destination);
    SortingKeepsMembers(Parties(chatId, sender, destination));
    KeyIgnoresOrderAndCase(ChatRefFor(chatId, service, chatMap, sender, destination).participants,
                           Parties(chatId, sender, destination));
  }

  /** Without the restriction on ';' two different groups do collide: the semicolon left
      inside an identifier is indistinguishable from the separator. */
  lemma SemicolonGroupsCollide(plain: string, split: string, service: string, chatMap: map<string, CloudChat>,
                               member: string)
    requires UnknownGroup(plain, chatMap) && UnknownGroup(split, chatMap)
    requires NormalizeHandle(member) == Some(member)
    requires LexLess(GroupTag(ParseChatId(plain).value.identifier), member)
    requires LexLess(Lower(GroupTag(ParseChatId(plain).value.identifier)), Lower(member))
    requires ParseChatId(split).value.identifier == ParseChatId(plain).value.identifier + ";" + member
    ensures KeyFor(plain, service, chatMap, member, "") == KeyFor(split, service, chatMap, "", "")
  {
    var tag := GroupTag(ParseChatId(plain).value.identifier);
    var whole := GroupTag(ParseChatId(split).value.identifier);
    UnknownGroupMembers(plain, service, chatMap, member, "");
    UnknownGroupMembers(split, service, chatMap, "", "");
    assert NormalizeHandle("") == None;
    assert [tag] + [] + [member] == [tag, member] && [whole] + [] + [] == [whole];
    PairKey(tag, member);
    SingleKey(whole);
    Regroup(GROUP_LABEL, ParseChatId(plain).value.identifier, ";", member);
    LowerJoined(tag, member);
  }

  lemma Regroup(a: string, b: string, c: string, d: string)
    ensures a + (b + c + d) == a + b + c + d
  {}

  lemma LowerJoined(a: string, b: string)
    ensures Lower(a + ";" + b) == Lower(a) + ";" + Lower(b)
  {}

  lemma SortPair(a: string, b: string)
    requires LexLess(a, b)
    ensures SortDedup([a, b]) == [a, b]
  {
    assert [a, b][1..] == [b] && [b][1..] == [];
    assert SortDedup([b]) == [b];
  }

  lemma PairKey(a: string, b: string)
    requires LexLess(a, b) && LexLess(Lower(a), Lower(b))
    ensures Key(SortDedup([a, b])) == Lower(a) + ";" + Lower(b)
  {
    SortPair(a, b);
    assert LowerAll([a, b]) == [Lower(a), Lower(b)];
    SortPair(Lower(a), Lower(b));
    JoinPair(Lower(a), Lower(b));
  }

  lemma JoinPair(a: string, b: string)
    ensures Join([a, b], ';') == a + ";" + b
  {
  }

  lemma SingleKey(a: string)
    ensures Key(SortDedup([a])) == Lower(a)
  {
    assert [a][1..] == [] && [Lower(a)][1..] == [];
    assert SortDedup([a]) == [a];
    assert LowerAll([a]) == [Lower(a)];
    assert SortDedup([Lower(a)]) == [Lower(a)];
  }

  /** Every identifier, semicolons included, comes from some group chat id. */
  lemma GroupIdExists(identifier: string)
    requires identifier != ""
    ensures ParseChatId("SMS;+;" + identifier) == Some(ChatId("SMS", "+", identifier))
  {
    assert "SMS;+;" + identifier == "SMS" + ";" + "+" + ";" + identifier;
    ParseChatIdIff("SMS;+;" + identifier, ChatId("SMS", "+", identifier));
  }

  /** A member that makes the collision happen. */
  lemma CollidingMember()
    ensures NormalizeHandle("zz") == Some("zz")
    ensures LexLess(GroupTag("a"), "zz") && LexLess(Lower(GroupTag("a")), Lower("zz"))
  {
    GroupTagShape("a");
    VerbatimHandle("zz");
    assert GroupTag("a")[0] == 'u' && Lower(GroupTag("a"))[0] == 'u' && Lower("zz")[0] == 'z';
  }

  /** So the group "a", in a message from "zz", and the group "a;zz" get one key. */
  lemma SemicolonCollision(service: string)
    ensures ParseChatId("SMS;+;" + "a").Some? && ParseChatId("SMS;+;" + "a;zz").Some?
    ensures ParseChatId("SMS;+;" + "a").value.identifier == "a"
    ensures ParseChatId("SMS;+;" + "a;zz").value.identifier == "a;zz"
    ensures KeyFor("SMS;+;" + "a", service, map[], "zz", "") == KeyFor("SMS;+;" + "a;zz", service, map[], "", "")
  {
    hide ParseChatId, NormalizeHandle, Lower, LexLess, KeyFor, GroupTag;
    GroupIdExists("a");
    GroupIdExists("a;zz");
    CollidingMember();
    assert "a;zz" == "a" + ";" + "zz";
    SemicolonGroupsCollide("SMS;+;" + "a", "SMS;+;" + "a;zz", service, map[], "zz");
  }

  /** Two groups collide when a member of each imitates the other's label. */
  lemma ImitatedLabelsCollide(one: string, other: string, service: string, chatMap: map<string, CloudChat>)
    requires UnknownGroup(one, chatMap) && UnknownGroup(other, chatMap)
    requires
      var tag, tag' := GroupTag(ParseChatId(one).value.identifier), GroupTag(ParseChatId(other).value.identifier);
      NormalizeHandle(tag) == Some(tag) && NormalizeHandle(tag') == Some(tag')
    ensures
      var tag, tag' := GroupTag(ParseChatId(one).value.identifier), GroupTag(ParseChatId(other).value.identifier);
      KeyFor(one, service, chatMap, tag', "") == KeyFor(other, service, chatMap, tag, "")
  {
    var tag, tag' := GroupTag(ParseChatId(one).value.identifier), GroupTag(ParseChatId(other).value.identifier);
    UnknownGroupMembers(one, service, chatMap, tag', "");
    UnknownGroupMembers(other, service, chatMap, tag, "");
    assert NormalizeHandle("") == None;
    assert [tag] + [] + [tag'] == [tag, tag'] && [tag'] + [] + [tag] == [tag', tag];
    SortingKeepsMembers([tag, tag']);
    SortingKeepsMembers([tag', tag]);
    assert Members([tag, tag']) == Members([tag', tag]);
    KeyIgnoresOrderAndCase(SortDedup([tag, tag']), SortDedup([tag', tag]));
  }

  /** A handle without digits and "@" is kept as it is, unless it is a mail prefix. */
  lemma VerbatimHandle(handle: string)
    requires handle != "" && Trimmed(handle) && handle[0] != 'm' && handle[0] != 'M'
    requires forall c :: c in handle ==> !IsDigit(c) && c != '@'
    ensures NormalizeHandle(handle) == Some(handle)
  {
    TrimShape(handle);
    var lower := Lower(handle);
    assert !("mailto:" <= lower) by {
      assert lower[0] == LowerChar(handle[0]) != 'm';
    }
    assert '@' !in lower && forall c :: c in lower ==> !IsDigit(c) by {
      forall i | 0 <= i < |lower|
        ensures lower[i] != '@' && !IsDigit(lower[i])
      {
        assert handle[i] in handle;
      }
    }
    NoDigits(if "tel:" <= lower then lower[4..] else lower);
  }

  lemma {:induction false} NoDigits(s: string)
    requires forall c :: c in s ==> !IsDigit(c)
    ensures Digits(s) == ""
  {
    if s != "" {
      NoDigits(s[1..]);
    }
  }

  /** So the groups "a" and "b" get one key. */
  lemma ImitationCollision(service: string)
    ensures
      KeyFor("SMS;+;" + "a", service, map[], GroupTag("b"), "")
      == KeyFor("SMS;+;" + "b", service, map[], GroupTag("a"), "")
  {
    hide ParseChatId, NormalizeHandle, KeyFor, SortDedup;
    GroupIdExists("a");
    GroupIdExists("b");
    VerbatimHandle(GroupTag("a"));
    VerbatimHandle(GroupTag("b"));
    ImitatedLabelsCollide("SMS;+;" + "a", "SMS;+;" + "b", service, map[]);
  }
}
