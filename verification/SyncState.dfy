/** The sync state kept on disk: the cursor file and the chat-zone cache file. */
module SyncState {
  import opened Options
  import opened Conversations
  import opened Zone
  import SyncMachine

  /** The contents of the cursor file. */
  datatype CursorFile = CursorFile(
    messagesToken: Option<Token>,
    messagesComplete: bool,
    chatsToken: Option<Token>,
    chatsComplete: bool,
    recordsScanned: nat,
    lastScanTotal: nat,
    accountDsid: Option<string>)
  {
    function Messages(): SyncMachine.Cursor {
      SyncMachine.Cursor(messagesToken, messagesComplete, recordsScanned, lastScanTotal)
    }
  }

  const EMPTY_CURSOR := CursorFile(None, false, None, false, 0, 0, None)

  /** Where the incremental sync stands, updated in place by the walks. */
  class SyncCursor {
    var messagesToken: Option<Token>
    var messagesComplete: bool
    var chatsToken: Option<Token>
    var chatsComplete: bool
    var recordsScanned: nat
    var lastScanTotal: nat
    var accountDsid: Option<string>

    constructor (file: CursorFile)
      ensures Value() == file
    {
      messagesToken, messagesComplete := file.messagesToken, file.messagesComplete;
      chatsToken, chatsComplete := file.chatsToken, file.chatsComplete;
      recordsScanned, lastScanTotal := file.recordsScanned, file.lastScanTotal;
      accountDsid := file.accountDsid;
    }

    function Value(): CursorFile
      reads this
    {
      CursorFile(messagesToken, messagesComplete, chatsToken, chatsComplete, recordsScanned, lastScanTotal,
                 accountDsid)
    }

    method Assign(file: CursorFile)
      modifies this
      ensures Value() == file
    {
      messagesToken, messagesComplete := file.messagesToken, file.messagesComplete;
      chatsToken, chatsComplete := file.chatsToken, file.chatsComplete;
      recordsScanned, lastScanTotal := file.recordsScanned, file.lastScanTotal;
      accountDsid := file.accountDsid;
    }
  }

  /** Chat-zone records by record name. */
  class ChatCache {
    var chats: map<string, CloudChat>

    constructor (contents: map<string, CloudChat>)
      ensures chats == contents
    {
      chats := contents;
    }
  }

  /** An attempt to write one of the two files. */
  datatype Write = CursorWrite(file: CursorFile) | ChatsWrite(cache: map<string, CloudChat>)

  /** The state directory. A write creates the file and then fills it: one that fails at once leaves the
      old file, one that breaks off leaves a file that cannot be read, and such a file reads as
      empty. */
  class Disk {
    var cursor: CursorFile
    var chats: map<string, CloudChat>
    // Whether a write of the cursor ever broke off.
    ghost var torn: bool
    // What was attempted, in order.
    ghost var writes: seq<Write>

    constructor (file: CursorFile, cache: map<string, CloudChat>)
      ensures cursor == file && chats == cache && writes == [] && !torn
    {
      cursor, chats, writes, torn := file, cache, [], false;
    }

    method WriteCursor(file: CursorFile)
      modifies this`cursor, this`writes, this`torn
      ensures cursor == file || cursor == old(cursor) || (torn && cursor == EMPTY_CURSOR)
      ensures old(torn) ==> torn
      ensures writes == old(writes) + [CursorWrite(file)]
    {
      writes := writes + [CursorWrite(file)];
      if * {
        cursor := file;
      } else if * {
        cursor, torn := EMPTY_CURSOR, true;
      }
    }

    method WriteChats(cache: map<string, CloudChat>)
      modifies this`chats, this`writes
      ensures chats == cache || chats == old(chats) || chats == map[]
      ensures writes == old(writes) + [ChatsWrite(cache)]
    {
      writes := writes + [ChatsWrite(cache)];
      if * {
        chats := cache;
      } else if * {
        chats := map[];
      }
    }
  }
}
