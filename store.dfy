/**
 * The persisted conversation collection. Every operation reads the whole
 * collection, changes at most one record and writes the whole collection
 * back; nothing is cached between calls.
 */
module Store {
  import opened Wrappers
  import opened Conversations

  /** The name of the single persisted record that holds the collection. */
  const StorageKey: string := "unify_conversations"

  class ConversationStore {
    /** The collection as the last write left it. */
    var convos: seq<Conversation>

    /**
     * Opens the store over what the page finds persisted: `None` stands for
     * content that does not parse, which every read treats as no conversations.
     */
    constructor (stored: Option<seq<Conversation>>)
      ensures convos == (if stored.Some? then stored.value else [])
    {
      convos := if stored.Some? then stored.value else [];
    }

    /** `loadConversations`: the whole collection. */
    method Load() returns (cs: seq<Conversation>)
      ensures cs == convos
    {
      cs := convos;
    }

    /** `saveConversations`: replaces the whole collection. */
    method Save(cs: seq<Conversation>)
      modifies this
      ensures convos == cs
    {
      convos := cs;
    }

    /** `createConversation`: pushes a fresh open, empty record at the end and returns it. */
    method CreateConversation(id: ConvId, now: Timestamp) returns (conv: Conversation)
      modifies this
      ensures conv.id == id && conv.createdAt == now && conv.status == Open && conv.messages == []
      ensures convos == old(convos) + [conv]
    {
      var cs := Load();
      conv := NewConversation(id, now);
      cs := cs + [conv];
      Save(cs);
    }

    /**
     * `addMessage`: pushes a message onto the first record with `id` and
     * returns it; with no such record it returns nothing and writes nothing.
     */
    method AddMessage(id: ConvId, sender: Sender, text: string, now: Timestamp) returns (msg: Option<Message>)
      modifies this
      ensures FirstIndex(old(convos), id).None? ==> msg == None && convos == old(convos)
      ensures FirstIndex(old(convos), id).Some? ==> msg == Some(Message(sender, text, now))
      ensures convos == AppendMessage(old(convos), id, Message(sender, text, now))
    {
      var cs := Load();
      var k := FirstIndex(cs, id);
      if k.None? {
        return None;
      }
      var m := Message(sender, text, now);
      cs := AppendMessageAt(cs, k.value, m);
      Save(cs);
      msg := Some(m);
    }

    /**
     * `updateConversationStatus`: sets the status of the first record with
     * `id` and returns that record; with no such record it returns nothing
     * and writes nothing.
     */
    method UpdateConversationStatus(id: ConvId, status: Status) returns (conv: Option<Conversation>)
      modifies this
      ensures FirstIndex(old(convos), id).None? ==> conv == None && convos == old(convos)
      ensures FirstIndex(old(convos), id).Some? ==>
        conv == Some(old(convos)[FirstIndex(old(convos), id).value].(status := status))
      ensures convos == SetStatus(old(convos), id, status)
    {
      var cs := Load();
      var k := FirstIndex(cs, id);
      if k.None? {
        return None;
      }
      cs := SetStatusAt(cs, k.value, status);
      Save(cs);
      conv := Some(cs[k.value]);
    }

    /** `getLastConversation`: nothing iff the collection is empty, otherwise its final record. */
    method GetLastConversation() returns (last: Option<Conversation>)
      ensures last == Last(convos)
    {
      var cs := Load();
      if |cs| == 0 {
        return None;
      }
      last := Some(cs[|cs| - 1]);
    }
  }
}
