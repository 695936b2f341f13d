/**
 * The state effects of the support-chat widget's handlers: which
 * conversation is active, what each button writes to the store, and which
 * simulation timers it arms or cancels. Rendering is not modelled.
 */
module Chat {
  import opened Wrappers
  import opened TextOps
  import opened Replies
  import opened Conversations
  import opened Store
  import opened Simulation

  /** The bot's first message in a conversation the chat button or the new-conversation button starts. */
  const Greeting: string := "Olá! Eu sou o assistente automático. Descreva em poucas palavras como posso ajudar."
  /** The bot's notice on a transfer to a human attendant. */
  const TransferNotice: string := "Conversa encaminhada para atendimento humano. Aguarde, um atendente assumirá em breve."
  /** The bot's first message in a conversation the simulate button starts. */
  const SimulationNotice: string := "Conversa iniciada (simulação)."

  /**
   * The collection after `createConversation` with `id` followed by
   * `addMessage(id, 'bot', text)`.
   */
  function StartedWith(cs: seq<Conversation>, id: ConvId, now: Timestamp, text: string): (r: seq<Conversation>)
    ensures |r| == |cs| + 1
    ensures r[..|cs|] == AppendMessage(cs, id, Message(Bot, text, now))
    ensures r[|cs|] == NewConversation(id, now)
            || (FirstIndex(cs, id).None? && r[|cs|] == Conversation(id, now, Open, [Message(Bot, text, now)]))
  {
    var m := Message(Bot, text, now);
    var created := NewConversation(id, now);
    assert AppendMessage(cs + [created], id, m)[..|cs|] == AppendMessage(cs, id, m) by {
      FirstIndexAfterPush(cs, created);
      if FirstIndex(cs, id).Some? {
        var k := FirstIndex(cs, id).value;
        assert AppendMessageAt(cs + [created], k, m) == AppendMessageAt(cs, k, m) + [created];
      }
    }
    AppendMessage(cs + [created], id, m)
  }

  /** With an id no record carries yet, the opening message lands in the record just created. */
  lemma OpeningMessageInNewRecord(cs: seq<Conversation>, id: ConvId, now: Timestamp, text: string)
    requires FirstIndex(cs, id).None?
    ensures StartedWith(cs, id, now, text) == cs + [Conversation(id, now, Open, [Message(Bot, text, now)])]
  {
    var r := StartedWith(cs, id, now, text);
    assert r[..|cs|] == cs;
    assert r == r[..|cs|] + [r[|cs|]];
  }

  /**
   * When the fresh id repeats an earlier record's id (two creations within
   * the same millisecond), the opening message goes to that earlier record
   * and the record just created stays empty.
   */
  lemma OpeningMessageOnRepeatedId(cs: seq<Conversation>, id: ConvId, now: Timestamp, text: string, k: nat)
    requires FirstIndex(cs, id) == Some(k)
    ensures StartedWith(cs, id, now, text) == AppendMessageAt(cs, k, Message(Bot, text, now)) + [NewConversation(id, now)]
  {
    var r := StartedWith(cs, id, now, text);
    assert r[|cs|] == NewConversation(id, now);
    assert r == r[..|cs|] + [r[|cs|]];
  }

  /**
   * A send followed by its typing reply, with the same conversation active
   * throughout: the sent text and then the canned answer, both written as
   * the customer's unless attendant mode was on for the first, end up in
   * that order at the end of the first record with the active id.
   */
  lemma {:induction false} SendThenTypingReply(cs: seq<Conversation>, id: ConvId, k: nat, sent: Message, now: Timestamp)
    requires FirstIndex(cs, id) == Some(k)
    ensures var reply := Message(User, AutoReplyText(sent.text), now);
      AppendMessage(AppendMessage(cs, id, sent), id, reply)
        == cs[k := cs[k].(messages := cs[k].messages + [sent, reply])]
  {
    var reply := Message(User, AutoReplyText(sent.text), now);
    var ms := [sent, reply];
    assert ms[..1] == [sent] && ms[..1][..0] == [];
    assert AppendEach(cs, id, []) == cs;
    assert AppendEach(cs, id, [sent]) == AppendMessage(cs, id, sent);
    assert AppendEach(cs, id, ms) == AppendMessage(AppendEach(cs, id, [sent]), id, reply);
    AppendEachInOrder(cs, id, ms, k);
  }

  class ChatWidget {
    /** The persisted collection every handler reads and writes. */
    const store: ConversationStore
    /** The page-wide simulation timer registry. */
    const scheduler: SimulationScheduler
    /** `activeConversationId`: the conversation the modal shows, if it is open. */
    var active: Option<ConvId>

    constructor (store: ConversationStore, scheduler: SimulationScheduler)
      ensures this.store == store && this.scheduler == scheduler && active == None
    {
      this.store := store;
      this.scheduler := scheduler;
      active := None;
    }

    /**
     * The new-conversation button: creates a record with `newId` and adds
     * the greeting to the first record with `newId`, which becomes active.
     */
    method StartNew(newId: ConvId, now: Timestamp)
      modifies this, store
      ensures active == Some(newId)
      ensures store.convos == StartedWith(old(store.convos), newId, now, Greeting)
    {
      var conv := store.CreateConversation(newId, now);
      active := Some(conv.id);
      var _ := store.AddMessage(newId, Bot, Greeting, now);
    }

    /**
     * The chat button: the last record becomes active when it is not
     * closed, with nothing written; otherwise a new conversation starts as
     * with the new-conversation button.
     */
    method OpenChat(newId: ConvId, now: Timestamp)
      modifies this, store
      ensures var last := Last(old(store.convos));
        if last.Some? && last.value.status != Closed then
          active == Some(last.value.id) && store.convos == old(store.convos)
        else
          active == Some(newId) && store.convos == StartedWith(old(store.convos), newId, now, Greeting)
    {
      var last := store.GetLastConversation();
      if last.Some? && last.value.status != Closed {
        active := Some(last.value.id);
      } else {
        StartNew(newId, now);
      }
    }

    /** The close button (and the Esc key and the modal's X): no conversation is active. */
    method CloseModal()
      modifies this
      ensures active == None
    {
      active := None;
    }

    /**
     * The transfer button: the active conversation becomes waiting, gets
     * the bot's transfer notice and has its simulation timer (re)armed.
     * With no active conversation nothing happens.
     */
    method Transfer(now: Timestamp, handle: TimerHandle, jitter: nat)
      requires scheduler.Valid()
      requires handle !in scheduler.running && jitter < PeriodSpread
      modifies store, scheduler
      ensures scheduler.Valid()
      ensures old(active).None? ==>
        store.convos == old(store.convos) && scheduler.timers == old(scheduler.timers)
      ensures old(active).Some? ==>
        var id := old(active).value;
        store.convos == AppendMessage(SetStatus(old(store.convos), id, Waiting), id, Message(Bot, TransferNotice, now))
        && scheduler.timers == old(scheduler.timers)[id := Interval(handle, MinPeriod + jitter)]
    {
      if active.None? {
        return;
      }
      var id := active.value;
      var _ := store.UpdateConversationStatus(id, Waiting);
      var _ := store.AddMessage(id, Bot, TransferNotice, now);
      scheduler.Start(id, handle, jitter);
    }

    /**
     * The send button: the trimmed input goes to the active conversation,
     * as the attendant's when attendant mode is on (which also cancels that
     * conversation's simulation) and as the customer's otherwise. Empty
     * input or no active conversation changes nothing. The trimmed text is
     * returned for the delayed typing reply.
     */
    method Send(input: string, attendantMode: bool, now: Timestamp) returns (pending: Option<string>)
      requires scheduler.Valid()
      modifies store, scheduler
      ensures scheduler.Valid()
      ensures pending.None? <==> Trim(input) == [] || active.None?
      ensures pending.None? ==>
        store.convos == old(store.convos) && scheduler.timers == old(scheduler.timers)
      ensures pending.Some? ==>
        var id := active.value;
        var sender := if attendantMode then Attendant else User;
        pending.value == Trim(input)
        && store.convos == AppendMessage(old(store.convos), id, Message(sender, pending.value, now))
        && scheduler.timers == (if attendantMode then old(scheduler.timers) - {id} else old(scheduler.timers))
    {
      var text := Trim(input);
      if text == [] || active.None? {
        return None;
      }
      var sender := if attendantMode then Attendant else User;
      var _ := store.AddMessage(active.value, sender, text, now);
      if sender == Attendant {
        scheduler.Stop(active.value);
      }
      pending := Some(text);
    }

    /**
     * The typing reply that follows a send: the canned answer to `text`,
     * added as a customer message to whichever conversation is active when
     * it fires (none: nothing is written).
     */
    method DeliverTypingReply(text: string, now: Timestamp)
      modifies store
      ensures active.None? ==> store.convos == old(store.convos)
      ensures active.Some? ==>
        store.convos == AppendMessage(old(store.convos), active.value, Message(User, AutoReplyText(text), now))
    {
      if active.Some? {
        var _ := store.AddMessage(active.value, User, AutoReplyText(text), now);
      }
    }

    /**
     * The simulate button: with no active conversation it first starts one
     * with the simulation notice; then it cancels the active conversation's
     * timer when it has one and arms one otherwise.
     */
    method ToggleSimulation(newId: ConvId, now: Timestamp, handle: TimerHandle, jitter: nat)
      requires scheduler.Valid()
      requires handle !in scheduler.running && jitter < PeriodSpread
      modifies this, store, scheduler
      ensures scheduler.Valid()
      ensures old(active).None? ==>
        active == Some(newId) && store.convos == StartedWith(old(store.convos), newId, now, SimulationNotice)
      ensures old(active).Some? ==> active == old(active) && store.convos == old(store.convos)
      ensures active.Some?
      ensures var id := active.value;
        scheduler.timers ==
          if id in old(scheduler.timers) then old(scheduler.timers) - {id}
          else old(scheduler.timers)[id := Interval(handle, MinPeriod + jitter)]
    {
      if active.None? {
        var conv := store.CreateConversation(newId, now);
        active := Some(conv.id);
        var _ := store.AddMessage(newId, Bot, SimulationNotice, now);
      }
      var id := active.value;
      if id in scheduler.timers {
        scheduler.Stop(id);
      } else {
        scheduler.Start(id, handle, jitter);
      }
    }

    /**
     * The in-page new-message listener: when the announced conversation is
     * the active one and its last message is an attendant's, its timer is
     * cancelled; nothing else changes.
     */
    method OnNewMessage(convId: ConvId)
      requires scheduler.Valid()
      modifies scheduler
      ensures scheduler.Valid()
      ensures var c := Find(store.convos, convId);
        scheduler.timers ==
          if active == Some(convId) && c.Some? && AttendantSpokeLast(c.value) then old(scheduler.timers) - {convId}
          else old(scheduler.timers)
    {
      if active == Some(convId) {
        var cs := store.Load();
        var c := Find(cs, convId);
        if c.Some? && AttendantSpokeLast(c.value) {
          scheduler.Stop(convId);
        }
      }
    }
  }
}
