/**
 * The state effects of the history page. The page lists the collection as
 * it was when last rendered; each record's buttons change that rendered
 * snapshot and write the whole snapshot back, then the page renders again
 * from the store. A button press therefore overwrites whatever the store
 * gained since the last render.
 */
module History {
  import opened Wrappers
  import opened Conversations
  import opened Store

  /** The attendant's message when an attendant takes over a waiting conversation. */
  const AssumeNotice: string := "Atendente entrou na conversa. Como posso ajudar?"

  /**
   * The collection the assume button saves: record `i` reopened with the
   * attendant's notice pushed onto it, so that an attendant spoke last.
   */
  function Assumed(cs: seq<Conversation>, i: nat, now: Timestamp): (r: seq<Conversation>)
    requires i < |cs|
    ensures |r| == |cs|
    ensures r[i].id == cs[i].id && r[i].createdAt == cs[i].createdAt && r[i].status == Open
    ensures |r[i].messages| == |cs[i].messages| + 1 && r[i].messages[..|cs[i].messages|] == cs[i].messages
    ensures r[i].messages[|cs[i].messages|] == Message(Attendant, AssumeNotice, now)
    ensures forall j {:trigger r[j]} :: 0 <= j < |cs| && j != i ==> r[j] == cs[j]
    ensures cs[i].id in AttendantLastIds(r)
  {
    var r := AppendMessageAt(SetStatusAt(cs, i, Open), i, Message(Attendant, AssumeNotice, now));
    assert AttendantSpokeLast(r[i]);
    r
  }

  /** Closing a record and then reopening it leaves it open with its messages as they were. */
  lemma CloseThenReopen(cs: seq<Conversation>, i: nat)
    requires i < |cs|
    ensures var r := SetStatusAt(SetStatusAt(cs, i, Closed), i, Open);
      r == SetStatusAt(cs, i, Open) && r[i].messages == cs[i].messages && r[i].status == Open
      && (r == cs <==> cs[i].status == Open)
  {
    var r := SetStatusAt(SetStatusAt(cs, i, Closed), i, Open);
    if r == cs {
      assert r[i].status == cs[i].status;
    }
  }

  class HistoryPage {
    /** The persisted collection. */
    const store: ConversationStore
    /** The collection as of the last render; every button acts on it, by position. */
    var snapshot: seq<Conversation>

    constructor (store: ConversationStore)
      ensures this.store == store && snapshot == store.convos
    {
      this.store := store;
      snapshot := store.convos;
    }

    /** Re-reads the collection. */
    method Render()
      modifies this
      ensures snapshot == store.convos
    {
      snapshot := store.Load();
    }

    /**
     * The close button, shown on records that are not closed: once
     * confirmed, saves the snapshot with record `i` closed, renders, and
     * announces the record's id. The record's simulation timer is left
     * running. Declined, nothing changes.
     */
    method CloseConversation(i: nat, confirmed: bool) returns (notice: Option<ConvId>)
      requires i < |snapshot| && snapshot[i].status != Closed
      modifies this, store
      ensures !confirmed ==>
        notice == None && store.convos == old(store.convos) && snapshot == old(snapshot)
      ensures confirmed ==>
        notice == Some(old(snapshot)[i].id)
        && store.convos == SetStatusAt(old(snapshot), i, Closed) && snapshot == store.convos
    {
      if !confirmed {
        return None;
      }
      var id := snapshot[i].id;
      store.Save(SetStatusAt(snapshot, i, Closed));
      Render();
      notice := Some(id);
    }

    /**
     * The reopen button, shown on closed records: saves the snapshot with
     * record `i` open, renders, and announces the record's id.
     */
    method Reopen(i: nat) returns (notice: ConvId)
      requires i < |snapshot| && snapshot[i].status == Closed
      modifies this, store
      ensures notice == old(snapshot)[i].id
      ensures store.convos == SetStatusAt(old(snapshot), i, Open) && snapshot == store.convos
    {
      notice := snapshot[i].id;
      store.Save(SetStatusAt(snapshot, i, Open));
      Render();
    }

    /**
     * The assume button, shown on waiting records: once confirmed, saves
     * the snapshot with record `i` reopened and the attendant's notice
     * pushed onto it, renders, and announces the record's id. Declined,
     * nothing changes.
     */
    method Assume(i: nat, confirmed: bool, now: Timestamp) returns (notice: Option<ConvId>)
      requires i < |snapshot| && snapshot[i].status == Waiting
      modifies this, store
      ensures !confirmed ==>
        notice == None && store.convos == old(store.convos) && snapshot == old(snapshot)
      ensures confirmed ==>
        notice == Some(old(snapshot)[i].id)
        && store.convos == Assumed(old(snapshot), i, now) && snapshot == store.convos
    {
      if !confirmed {
        return None;
      }
      var id := snapshot[i].id;
      var cs := SetStatusAt(snapshot, i, Open);
      cs := AppendMessageAt(cs, i, Message(Attendant, AssumeNotice, now));
      store.Save(cs);
      Render();
      notice := Some(id);
    }

    /** The clear button: once confirmed, the store and the listing are empty. */
    method ClearHistory(confirmed: bool)
      modifies this, store
      ensures !confirmed ==> store.convos == old(store.convos) && snapshot == old(snapshot)
      ensures confirmed ==> store.convos == [] && snapshot == []
    {
      if !confirmed {
        return;
      }
      store.Save([]);
      Render();
    }
  }
}
