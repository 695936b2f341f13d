/**
 * Conversation records and the pure effect of every store mutation on the
 * persisted collection: look-up of the first record with an id, appending a
 * message to a record, and changing a record's status.
 */
module Conversations {
  import opened Wrappers

  /** Ids are the decimal text of a millisecond clock reading; they are not guaranteed unique. */
  type ConvId = string
  /** ISO-8601 text of a clock reading; the clock itself is a parameter. */
  type Timestamp = string

  datatype Sender = User | Bot | Attendant
  datatype Status = Open | Waiting | Closed

  datatype Message = Message(sender: Sender, text: string, timestamp: Timestamp)

  datatype Conversation = Conversation(id: ConvId, createdAt: Timestamp, status: Status, messages: seq<Message>)

  /** The record `createConversation` builds. */
  function NewConversation(id: ConvId, now: Timestamp): Conversation
  {
    Conversation(id, now, Open, [])
  }

  /** Position of the FIRST record whose id is `id` (`Array.prototype.find`). */
  function FirstIndex(cs: seq<Conversation>, id: ConvId): (r: Option<nat>)
    ensures r.Some? ==> r.value < |cs| && cs[r.value].id == id
    ensures r.Some? ==> forall j :: 0 <= j < r.value ==> cs[j].id != id
    ensures r.None? <==> forall j :: 0 <= j < |cs| ==> cs[j].id != id
  {
    FirstIndexFrom(cs, id, 0)
  }

  /** Position of the first record at or after `i` whose id is `id`. */
  function FirstIndexFrom(cs: seq<Conversation>, id: ConvId, i: nat): (r: Option<nat>)
    requires i <= |cs|
    ensures r.Some? ==> i <= r.value < |cs| && cs[r.value].id == id
    ensures r.Some? ==> forall j :: i <= j < r.value ==> cs[j].id != id
    ensures r.None? <==> forall j :: i <= j < |cs| ==> cs[j].id != id
    decreases |cs| - i
  {
    if i == |cs| then None
    else if cs[i].id == id then Some(i)
    else FirstIndexFrom(cs, id, i + 1)
  }

  /** The first record whose id is `id`, if any (`Array.prototype.find`). */
  function Find(cs: seq<Conversation>, id: ConvId): (r: Option<Conversation>)
    ensures r.None? <==> forall j :: 0 <= j < |cs| ==> cs[j].id != id
    ensures r.Some? ==> r.value in cs && r.value.id == id
    ensures r.Some? ==> FirstIndex(cs, id).Some? && r.value == cs[FirstIndex(cs, id).value]
  {
    match FirstIndex(cs, id)
    case None => None
    case Some(k) => Some(cs[k])
  }

  /** The selection `getLastConversation` makes: nothing iff the collection is empty, else its final record. */
  function Last(cs: seq<Conversation>): (r: Option<Conversation>)
    ensures r.None? <==> |cs| == 0
    ensures r.Some? ==> r.value == cs[|cs| - 1]
  {
    if |cs| == 0 then None else Some(cs[|cs| - 1])
  }

  /** The record at `k` with `m` pushed onto its messages; every other record as it was. */
  function AppendMessageAt(cs: seq<Conversation>, k: nat, m: Message): (r: seq<Conversation>)
    requires k < |cs|
    ensures |r| == |cs|
    ensures r[k].id == cs[k].id && r[k].createdAt == cs[k].createdAt && r[k].status == cs[k].status
    ensures r[k].messages == cs[k].messages + [m]
    ensures forall j {:trigger r[j]} :: 0 <= j < |cs| && j != k ==> r[j] == cs[j]
  {
    cs[k := cs[k].(messages := cs[k].messages + [m])]
  }

  /** The record at `k` with its status replaced; its messages and every other record as they were. */
  function SetStatusAt(cs: seq<Conversation>, k: nat, s: Status): (r: seq<Conversation>)
    requires k < |cs|
    ensures |r| == |cs|
    ensures r[k].id == cs[k].id && r[k].createdAt == cs[k].createdAt && r[k].messages == cs[k].messages
    ensures r[k].status == s
    ensures forall j {:trigger r[j]} :: 0 <= j < |cs| && j != k ==> r[j] == cs[j]
  {
    cs[k := cs[k].(status := s)]
  }

  /** The collection `addMessage(id, …)` saves: unchanged when no record has `id`. */
  function AppendMessage(cs: seq<Conversation>, id: ConvId, m: Message): (r: seq<Conversation>)
    ensures |r| == |cs|
    ensures FirstIndex(cs, id).None? ==> r == cs
    ensures FirstIndex(cs, id).Some? ==> r == AppendMessageAt(cs, FirstIndex(cs, id).value, m)
  {
    match FirstIndex(cs, id)
    case None => cs
    case Some(k) => AppendMessageAt(cs, k, m)
  }

  /** The collection `updateConversationStatus(id, s)` saves: unchanged when no record has `id`. */
  function SetStatus(cs: seq<Conversation>, id: ConvId, s: Status): (r: seq<Conversation>)
    ensures |r| == |cs|
    ensures FirstIndex(cs, id).None? ==> r == cs
    ensures FirstIndex(cs, id).Some? ==> r == SetStatusAt(cs, FirstIndex(cs, id).value, s)
  {
    match FirstIndex(cs, id)
    case None => cs
    case Some(k) => SetStatusAt(cs, k, s)
  }

  /** The last message of the record was written by an attendant. */
  predicate AttendantSpokeLast(c: Conversation)
  {
    |c.messages| > 0 && c.messages[|c.messages| - 1].sender == Attendant
  }

  /** Ids of the records whose last message is an attendant's. */
  function AttendantLastIds(cs: seq<Conversation>): set<ConvId>
  {
    set i | 0 <= i < |cs| && AttendantSpokeLast(cs[i]) :: cs[i].id
  }

  /** The two collections carry the same ids in the same order. */
  predicate SameIds(a: seq<Conversation>, b: seq<Conversation>)
  {
    |a| == |b| && forall j :: 0 <= j < |a| ==> a[j].id == b[j].id
  }

  /** `n` messages appended one `addMessage` call at a time, in order. */
  function AppendEach(cs: seq<Conversation>, id: ConvId, ms: seq<Message>): seq<Conversation>
    decreases |ms|
  {
    if |ms| == 0 then cs else AppendMessage(AppendEach(cs, id, ms[..|ms| - 1]), id, ms[|ms| - 1])
  }

  // ---------------------------------------------------------------- lemmas

  /** Look-up depends only on the ids, so a mutation that keeps ids keeps every look-up. */
  lemma FirstIndexSameIds(a: seq<Conversation>, b: seq<Conversation>, id: ConvId)
    requires SameIds(a, b)
    ensures FirstIndex(a, id) == FirstIndex(b, id)
  {
    FirstIndexFromSameIds(a, b, id, 0);
  }

  lemma {:induction false} FirstIndexFromSameIds(a: seq<Conversation>, b: seq<Conversation>, id: ConvId, i: nat)
    requires SameIds(a, b) && i <= |a|
    ensures FirstIndexFrom(a, id, i) == FirstIndexFrom(b, id, i)
    decreases |a| - i
  {
    if i < |a| && a[i].id != id {
      FirstIndexFromSameIds(a, b, id, i + 1);
    }
  }

  /** Appending a message or changing a status never changes any record's id. */
  lemma MutationsKeepIds(cs: seq<Conversation>, id: ConvId, m: Message, s: Status)
    ensures SameIds(cs, AppendMessage(cs, id, m))
    ensures SameIds(cs, SetStatus(cs, id, s))
  {
  }

  /**
   * Appending messages one after another to the same id lands them in order,
   * with their field values, in the first record with that id; its id,
   * creation time and status and every other record stay as they were.
   */
  lemma {:induction false} AppendEachInOrder(cs: seq<Conversation>, id: ConvId, ms: seq<Message>, k: nat)
    requires FirstIndex(cs, id) == Some(k)
    ensures AppendEach(cs, id, ms) == cs[k := cs[k].(messages := cs[k].messages + ms)]
    decreases |ms|
  {
    if |ms| == 0 {
      assert cs[k].messages + ms == cs[k].messages;
    } else {
      var init, last := ms[..|ms| - 1], ms[|ms| - 1];
      var prev := cs[k := cs[k].(messages := cs[k].messages + init)];
      AppendEachInOrder(cs, id, init, k);
      assert FirstIndex(prev, id) == Some(k) by {
        assert SameIds(cs, prev);
        FirstIndexSameIds(cs, prev, id);
      }
      assert cs[k].messages + init + [last] == cs[k].messages + ms by {
        assert init + [last] == ms;
      }
      assert AppendMessageAt(prev, k, last) == cs[k := cs[k].(messages := cs[k].messages + ms)];
    }
  }

  /** Appending to an id no record carries, any number of times, saves nothing new. */
  lemma {:induction false} AppendEachUnknownId(cs: seq<Conversation>, id: ConvId, ms: seq<Message>)
    requires FirstIndex(cs, id).None?
    ensures AppendEach(cs, id, ms) == cs
    decreases |ms|
  {
    if |ms| > 0 {
      AppendEachUnknownId(cs, id, ms[..|ms| - 1]);
    }
  }

  /** A status change followed by an append to the same id lands both in the same record. */
  lemma StatusThenAppend(cs: seq<Conversation>, id: ConvId, s: Status, m: Message, k: nat)
    requires FirstIndex(cs, id) == Some(k)
    ensures var r := AppendMessage(SetStatus(cs, id, s), id, m);
      |r| == |cs| && r[k] == cs[k].(status := s, messages := cs[k].messages + [m])
      && forall j :: 0 <= j < |cs| && j != k ==> r[j] == cs[j]
  {
    MutationsKeepIds(cs, id, m, s);
    FirstIndexSameIds(cs, SetStatus(cs, id, s), id);
  }

  /** A record appended at the end is what look-up finds iff no earlier record has its id. */
  lemma FirstIndexAfterPush(cs: seq<Conversation>, c: Conversation)
    ensures FirstIndex(cs + [c], c.id) ==
      (if FirstIndex(cs, c.id).Some? then FirstIndex(cs, c.id) else Some(|cs|))
  {
    var r := FirstIndex(cs + [c], c.id);
    var q := FirstIndex(cs, c.id);
    if q.Some? {
      assert (cs + [c])[q.value] == cs[q.value];
      assert forall j :: 0 <= j < q.value ==> (cs + [c])[j] == cs[j];
    } else {
      assert (cs + [c])[|cs|].id == c.id;
      assert forall j :: 0 <= j < |cs| ==> (cs + [c])[j] == cs[j];
    }
  }
}
