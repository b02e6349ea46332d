/** The transient notification queue of the application shell: each call
    appends one entry, and the timer callback that fires later removes the
    entry with that id. The timer is modelled as an explicit `Expire` event. */
module Notifications {
  import opened Types
  import Seqs

  datatype Notification = Notification(id: string, message: string, severity: Severity)

  function Ids(queue: seq<Notification>): set<string>
  {
    set i | 0 <= i < |queue| :: queue[i].id
  }

  /** Enqueues `message` under the freshly generated `id`. */
  function Add(queue: seq<Notification>, id: string, message: string, severity: Severity): (r: seq<Notification>)
    ensures |r| == |queue| + 1
    ensures r[..|queue|] == queue
    ensures r[|queue|] == Notification(id, message, severity)
  {
    queue + [Notification(id, message, severity)]
  }

  /** The severity used when the caller gives none. */
  const DefaultSeverity: Severity := Info

  /** Enqueues a message that was posted without a severity. */
  function AddInfo(queue: seq<Notification>, id: string, message: string): (r: seq<Notification>)
    ensures |r| == |queue| + 1
    ensures r[..|queue|] == queue
    ensures r[|queue|] == Notification(id, message, Info)
  {
    Add(queue, id, message, DefaultSeverity)
  }

  /** Enqueues a batch of messages under the given ids, in order. */
  function Post(queue: seq<Notification>, ids: seq<string>, messages: seq<Message>): (r: seq<Notification>)
    requires |ids| == |messages|
    ensures |r| == |queue| + |messages|
    ensures r[..|queue|] == queue
    ensures forall i :: 0 <= i < |messages| ==>
              r[|queue| + i] == Notification(ids[i], messages[i].text, messages[i].severity)
    decreases |messages|
  {
    if |messages| == 0 then queue
    else Post(Add(queue, ids[0], messages[0].text, messages[0].severity), ids[1..], messages[1..])
  }

  /** The timer callback: drops the entries carrying `id`. */
  function Expire(queue: seq<Notification>, id: string): (r: seq<Notification>)
    ensures forall n :: n in r <==> n in queue && n.id != id
    ensures id !in Ids(r)
    ensures Seqs.IsSubsequence(r, queue)
  {
    Seqs.Filter((n: Notification) => n.id != id, queue)
  }

  /** Expiring the entry that was just added, under an id no other entry
      carries, gives back the queue as it was before. */
  lemma ExpireUndoesAdd(queue: seq<Notification>, id: string, message: string, severity: Severity)
    requires id !in Ids(queue)
    ensures Expire(Add(queue, id, message, severity), id) == queue
  {
    var keep := (n: Notification) => n.id != id;
    assert forall i :: 0 <= i < |queue| ==> keep(queue[i]) by {
      forall i | 0 <= i < |queue| ensures keep(queue[i]) {
        assert queue[i].id in Ids(queue);
      }
    }
    Seqs.FilterAppend(keep, queue, [Notification(id, message, severity)]);
    Seqs.FilterKeepsAll(keep, queue);
  }

  /** Expiry touches nothing but the expired id: expiring two ids gives the
      same queue in either order, and expiring one twice is expiring it once. */
  lemma ExpireCommutes(queue: seq<Notification>, a: string, b: string)
    ensures Expire(Expire(queue, a), b) == Expire(Expire(queue, b), a)
    ensures Expire(Expire(queue, a), a) == Expire(queue, a)
  {
    ExpireCommutesRec(queue, a, b);
    Seqs.FilterIdempotent((n: Notification) => n.id != a, queue);
  }

  lemma {:induction false} ExpireCommutesRec(queue: seq<Notification>, a: string, b: string)
    ensures Expire(Expire(queue, a), b) == Expire(Expire(queue, b), a)
  {
    if |queue| > 0 {
      ExpireCommutesRec(queue[1..], a, b);
    }
  }
}
