/**
 * The publish/subscribe message bus (MessageBus.cpp, MessageBus.hpp).
 *
 * The bus keeps a registry of nodes in registration order, each with the
 * message types it subscribed to, and two FIFO queues: producers append to
 * the front queue; one poll step of the dispatch loop swaps the queues and
 * drains the back queue, handing every message to the nodes it is for.
 *
 * Threads, the queue mutex and the poll sleep are not modelled: a poll step
 * is one atomic step.  What a node does with a delivered message is the
 * parameter `respond`: the messages the node sends back onto the bus while it
 * processes the delivery.  The ghost fields `delivered` and `destroyed`
 * record every delivery (record index, message) and every message the bus
 * has destroyed, in order.
 */
module Bus {
  import opened Common
  import opened Messages
  import opened Nodes

  // ----------------------------------------------------------------------------
  // Interest lists (MessageBus::RegisteredNode)
  // ----------------------------------------------------------------------------

  ghost predicate NoDuplicates<T>(s: seq<T>)
  {
    forall i, j :: 0 <= i < j < |s| ==> s[i] != s[j]
  }

  /** The scan of isInterested: true as soon as an entry equals `t`. */
  function Contains(list: seq<MessageType>, t: MessageType): (r: bool)
    ensures r <==> t in list
  {
    if list == [] then false
    else if list[0] == t then true
    else Contains(list[1..], t)
  }

  /** The interest list after subscribe(t): `t` is appended unless already present. */
  function Subscribed(list: seq<MessageType>, t: MessageType): (r: seq<MessageType>)
    ensures t in r
    ensures forall u :: u in r <==> u in list || u == t
    ensures |list| <= |r| && r[..|list|] == list
    ensures t in list ==> r == list
    ensures NoDuplicates(list) ==> NoDuplicates(r)
  {
    if Contains(list, t) then list else list + [t]
  }

  class RegisteredNode {
    /** The registered node, by reference: the bus does not own it. */
    const node: Node
    var interested: seq<MessageType>

    constructor (n: Node)
      ensures node == n && interested == []
    {
      node := n;
      interested := [];
    }

    function IsInterested(t: MessageType): (r: bool)
      reads this
      ensures r <==> t in interested
    {
      Contains(interested, t)
    }

    method Subscribe(t: MessageType)
      modifies this
      ensures interested == Subscribed(old(interested), t)
    {
      if !IsInterested(t) {
        interested := interested + [t];
      }
    }
  }

  // ----------------------------------------------------------------------------
  // The registry as a value, and registration
  // ----------------------------------------------------------------------------

  /** A snapshot of one registered record. */
  datatype RecordView = RecordView(node: Node, interested: seq<MessageType>)

  /** At most one record per node object, and no interest list with a type twice. */
  ghost predicate WellFormed(view: seq<RecordView>)
  {
    && (forall i, j :: 0 <= i < j < |view| ==> view[i].node != view[j].node)
    && (forall i :: 0 <= i < |view| ==> NoDuplicates(view[i].interested))
  }

  /** The first record whose node is `n` -- compared by identity, not by id -- or |view| if none. */
  ghost function IndexOf(view: seq<RecordView>, n: Node): (k: nat)
    ensures k <= |view|
    ensures k < |view| ==> view[k].node == n
    ensures forall j :: 0 <= j < k ==> view[j].node != n
  {
    if view == [] then 0
    else if view[0].node == n then 0
    else 1 + IndexOf(view[1..], n)
  }

  /**
   * The registry after getRegisteredNode(n), followed by subscribe(t) when a
   * type is given: the existing record of `n`, or a new one appended at the end.
   */
  ghost function Register(view: seq<RecordView>, n: Node, t: Option<MessageType>): seq<RecordView>
  {
    var k := IndexOf(view, n);
    var base := if k < |view| then view else view + [RecordView(n, [])];
    match t
    case None => base
    case Some(t) => base[k := RecordView(n, Subscribed(base[k].interested, t))]
  }

  /** Registering for a type is registering, then subscribing the node's record. */
  lemma RegisterIsSubscribe(view: seq<RecordView>, n: Node, t: MessageType)
    ensures var base := Register(view, n, None);
      var k := IndexOf(view, n);
      k < |base| && Register(view, n, Some(t)) == base[k := RecordView(n, Subscribed(base[k].interested, t))]
  {
  }

  /** The first index holding `n` is the one whose earlier records all hold other nodes. */
  lemma {:induction false} IndexOfFirst(view: seq<RecordView>, n: Node, k: nat)
    requires k < |view| && view[k].node == n
    requires forall j :: 0 <= j < k ==> view[j].node != n
    ensures IndexOf(view, n) == k
  {
    if k > 0 {
      assert view[0].node != n;
      IndexOfFirst(view[1..], n, k - 1);
    }
  }

  /**
   * Registration reuses the record of `n` if there is one and otherwise
   * appends a new record for `n` at the end; every other record keeps its
   * place and its interests, and the record of `n` loses no interest.
   */
  lemma RegisterShape(view: seq<RecordView>, n: Node, t: Option<MessageType>)
    ensures var r := Register(view, n, t); var k := IndexOf(view, n);
      && |r| == (if k < |view| then |view| else |view| + 1)
      && r[k].node == n
      && (forall j :: 0 <= j < |view| && j != k ==> r[j] == view[j])
      && (k < |view| ==> forall u :: u in view[k].interested ==> u in r[k].interested)
      && (k == |view| && t.None? ==> r[k].interested == [])
  {
  }

  /** Registration keeps one record per node and no interest list with a duplicate. */
  lemma RegisterPreservesWellFormed(view: seq<RecordView>, n: Node, t: Option<MessageType>)
    requires WellFormed(view)
    ensures WellFormed(Register(view, n, t))
  {
    var r := Register(view, n, t);
    var k := IndexOf(view, n);
    RegisterShape(view, n, t);
    forall i, j | 0 <= i < j < |r| ensures r[i].node != r[j].node {
      if i != k && j != k {
        assert r[i] == view[i] && r[j] == view[j];
      }
    }
  }

  /** Subscribing one record keeps the registry well formed. */
  lemma SubscribePreservesWellFormed(view: seq<RecordView>, k: nat, t: MessageType)
    requires WellFormed(view) && k < |view|
    ensures WellFormed(view[k := RecordView(view[k].node, Subscribed(view[k].interested, t))])
  {
  }

  /** After registering `n` for `t`, the record of `n` is interested in `t`. */
  lemma RegisterSubscribes(view: seq<RecordView>, n: Node, t: MessageType)
    ensures var r := Register(view, n, Some(t));
      IndexOf(view, n) < |r| && r[IndexOf(view, n)].node == n && t in r[IndexOf(view, n)].interested
  {
  }

  /**
   * Registering the same node for two types leaves one record for it, at the
   * same place, whose interests hold both types.
   */
  lemma {:induction false} RegisterTwiceMerges(view: seq<RecordView>, n: Node, a: MessageType, b: MessageType)
    requires WellFormed(view)
    ensures var r := Register(Register(view, n, Some(a)), n, Some(b));
      var k := IndexOf(view, n);
      && k < |r| && r[k].node == n
      && (forall j :: 0 <= j < |r| && r[j].node == n ==> j == k)
      && a in r[k].interested && b in r[k].interested
  {
    var r1 := Register(view, n, Some(a));
    var k := IndexOf(view, n);
    RegisterShape(view, n, Some(a));
    RegisterPreservesWellFormed(view, n, Some(a));
    IndexOfFirst(r1, n, k);
    RegisterShape(r1, n, Some(b));
    RegisterPreservesWellFormed(r1, n, Some(b));
  }

  // ----------------------------------------------------------------------------
  // Dispatch as a function of the registry
  // ----------------------------------------------------------------------------

  /** One call of processMessage on the node of record `record`. */
  datatype Delivery = Delivery(record: nat, msg: Message)

  /**
   * Whether the scan of processMessages hands `m` to record `r`: a broadcast
   * goes to the records interested in its type, a directed message to the
   * records whose node has its destination as id, whatever they subscribed to.
   */
  predicate Receives(r: RecordView, m: Message)
  {
    if m.IsBroadcast() then m.msgType in r.interested else r.node.id == m.destination
  }

  /** The deliveries of `m` to the first `i` records, in registration order. */
  ghost function DeliveriesUpTo(view: seq<RecordView>, m: Message, i: nat): seq<Delivery>
    requires i <= |view|
  {
    if i == 0 then []
    else DeliveriesUpTo(view, m, i - 1) + (if Receives(view[i - 1], m) then [Delivery(i - 1, m)] else [])
  }

  ghost function Deliveries(view: seq<RecordView>, m: Message): seq<Delivery>
  {
    DeliveriesUpTo(view, m, |view|)
  }

  /** The deliveries of a batch: message by message, in queue order. */
  ghost function BatchDeliveries(view: seq<RecordView>, batch: seq<Message>): seq<Delivery>
  {
    if batch == [] then []
    else BatchDeliveries(view, batch[..|batch| - 1]) + Deliveries(view, batch[|batch| - 1])
  }

  /**
   * What the nodes of the first `i` records send while processing `m`, in
   * registration order: each receiving node contributes its reply.
   */
  ghost function RepliesUpTo(view: seq<RecordView>, m: Message, i: nat, respond: (Node, Message) -> seq<Message>): seq<Message>
    requires i <= |view|
  {
    if i == 0 then []
    else RepliesUpTo(view, m, i - 1, respond) + (if Receives(view[i - 1], m) then respond(view[i - 1].node, m) else [])
  }

  /** What the nodes send while processing a batch: message by message, in queue order. */
  ghost function BatchReplies(view: seq<RecordView>, batch: seq<Message>, respond: (Node, Message) -> seq<Message>): seq<Message>
  {
    if batch == [] then []
    else BatchReplies(view, batch[..|batch| - 1], respond) + RepliesUpTo(view, batch[|batch| - 1], |view|, respond)
  }

  /** The replies the deliveries `ds` provoke, one delivery after the other. */
  ghost function Replies(view: seq<RecordView>, ds: seq<Delivery>, respond: (Node, Message) -> seq<Message>): seq<Message>
  {
    if ds == [] then []
    else
      var d := ds[|ds| - 1];
      Replies(view, ds[..|ds| - 1], respond) + (if d.record < |view| then respond(view[d.record].node, d.msg) else [])
  }

  /**
   * A record receives a message exactly when the dispatch rule says so: the
   * deliveries of `m` to the first `i` records are those records that receive it.
   */
  lemma {:induction false} DeliveredIff(view: seq<RecordView>, m: Message, i: nat, d: Delivery)
    requires i <= |view|
    ensures d in DeliveriesUpTo(view, m, i) <==> d.msg == m && d.record < i && Receives(view[d.record], m)
  {
    if i > 0 {
      DeliveredIff(view, m, i - 1, d);
    }
  }

  /** Record indices strictly increase along `ds`. */
  ghost predicate Ascending(ds: seq<Delivery>)
  {
    forall a, b :: 0 <= a < b < |ds| ==> ds[a].record < ds[b].record
  }

  /** Deliveries of one message follow registration order, so no record gets it twice. */
  lemma {:induction false} DeliveriesOrdered(view: seq<RecordView>, m: Message, i: nat)
    requires i <= |view|
    ensures Ascending(DeliveriesUpTo(view, m, i))
    ensures forall d :: d in DeliveriesUpTo(view, m, i) ==> d.record < i
  {
    if i > 0 {
      DeliveriesOrdered(view, m, i - 1);
      var prev := DeliveriesUpTo(view, m, i - 1);
      var ds := DeliveriesUpTo(view, m, i);
      assert ds == prev + (if Receives(view[i - 1], m) then [Delivery(i - 1, m)] else []);
      forall a | 0 <= a < |prev| ensures prev[a].record < i - 1 {
        assert prev[a] in prev;
      }
      forall a, b | 0 <= a < b < |ds| ensures ds[a].record < ds[b].record {
        if b >= |prev| {
          assert ds[a] == prev[a] && ds[b].record == i - 1;
        } else {
          assert ds[a] == prev[a] && ds[b] == prev[b];
        }
      }
    }
  }

  /** A broadcast reaches exactly the records interested in its type. */
  lemma BroadcastRecipients(view: seq<RecordView>, m: Message, j: nat)
    requires m.IsBroadcast()
    ensures Delivery(j, m) in Deliveries(view, m) <==> j < |view| && m.msgType in view[j].interested
  {
    DeliveredIff(view, m, |view|, Delivery(j, m));
  }

  /** A directed message reaches exactly the records whose node id is its destination. */
  lemma DirectedRecipients(view: seq<RecordView>, m: Message, j: nat)
    requires !m.IsBroadcast()
    ensures Delivery(j, m) in Deliveries(view, m) <==> j < |view| && view[j].node.id == m.destination
  {
    DeliveredIff(view, m, |view|, Delivery(j, m));
  }

  /** With node ids unique among the records, a directed message is delivered at most once. */
  lemma DirectedAtMostOnce(view: seq<RecordView>, m: Message)
    requires !m.IsBroadcast()
    requires forall a, b :: 0 <= a < b < |view| ==> view[a].node.id != view[b].node.id
    ensures |Deliveries(view, m)| <= 1
  {
    var ds := Deliveries(view, m);
    DeliveriesOrdered(view, m, |view|);
    if |ds| > 1 {
      assert ds[0] in ds && ds[1] in ds;
      DeliveredIff(view, m, |view|, ds[0]);
      DeliveredIff(view, m, |view|, ds[1]);
      assert false;
    }
  }

  /** Processing a batch in two parts delivers the same, in the same order. */
  lemma {:induction false} BatchDeliveriesAppend(view: seq<RecordView>, a: seq<Message>, b: seq<Message>)
    ensures BatchDeliveries(view, a + b) == BatchDeliveries(view, a) + BatchDeliveries(view, b)
    decreases |b|
  {
    if b == [] {
      assert a + b == a;
    } else {
      var b' := b[..|b| - 1];
      assert (a + b)[..|a + b| - 1] == a + b' && (a + b)[|a + b| - 1] == b[|b| - 1];
      BatchDeliveriesAppend(view, a, b');
      var tail := Deliveries(view, b[|b| - 1]);
      calc {
        BatchDeliveries(view, a + b);
        BatchDeliveries(view, a + b') + tail;
        (BatchDeliveries(view, a) + BatchDeliveries(view, b')) + tail;
        BatchDeliveries(view, a) + (BatchDeliveries(view, b') + tail);
      }
    }
  }

  /** The replies to a sequence of deliveries are the replies to each part, in order. */
  lemma {:induction false} RepliesAppend(view: seq<RecordView>, a: seq<Delivery>, b: seq<Delivery>,
                                         respond: (Node, Message) -> seq<Message>)
    ensures Replies(view, a + b, respond) == Replies(view, a, respond) + Replies(view, b, respond)
    decreases |b|
  {
    if b == [] {
      assert a + b == a;
    } else {
      var b' := b[..|b| - 1];
      var d := b[|b| - 1];
      assert (a + b)[..|a + b| - 1] == a + b' && (a + b)[|a + b| - 1] == d;
      RepliesAppend(view, a, b', respond);
      var tail := if d.record < |view| then respond(view[d.record].node, d.msg) else [];
      calc {
        Replies(view, a + b, respond);
        Replies(view, a + b', respond) + tail;
        (Replies(view, a, respond) + Replies(view, b', respond)) + tail;
        Replies(view, a, respond) + (Replies(view, b', respond) + tail);
      }
    }
  }

  /** The replies collected by the scan are exactly the replies to its deliveries, in delivery order. */
  lemma {:induction false} RepliesFollowDeliveries(view: seq<RecordView>, m: Message, i: nat,
                                                   respond: (Node, Message) -> seq<Message>)
    requires i <= |view|
    ensures RepliesUpTo(view, m, i, respond) == Replies(view, DeliveriesUpTo(view, m, i), respond)
  {
    if i > 0 {
      RepliesFollowDeliveries(view, m, i - 1, respond);
      var ds := DeliveriesUpTo(view, m, i - 1);
      if Receives(view[i - 1], m) {
        RepliesAppend(view, ds, [Delivery(i - 1, m)], respond);
        assert Replies(view, [Delivery(i - 1, m)], respond) == [] + respond(view[i - 1].node, m);
      } else {
        assert ds + [] == ds;
      }
    }
  }

  /** Replies to a batch processed in two parts are the replies to each part, in order. */
  lemma {:induction false} BatchRepliesAppend(view: seq<RecordView>, a: seq<Message>, b: seq<Message>,
                                              respond: (Node, Message) -> seq<Message>)
    ensures BatchReplies(view, a + b, respond) == BatchReplies(view, a, respond) + BatchReplies(view, b, respond)
    decreases |b|
  {
    if b == [] {
      assert a + b == a;
    } else {
      var b' := b[..|b| - 1];
      var last := b[|b| - 1];
      assert (a + b)[..|a + b| - 1] == a + b' && (a + b)[|a + b| - 1] == last;
      BatchRepliesAppend(view, a, b', respond);
      var tail := RepliesUpTo(view, last, |view|, respond);
      calc {
        BatchReplies(view, a + b, respond);
        BatchReplies(view, a + b', respond) + tail;
        (BatchReplies(view, a, respond) + BatchReplies(view, b', respond)) + tail;
        BatchReplies(view, a, respond) + (BatchReplies(view, b', respond) + tail);
      }
    }
  }

  /** Processing one more message of a batch appends its deliveries and its replies. */
  lemma BatchStep(view: seq<RecordView>, batch: seq<Message>, c: nat, respond: (Node, Message) -> seq<Message>)
    requires c < |batch|
    ensures BatchDeliveries(view, batch[..c + 1]) == BatchDeliveries(view, batch[..c]) + Deliveries(view, batch[c])
    ensures BatchReplies(view, batch[..c + 1], respond)
      == BatchReplies(view, batch[..c], respond) + RepliesUpTo(view, batch[c], |view|, respond)
  {
    assert batch[..c + 1][..c] == batch[..c];
  }

  /** What iterations of run's loop leave: the front queue, and what was delivered and destroyed meanwhile. */
  datatype RunTrace = RunTrace(front: seq<Message>, delivered: seq<Delivery>, destroyed: seq<Message>)

  /**
   * One iteration of run's loop on a trace: the whole front queue is the
   * batch; it is delivered and destroyed, and the replies form the next
   * front queue.
   */
  ghost function Poll(view: seq<RecordView>, t: RunTrace, respond: (Node, Message) -> seq<Message>): RunTrace
  {
    RunTrace(BatchReplies(view, t.front, respond), t.delivered + BatchDeliveries(view, t.front), t.destroyed + t.front)
  }

  /** `steps` iterations of run's loop from the front queue `q`. */
  ghost function Polls(view: seq<RecordView>, q: seq<Message>, steps: nat, respond: (Node, Message) -> seq<Message>): RunTrace
  {
    if steps == 0 then RunTrace(q, [], []) else Poll(view, Polls(view, q, steps - 1, respond), respond)
  }

  /** Once no message waits, polling delivers and destroys nothing and the queue stays empty. */
  lemma {:induction false} PollsQuiet(view: seq<RecordView>, steps: nat, respond: (Node, Message) -> seq<Message>)
    ensures Polls(view, [], steps, respond) == RunTrace([], [], [])
  {
    if steps > 0 {
      PollsQuiet(view, steps - 1, respond);
    }
  }

  /** The trace `a` followed by the trace `b` of the polls that start from `a`'s front queue. */
  function Then(a: RunTrace, b: RunTrace): RunTrace
  {
    RunTrace(b.front, a.delivered + b.delivered, a.destroyed + b.destroyed)
  }

  /**
   * Polling `n` times and then `m` times more is polling `n + m` times: the
   * second run starts from the queue the first one left, and the deliveries
   * and destructions of the two runs follow each other.
   */
  lemma {:induction false} PollsCompose(view: seq<RecordView>, q: seq<Message>, n: nat, m: nat,
                                        respond: (Node, Message) -> seq<Message>)
    ensures var a := Polls(view, q, n, respond);
      Polls(view, q, n + m, respond) == Then(a, Polls(view, a.front, m, respond))
    decreases m
  {
    var a := Polls(view, q, n, respond);
    if m == 0 {
      assert a.delivered + [] == a.delivered && a.destroyed + [] == a.destroyed;
    } else {
      PollsCompose(view, q, n, m - 1, respond);
      assert n + m - 1 == n + (m - 1);
      PollThen(view, a, Polls(view, a.front, m - 1, respond), respond);
    }
  }

  /** One more poll after two traces in a row is that poll after the second one. */
  lemma PollThen(view: seq<RecordView>, a: RunTrace, b: RunTrace, respond: (Node, Message) -> seq<Message>)
    ensures Poll(view, Then(a, b), respond) == Then(a, Poll(view, b, respond))
  {
  }

  // ----------------------------------------------------------------------------
  // The bus
  // ----------------------------------------------------------------------------

  /** A snapshot of the records `rs`. */
  ghost function ViewOf(rs: seq<RegisteredNode>): (v: seq<RecordView>)
    reads rs
    ensures |v| == |rs|
  {
    if rs == [] then []
    else ViewOf(rs[..|rs| - 1]) + [RecordView(rs[|rs| - 1].node, rs[|rs| - 1].interested)]
  }

  /** Each entry of the snapshot is the node and the current interests of that record. */
  lemma {:induction false} ViewOfAt(rs: seq<RegisteredNode>)
    ensures forall i :: 0 <= i < |rs| ==> ViewOf(rs)[i] == RecordView(rs[i].node, rs[i].interested)
  {
    if rs != [] {
      ViewOfAt(rs[..|rs| - 1]);
    }
  }

  class MessageBus {
    /** Set by run; registration is refused once it is set. */
    var running: bool
    var registry: seq<RegisteredNode>
    var front: seq<Message>
    var back: seq<Message>

    ghost var delivered: seq<Delivery>
    ghost var destroyed: seq<Message>

    /** The registry as values, record by record. */
    ghost function View(): seq<RecordView>
      reads this`registry, registry
    {
      ViewOf(registry)
    }

    /** One record per node object, and no interest list holds a type twice. */
    ghost predicate Valid()
      reads this`registry, registry
    {
      WellFormed(View())
    }

    constructor ()
      ensures Valid()
      ensures !running && front == [] && back == [] && registry == []
      ensures delivered == [] && destroyed == []
    {
      running := false;
      registry := [];
      front := [];
      back := [];
      delivered := [];
      destroyed := [];
    }

    /** getRegisteredNode: the index of the record of `n`, created at the end if there is none. */
    method GetRegisteredNode(n: Node) returns (k: nat)
      requires Valid()
      modifies this`registry
      ensures Valid()
      ensures View() == Register(old(View()), n, None)
      ensures k == IndexOf(old(View()), n) && k < |registry| && registry[k].node == n
      ensures k < |old(registry)| ==> registry == old(registry)
      ensures k == |old(registry)| ==> registry[..k] == old(registry) && fresh(registry[k])
    {
      ViewOfAt(registry);
      k := 0;
      while k < |registry|
        invariant k <= |registry|
        invariant forall j :: 0 <= j < k ==> registry[j].node != n
      {
        if registry[k].node == n {
          IndexOfFirst(View(), n, k);
          return;
        }
        k := k + 1;
      }
      RegisterPreservesWellFormed(View(), n, None);
      var r := new RegisteredNode(n);
      registry := registry + [r];
      assert registry[..|registry| - 1] == old(registry);
    }

    /** registerNode(node): only while not running; reports whether it took effect. */
    method RegisterNode(n: Node) returns (ok: bool)
      requires Valid()
      modifies this`registry
      ensures Valid()
      ensures ok == !running
      ensures View() == if ok then Register(old(View()), n, None) else old(View())
      ensures !ok ==> registry == old(registry)
    {
      ok := !running;
      if ok {
        var _ := GetRegisteredNode(n);
      }
    }

    /** registerNode(node, type): as registerNode, then subscribes the node's record to `t`. */
    method RegisterNodeFor(n: Node, t: MessageType) returns (ok: bool)
      requires Valid()
      modifies this`registry, registry
      ensures Valid()
      ensures ok == !running
      ensures View() == if ok then Register(old(View()), n, Some(t)) else old(View())
      ensures !ok ==> registry == old(registry)
    {
      ok := !running;
      if ok {
        ghost var v0 := View();
        var k := GetRegisteredNode(n);
        ghost var base := View();
        SubscribeRecord(k, t);
        RegisterIsSubscribe(v0, n, t);
        assert View() == base[k := RecordView(n, Subscribed(base[k].interested, t))];
      }
    }

    /** subscribe(t) on the record at index `k`: only that record's interests change. */
    method SubscribeRecord(k: nat, t: MessageType)
      requires Valid() && k < |registry|
      modifies registry[k]
      ensures Valid()
      ensures View() == old(View())[k := RecordView(registry[k].node, Subscribed(old(View())[k].interested, t))]
    {
      ghost var v := View();
      ViewOfAt(registry);
      assert forall j :: 0 <= j < |registry| && j != k ==> registry[j] != registry[k] by {
        assert forall j :: 0 <= j < |registry| && j != k ==> v[j].node != v[k].node;
      }
      registry[k].Subscribe(t);
      // Only record k changed, so the snapshot changes at k only.
      ViewOfAt(registry);
      assert View() == v[k := RecordView(registry[k].node, registry[k].interested)];
      SubscribePreservesWellFormed(v, k, t);
    }

    /** sendMessage: a null message (None) is ignored; otherwise it joins the tail of the front queue. */
    method SendMessage(msg: Option<Message>)
      modifies this`front
      ensures front == old(front) + (if msg.Some? then [msg.value] else [])
    {
      if msg.Some? {
        front := front + [msg.value];
      }
    }

    /** The swap of run: the back queue becomes the old front queue, in order, and vice versa. */
    method SwapQueues()
      modifies this`front, this`back
      ensures back == old(front) && front == old(back)
    {
      front, back := back, front;
    }

    /**
     * processMessages: drains the back queue in FIFO order, delivering each
     * message to every record the dispatch rule picks and then destroying it.
     * Messages the nodes send while processing land in the front queue, for
     * the next swap.
     */
    method ProcessMessages(respond: (Node, Message) -> seq<Message>)
      modifies this`back, this`front, this`delivered, this`destroyed
      ensures back == []
      ensures delivered == old(delivered) + BatchDeliveries(View(), old(back))
      ensures destroyed == old(destroyed) + old(back)
      ensures front == old(front) + BatchReplies(View(), old(back), respond)
    {
      ghost var view := View();
      ghost var batch := back;
      ghost var c := 0;
      while |back| > 0
        invariant registry == old(registry)
        invariant 0 <= c <= |batch| && back == batch[c..]
        invariant delivered == old(delivered) + BatchDeliveries(view, batch[..c])
        invariant destroyed == old(destroyed) + batch[..c]
        invariant front == old(front) + BatchReplies(view, batch[..c], respond)
        decreases |back|
      {
        assert back[0] == batch[c] && back[1..] == batch[c + 1..];
        ProcessHead(respond);
        BatchStep(view, batch, c, respond);
        c := c + 1;
      }
      assert batch[..c] == batch;
    }

    /**
     * One iteration of processMessages: the message at the head of the back
     * queue goes to its recipients, then it is popped and destroyed.
     */
    method ProcessHead(respond: (Node, Message) -> seq<Message>)
      requires back != []
      modifies this`back, this`front, this`delivered, this`destroyed
      ensures back == old(back)[1..]
      ensures destroyed == old(destroyed) + [old(back)[0]]
      ensures delivered == old(delivered) + Deliveries(View(), old(back)[0])
      ensures front == old(front) + RepliesUpTo(View(), old(back)[0], |View()|, respond)
    {
      var msg := back[0];
      Distribute(msg, respond);
      back := back[1..];
      destroyed := destroyed + [msg];
    }

    /**
     * The scan over the registry inside processMessages: hands `msg` to each
     * record the dispatch rule picks, in registration order.  What the nodes
     * send meanwhile joins the front queue.
     */
    method Distribute(msg: Message, respond: (Node, Message) -> seq<Message>)
      modifies this`front, this`delivered
      ensures delivered == old(delivered) + Deliveries(View(), msg)
      ensures front == old(front) + RepliesUpTo(View(), msg, |View()|, respond)
    {
      ghost var view := View();
      ViewOfAt(registry);
      var i := 0;
      while i < |registry|
        invariant 0 <= i <= |registry| == |view|
        invariant registry == old(registry)
        invariant forall j :: 0 <= j < |registry| ==> view[j] == RecordView(registry[j].node, registry[j].interested)
        invariant delivered == old(delivered) + DeliveriesUpTo(view, msg, i)
        invariant front == old(front) + RepliesUpTo(view, msg, i, respond)
      {
        var receives := if msg.destination == NoNode
          then registry[i].IsInterested(msg.msgType)
          else registry[i].node.id == msg.destination;
        assert receives == Receives(view[i], msg);
        if receives {
          var replies := respond(registry[i].node, msg);
          front := front + replies;
          delivered := delivered + [Delivery(i, msg)];
        }
        i := i + 1;
      }
    }

    /**
     * One iteration of run's loop: when the front queue holds messages, swap
     * the queues and process the batch; otherwise nothing happens.
     */
    method PollStep(respond: (Node, Message) -> seq<Message>)
      requires back == []
      modifies this`back, this`front, this`delivered, this`destroyed
      ensures back == []
      ensures delivered == old(delivered) + BatchDeliveries(View(), old(front))
      ensures destroyed == old(destroyed) + old(front)
      ensures front == BatchReplies(View(), old(front), respond)
    {
      if |front| > 0 {
        SwapQueues();
        ProcessMessages(respond);
      }
    }

    /**
     * run, for `steps` iterations of its loop: it first sets the running flag,
     * so from then on registration changes nothing, and it never changes the
     * registry itself.  Queues and logs end as `Polls` says.
     */
    method Run(steps: nat, respond: (Node, Message) -> seq<Message>)
      requires Valid() && back == []
      modifies this`running, this`back, this`front, this`delivered, this`destroyed
      ensures Valid() && back == [] && running
      ensures registry == old(registry) && View() == old(View())
      ensures var r := Polls(old(View()), old(front), steps, respond);
        front == r.front && delivered == old(delivered) + r.delivered && destroyed == old(destroyed) + r.destroyed
    {
      ghost var view := View();
      ghost var t := RunTrace(front, [], []);
      running := true;
      var s := 0;
      while s < steps
        invariant s <= steps
        invariant back == [] && running
        invariant registry == old(registry) && View() == view
        invariant t == Polls(view, old(front), s, respond)
        invariant front == t.front && delivered == old(delivered) + t.delivered && destroyed == old(destroyed) + t.destroyed
      {
        PollStep(respond);
        assert (old(delivered) + t.delivered) + BatchDeliveries(view, t.front)
          == old(delivered) + (t.delivered + BatchDeliveries(view, t.front));
        assert (old(destroyed) + t.destroyed) + t.front == old(destroyed) + (t.destroyed + t.front);
        t := Poll(view, t, respond);
        s := s + 1;
      }
    }
  }
}
