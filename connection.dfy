/**
 * The whole connection: callers sending, the server answering, and the loop waking up
 * on one branch or the other. `send_message` pushes its registration into the channel
 * before it writes the frame, so every reply arrives after its registration was queued;
 * but the loop's `select!` polls its two branches in random order, so when both are
 * ready it may read the reply before taking the registration from the channel.
 *
 * `AsWrittenEnabled` lets the loop take either ready branch, as the code does; there a
 * reply can be dropped (`ReplyOvertakesRegistration`). `BiasedEnabled` makes the loop
 * drain the registration channel before reading the socket (a `biased;` select with the
 * registration branch first); there every reply reaches its caller (`BiasedDeliversEveryReply`).
 */
module Connection {
  import opened Wrappers
  import opened Json
  import opened Message
  import opened Dispatcher

  /**
   * `queue`: registrations sent but not yet taken by the loop; `inbox`: frames the server
   * sent that the loop has not yet read; `loop`: the loop's table and resolutions.
   * For the proofs: `calls` maps each sent id to its call's handle, `replied` holds the ids
   * the server has answered, `nextCall` numbers the one-shot channels.
   */
  datatype Net = Net(queue: seq<Entry>, inbox: seq<Frame>, loop: State,
                     calls: map<Id, Handle>, replied: set<Id>, nextCall: nat)

  const Start: Net := Net([], [], Empty, map[], {}, 0)

  datatype Action =
    | Send(id: Id)                  // a caller's `send_message`: register, then write the frame
    | Reply(id: Id, result: Value)  // the server answers a request it has received
    | Noise(frame: Frame)           // any other frame: not text, undecodable, an error, end of stream
    | TakeRegistration              // the loop's registration branch completes
    | TakeFrame(listening: bool)    // the loop's socket branch completes

  /** Steps allowed whatever the loop's polling order; ids are never reused, each request is answered once. */
  predicate CommonEnabled(net: Net, a: Action)
  {
    match a
    case Send(id) => id !in net.calls
    case Reply(id, _) => id in net.calls && id !in net.replied
    case Noise(frame) => !frame.TextDecoded?
    case TakeRegistration => net.queue != []
    case TakeFrame(_) => net.inbox != []
  }

  /** The code: `select!` may complete the socket branch while registrations are waiting. */
  predicate AsWrittenEnabled(net: Net, a: Action)
  {
    CommonEnabled(net, a)
  }

  /** The correction: the socket is read only once the registration channel is empty. */
  predicate BiasedEnabled(net: Net, a: Action)
  {
    CommonEnabled(net, a) && (a.TakeFrame? ==> net.queue == [])
  }

  function Apply(net: Net, a: Action): Net
  {
    match a
    case Send(id) =>
      var h := Handle(net.nextCall);
      net.(queue := net.queue + [Entry(id, h)], calls := net.calls[id := h], nextCall := net.nextCall + 1)
    case Reply(id, result) =>
      net.(inbox := net.inbox + [TextDecoded(ResponseData(id, result))], replied := net.replied + {id})
    case Noise(frame) =>
      net.(inbox := net.inbox + [frame])
    case TakeRegistration =>
      if net.queue == [] then net
      else net.(queue := net.queue[1..], loop := Register(net.loop, Some(net.queue[0])))
    case TakeFrame(listening) =>
      if net.inbox == [] then net
      else net.(inbox := net.inbox[1..], loop := Receive(net.loop, net.inbox[0], listening))
  }

  function RunNet(net: Net, acts: seq<Action>): Net
    decreases |acts|
  {
    if acts == [] then net else Apply(RunNet(net, acts[..|acts| - 1]), acts[|acts| - 1])
  }

  ghost predicate AsWrittenTrace(acts: seq<Action>)
    decreases |acts|
  {
    acts == [] ||
    (AsWrittenTrace(acts[..|acts| - 1]) && AsWrittenEnabled(RunNet(Start, acts[..|acts| - 1]), acts[|acts| - 1]))
  }

  ghost predicate BiasedTrace(acts: seq<Action>)
    decreases |acts|
  {
    acts == [] ||
    (BiasedTrace(acts[..|acts| - 1]) && BiasedEnabled(RunNet(Start, acts[..|acts| - 1]), acts[|acts| - 1]))
  }

  ghost predicate Queued(queue: seq<Entry>, id: Id)
  {
    exists i :: 0 <= i < |queue| && queue[i].id == id
  }

  ghost predicate Unread(inbox: seq<Frame>, id: Id)
  {
    exists i :: 0 <= i < |inbox| && inbox[i].TextDecoded? && inbox[i].resp.id == id
  }

  ghost predicate Delivered(log: seq<Delivery>, id: Id, h: Handle)
  {
    exists i :: 0 <= i < |log| && log[i].handle == h && log[i].response.id == id
  }

  /** Every reply the loop has read was given to the handle of the call that sent its id. */
  ghost predicate RepliesReachCallers(net: Net)
  {
    forall id :: id in net.replied && !Unread(net.inbox, id) ==>
      id in net.calls && Delivered(net.loop.resolved, id, net.calls[id])
  }

  /** The invariant of the corrected connection. */
  ghost predicate Good(net: Net)
  {
    && (forall i :: 0 <= i < |net.queue| ==>
          net.queue[i].id in net.calls && net.calls[net.queue[i].id] == net.queue[i].handle)
    && (forall k :: k in net.loop.requests ==> k in net.calls && net.loop.requests[k] == net.calls[k])
    && (forall i :: 0 <= i < |net.inbox| && net.inbox[i].TextDecoded? ==>
          net.inbox[i].resp.id in net.replied &&
          (net.inbox[i].resp.id in net.loop.requests || Queued(net.queue, net.inbox[i].resp.id)))
    && (forall i, j :: 0 <= i < j < |net.inbox| && net.inbox[i].TextDecoded? && net.inbox[j].TextDecoded? ==>
          net.inbox[i].resp.id != net.inbox[j].resp.id)
    && (forall id :: id in net.calls && id !in net.replied ==> id in net.loop.requests || Queued(net.queue, id))
    && net.replied <= net.calls.Keys
    && RepliesReachCallers(net)
  }

  lemma SendKeepsGood(net: Net, id: Id)
    requires Good(net) && CommonEnabled(net, Send(id))
    ensures Good(Apply(net, Send(id)))
  {
    var r := Apply(net, Send(id));
    forall i | 0 <= i < |net.queue| ensures r.queue[i] == net.queue[i] && net.queue[i].id != id { }
    assert r.queue[|net.queue|].id == id;
    forall x | Queued(net.queue, x) ensures Queued(r.queue, x) {
      var i :| 0 <= i < |net.queue| && net.queue[i].id == x;
      assert r.queue[i].id == x;
    }
    forall x | x in r.replied && !Unread(r.inbox, x)
      ensures x in r.calls && Delivered(r.loop.resolved, x, r.calls[x])
    {
      assert x != id;
    }
  }

  lemma ReplyKeepsGood(net: Net, id: Id, result: Value)
    requires Good(net) && CommonEnabled(net, Reply(id, result))
    ensures Good(Apply(net, Reply(id, result)))
  {
    var r := Apply(net, Reply(id, result));
    forall i | 0 <= i < |net.inbox| ensures r.inbox[i] == net.inbox[i] { }
    assert r.inbox[|net.inbox|].resp.id == id;
    assert Unread(r.inbox, id);
    forall x | Unread(net.inbox, x) ensures Unread(r.inbox, x) {
      var i :| 0 <= i < |net.inbox| && net.inbox[i].TextDecoded? && net.inbox[i].resp.id == x;
      assert r.inbox[i] == net.inbox[i];
    }
  }

  lemma NoiseKeepsGood(net: Net, frame: Frame)
    requires Good(net) && CommonEnabled(net, Noise(frame))
    ensures Good(Apply(net, Noise(frame)))
  {
    var r := Apply(net, Noise(frame));
    forall i | 0 <= i < |net.inbox| ensures r.inbox[i] == net.inbox[i] { }
    forall x | Unread(net.inbox, x) ensures Unread(r.inbox, x) {
      var i :| 0 <= i < |net.inbox| && net.inbox[i].TextDecoded? && net.inbox[i].resp.id == x;
      assert r.inbox[i] == net.inbox[i];
    }
  }

  lemma TakeRegistrationKeepsGood(net: Net)
    requires Good(net) && CommonEnabled(net, TakeRegistration)
    ensures Good(Apply(net, TakeRegistration))
  {
    var r := Apply(net, TakeRegistration);
    var e := net.queue[0];
    forall i | 0 <= i < |r.queue| ensures r.queue[i] == net.queue[i + 1] { }
    forall x | Queued(net.queue, x) ensures x in r.loop.requests || Queued(r.queue, x) {
      var i :| 0 <= i < |net.queue| && net.queue[i].id == x;
      if i > 0 {
        assert r.queue[i - 1].id == x;
      }
    }
  }

  lemma TakeFrameKeepsGood(net: Net, listening: bool)
    requires Good(net) && BiasedEnabled(net, TakeFrame(listening))
    ensures Good(Apply(net, TakeFrame(listening)))
  {
    var r := Apply(net, TakeFrame(listening));
    var f := net.inbox[0];
    forall i | 0 <= i < |r.inbox| ensures r.inbox[i] == net.inbox[i + 1] { }
    forall i | 0 < i < |net.inbox| && net.inbox[i].TextDecoded? ensures Unread(r.inbox, net.inbox[i].resp.id) {
      assert r.inbox[i - 1] == net.inbox[i];
    }
    forall y, h | Delivered(net.loop.resolved, y, h) ensures Delivered(r.loop.resolved, y, h) {
      var k :| 0 <= k < |net.loop.resolved| && net.loop.resolved[k].handle == h && net.loop.resolved[k].response.id == y;
      assert r.loop.resolved[k] == net.loop.resolved[k];
    }
    if f.TextDecoded? {
      var x := f.resp.id;
      assert x in net.loop.requests;
      forall i | 0 <= i < |r.inbox| && r.inbox[i].TextDecoded? ensures r.inbox[i].resp.id != x {
        assert net.inbox[i + 1] == r.inbox[i];
      }
      var d := Delivery(net.loop.requests[x], f.resp, listening);
      assert r.loop.resolved[|r.loop.resolved| - 1] == d;
      assert Delivered(r.loop.resolved, x, r.calls[x]);
    }
  }

  lemma {:induction false} BiasedTraceIsGood(acts: seq<Action>)
    requires BiasedTrace(acts)
    ensures Good(RunNet(Start, acts))
    decreases |acts|
  {
    if acts != [] {
      var prefix, a := acts[..|acts| - 1], acts[|acts| - 1];
      BiasedTraceIsGood(prefix);
      var net := RunNet(Start, prefix);
      match a
      case Send(id) => SendKeepsGood(net, id);
      case Reply(id, result) => ReplyKeepsGood(net, id, result);
      case Noise(frame) => NoiseKeepsGood(net, frame);
      case TakeRegistration => TakeRegistrationKeepsGood(net);
      case TakeFrame(listening) => TakeFrameKeepsGood(net, listening);
    }
  }

  /**
   * With the registration channel drained before the socket is read, every reply the
   * loop has read was delivered to the handle of the call that sent its id.
   */
  lemma BiasedDeliversEveryReply(acts: seq<Action>, id: Id)
    requires BiasedTrace(acts)
    requires id in RunNet(Start, acts).replied && !Unread(RunNet(Start, acts).inbox, id)
    ensures id in RunNet(Start, acts).calls
    ensures Delivered(RunNet(Start, acts).loop.resolved, id, RunNet(Start, acts).calls[id])
  {
    BiasedTraceIsGood(acts);
  }

  /**
   * As written: a call is sent, the server answers, and the loop reads the answer before
   * taking the registration; the answer is dropped and the call's handle stays in the
   * table with no reply left to resolve it.
   */
  lemma ReplyOvertakesRegistration()
    ensures var acts := [Send("a"), Reply("a", Null), TakeFrame(true), TakeRegistration];
      && AsWrittenTrace(acts)
      && !BiasedTrace(acts)
      && var net := RunNet(Start, acts);
         && "a" in net.replied && !Unread(net.inbox, "a")
         && net.loop.resolved == []
         && net.loop.requests == map["a" := Handle(0)]
         && !RepliesReachCallers(net)
  {
    var acts := [Send("a"), Reply("a", Null), TakeFrame(true), TakeRegistration];
    forall k | 0 < k <= 4 ensures acts[..k][..k - 1] == acts[..k - 1] { }
    assert acts[..4] == acts;
    var n1 := Net([Entry("a", Handle(0))], [], Empty, map["a" := Handle(0)], {}, 1);
    assert RunNet(Start, acts[..1]) == n1;
    var reply := TextDecoded(ResponseData("a", Null));
    var n2 := n1.(inbox := [reply], replied := {"a"});
    assert RunNet(Start, acts[..2]) == n2;
    var n3 := n2.(inbox := []);
    assert RunNet(Start, acts[..3]) == n3;
    var n4 := n3.(queue := [], loop := State(map["a" := Handle(0)], [], []));
    assert RunNet(Start, acts) == n4;
    assert AsWrittenTrace(acts[..1]) && AsWrittenTrace(acts[..2]) && AsWrittenTrace(acts[..3]);
    assert !BiasedTrace(acts[..3]);
  }
}
