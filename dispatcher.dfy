/**
 * The background loop spawned by `SurrealClient::new`: it owns the pending-call table
 * (`requests`, correlation id to the sending half of a one-shot channel) and reacts to
 * two kinds of wake-up, a registration from `send_message` and a frame from the socket.
 *
 * `Register`, `Receive`, `Step` and `Run` give the meaning of the loop on values; the class
 * `Loop` is the loop itself, proved against them; the lemmas state what any interleaving
 * of wake-ups guarantees.
 */
module Dispatcher {
  import opened Wrappers
  import opened Message

  type Id = string

  /** The sending half of the one-shot channel created for one call; `call` tells calls apart. */
  datatype Handle = Handle(call: nat)

  /** A registration `(id, sender)` as `send_message` puts it on the unbounded channel. */
  datatype Entry = Entry(id: Id, handle: Handle)

  /**
   * What one read of the socket stream yields: the end of the stream (`None`), a socket
   * error, a message other than text, text that does not decode as a reply, or a decoded reply.
   */
  datatype Frame =
    | StreamEnded
    | SocketError
    | NonText
    | TextUndecodable
    | TextDecoded(resp: ResponseData)

  /**
   * One wake-up of the loop. A registration carries `None` once the channel is closed.
   * An inbound frame carries whether the caller still holds the receiving half, which
   * decides whether `sender.send` succeeds.
   */
  datatype Event =
    | Registration(entry: Option<Entry>)
    | Inbound(frame: Frame, listening: bool)

  /** One resolution: the handle used, the reply given to it, and whether the receiver took it. */
  datatype Delivery = Delivery(handle: Handle, response: ResponseData, accepted: bool)

  /**
   * The table, and (for the proofs) every resolution made so far and every sender the
   * table let go of without resolving it, oldest first.
   */
  datatype State = State(requests: map<Id, Handle>, resolved: seq<Delivery>, dropped: seq<Handle>)

  const Empty: State := State(map[], [], [])

  /**
   * The registration branch: `requests.insert(id, sender)`, overwriting an entry with the
   * same id. `insert` hands back the sender it replaced and the statement discards it, so
   * that sender is dropped, which closes the earlier caller's channel.
   */
  function Register(s: State, entry: Option<Entry>): (r: State)
    ensures r.resolved == s.resolved
    ensures entry.None? ==> r.requests == s.requests && r.dropped == s.dropped
    ensures entry.Some? && entry.value.id in s.requests ==> r.dropped == s.dropped + [s.requests[entry.value.id]]
    ensures entry.Some? && entry.value.id !in s.requests ==> r.dropped == s.dropped
    ensures entry.Some? ==> entry.value.id in r.requests && r.requests[entry.value.id] == entry.value.handle
    ensures entry.Some? ==> forall k :: k != entry.value.id ==>
      (k in r.requests <==> k in s.requests) && (k in s.requests ==> r.requests[k] == s.requests[k])
  {
    match entry
    case None => s
    case Some(Entry(id, handle)) =>
      var replaced := if id in s.requests then [s.requests[id]] else [];
      State(s.requests[id := handle], s.resolved, s.dropped + replaced)
  }

  /**
   * The socket branch: only a decoded text reply whose id is pending has an effect; it
   * removes that entry and resolves exactly its handle with exactly that reply, whether
   * or not the receiver is still listening.
   */
  function Receive(s: State, frame: Frame, listening: bool): (r: State)
    ensures !frame.TextDecoded? ==> r == s
    ensures frame.TextDecoded? && frame.resp.id !in s.requests ==> r == s
    ensures frame.TextDecoded? && frame.resp.id in s.requests ==>
      && r.requests.Keys == s.requests.Keys - {frame.resp.id}
      && (forall k :: k in r.requests ==> r.requests[k] == s.requests[k])
      && r.resolved == s.resolved + [Delivery(s.requests[frame.resp.id], frame.resp, listening)]
      && r.dropped == s.dropped
  {
    match frame
    case TextDecoded(resp) =>
      if resp.id in s.requests then
        State(s.requests - {resp.id}, s.resolved + [Delivery(s.requests[resp.id], resp, listening)], s.dropped)
      else s
    case _ => s
  }

  function Step(s: State, e: Event): State
  {
    match e
    case Registration(entry) => Register(s, entry)
    case Inbound(frame, listening) => Receive(s, frame, listening)
  }

  /** The state after the loop has handled `events` in order. */
  function Run(s: State, events: seq<Event>): State
    decreases |events|
  {
    if events == [] then s
    else Step(Run(s, events[..|events| - 1]), events[|events| - 1])
  }

  /** The entries registered by `events`, in order. */
  function Registrations(events: seq<Event>): seq<Entry>
    decreases |events|
  {
    if events == [] then []
    else
      var last := events[|events| - 1];
      Registrations(events[..|events| - 1]) +
        (if last.Registration? && last.entry.Some? then [last.entry.value] else [])
  }

  /** The pending-call loop, owning the table. */
  class Loop {
    var requests: map<Id, Handle>
    ghost var resolved: seq<Delivery>
    ghost var dropped: seq<Handle>

    ghost function Current(): State
      reads this
    {
      State(requests, resolved, dropped)
    }

    constructor ()
      ensures Current() == Empty
    {
      requests := map[];
      resolved := [];
      dropped := [];
    }

    method OnRegister(entry: Option<Entry>)
      modifies this
      ensures Current() == Register(old(Current()), entry)
    {
      if entry.Some? {
        if entry.value.id in requests {
          dropped := dropped + [requests[entry.value.id]];
        }
        requests := requests[entry.value.id := entry.value.handle];
      }
    }

    method OnFrame(frame: Frame, listening: bool)
      modifies this
      ensures Current() == Receive(old(Current()), frame, listening)
    {
      if frame.TextDecoded? {
        var response := frame.resp;
        if response.id in requests {
          var sender := requests[response.id];
          requests := requests - {response.id};
          resolved := resolved + [Delivery(sender, response, listening)];
        }
      }
    }

    /** The `loop { select! { .. } }`, fed one interleaving of wake-ups. */
    method Drive(events: seq<Event>)
      modifies this
      ensures Current() == Run(old(Current()), events)
    {
      var i := 0;
      while i < |events|
        invariant 0 <= i <= |events|
        invariant Current() == Run(old(Current()), events[..i])
      {
        assert events[..i + 1][..i] == events[..i];
        match events[i] {
          case Registration(entry) => OnRegister(entry);
          case Inbound(frame, listening) => OnFrame(frame, listening);
        }
        i := i + 1;
      }
      assert events[..i] == events;
    }
  }

  // ----- Properties of any interleaving -----

  lemma {:induction false} RunAppend(s: State, a: seq<Event>, b: seq<Event>)
    ensures Run(s, a + b) == Run(Run(s, a), b)
    decreases |b|
  {
    if b == [] {
      assert a + b == a;
    } else {
      var b' := b[..|b| - 1];
      assert (a + b)[..|a + b| - 1] == a + b';
      RunAppend(s, a, b');
    }
  }

  lemma {:induction false} RegistrationsAppend(a: seq<Event>, b: seq<Event>)
    ensures Registrations(a + b) == Registrations(a) + Registrations(b)
    decreases |b|
  {
    if b == [] {
      assert a + b == a;
    } else {
      var b' := b[..|b| - 1];
      assert (a + b)[..|a + b| - 1] == a + b';
      RegistrationsAppend(a, b');
    }
  }

  /** Resolutions are only ever appended: the loop never takes one back or reorders them. */
  lemma {:induction false} ResolvedOnlyGrows(s: State, events: seq<Event>)
    ensures |Run(s, events).resolved| >= |s.resolved|
    ensures Run(s, events).resolved[..|s.resolved|] == s.resolved
    decreases |events|
  {
    if events != [] {
      ResolvedOnlyGrows(s, events[..|events| - 1]);
    }
  }

  /** A second reply with an id that was already answered finds nothing and changes nothing. */
  lemma SecondReplyIsInert(s: State, first: ResponseData, second: ResponseData, l1: bool, l2: bool)
    requires first.id in s.requests && second.id == first.id
    ensures var after := Receive(s, TextDecoded(first), l1);
      Receive(after, TextDecoded(second), l2) == after
  {
  }

  ghost predicate DistinctCalls(regs: seq<Entry>)
  {
    forall i, j :: 0 <= i < j < |regs| ==> regs[i].handle != regs[j].handle
  }

  ghost predicate HandleInUse(s: State, h: Handle)
  {
    h in s.requests.Values || exists i :: 0 <= i < |s.resolved| && s.resolved[i].handle == h
  }

  /** No handle resolved twice, no handle pending under two ids, no resolved handle still pending. */
  ghost predicate ResolvedOnce(s: State)
  {
    && (forall i, j :: 0 <= i < j < |s.resolved| ==> s.resolved[i].handle != s.resolved[j].handle)
    && (forall a, b :: a in s.requests && b in s.requests && a != b ==> s.requests[a] != s.requests[b])
    && (forall k, i :: k in s.requests && 0 <= i < |s.resolved| ==> s.requests[k] != s.resolved[i].handle)
  }

  lemma StepKeepsResolvedOnce(s: State, e: Event)
    requires ResolvedOnce(s)
    requires e.Registration? && e.entry.Some? ==> !HandleInUse(s, e.entry.value.handle)
    ensures ResolvedOnce(Step(s, e))
    ensures UsesOnly(Step(s, e), s, if e.Registration? && e.entry.Some? then [e.entry.value] else [])
  {
    var r := Step(s, e);
    if e.Inbound? && e.frame.TextDecoded? && e.frame.resp.id in s.requests {
      var id := e.frame.resp.id;
      forall h | HandleInUse(r, h) ensures HandleInUse(s, h) {
        if h in r.requests.Values {
          var k :| k in r.requests && r.requests[k] == h;
          assert k in s.requests;
        } else {
          var i :| 0 <= i < |r.resolved| && r.resolved[i].handle == h;
          if i == |s.resolved| {
            assert h == s.requests[id];
          } else {
            assert r.resolved[i] == s.resolved[i];
          }
        }
      }
    } else if e.Registration? && e.entry.Some? {
      var id, h0 := e.entry.value.id, e.entry.value.handle;
      forall a, b | a in r.requests && b in r.requests && a != b ensures r.requests[a] != r.requests[b] {
        if a == id {
          assert b in s.requests;
          assert s.requests[b] in s.requests.Values;
        } else if b == id {
          assert a in s.requests;
          assert s.requests[a] in s.requests.Values;
        }
      }
      forall h | HandleInUse(r, h) ensures HandleInUse(s, h) || h == h0 {
        if h in r.requests.Values && h != h0 {
          var k :| k in r.requests && r.requests[k] == h;
          assert k in s.requests;
        }
      }
      assert [e.entry.value][0].handle == h0;
    }
  }

  /** Every handle `r` uses was already in use in `s` or is one of `regs`. */
  ghost predicate UsesOnly(r: State, s: State, regs: seq<Entry>)
  {
    forall h :: HandleInUse(r, h) ==> HandleInUse(s, h) || exists i :: 0 <= i < |regs| && regs[i].handle == h
  }

  lemma {:induction false} RunKeepsResolvedOnce(s: State, events: seq<Event>)
    requires ResolvedOnce(s)
    requires DistinctCalls(Registrations(events))
    requires forall i :: 0 <= i < |Registrations(events)| ==> !HandleInUse(s, Registrations(events)[i].handle)
    ensures ResolvedOnce(Run(s, events))
    ensures UsesOnly(Run(s, events), s, Registrations(events))
    decreases |events|
  {
    if events != [] {
      var prefix, e := events[..|events| - 1], events[|events| - 1];
      var regs, before := Registrations(events), Registrations(prefix);
      assert regs == before + (if e.Registration? && e.entry.Some? then [e.entry.value] else []);
      assert forall i :: 0 <= i < |before| ==> regs[i] == before[i];
      RunKeepsResolvedOnce(s, prefix);
      var mid := Run(s, prefix);
      if e.Registration? && e.entry.Some? {
        var h0 := e.entry.value.handle;
        assert regs[|before|].handle == h0;
        assert !HandleInUse(s, h0);
        forall i | 0 <= i < |before| ensures before[i].handle != h0 {
          assert regs[i] == before[i];
        }
        assert !HandleInUse(mid, h0);
      }
      StepKeepsResolvedOnce(mid, e);
      assert Run(s, events) == Step(mid, e);
      forall h | HandleInUse(Run(s, events), h)
        ensures HandleInUse(s, h) || exists i :: 0 <= i < |regs| && regs[i].handle == h
      {
        if !HandleInUse(mid, h) {
          var last := if e.Registration? && e.entry.Some? then [e.entry.value] else [];
          assert exists i :: 0 <= i < |last| && last[i].handle == h;
          assert regs[|before|].handle == h;
        } else if !HandleInUse(s, h) {
          var i :| 0 <= i < |before| && before[i].handle == h;
          assert regs[i].handle == h;
        }
      }
    } else {
      assert Run(s, events) == s;
    }
  }

  /**
   * At-most-once resolution: when every call registers its own one-shot channel, no
   * handle is resolved twice, however registrations and frames interleave.
   */
  lemma EachHandleResolvedAtMostOnce(events: seq<Event>)
    requires DistinctCalls(Registrations(events))
    ensures var log := Run(Empty, events).resolved;
      forall i, j :: 0 <= i < j < |log| ==> log[i].handle != log[j].handle
  {
    RunKeepsResolvedOnce(Empty, events);
  }

  /** Every pending entry and every resolution pairs an id with the handle registered under it. */
  ghost predicate PairedWith(s: State, regs: seq<Entry>)
  {
    && (forall k :: k in s.requests ==> Entry(k, s.requests[k]) in regs)
    && (forall i :: 0 <= i < |s.resolved| ==> Entry(s.resolved[i].response.id, s.resolved[i].handle) in regs)
  }

  lemma {:induction false} RunKeepsPairing(events: seq<Event>)
    ensures PairedWith(Run(Empty, events), Registrations(events))
    decreases |events|
  {
    if events != [] {
      var prefix, e := events[..|events| - 1], events[|events| - 1];
      RunKeepsPairing(prefix);
      var mid, regs := Run(Empty, prefix), Registrations(events);
      assert Registrations(prefix) <= regs;
      var r := Step(mid, e);
      forall i | 0 <= i < |r.resolved| ensures Entry(r.resolved[i].response.id, r.resolved[i].handle) in regs {
        if i < |mid.resolved| {
          assert r.resolved[i] == mid.resolved[i];
        }
      }
    }
  }

  /**
   * No cross-talk: a reply is only ever given to a handle registered under the reply's
   * own id; with one channel per call, the handle of the call registered as `(id, h)`
   * only ever receives replies carrying `id`.
   */
  lemma NoCrossTalk(events: seq<Event>, call: nat)
    requires DistinctCalls(Registrations(events))
    requires call < |Registrations(events)|
    ensures var log := Run(Empty, events).resolved;
      forall i :: 0 <= i < |log| && log[i].handle == Registrations(events)[call].handle ==>
        log[i].response.id == Registrations(events)[call].id
  {
    RunKeepsPairing(events);
    var log, regs := Run(Empty, events).resolved, Registrations(events);
    forall i | 0 <= i < |log| && log[i].handle == regs[call].handle ensures log[i].response.id == regs[call].id {
      var j :| 0 <= j < |regs| && regs[j] == Entry(log[i].response.id, log[i].handle);
      assert regs[j].handle == regs[call].handle;
    }
  }

  /** The wake-up registers `id` or carries a decoded reply for `id`. */
  predicate Touches(e: Event, id: Id)
  {
    || (e.Registration? && e.entry.Some? && e.entry.value.id == id)
    || (e.Inbound? && e.frame.TextDecoded? && e.frame.resp.id == id)
  }

  lemma {:induction false} UntouchedEntryStays(s: State, events: seq<Event>, id: Id)
    requires id in s.requests
    requires forall i :: 0 <= i < |events| ==> !Touches(events[i], id)
    ensures id in Run(s, events).requests && Run(s, events).requests[id] == s.requests[id]
    decreases |events|
  {
    if events != [] {
      UntouchedEntryStays(s, events[..|events| - 1], id);
    }
  }

  /**
   * Ordering independence: a reply resolves the call registered under its id, whatever
   * other registrations and replies came between the two, as long as none of them is for
   * the same id; what follows never takes the resolution back.
   */
  lemma ReplyResolvesItsCall(s: State, before: seq<Event>, h: Handle, between: seq<Event>,
                             resp: ResponseData, listening: bool, after: seq<Event>)
    requires forall i :: 0 <= i < |between| ==> !Touches(between[i], resp.id)
    ensures Delivery(h, resp, listening) in
      Run(s, before + [Registration(Some(Entry(resp.id, h)))] + between + [Inbound(TextDecoded(resp), listening)] + after).resolved
  {
    var registered := Run(s, before + [Registration(Some(Entry(resp.id, h)))]);
    RunAppend(s, before, [Registration(Some(Entry(resp.id, h)))]);
    UntouchedEntryStays(registered, between, resp.id);
    var waiting := before + [Registration(Some(Entry(resp.id, h)))] + between;
    RunAppend(s, before + [Registration(Some(Entry(resp.id, h)))], between);
    var answered := waiting + [Inbound(TextDecoded(resp), listening)];
    RunAppend(s, waiting, [Inbound(TextDecoded(resp), listening)]);
    var last := Run(s, answered).resolved;
    assert last[|last| - 1] == Delivery(h, resp, listening);
    RunAppend(s, answered, after);
    ResolvedOnlyGrows(Run(s, answered), after);
    assert last == Run(s, answered + after).resolved[..|last|];
  }

  /** Handle `h` is still pending, has been resolved, or has been dropped. */
  ghost predicate Accounted(s: State, h: Handle)
  {
    h in s.requests.Values || h in s.dropped || exists i :: 0 <= i < |s.resolved| && s.resolved[i].handle == h
  }

  /** A handle leaves the table only by being resolved or dropped, and both logs only grow. */
  lemma StepKeepsAccounted(s: State, e: Event, h: Handle)
    requires Accounted(s, h)
    ensures Accounted(Step(s, e), h)
  {
    var r := Step(s, e);
    if h in s.requests.Values {
      var k :| k in s.requests && s.requests[k] == h;
      match e
      case Registration(entry) =>
        if entry.Some? && entry.value.id == k {
          assert r.dropped == s.dropped + [h];
          assert r.dropped[|s.dropped|] == h;
        } else {
          assert k in r.requests && r.requests[k] == h;
        }
      case Inbound(frame, listening) =>
        if frame.TextDecoded? && frame.resp.id == k {
          assert r.resolved[|s.resolved|].handle == h;
        } else {
          assert k in r.requests && r.requests[k] == h;
        }
    } else if h in s.dropped {
      var j :| 0 <= j < |s.dropped| && s.dropped[j] == h;
      assert r.dropped[j] == h;
    } else {
      var i :| 0 <= i < |s.resolved| && s.resolved[i].handle == h;
      assert r.resolved[i] == s.resolved[i];
    }
  }

  /**
   * No call vanishes: after any sequence of wake-ups, every registered handle is still
   * pending, has received its reply, or was dropped (and its caller's await failed).
   */
  lemma {:induction false} RunAccountsEveryCall(events: seq<Event>)
    ensures forall i :: 0 <= i < |Registrations(events)| ==>
      Accounted(Run(Empty, events), Registrations(events)[i].handle)
    decreases |events|
  {
    if events != [] {
      var prefix, e := events[..|events| - 1], events[|events| - 1];
      RunAccountsEveryCall(prefix);
      var regs, before := Registrations(events), Registrations(prefix);
      assert regs == before + (if e.Registration? && e.entry.Some? then [e.entry.value] else []);
      forall i | 0 <= i < |regs| ensures Accounted(Run(Empty, events), regs[i].handle) {
        if i < |before| {
          assert regs[i] == before[i];
          StepKeepsAccounted(Run(Empty, prefix), e, regs[i].handle);
        } else {
          var id := e.entry.value.id;
          assert regs[i] == e.entry.value;
          assert Run(Empty, events).requests[id] == regs[i].handle;
        }
      }
    }
  }

  /**
   * The id-collision hazard: a second registration under a pending id replaces the first
   * sender, which is dropped (so the earlier caller's await fails at once); the reply
   * then goes to the later call.
   */
  lemma CollisionDropsEarlierCall(id: Id, h1: Handle, h2: Handle, resp: ResponseData, listening: bool)
    requires h1 != h2 && resp.id == id
    ensures var r := Run(Empty, [Registration(Some(Entry(id, h1))), Registration(Some(Entry(id, h2))),
                                 Inbound(TextDecoded(resp), listening)]);
      r.resolved == [Delivery(h2, resp, listening)] && r.dropped == [h1] && h1 !in r.requests.Values
  {
    var es := [Registration(Some(Entry(id, h1))), Registration(Some(Entry(id, h2))), Inbound(TextDecoded(resp), listening)];
    assert es[..2][..1] == es[..1] && es[..1][..0] == [];
    assert es[..2] == es[..|es| - 1];
    assert Run(Empty, es[..1]) == Step(Run(Empty, []), es[0]);
    assert Run(Empty, es[..1]) == State(map[id := h1], [], []);
    assert Run(Empty, es[..2]) == Step(Run(Empty, es[..1]), es[1]);
    assert Run(Empty, es[..2]) == State(map[id := h2], [], [h1]);
    assert Run(Empty, es) == Step(Run(Empty, es[..2]), es[2]);
  }

  /** Calls r1, r2, r3 answered in the order r3, r1, r2: each is resolved with its own reply. */
  lemma RepliesOutOfOrder(x1: ResponseData, x2: ResponseData, x3: ResponseData)
    requires x1.id == "r1" && x2.id == "r2" && x3.id == "r3"
    ensures Run(Empty, [Registration(Some(Entry("r1", Handle(1)))), Registration(Some(Entry("r2", Handle(2)))),
                        Registration(Some(Entry("r3", Handle(3)))), Inbound(TextDecoded(x3), true),
                        Inbound(TextDecoded(x1), true), Inbound(TextDecoded(x2), true)])
      == State(map[], [Delivery(Handle(3), x3, true), Delivery(Handle(1), x1, true), Delivery(Handle(2), x2, true)], [])
  {
    var regs := [Registration(Some(Entry("r1", Handle(1)))), Registration(Some(Entry("r2", Handle(2)))),
                 Registration(Some(Entry("r3", Handle(3))))];
    var replies := [Inbound(TextDecoded(x3), true), Inbound(TextDecoded(x1), true), Inbound(TextDecoded(x2), true)];
    assert regs + replies == [Registration(Some(Entry("r1", Handle(1)))), Registration(Some(Entry("r2", Handle(2)))),
                              Registration(Some(Entry("r3", Handle(3)))), Inbound(TextDecoded(x3), true),
                              Inbound(TextDecoded(x1), true), Inbound(TextDecoded(x2), true)];
    RunAppend(Empty, regs, replies);
    ThreeRegistrations();
    ThreeRepliesOutOfOrder(x1, x2, x3);
  }

  /** Registering r1, r2 and r3 on an empty table. */
  lemma ThreeRegistrations()
    ensures Run(Empty, [Registration(Some(Entry("r1", Handle(1)))), Registration(Some(Entry("r2", Handle(2)))),
                        Registration(Some(Entry("r3", Handle(3))))])
      == State(map["r1" := Handle(1), "r2" := Handle(2), "r3" := Handle(3)], [], [])
  {
    RunThree(Empty, Registration(Some(Entry("r1", Handle(1)))), Registration(Some(Entry("r2", Handle(2)))),
             Registration(Some(Entry("r3", Handle(3)))));
  }

  /** Answering r3, r1 and r2, in that order, from a table holding all three. */
  lemma ThreeRepliesOutOfOrder(x1: ResponseData, x2: ResponseData, x3: ResponseData)
    requires x1.id == "r1" && x2.id == "r2" && x3.id == "r3"
    ensures Run(State(map["r1" := Handle(1), "r2" := Handle(2), "r3" := Handle(3)], [], []),
                [Inbound(TextDecoded(x3), true), Inbound(TextDecoded(x1), true), Inbound(TextDecoded(x2), true)])
      == State(map[], [Delivery(Handle(3), x3, true), Delivery(Handle(1), x1, true), Delivery(Handle(2), x2, true)], [])
  {
    var s3 := State(map["r1" := Handle(1), "r2" := Handle(2), "r3" := Handle(3)], [], []);
    RunThree(s3, Inbound(TextDecoded(x3), true), Inbound(TextDecoded(x1), true), Inbound(TextDecoded(x2), true));
    var s4 := State(map["r1" := Handle(1), "r2" := Handle(2)], [Delivery(Handle(3), x3, true)], []);
    assert s3.requests - {"r3"} == s4.requests;
    assert Step(s3, Inbound(TextDecoded(x3), true)) == s4;
    var s5 := State(map["r2" := Handle(2)], s4.resolved + [Delivery(Handle(1), x1, true)], []);
    assert s4.requests - {"r1"} == s5.requests;
    assert Step(s4, Inbound(TextDecoded(x1), true)) == s5;
    assert s5.requests - {"r2"} == map[];
  }

  /** Three wake-ups in a row are three steps. */
  lemma RunThree(s: State, e1: Event, e2: Event, e3: Event)
    ensures Run(s, [e1, e2, e3]) == Step(Step(Step(s, e1), e2), e3)
  {
    assert [e1][..0] == [];
    assert Run(s, [e1]) == Step(s, e1);
    assert [e1, e2][..1] == [e1];
    assert Run(s, [e1, e2]) == Step(Run(s, [e1]), e2);
    assert [e1, e2, e3][..2] == [e1, e2];
  }
}
