/**
 * The caller side of `SurrealClient`: `send_message` and the calls built on it. The
 * client holds the sending ends of the registration channel (`resp_sink`) and of the
 * socket (`socket_sink`); here each is the sequence of what has been pushed into it.
 */
module Client {
  import opened Wrappers
  import opened Json
  import opened Message
  import opened Dispatcher

  /** The awaitable handed to the caller, wrapping the receiving half of its one-shot channel. */
  datatype SurrealResponse = SurrealResponse(receiver: Handle)

  /** The error `send_message` can return: the socket write failed. */
  datatype RpcError = SocketWriteFailed

  /** What the client pushed, in the order it pushed it. */
  datatype Effect = Enqueued(entry: Entry) | Written(request: Request)

  /** `json!([query, params])` */
  function QueryParams(query: string, params: Value): Value
  {
    Arr([Str(query), params])
  }

  /** `json!([{"user": user, "pass": pass}])` */
  function SigninParams(user: string, pass: string): Value
  {
    Arr([Obj(map["user" := Str(user), "pass" := Str(pass)])])
  }

  /** `json!([namespace, database])` */
  function UseParams(namespace: string, database: string): Value
  {
    Arr([Str(namespace), Str(database)])
  }

  /** The effects of one `send_message` whose channel number is `call`. */
  function SendEffects(id: Id, methodName: string, params: Value, call: nat, writeOk: bool): seq<Effect>
  {
    [Enqueued(Entry(id, Handle(call)))] + (if writeOk then [Written(Request(id, methodName, params))] else [])
  }

  function EnqueuedOf(effects: seq<Effect>): seq<Entry>
    decreases |effects|
  {
    if effects == [] then []
    else
      var last := effects[|effects| - 1];
      EnqueuedOf(effects[..|effects| - 1]) + (if last.Enqueued? then [last.entry] else [])
  }

  function WrittenOf(effects: seq<Effect>): seq<Request>
    decreases |effects|
  {
    if effects == [] then []
    else
      var last := effects[|effects| - 1];
      WrittenOf(effects[..|effects| - 1]) + (if last.Written? then [last.request] else [])
  }

  /** Every frame written to the socket was preceded by a registration under the same id. */
  ghost predicate RegisteredBeforeWritten(effects: seq<Effect>)
  {
    forall j :: 0 <= j < |effects| && effects[j].Written? ==>
      exists i :: 0 <= i < j && effects[i].Enqueued? && effects[i].entry.id == effects[j].request.id
  }

  /** Appending one `send_message` keeps the order "register, then write". */
  lemma SendKeepsRegisterFirst(effects: seq<Effect>, id: Id, methodName: string, params: Value, call: nat, writeOk: bool)
    requires RegisteredBeforeWritten(effects)
    ensures RegisteredBeforeWritten(effects + SendEffects(id, methodName, params, call, writeOk))
  {
    var all := effects + SendEffects(id, methodName, params, call, writeOk);
    forall j | 0 <= j < |all| && all[j].Written?
      ensures exists i :: 0 <= i < j && all[i].Enqueued? && all[i].entry.id == all[j].request.id
    {
      if j < |effects| {
        var i :| 0 <= i < j && effects[i].Enqueued? && effects[i].entry.id == effects[j].request.id;
        assert all[i] == effects[i];
      } else {
        assert j == |effects| + 1 && all[|effects|] == Enqueued(Entry(id, Handle(call)));
      }
    }
  }

  lemma SendEffectsContents(id: Id, methodName: string, params: Value, call: nat, writeOk: bool)
    ensures EnqueuedOf(SendEffects(id, methodName, params, call, writeOk)) == [Entry(id, Handle(call))]
    ensures WrittenOf(SendEffects(id, methodName, params, call, writeOk)) ==
      if writeOk then [Request(id, methodName, params)] else []
  {
    var e := SendEffects(id, methodName, params, call, writeOk);
    if writeOk {
      assert e[..1] == [e[0]] && e[..1][..0] == [];
      assert EnqueuedOf(e[..1]) == [Entry(id, Handle(call))];
      assert WrittenOf(e[..1]) == [];
    } else {
      assert e[..0] == [];
    }
  }

  /** A channel numbered above every registered one keeps the registered channels distinct. */
  lemma FreshCallKeepsDistinct(regs: seq<Entry>, next: nat, id: Id)
    requires forall i :: 0 <= i < |regs| ==> regs[i].handle.call < next
    requires DistinctCalls(regs)
    ensures var regs' := regs + [Entry(id, Handle(next))];
      (forall i :: 0 <= i < |regs'| ==> regs'[i].handle.call < next + 1) && DistinctCalls(regs')
  {
  }

  lemma {:induction false} EnqueuedOfAppend(a: seq<Effect>, b: seq<Effect>)
    ensures EnqueuedOf(a + b) == EnqueuedOf(a) + EnqueuedOf(b)
    ensures WrittenOf(a + b) == WrittenOf(a) + WrittenOf(b)
    decreases |b|
  {
    if b == [] {
      assert a + b == a;
    } else {
      var b' := b[..|b| - 1];
      assert (a + b)[..|a + b| - 1] == a + b';
      EnqueuedOfAppend(a, b');
    }
  }

  /**
   * The client's invariant: each sink holds exactly what the log says was pushed into it,
   * every written frame was registered first, and the registered channels are distinct
   * and numbered below the counter.
   */
  ghost predicate Consistent(respSink: seq<Entry>, socketSink: seq<Request>, nextCall: nat, effects: seq<Effect>)
  {
    && respSink == EnqueuedOf(effects)
    && socketSink == WrittenOf(effects)
    && RegisteredBeforeWritten(effects)
    && (forall i :: 0 <= i < |respSink| ==> respSink[i].handle.call < nextCall)
    && DistinctCalls(respSink)
  }

  /** One `send_message` with the next channel number keeps the client consistent. */
  lemma SendKeepsConsistent(respSink: seq<Entry>, socketSink: seq<Request>, nextCall: nat, effects: seq<Effect>,
                            id: Id, methodName: string, params: Value, writeOk: bool)
    requires Consistent(respSink, socketSink, nextCall, effects)
    ensures Consistent(respSink + [Entry(id, Handle(nextCall))],
                       socketSink + (if writeOk then [Request(id, methodName, params)] else []),
                       nextCall + 1,
                       effects + SendEffects(id, methodName, params, nextCall, writeOk))
  {
    var sent := SendEffects(id, methodName, params, nextCall, writeOk);
    SendKeepsRegisterFirst(effects, id, methodName, params, nextCall, writeOk);
    EnqueuedOfAppend(effects, sent);
    SendEffectsContents(id, methodName, params, nextCall, writeOk);
    FreshCallKeepsDistinct(respSink, nextCall, id);
  }

  class SurrealClient {
    /** Registrations pushed into the unbounded channel to the loop. */
    var respSink: seq<Entry>
    /** Frames written to the socket. */
    var socketSink: seq<Request>
    /** One-shot channels created so far; the next call gets this number. */
    var nextCall: nat
    ghost var effects: seq<Effect>

    ghost predicate Valid()
      reads this
    {
      Consistent(respSink, socketSink, nextCall, effects)
    }

    /** A client over a freshly opened connection (opening it is not modelled). */
    constructor ()
      ensures Valid() && respSink == [] && socketSink == [] && nextCall == 0 && effects == []
    {
      respSink, socketSink, nextCall := [], [], 0;
      effects := [];
    }

    /**
     * `send_message`: create a one-shot channel, register `(id, tx)` with the loop, then
     * write the frame; return the receiving half, or the write error. The registration
     * is enqueued even when the write then fails.
     */
    method SendMessage(id: Id, methodName: string, params: Value, writeOk: bool)
      returns (r: Result<SurrealResponse, RpcError>)
      requires Valid()
      modifies this
      ensures Valid()
      ensures nextCall == old(nextCall) + 1
      ensures respSink == old(respSink) + [Entry(id, Handle(old(nextCall)))]
      ensures socketSink == old(socketSink) + (if writeOk then [Request(id, methodName, params)] else [])
      ensures effects == old(effects) + SendEffects(id, methodName, params, old(nextCall), writeOk)
      ensures r == if writeOk then Ok(SurrealResponse(Handle(old(nextCall)))) else Err(SocketWriteFailed)
    {
      var message := Request(id, methodName, params);
      var channel := Handle(nextCall);
      ghost var before := effects;
      ghost var sent := SendEffects(id, methodName, params, channel.call, writeOk);
      SendKeepsConsistent(respSink, socketSink, nextCall, effects, id, methodName, params, writeOk);
      nextCall := nextCall + 1;
      respSink := respSink + [Entry(message.id, channel)];
      effects := effects + [Enqueued(Entry(message.id, channel))];
      if !writeOk {
        assert effects == before + sent;
        r := Err(SocketWriteFailed);
        return;
      }
      socketSink := socketSink + [message];
      effects := effects + [Written(message)];
      assert effects == before + sent;
      r := Ok(SurrealResponse(channel));
    }

    /** `send_query`: method `"query"` with parameters `[query, params]`. */
    method SendQuery(id: Id, query: string, params: Value, writeOk: bool)
      returns (r: Result<SurrealResponse, RpcError>)
      requires Valid()
      modifies this
      ensures Valid()
      ensures nextCall == old(nextCall) + 1
      ensures respSink == old(respSink) + [Entry(id, Handle(old(nextCall)))]
      ensures socketSink == old(socketSink) +
        (if writeOk then [Request(id, "query", Arr([Str(query), params]))] else [])
      ensures effects == old(effects) + SendEffects(id, "query", QueryParams(query, params), old(nextCall), writeOk)
      ensures r == if writeOk then Ok(SurrealResponse(Handle(old(nextCall)))) else Err(SocketWriteFailed)
    {
      r := SendMessage(id, "query", QueryParams(query, params), writeOk);
    }

    /** `signin`: method `"signin"` with one credentials object `{user, pass}`. */
    method Signin(id: Id, user: string, pass: string, writeOk: bool)
      returns (r: Result<SurrealResponse, RpcError>)
      requires Valid()
      modifies this
      ensures Valid()
      ensures nextCall == old(nextCall) + 1
      ensures respSink == old(respSink) + [Entry(id, Handle(old(nextCall)))]
      ensures socketSink == old(socketSink) +
        (if writeOk then [Request(id, "signin", Arr([Obj(map["user" := Str(user), "pass" := Str(pass)])]))] else [])
      ensures effects == old(effects) + SendEffects(id, "signin", SigninParams(user, pass), old(nextCall), writeOk)
      ensures r == if writeOk then Ok(SurrealResponse(Handle(old(nextCall)))) else Err(SocketWriteFailed)
    {
      r := SendMessage(id, "signin", SigninParams(user, pass), writeOk);
    }

    /** `use_namespace`: method `"use"` with parameters `[namespace, database]`. */
    method UseNamespace(id: Id, namespace: string, database: string, writeOk: bool)
      returns (r: Result<SurrealResponse, RpcError>)
      requires Valid()
      modifies this
      ensures Valid()
      ensures nextCall == old(nextCall) + 1
      ensures respSink == old(respSink) + [Entry(id, Handle(old(nextCall)))]
      ensures socketSink == old(socketSink) +
        (if writeOk then [Request(id, "use", Arr([Str(namespace), Str(database)]))] else [])
      ensures effects == old(effects) + SendEffects(id, "use", UseParams(namespace, database), old(nextCall), writeOk)
      ensures r == if writeOk then Ok(SurrealResponse(Handle(old(nextCall)))) else Err(SocketWriteFailed)
    {
      r := SendMessage(id, "use", UseParams(namespace, database), writeOk);
    }
  }
}
