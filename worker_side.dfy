/**
 * The worker-thread end of the type-safe worker channel. Without a parent port
 * (`isMainThread`), posting only writes to the console and no listener is ever
 * attached, so nothing is delivered and nothing arrives; `send` then settles at
 * once with `undefined`. `posted` is what reaches the parent port.
 */
module WorkerSide {
  import opened Common
  import opened JsValue
  import opened WorkerProtocol

  /** The envelope a logger method posts: the level as name, the arguments as payload, no cbId. */
  function LogEnvelope(level: string, args: Value): (e: Envelope)
    ensures Ours(e) && e.kind == Logger && e.name == level && e.payload == args && e.cbId.None?
  {
    Envelope(UniqueId, Logger, level, args, None)
  }

  class WorkerEnd {
    /** `!!parentPort` */
    const hasParent: bool
    var listeners: map<string, Handler>
    var callbackIncreaseId: int
    var pending: set<int>
    var posted: seq<Envelope>
    var resolved: seq<Resolution>

    ghost predicate Valid()
      reads this
    {
      Correlated(posted, callbackIncreaseId, pending, resolved)
      && (!hasParent ==> posted == [] && pending == {} && resolved == [])
    }

    constructor (hasParent: bool)
      ensures Valid()
      ensures this.hasParent == hasParent
      ensures listeners == map[] && callbackIncreaseId == 0 && pending == {}
      ensures posted == [] && resolved == []
    {
      this.hasParent := hasParent;
      listeners := map[];
      callbackIncreaseId := 0;
      pending := {};
      posted := [];
      resolved := [];
    }

    /**
     * `send(name, ...payload)`. The counter advances either way; without a parent
     * nothing is delivered, nothing waits, and the promise settles at once with
     * `undefined` (`immediate`).
     */
    method Send(name: string, payload: Value) returns (cbId: int, immediate: Option<Value>)
      requires Valid()
      modifies this
      ensures Valid()
      ensures cbId == old(callbackIncreaseId) && callbackIncreaseId == cbId + 1
      ensures hasParent ==> posted == old(posted) + [Request(name, payload, cbId)]
                            && cbId !in old(pending) && pending == old(pending) + {cbId} && immediate == None
      ensures !hasParent ==> posted == old(posted) && pending == old(pending) && immediate == Some(Undefined)
      ensures listeners == old(listeners) && resolved == old(resolved)
    {
      cbId := callbackIncreaseId;
      if hasParent {
        RequestIdsGrow(posted, Request(name, payload, cbId), cbId);
        posted := posted + [Request(name, payload, cbId)];
      }
      callbackIncreaseId := callbackIncreaseId + 1;
      if hasParent {
        pending := pending + {cbId};
        immediate := None;
      } else {
        immediate := Some(Undefined);
      }
    }

    /** `handle(name, fn)`: a second handler for a name is refused and the first is kept. */
    method Handle(name: string, fn: Handler) returns (r: Result<(), string>)
      requires Valid()
      modifies this
      ensures Valid()
      ensures old(name in listeners) ==> r == Err(DuplicateHandler(name)) && listeners == old(listeners)
      ensures old(name !in listeners) ==> r == Ok(()) && listeners == old(listeners)[name := fn]
      ensures callbackIncreaseId == old(callbackIncreaseId) && pending == old(pending)
      ensures posted == old(posted) && resolved == old(resolved)
    {
      if name in listeners {
        return Err(DuplicateHandler(name));
      }
      listeners := listeners[name := fn];
      return Ok(());
    }

    /** The parent port's "message" listener; it ignores log lines, and without a parent it is never attached. */
    method Receive(e: Envelope)
      requires Valid()
      modifies this
      ensures Valid()
      ensures listeners == old(listeners) && callbackIncreaseId == old(callbackIncreaseId)
      ensures !hasParent || !Ours(e) || e.kind == Logger ==>
                posted == old(posted) && pending == old(pending) && resolved == old(resolved)
      ensures hasParent && Ours(e) && e.kind == Message ==>
                posted == old(posted) + (if e.name in listeners then Answer(e, listeners[e.name](e.payload)) else [])
                && pending == old(pending) && resolved == old(resolved)
      ensures hasParent && Ours(e) && e.kind == Callback ==>
                posted == old(posted)
                && (if e.cbId.Some? && e.cbId.value in old(pending)
                    then pending == old(pending) - {e.cbId.value} && resolved == old(resolved) + [Resolution(e.cbId.value, e.payload)]
                    else pending == old(pending) && resolved == old(resolved))
    {
      if !hasParent || !Ours(e) {
        return;
      }
      if e.kind == Message {
        if e.name in listeners {
          var outcome := listeners[e.name](e.payload);
          if outcome.Some? {
            RequestIdsOther(posted, Reply(e, outcome.value));
            posted := posted + [Reply(e, outcome.value)];
          }
        }
        return;
      }
      if e.kind == Callback {
        if e.cbId.Some? && e.cbId.value in pending {
          resolved := resolved + [Resolution(e.cbId.value, e.payload)];
          pending := pending - {e.cbId.value};
        }
      }
    }

    /** `logger(level)(...args)`, installed as `error`, `warn`, `info` and `log`. */
    method Log(level: string, args: Value)
      requires Valid()
      modifies this
      ensures Valid()
      ensures posted == old(posted) + (if hasParent then [LogEnvelope(level, args)] else [])
      ensures listeners == old(listeners) && callbackIncreaseId == old(callbackIncreaseId)
      ensures pending == old(pending) && resolved == old(resolved)
    {
      if hasParent {
        RequestIdsOther(posted, LogEnvelope(level, args));
        posted := posted + [LogEnvelope(level, args)];
      }
    }
  }
}
