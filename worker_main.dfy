/**
 * The main-thread end of the type-safe worker channel: `send` posts a request
 * and waits for its callback, `handle` registers one handler per name, and
 * incoming envelopes are requests, callbacks or log lines from the worker.
 * A handler is a function of the request payload that may fail; what `postMessage` delivers
 * is the `posted` list, and the logger calls made are `logged`.
 */
module WorkerMain {
  import opened Common
  import opened JsValue
  import opened WorkerProtocol

  /** The logger methods a 'logger' envelope can name (`error`, `warn`, `info`, `log`). */
  predicate IsLogLevel(name: string) {
    name == "error" || name == "warn" || name == "info" || name == "log"
  }

  /** One logger call: the level and the argument list. */
  datatype LogLine = LogLine(level: string, args: Value)

  class MainEnd {
    var listeners: map<string, Handler>
    var callbackIncreaseId: int
    var pending: set<int>
    var posted: seq<Envelope>
    var resolved: seq<Resolution>
    var logged: seq<LogLine>

    ghost predicate Valid()
      reads this
    {
      Correlated(posted, callbackIncreaseId, pending, resolved)
    }

    constructor ()
      ensures Valid()
      ensures listeners == map[] && callbackIncreaseId == 0 && pending == {}
      ensures posted == [] && resolved == [] && logged == []
    {
      listeners := map[];
      callbackIncreaseId := 0;
      pending := {};
      posted := [];
      resolved := [];
      logged := [];
    }

    /** `send(name, ...payload)`: the request takes the current counter as its id. */
    method Send(name: string, payload: Value) returns (cbId: int)
      requires Valid()
      modifies this
      ensures Valid()
      ensures cbId == old(callbackIncreaseId) && callbackIncreaseId == cbId + 1
      ensures posted == old(posted) + [Request(name, payload, cbId)]
      ensures cbId !in old(pending) && pending == old(pending) + {cbId}
      ensures listeners == old(listeners) && resolved == old(resolved) && logged == old(logged)
    {
      cbId := callbackIncreaseId;
      RequestIdsGrow(posted, Request(name, payload, cbId), cbId);
      posted := posted + [Request(name, payload, cbId)];
      callbackIncreaseId := callbackIncreaseId + 1;
      pending := pending + {cbId};
    }

    /** `handle(name, fn)`: a second handler for a name is refused and the first is kept. */
    method Handle(name: string, fn: Handler) returns (r: Result<(), string>)
      requires Valid()
      modifies this
      ensures Valid()
      ensures old(name in listeners) ==> r == Err(DuplicateHandler(name)) && listeners == old(listeners)
      ensures old(name !in listeners) ==> r == Ok(()) && listeners == old(listeners)[name := fn]
      ensures callbackIncreaseId == old(callbackIncreaseId) && pending == old(pending)
      ensures posted == old(posted) && resolved == old(resolved) && logged == old(logged)
    {
      if name in listeners {
        return Err(DuplicateHandler(name));
      }
      listeners := listeners[name := fn];
      return Ok(());
    }

    /** `_handleReceivingMessage(payload)` */
    method Receive(e: Envelope)
      requires Valid()
      modifies this
      ensures Valid()
      ensures listeners == old(listeners) && callbackIncreaseId == old(callbackIncreaseId)
      ensures !Ours(e) ==> posted == old(posted) && pending == old(pending) && resolved == old(resolved) && logged == old(logged)
      ensures Ours(e) && e.kind == Message ==>
                posted == old(posted) + (if e.name in listeners then Answer(e, listeners[e.name](e.payload)) else [])
                && pending == old(pending) && resolved == old(resolved) && logged == old(logged)
      ensures Ours(e) && e.kind == Callback ==>
                posted == old(posted) && logged == old(logged)
                && (if e.cbId.Some? && e.cbId.value in old(pending)
                    then pending == old(pending) - {e.cbId.value} && resolved == old(resolved) + [Resolution(e.cbId.value, e.payload)]
                    else pending == old(pending) && resolved == old(resolved))
      ensures Ours(e) && e.kind == Logger ==>
                posted == old(posted) && pending == old(pending) && resolved == old(resolved)
                && logged == old(logged) + (if IsLogLevel(e.name) then [LogLine(e.name, e.payload)] else [])
    {
      if !Ours(e) {
        return;
      }
      if e.kind == Message {
        if e.name in listeners {
          var outcome := listeners[e.name](e.payload);
          if outcome.Some? {
            RequestIdsOther(posted, Reply(e, outcome.value));
            posted := posted + [Reply(e, outcome.value)];
          }
        }
        return;
      }
      if e.kind == Callback {
        if e.cbId.Some? && e.cbId.value in pending {
          resolved := resolved + [Resolution(e.cbId.value, e.payload)];
          pending := pending - {e.cbId.value};
        }
      }
      if e.kind == Logger {
        if IsLogLevel(e.name) {
          logged := logged + [LogLine(e.name, e.payload)];
        }
      }
    }
  }
}
