/**
 * The envelope both ends of the type-safe worker channel exchange, and the two
 * pure decisions they share: which envelopes are theirs, and which reply a
 * request gets.
 */
module WorkerProtocol {
  import opened Common
  import opened JsValue

  /** The tag every envelope of this channel carries in `from`. */
  const UniqueId: string := "TSWM"

  datatype Kind = Message | Callback | Logger

  /** `{ from, type, name, payload, cbId }`; a logger envelope has no cbId. */
  datatype Envelope = Envelope(from: string, kind: Kind, name: string, payload: Value, cbId: Option<int>)

  /** `!payload || !payload.from || payload.from !== UniqueId` rejects everything not tagged "TSWM". */
  predicate Ours(e: Envelope) {
    e.from == UniqueId
  }

  /** The request envelope `send` posts. */
  function Request(name: string, payload: Value, cbId: int): (e: Envelope)
    ensures Ours(e) && e.kind == Message && e.cbId == Some(cbId)
  {
    Envelope(UniqueId, Message, name, payload, Some(cbId))
  }

  /** The reply to a request: the handler's result under the request's own cbId, with an empty name. */
  function Reply(request: Envelope, result: Value): (e: Envelope)
    ensures Ours(e) && e.kind == Callback && e.name == ""
    ensures e.cbId == request.cbId && e.payload == result
  {
    Envelope(UniqueId, Callback, "", result, request.cbId)
  }

  /**
   * A handler as the receiving end awaits it: `Some(result)` when it returns or
   * its promise resolves, `None` when it throws or its promise rejects.
   */
  type Handler = Value -> Option<Value>

  /**
   * What an end posts after awaiting the handler of a request: the reply when the
   * handler settled with a result, nothing when it threw or rejected, so the
   * sender's resolver is never called.
   */
  function Answer(request: Envelope, outcome: Option<Value>): (r: seq<Envelope>)
    ensures |r| <= 1
    ensures r != [] <==> outcome.Some?
    ensures forall x :: x in r ==> x == Reply(request, outcome.value)
  {
    match outcome
    case Some(result) => [Reply(request, result)]
    case None => []
  }

  /** A request is answered by a callback under its own id exactly when its handler settled. */
  lemma AnsweredIffSettled(request: Envelope, outcome: Option<Value>)
    ensures (exists x :: x in Answer(request, outcome) && x.kind == Callback && x.cbId == request.cbId) <==> outcome.Some?
  {
    if outcome.Some? {
      assert Reply(request, outcome.value) in Answer(request, outcome);
    }
  }

  /** The cbIds of the requests in a list of posted envelopes, in posting order. */
  function RequestIds(posted: seq<Envelope>): (ids: seq<int>)
    ensures |ids| <= |posted|
    decreases |posted|
  {
    if |posted| == 0 then []
    else
      var rest := RequestIds(posted[..|posted| - 1]);
      var e := posted[|posted| - 1];
      if e.kind == Message && e.cbId.Some? then rest + [e.cbId.value] else rest
  }

  /** Strictly increasing ids, all below the next id to be issued. */
  predicate IncreasingBelow(ids: seq<int>, next: int) {
    (forall i, j :: 0 <= i < j < |ids| ==> ids[i] < ids[j])
    && (forall i :: 0 <= i < |ids| ==> ids[i] < next)
  }

  /** Posting one more request with the next id keeps the request ids strictly increasing. */
  lemma {:induction false} RequestIdsGrow(posted: seq<Envelope>, e: Envelope, next: int)
    requires IncreasingBelow(RequestIds(posted), next)
    requires e.kind == Message && e.cbId == Some(next)
    ensures RequestIds(posted + [e]) == RequestIds(posted) + [next]
    ensures IncreasingBelow(RequestIds(posted + [e]), next + 1)
  {
    assert (posted + [e])[..|posted|] == posted;
  }

  /** Posting a reply or a log line adds no request id. */
  lemma {:induction false} RequestIdsOther(posted: seq<Envelope>, e: Envelope)
    requires e.kind != Message
    ensures RequestIds(posted + [e]) == RequestIds(posted)
  {
    assert (posted + [e])[..|posted|] == posted;
  }

  /** The error `handle` throws for a name that already has a handler. */
  function DuplicateHandler(name: string): string {
    "Message handler " + name + " already existed!"
  }

  /** A resolver called: the id it was registered under and the value it received. */
  datatype Resolution = Resolution(cbId: int, value: Value)

  /**
   * The bookkeeping of one end: request ids strictly increase and stay below the
   * counter; every waiting resolver and every resolver already called belongs to
   * a request this end posted; no resolver is both waiting and called, and none
   * is called twice.
   */
  ghost predicate Correlated(posted: seq<Envelope>, next: int, pending: set<int>, resolved: seq<Resolution>) {
    var ids := RequestIds(posted);
    next >= 0
    && IncreasingBelow(ids, next)
    && (forall id :: id in pending ==> id in ids)
    && (forall i :: 0 <= i < |resolved| ==> resolved[i].cbId in ids && resolved[i].cbId !in pending)
    && (forall i, j :: 0 <= i < j < |resolved| ==> resolved[i].cbId != resolved[j].cbId)
  }
}
