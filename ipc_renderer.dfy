/**
 * The renderer side of the IPC bridge: request/response calls with or without an
 * error popup, and a registry of listeners per background message name.
 * A listener function is represented by an identity (`ListenerId`): the registry
 * compares functions by identity, as `includes`/`indexOf` do.
 */
module IpcRenderer {
  import opened Common
  import opened JsValue

  type ListenerId = nat

  /** The reply `invoke` delivers: `{ type: 'success', result }` or an error. */
  datatype Reply = Success(result: Value) | Failure(error: Value)

  /** How the promise returned by a send settles. */
  datatype Settled = Resolved(value: Value) | Rejected(reason: Value)

  /** The settled promise and the error popup shown, if any. */
  datatype SendOutcome = SendOutcome(settled: Settled, popup: Option<Value>)

  /** `send` when `withPopup`, `sendWithoutErrorPopup` otherwise. */
  function Send(reply: Reply, withPopup: bool): (o: SendOutcome)
    ensures o.settled.Resolved? <==> reply.Success?
    ensures reply.Success? ==> o.settled.value == reply.result && o.popup == None
    ensures reply.Failure? ==> o.settled.reason == reply.error
    ensures o.popup.Some? <==> reply.Failure? && withPopup
    ensures o.popup.Some? ==> o.popup.value == reply.error
  {
    match reply
    case Success(result) => SendOutcome(Resolved(result), None)
    case Failure(error) => SendOutcome(Rejected(error), if withPopup then Some(error) else None)
  }

  /** The two kinds of send settle the same way; they differ only in the popup. */
  lemma SendKindsAgree(reply: Reply)
    ensures Send(reply, true).settled == Send(reply, false).settled
    ensures Send(reply, false).popup == None
  {
  }

  /** The listeners registered under `name` (none when it was never registered). */
  function Registered(listeners: map<string, seq<ListenerId>>, name: string): seq<ListenerId> {
    if name in listeners then listeners[name] else []
  }

  /** The index of the first occurrence of `f` in `s` (`indexOf`). */
  function IndexOf(s: seq<ListenerId>, f: ListenerId): (i: nat)
    requires f in s
    ensures i < |s| && s[i] == f && f !in s[..i]
  {
    if s[0] == f then 0 else 1 + IndexOf(s[1..], f)
  }

  /** The list after the remover: the first occurrence of `f` spliced out, if there is one. */
  function RemoveFirst(s: seq<ListenerId>, f: ListenerId): (r: seq<ListenerId>)
    ensures f !in s ==> r == s
    ensures f in s ==> |r| == |s| - 1
  {
    if f in s then s[..IndexOf(s, f)] + s[IndexOf(s, f) + 1..] else s
  }

  /** Removing takes away exactly one registration of `f`, and only when there is one. */
  lemma RemoveFirstMultiset(s: seq<ListenerId>, f: ListenerId)
    ensures multiset(RemoveFirst(s, f)) == multiset(s) - multiset{f}
  {
    if f in s {
      var i := IndexOf(s, f);
      assert s == s[..i] + [f] + s[i + 1..];
    } else {
      assert multiset(s)[f] == 0;
    }
  }

  /** Removing a listener just registered for the first time restores the list. */
  lemma RemoveAfterAppend(s: seq<ListenerId>, f: ListenerId)
    requires f !in s
    ensures RemoveFirst(s + [f], f) == s
  {
    assert (s + [f])[..|s|] == s;
  }

  /** Removing keeps every other registration in its order. */
  lemma RemoveFirstKeepsOrder(s: seq<ListenerId>, f: ListenerId, a: seq<ListenerId>, b: seq<ListenerId>)
    requires s == a + [f] + b && f !in a
    ensures RemoveFirst(s, f) == a + b
  {
    assert s[..|a|] == a;
    assert s[|a|] == f;
    assert s[|a| + 1..] == b;
  }

  /** A remover as `on` returns it: it knows the name and the function it registered. */
  datatype Remover = Remover(name: string, fn: ListenerId)

  /** What a listener may do to the registry while it runs: call `on`, or call a remover. */
  datatype Edit = Register(name: string, fn: ListenerId) | Unregister(remover: Remover)

  /**
   * The registry after one edit. A remover's list always exists, since lists are
   * created by `on` and never deleted; a remover for a missing name changes nothing.
   */
  function ApplyEdit(listeners: map<string, seq<ListenerId>>, e: Edit): (r: map<string, seq<ListenerId>>)
    ensures r.Keys == listeners.Keys + (if e.Register? then {e.name} else {})
    ensures e.Register? ==> r == listeners[e.name := Registered(listeners, e.name) + [e.fn]]
    ensures e.Unregister? && e.remover.name in listeners ==>
              r == listeners[e.remover.name := RemoveFirst(listeners[e.remover.name], e.remover.fn)]
  {
    match e
    case Register(name, fn) => listeners[name := Registered(listeners, name) + [fn]]
    case Unregister(remover) =>
      if remover.name in listeners then listeners[remover.name := RemoveFirst(listeners[remover.name], remover.fn)]
      else listeners
  }

  /** The registry after the edits of one listener call, in the order it makes them. */
  function ApplyEdits(listeners: map<string, seq<ListenerId>>, es: seq<Edit>): (r: map<string, seq<ListenerId>>)
    ensures listeners.Keys <= r.Keys
    ensures es == [] ==> r == listeners
  {
    if es == [] then listeners else ApplyEdit(ApplyEdits(listeners, es[..|es| - 1]), es[|es| - 1])
  }

  /** The edits the `k`-th listener call makes; calls past the end of `effects` make none. */
  function EditsOfCall(effects: seq<seq<Edit>>, k: nat): seq<Edit> {
    if k < |effects| then effects[k] else []
  }

  /**
   * The `for (let fn of this.listeners[name])` loop over the live array: at index
   * `i` the list is read afresh, so a listener spliced out before the index moves
   * the next one under it, and one pushed during the dispatch is reached. The
   * result is the listeners called, in order, and the registry afterwards.
   */
  function LiveDispatch(listeners: map<string, seq<ListenerId>>, name: string, effects: seq<seq<Edit>>,
                        i: nat, called: seq<ListenerId>): (r: (seq<ListenerId>, map<string, seq<ListenerId>>))
    ensures |r.0| >= |called| && r.0[..|called|] == called
    ensures listeners.Keys <= r.1.Keys
    decreases if |called| < |effects| then |effects| - |called| else 0, |Registered(listeners, name)| - i
  {
    var fns := Registered(listeners, name);
    if i >= |fns| then (called, listeners)
    else
      var r := LiveDispatch(ApplyEdits(listeners, EditsOfCall(effects, |called|)), name, effects, i + 1, called + [fns[i]]);
      assert (called + [fns[i]])[..|called|] == called;
      r
  }

  /** One step of the live loop: the listener at index `i` is called and makes its edits. */
  lemma LiveDispatchStep(listeners: map<string, seq<ListenerId>>, name: string, effects: seq<seq<Edit>>,
                         i: nat, called: seq<ListenerId>)
    requires i < |Registered(listeners, name)|
    ensures LiveDispatch(listeners, name, effects, i, called)
         == LiveDispatch(ApplyEdits(listeners, EditsOfCall(effects, |called|)), name, effects, i + 1,
                         called + [Registered(listeners, name)[i]])
  {
  }

  /** Without edits during the dispatch, every registered listener is called once, in order, and the registry is unchanged. */
  lemma {:induction false} QuietDispatchFrom(listeners: map<string, seq<ListenerId>>, name: string,
                                             effects: seq<seq<Edit>>, i: nat, called: seq<ListenerId>)
    requires i <= |Registered(listeners, name)|
    requires forall k :: 0 <= k < |effects| ==> effects[k] == []
    ensures LiveDispatch(listeners, name, effects, i, called) == (called + Registered(listeners, name)[i..], listeners)
    decreases |Registered(listeners, name)| - i
  {
    var fns := Registered(listeners, name);
    if i < |fns| {
      assert EditsOfCall(effects, |called|) == [];
      assert LiveDispatch(listeners, name, effects, i, called)
          == LiveDispatch(listeners, name, effects, i + 1, called + [fns[i]]);
      QuietDispatchFrom(listeners, name, effects, i + 1, called + [fns[i]]);
      assert called + [fns[i]] + fns[i + 1..] == called + fns[i..];
    } else {
      assert called + fns[i..] == called;
    }
  }

  /** The snapshot view: a dispatch whose listeners leave the registry alone calls exactly the registered listeners. */
  lemma QuietDispatch(listeners: map<string, seq<ListenerId>>, name: string, effects: seq<seq<Edit>>)
    requires forall k :: 0 <= k < |effects| ==> effects[k] == []
    ensures LiveDispatch(listeners, name, effects, 0, []) == (Registered(listeners, name), listeners)
  {
    QuietDispatchFrom(listeners, name, effects, 0, []);
    assert Registered(listeners, name)[0..] == Registered(listeners, name);
  }

  /** A listener that removes itself while it runs makes the dispatch skip the listener after it. */
  lemma SelfRemovalSkipsNext(name: string)
    ensures var listeners := map[name := [1, 2]];
            LiveDispatch(listeners, name, [[Unregister(Remover(name, 1))]], 0, []) == ([1], map[name := [2]])
  {
    var listeners := map[name := [1, 2]];
    var es := [Unregister(Remover(name, 1))];
    assert RemoveFirst([1, 2], 1) == [2] by {
      assert IndexOf([1, 2], 1) == 0;
      assert [1, 2][1..] == [2];
    }
    assert ApplyEdits(listeners, es) == ApplyEdit(ApplyEdits(listeners, es[..0]), es[0]);
    assert ApplyEdits(listeners, es) == map[name := [2]];
  }

  /** A listener registered on the same name during the dispatch is called by that dispatch. */
  lemma AddedDuringDispatchIsCalled(name: string)
    ensures var listeners := map[name := [1]];
            LiveDispatch(listeners, name, [[Register(name, 2)]], 0, []).0 == [1, 2]
  {
    var listeners := map[name := [1]];
    var effects := [[Register(name, 2)]];
    var es := effects[0];
    var after := map[name := [1, 2]];
    assert ApplyEdits(listeners, es) == ApplyEdit(ApplyEdits(listeners, es[..0]), es[0]);
    assert [1] + [2] == [1, 2];
    assert ApplyEdits(listeners, es) == after;
    assert EditsOfCall(effects, 0) == es && Registered(listeners, name) == [1];
    assert [] + [1] == [1];
    assert LiveDispatch(listeners, name, effects, 0, []) == LiveDispatch(after, name, effects, 1, [1]);
    assert EditsOfCall(effects, 1) == [];
    assert LiveDispatch(after, name, effects, 1, [1]) == LiveDispatch(after, name, effects, 2, [1, 2]);
  }

  class Renderer {
    const channel: string
    var listeners: map<string, seq<ListenerId>>

    /** The default channel is `IPC-bridge`. */
    constructor (channel: string)
      ensures this.channel == channel && listeners == map[]
    {
      this.channel := channel;
      listeners := map[];
    }

    /** `on(name, fn)`: appends `fn` to the list of `name`, creating it, and returns the remover. */
    method On(name: string, fn: ListenerId) returns (remover: Remover)
      modifies this
      ensures listeners == old(listeners)[name := Registered(old(listeners), name) + [fn]]
      ensures remover == Remover(name, fn)
    {
      var fns := if name in listeners then listeners[name] else [];
      listeners := listeners[name := fns + [fn]];
      remover := Remover(name, fn);
    }

    /**
     * Calling a remover. Its list exists, since lists are created by `on` and
     * never deleted; the first occurrence of its function is spliced out if present.
     */
    method Remove(remover: Remover)
      requires remover.name in listeners
      modifies this
      ensures listeners == old(listeners)[remover.name := RemoveFirst(old(listeners)[remover.name], remover.fn)]
    {
      var fns := listeners[remover.name];
      if remover.fn in fns {
        var index := IndexOf(fns, remover.fn);
        listeners := listeners[remover.name := fns[..index] + fns[index + 1..]];
      }
    }

    /** One registry edit made by a running listener, through `on` or a remover. */
    method Perform(e: Edit)
      modifies this
      ensures listeners == ApplyEdit(old(listeners), e)
    {
      match e
      case Register(name, fn) =>
        var _ := On(name, fn);
      case Unregister(remover) =>
        if remover.name in listeners {
          Remove(remover);
        }
    }

    /** The edits one listener call makes, in order. */
    method PerformAll(es: seq<Edit>)
      modifies this
      ensures listeners == ApplyEdits(old(listeners), es)
    {
      var j := 0;
      while j < |es|
        invariant j <= |es|
        invariant listeners == ApplyEdits(old(listeners), es[..j])
      {
        assert es[..j + 1][..j] == es[..j];
        Perform(es[j]);
        j := j + 1;
      }
      assert es[..|es|] == es;
    }

    /**
     * `_handleReceivingMessage`: the listeners called, in the order they are called.
     * `effects[k]` are the registry edits the `k`-th call makes while it runs.
     */
    method HandleReceivingMessage(name: string, effects: seq<seq<Edit>>) returns (called: seq<ListenerId>)
      modifies this
      ensures (called, listeners) == LiveDispatch(old(listeners), name, effects, 0, [])
    {
      called := [];
      if name in listeners {
        var i := 0;
        while i < |listeners[name]|
          invariant name in listeners
          invariant LiveDispatch(listeners, name, effects, i, called) == LiveDispatch(old(listeners), name, effects, 0, [])
          decreases if |called| < |effects| then |effects| - |called| else 0, |listeners[name]| - i
        {
          LiveDispatchStep(listeners, name, effects, i, called);
          var fn := listeners[name][i];
          var es := EditsOfCall(effects, |called|);
          called := called + [fn];
          PerformAll(es);
          i := i + 1;
        }
      }
    }
  }
}
