/** The job refresh bus (lib/jobRefresh.ts): a process-wide registry of refresh
    listeners, the publish operation that calls them all, the three mutation
    wrappers of `useJobMutations` and the effect order of
    `withOptimisticUpdate`.

    Listeners are identified by their function reference; here a reference is
    a number. Every callback the code calls is recorded as an `Event` in a
    trace, and whether a callback throws (or a promise rejects) is an input. */
module JobRefresh {
  import opened Results

  type Listener = nat

  /** A value produced by the server call; its contents do not matter here. */
  type Value = int

  /** Why an operation failed: an error thrown by a callback, or a listener
      whose promise rejected during a refresh. */
  datatype Failure = Thrown(code: int) | Rejected(listener: Listener)

  datatype Event =
    | Invoked(listener: Listener)
    | CallbackRan
    | OptimisticRan
    | ServerCalled
    | SuccessCalled(result: Value)
    | ErrorCalled(error: Failure)

  /** An optional callback (`onSuccess?.(…)`, `onError?.(…)`): absent,
      present and returning normally, or present and throwing. */
  datatype Callback = Absent | Returns | Throws(failure: Failure)

  predicate NoRepeats(s: seq<Listener>) {
    forall i, j :: 0 <= i < j < |s| ==> s[i] != s[j]
  }

  /** Without repeats, the first listener does not recur and the rest has no repeats. */
  lemma NoRepeatsTail(s: seq<Listener>)
    requires s != [] && NoRepeats(s)
    ensures NoRepeats(s[1..]) && s[0] !in s[1..]
  {
    var rest := s[1..];
    forall i, j | 0 <= i < j < |rest| ensures rest[i] != rest[j] {
      assert rest[i] == s[i + 1] && rest[j] == s[j + 1];
    }
    forall i | 0 <= i < |rest| ensures rest[i] != s[0] {
      assert rest[i] == s[i + 1];
    }
  }

  // ---------------------------------------------------------------------------
  // The registry: a `Set`, which iterates in insertion order

  /** `set.add(l)`: appended when absent, otherwise unchanged. */
  function SetAdd(s: seq<Listener>, l: Listener): seq<Listener> {
    if l in s then s else s + [l]
  }

  /** `set.delete(l)`: the element removed, the others in their order. */
  function SetDelete(s: seq<Listener>, l: Listener): seq<Listener> {
    if s == [] then []
    else if s[0] == l then s[1..]
    else [s[0]] + SetDelete(s[1..], l)
  }

  /** Adding keeps the registry free of repeats, makes `l` a member and
      changes no other membership; adding twice is adding once. */
  lemma SetAddEffect(s: seq<Listener>, l: Listener)
    requires NoRepeats(s)
    ensures NoRepeats(SetAdd(s, l))
    ensures l in SetAdd(s, l)
    ensures forall x :: x != l ==> ((x in SetAdd(s, l)) == (x in s))
    ensures SetAdd(SetAdd(s, l), l) == SetAdd(s, l)
  {
  }

  /** Deleting removes exactly `l` and keeps every other listener. */
  lemma {:induction false} SetDeleteEffect(s: seq<Listener>, l: Listener)
    requires NoRepeats(s)
    ensures NoRepeats(SetDelete(s, l))
    ensures l !in SetDelete(s, l)
    ensures forall x :: x != l ==> ((x in SetDelete(s, l)) == (x in s))
    ensures l !in s ==> SetDelete(s, l) == s
  {
    if s != [] {
      NoRepeatsTail(s);
      if s[0] == l {
        assert forall i :: 0 <= i < |s[1..]| ==> s[1..][i] == s[i + 1];
        assert s == [s[0]] + s[1..];
      } else {
        SetDeleteEffect(s[1..], l);
        var r := [s[0]] + SetDelete(s[1..], l);
        assert s == [s[0]] + s[1..];
        forall i, j | 0 <= i < j < |r| ensures r[i] != r[j] {
          if i == 0 {
            assert r[j] in SetDelete(s[1..], l);
          } else {
            assert r[i] == SetDelete(s[1..], l)[i - 1] && r[j] == SetDelete(s[1..], l)[j - 1];
          }
        }
      }
    }
  }

  /** The unsubscribe function may be called again: the second call changes nothing. */
  lemma SetDeleteTwice(s: seq<Listener>, l: Listener)
    requires NoRepeats(s)
    ensures SetDelete(SetDelete(s, l), l) == SetDelete(s, l)
  {
    SetDeleteEffect(s, l);
    SetDeleteEffect(SetDelete(s, l), l);
  }

  // ---------------------------------------------------------------------------
  // Publishing

  /** The calls a refresh makes: each listener of the snapshot, in order. */
  function Refresh(snapshot: seq<Listener>): seq<Event> {
    seq(|snapshot|, i requires 0 <= i < |snapshot| => Invoked(snapshot[i]))
  }

  /** How `Promise.all` over the listeners' promises settles: rejected by a
      rejecting listener (the first one in registry order), otherwise fulfilled. */
  function FirstRejecting(snapshot: seq<Listener>, rejects: set<Listener>): Option<Failure> {
    if snapshot == [] then None
    else
      match FirstRejecting(snapshot[..|snapshot| - 1], rejects)
      case Some(f) => Some(f)
      case None =>
        if snapshot[|snapshot| - 1] in rejects then Some(Rejected(snapshot[|snapshot| - 1])) else None
  }

  /** A refresh succeeds exactly when no listener of the snapshot rejects, and
      a failure names a rejecting listener of the snapshot. */
  lemma {:induction false} FirstRejectingSpec(snapshot: seq<Listener>, rejects: set<Listener>)
    ensures FirstRejecting(snapshot, rejects) == None <==> forall l :: l in snapshot ==> l !in rejects
    ensures FirstRejecting(snapshot, rejects) != None ==>
              exists l :: l in snapshot && l in rejects && FirstRejecting(snapshot, rejects) == Some(Rejected(l))
  {
    if snapshot != [] {
      var front := snapshot[..|snapshot| - 1];
      FirstRejectingSpec(front, rejects);
      assert snapshot == front + [snapshot[|snapshot| - 1]];
      if FirstRejecting(front, rejects) != None {
        var l :| l in front && l in rejects && FirstRejecting(front, rejects) == Some(Rejected(l));
        assert l in snapshot;
      }
    }
  }

  /** A refresh calls every registered listener exactly once and nothing else. */
  lemma RefreshCallsEachOnce(snapshot: seq<Listener>)
    requires NoRepeats(snapshot)
    ensures forall l :: multiset(Refresh(snapshot))[Invoked(l)] == if l in snapshot then 1 else 0
    ensures forall e :: e in Refresh(snapshot) ==> e.Invoked? && e.listener in snapshot
  {
    forall l ensures multiset(Refresh(snapshot))[Invoked(l)] == if l in snapshot then 1 else 0 {
      RefreshCount(snapshot, l);
    }
    forall e | e in Refresh(snapshot) ensures e.Invoked? && e.listener in snapshot {
      var i :| 0 <= i < |snapshot| && Refresh(snapshot)[i] == e;
    }
  }

  /** A refresh over a snapshot without repeats calls `l` once if it is
      registered and never otherwise. */
  lemma {:induction false} RefreshCount(snapshot: seq<Listener>, l: Listener)
    requires NoRepeats(snapshot)
    ensures multiset(Refresh(snapshot))[Invoked(l)] == if l in snapshot then 1 else 0
  {
    if snapshot != [] {
      NoRepeatsTail(snapshot);
      RefreshCount(snapshot[1..], l);
      RefreshCons(snapshot);
      assert snapshot == [snapshot[0]] + snapshot[1..];
    }
  }

  lemma RefreshCons(snapshot: seq<Listener>)
    requires snapshot != []
    ensures Refresh(snapshot) == [Invoked(snapshot[0])] + Refresh(snapshot[1..])
  {
  }


  /** With no listener, a refresh calls nothing and succeeds. */
  lemma RefreshEmpty(rejects: set<Listener>)
    ensures Refresh([]) == [] && FirstRejecting([], rejects) == None
  {
  }

  // ---------------------------------------------------------------------------
  // A run of registry operations

  datatype Op = Subscribe(l: Listener) | Unsubscribe(l: Listener) | Trigger(rejects: set<Listener>)

  /** The registry after a run of operations and the calls the triggers made. */
  function Run(registry: seq<Listener>, ops: seq<Op>): (seq<Listener>, seq<Event>)
    decreases |ops|
  {
    if ops == [] then (registry, [])
    else
      match ops[0]
      case Subscribe(l) => Run(SetAdd(registry, l), ops[1..])
      case Unsubscribe(l) => Run(SetDelete(registry, l), ops[1..])
      case Trigger(_) =>
        var (final, events) := Run(registry, ops[1..]);
        (final, Refresh(registry) + events)
  }

  predicate Resubscribes(ops: seq<Op>, l: Listener) {
    exists i :: 0 <= i < |ops| && ops[i] == Subscribe(l)
  }

  /** A listener that is not registered and is not subscribed again is never
      called by any later trigger. */
  lemma {:induction false} AbsentListenerSilent(registry: seq<Listener>, ops: seq<Op>, l: Listener)
    requires NoRepeats(registry) && l !in registry && !Resubscribes(ops, l)
    ensures Invoked(l) !in Run(registry, ops).1
    decreases |ops|
  {
    if ops != [] {
      assert !Resubscribes(ops[1..], l) by {
        forall i | 0 <= i < |ops[1..]| ensures ops[1..][i] != Subscribe(l) {
          assert ops[1..][i] == ops[i + 1];
        }
      }
      match ops[0]
      case Subscribe(x) =>
        assert x != l;
        SetAddEffect(registry, x);
        AbsentListenerSilent(SetAdd(registry, x), ops[1..], l);
      case Unsubscribe(x) =>
        SetDeleteEffect(registry, x);
        AbsentListenerSilent(SetDelete(registry, x), ops[1..], l);
      case Trigger(_) =>
        AbsentListenerSilent(registry, ops[1..], l);
        RefreshCallsEachOnce(registry);
    }
  }

  /** After unsubscribing, no later trigger calls that listener unless it
      subscribes again. */
  lemma UnsubscribeSilences(registry: seq<Listener>, l: Listener, later: seq<Op>)
    requires NoRepeats(registry) && !Resubscribes(later, l)
    ensures Invoked(l) !in Run(registry, [Unsubscribe(l)] + later).1
  {
    SetDeleteEffect(registry, l);
    assert ([Unsubscribe(l)] + later)[1..] == later;
    AbsentListenerSilent(SetDelete(registry, l), later, l);
  }

  // ---------------------------------------------------------------------------
  // useJobMutations and withOptimisticUpdate, as pure effect sequences

  /** `postJob`, `updateJob` and `deleteJob`: the caller's callback, then a
      refresh only if the callback completed. */
  function MutationEffects(snapshot: seq<Listener>, rejects: set<Listener>, callback: Option<Failure>)
    : (seq<Event>, Option<Failure>)
  {
    match callback
    case Some(f) => ([CallbackRan], Some(f))
    case None => ([CallbackRan] + Refresh(snapshot), FirstRejecting(snapshot, rejects))
  }

  /** The callback runs first; listeners are called only after it completed,
      and not at all when it threw. */
  lemma MutationOrder(snapshot: seq<Listener>, rejects: set<Listener>, callback: Option<Failure>)
    ensures var (events, outcome) := MutationEffects(snapshot, rejects, callback);
      && events[0] == CallbackRan
      && (callback.Some? ==> events == [CallbackRan] && outcome == callback)
      && (callback.None? ==> events[1..] == Refresh(snapshot))
  {
  }

  /** The catch block of `withOptimisticUpdate`: refresh, then `onError`, then
      rethrow. A rejected refresh or a throwing `onError` replaces the error. */
  function CatchEffects(snapshot: seq<Listener>, rejects: set<Listener>, error: Failure, onError: Callback)
    : (seq<Event>, Result<Value, Failure>)
  {
    var refresh := Refresh(snapshot);
    match FirstRejecting(snapshot, rejects)
    case Some(f) => (refresh, Err(f))
    case None =>
      match onError
      case Absent => (refresh, Err(error))
      case Returns => (refresh + [ErrorCalled(error)], Err(error))
      case Throws(f) => (refresh + [ErrorCalled(error)], Err(f))
  }

  /** Which listeners reject in each of the two refreshes a wrapped call may
      make: the one in the `try` block and the one in the catch block. */
  datatype RefreshFaults = RefreshFaults(inTry: set<Listener>, inCatch: set<Listener>)

  /** The rest of the `try` block once the server call returned `v`: the
      refresh, then `onSuccess(v)`; a rejection or a throw goes to the catch
      block. */
  function SettleEffects(snapshot: seq<Listener>, faults: RefreshFaults, v: Value, onSuccess: Callback, onError: Callback)
    : (seq<Event>, Result<Value, Failure>)
  {
    var refresh := Refresh(snapshot);
    match FirstRejecting(snapshot, faults.inTry)
    case Some(f) =>
      var (events, r) := CatchEffects(snapshot, faults.inCatch, f, onError);
      (refresh + events, r)
    case None =>
      match onSuccess
      case Absent => (refresh, Ok(v))
      case Returns => (refresh + [SuccessCalled(v)], Ok(v))
      case Throws(f) =>
        var (events, r) := CatchEffects(snapshot, faults.inCatch, f, onError);
        (refresh + [SuccessCalled(v)] + events, r)
  }

  /** The effects and the outcome of the function `withOptimisticUpdate`
      returns, given how each step behaves. */
  function OptimisticEffects(
    snapshot: seq<Listener>, faults: RefreshFaults,
    optimistic: Option<Failure>, server: Result<Value, Failure>,
    onSuccess: Callback, onError: Callback): (seq<Event>, Result<Value, Failure>)
  {
    if optimistic.Some? then
      var (events, r) := CatchEffects(snapshot, faults.inCatch, optimistic.value, onError);
      ([OptimisticRan] + events, r)
    else
      var (events, r) := ServerEffects(snapshot, faults, server, onSuccess, onError);
      ([OptimisticRan] + events, r)
  }

  /** The server call and what follows it. */
  function ServerEffects(
    snapshot: seq<Listener>, faults: RefreshFaults, server: Result<Value, Failure>,
    onSuccess: Callback, onError: Callback): (seq<Event>, Result<Value, Failure>)
  {
    match server
    case Err(e) =>
      var (events, r) := CatchEffects(snapshot, faults.inCatch, e, onError);
      ([ServerCalled] + events, r)
    case Ok(v) =>
      var (events, r) := SettleEffects(snapshot, faults, v, onSuccess, onError);
      ([ServerCalled] + events, r)
  }

  /** When every step succeeds the effects are, in order: the optimistic
      update, the server call, the refresh and `onSuccess(result)`; the result
      of the server call is returned. */
  lemma OptimisticSuccessOrder(
    snapshot: seq<Listener>, faults: RefreshFaults, v: Value, onSuccess: Callback, onError: Callback)
    requires forall l :: l in snapshot ==> l !in faults.inTry
    requires !onSuccess.Throws?
    ensures OptimisticEffects(snapshot, faults, None, Ok(v), onSuccess, onError)
         == ([OptimisticRan, ServerCalled] + Refresh(snapshot)
               + (if onSuccess == Returns then [SuccessCalled(v)] else []), Ok(v))
  {
    FirstRejectingSpec(snapshot, faults.inTry);
    var tail := if onSuccess == Returns then [SuccessCalled(v)] else [];
    assert SettleEffects(snapshot, faults, v, onSuccess, onError).0 == Refresh(snapshot) + tail;
    assert ServerEffects(snapshot, faults, Ok(v), onSuccess, onError).0 == [ServerCalled] + (Refresh(snapshot) + tail);
    assert [OptimisticRan] + ([ServerCalled] + (Refresh(snapshot) + tail))
        == [OptimisticRan, ServerCalled] + Refresh(snapshot) + tail;
  }

  /** After a failed server call: a refresh, then `onError` with that error,
      then the same error is rethrown; `onSuccess` is never called. Only the
      catch block's refresh runs. */
  lemma OptimisticServerFailure(
    snapshot: seq<Listener>, faults: RefreshFaults, e: Failure, onSuccess: Callback, onError: Callback)
    requires forall l :: l in snapshot ==> l !in faults.inCatch
    requires !onError.Throws?
    ensures var (events, r) := OptimisticEffects(snapshot, faults, None, Err(e), onSuccess, onError);
      && events == [OptimisticRan, ServerCalled] + Refresh(snapshot)
                   + (if onError == Returns then [ErrorCalled(e)] else [])
      && r == Err(e)
      && forall x :: SuccessCalled(x) !in events
  {
    FirstRejectingSpec(snapshot, faults.inCatch);
    var events := OptimisticEffects(snapshot, faults, None, Err(e), onSuccess, onError).0;
    forall x ensures SuccessCalled(x) !in events {
      RefreshOnlyInvokes(snapshot);
    }
  }

  /** A refresh that rejects in the `try` block sends its rejection to the
      catch block: the listeners are called a second time and, when that
      refresh fulfils, `onError` receives the rejection, which is rethrown;
      `onSuccess` is never reached. */
  lemma TryRefreshRejected(
    snapshot: seq<Listener>, faults: RefreshFaults, v: Value, onSuccess: Callback, f: Failure)
    requires FirstRejecting(snapshot, faults.inTry) == Some(f)
    requires forall l :: l in snapshot ==> l !in faults.inCatch
    ensures OptimisticEffects(snapshot, faults, None, Ok(v), onSuccess, Returns)
         == ([OptimisticRan, ServerCalled] + Refresh(snapshot) + Refresh(snapshot) + [ErrorCalled(f)], Err(f))
  {
    FirstRejectingSpec(snapshot, faults.inCatch);
    var refresh := Refresh(snapshot);
    assert CatchEffects(snapshot, faults.inCatch, f, Returns) == (refresh + [ErrorCalled(f)], Err(f));
    assert [OptimisticRan] + ([ServerCalled] + (refresh + (refresh + [ErrorCalled(f)])))
        == [OptimisticRan, ServerCalled] + refresh + refresh + [ErrorCalled(f)];
  }

  lemma RefreshOnlyInvokes(snapshot: seq<Listener>)
    ensures forall e :: e in Refresh(snapshot) ==> e.Invoked?
  {
  }

  /** The wrapped call returns normally exactly when the optimistic update,
      the server call, the refresh and `onSuccess` all succeed, and then it
      returns the server's result. */
  lemma OptimisticOkIff(
    snapshot: seq<Listener>, faults: RefreshFaults,
    optimistic: Option<Failure>, server: Result<Value, Failure>,
    onSuccess: Callback, onError: Callback)
    ensures OptimisticEffects(snapshot, faults, optimistic, server, onSuccess, onError).1.Ok?
        <==> (optimistic.None? && server.Ok? && (forall l :: l in snapshot ==> l !in faults.inTry)
              && !onSuccess.Throws?)
    ensures OptimisticEffects(snapshot, faults, optimistic, server, onSuccess, onError).1.Ok? ==>
              OptimisticEffects(snapshot, faults, optimistic, server, onSuccess, onError).1 == server
  {
    FirstRejectingSpec(snapshot, faults.inTry);
  }

  // ---------------------------------------------------------------------------
  // The module-level registry as an object

  class RefreshBus {
    /** `refreshListeners`, in insertion order. */
    var listeners: seq<Listener>
    /** Every callback called so far. */
    var trace: seq<Event>

    predicate Valid()
      reads this
    {
      NoRepeats(listeners)
    }

    constructor()
      ensures Valid() && listeners == [] && trace == []
    {
      listeners := [];
      trace := [];
    }

    /** `subscribeToJobRefresh(l)`. */
    method Subscribe(l: Listener)
      requires Valid()
      modifies this
      ensures Valid()
      ensures listeners == SetAdd(old(listeners), l) && trace == old(trace)
    {
      SetAddEffect(listeners, l);
      if l !in listeners {
        listeners := listeners + [l];
      }
    }

    /** The function `subscribeToJobRefresh` returns: `delete`, which reports
      whether the listener was registered. */
    method Unsubscribe(l: Listener) returns (removed: bool)
      requires Valid()
      modifies this
      ensures Valid()
      ensures removed == (l in old(listeners))
      ensures listeners == SetDelete(old(listeners), l) && trace == old(trace)
    {
      SetDeleteEffect(listeners, l);
      removed := l in listeners;
      listeners := SetDelete(listeners, l);
    }

    /** `triggerJobRefresh()`: calls every listener of a snapshot of the
        registry, then settles as `Promise.all` does. */
    method TriggerRefresh(rejects: set<Listener>) returns (outcome: Option<Failure>)
      modifies this
      ensures listeners == old(listeners)
      ensures trace == old(trace) + Refresh(old(listeners))
      ensures outcome == FirstRejecting(old(listeners), rejects)
    {
      var snapshot := listeners;
      var i := 0;
      outcome := None;
      while i < |snapshot|
        invariant 0 <= i <= |snapshot| && listeners == snapshot
        invariant trace == old(trace) + Refresh(snapshot[..i])
        invariant outcome == FirstRejecting(snapshot[..i], rejects)
      {
        var l := snapshot[i];
        assert snapshot[..i + 1][..i] == snapshot[..i];
        assert Refresh(snapshot[..i + 1]) == Refresh(snapshot[..i]) + [Invoked(l)];
        trace := trace + [Invoked(l)];
        if outcome.None? && l in rejects {
          outcome := Some(Rejected(l));
        }
        i := i + 1;
      }
      assert snapshot[..i] == snapshot;
    }

    /** `postJob`, `updateJob` and `deleteJob` of `useJobMutations`, which
        differ only in the arguments they ignore. */
    method RunMutation(rejects: set<Listener>, callback: Option<Failure>) returns (outcome: Option<Failure>)
      modifies this
      ensures listeners == old(listeners)
      ensures trace == old(trace) + MutationEffects(old(listeners), rejects, callback).0
      ensures outcome == MutationEffects(old(listeners), rejects, callback).1
    {
      trace := trace + [CallbackRan];
      if callback.Some? {
        outcome := callback;
        return;
      }
      outcome := TriggerRefresh(rejects);
      assert trace == old(trace) + ([CallbackRan] + Refresh(listeners));
    }

    /** The catch block of `withOptimisticUpdate`. */
    method Recover(rejects: set<Listener>, error: Failure, onError: Callback) returns (r: Result<Value, Failure>)
      modifies this
      ensures listeners == old(listeners)
      ensures trace == old(trace) + CatchEffects(old(listeners), rejects, error, onError).0
      ensures r == CatchEffects(old(listeners), rejects, error, onError).1
    {
      var refreshed := TriggerRefresh(rejects);
      assert trace + [ErrorCalled(error)] == old(trace) + (Refresh(listeners) + [ErrorCalled(error)]);
      if refreshed.Some? {
        r := Err(refreshed.value);
        return;
      }
      match onError
      case Absent =>
        r := Err(error);
      case Returns =>
        trace := trace + [ErrorCalled(error)];
        r := Err(error);
      case Throws(f) =>
        trace := trace + [ErrorCalled(error)];
        r := Err(f);
    }

    /** Calling the function `withOptimisticUpdate` returns. */
    method WithOptimisticUpdate(
      faults: RefreshFaults, optimistic: Option<Failure>, server: Result<Value, Failure>,
      onSuccess: Callback, onError: Callback) returns (r: Result<Value, Failure>)
      modifies this
      ensures listeners == old(listeners)
      ensures trace == old(trace) + OptimisticEffects(old(listeners), faults, optimistic, server, onSuccess, onError).0
      ensures r == OptimisticEffects(old(listeners), faults, optimistic, server, onSuccess, onError).1
    {
      ghost var t0, snap := trace, listeners;
      trace := trace + [OptimisticRan];
      if optimistic.Some? {
        r := Recover(faults.inCatch, optimistic.value, onError);
        assert trace == t0 + ([OptimisticRan] + CatchEffects(snap, faults.inCatch, optimistic.value, onError).0);
        return;
      }
      r := CallServer(faults, server, onSuccess, onError);
      assert trace == t0 + ([OptimisticRan] + ServerEffects(snap, faults, server, onSuccess, onError).0);
    }

    /** `await serverUpdate()` and the rest of the `try` block, or the catch
        block when the server call throws. */
    method CallServer(faults: RefreshFaults, server: Result<Value, Failure>, onSuccess: Callback, onError: Callback)
      returns (r: Result<Value, Failure>)
      modifies this
      ensures listeners == old(listeners)
      ensures trace == old(trace) + ServerEffects(old(listeners), faults, server, onSuccess, onError).0
      ensures r == ServerEffects(old(listeners), faults, server, onSuccess, onError).1
    {
      ghost var t0, snap := trace, listeners;
      trace := trace + [ServerCalled];
      match server
      case Err(e) =>
        r := Recover(faults.inCatch, e, onError);
        assert trace == t0 + ([ServerCalled] + CatchEffects(snap, faults.inCatch, e, onError).0);
      case Ok(v) =>
        r := Settle(faults, v, onSuccess, onError);
        assert trace == t0 + ([ServerCalled] + SettleEffects(snap, faults, v, onSuccess, onError).0);
    }

    /** The `try` block after the server call returned `v`. */
    method Settle(faults: RefreshFaults, v: Value, onSuccess: Callback, onError: Callback) returns (r: Result<Value, Failure>)
      modifies this
      ensures listeners == old(listeners)
      ensures trace == old(trace) + SettleEffects(old(listeners), faults, v, onSuccess, onError).0
      ensures r == SettleEffects(old(listeners), faults, v, onSuccess, onError).1
    {
      ghost var t0, snap := trace, listeners;
      var refreshed := TriggerRefresh(faults.inTry);
      if refreshed.Some? {
        r := Recover(faults.inCatch, refreshed.value, onError);
        assert trace == t0 + (Refresh(snap) + CatchEffects(snap, faults.inCatch, refreshed.value, onError).0);
        return;
      }
      match onSuccess
      case Absent =>
        r := Ok(v);
      case Returns =>
        trace := trace + [SuccessCalled(v)];
        assert trace == t0 + (Refresh(snap) + [SuccessCalled(v)]);
        r := Ok(v);
      case Throws(f) =>
        trace := trace + [SuccessCalled(v)];
        r := Recover(faults.inCatch, f, onError);
        assert trace == t0 + (Refresh(snap) + [SuccessCalled(v)] + CatchEffects(snap, faults.inCatch, f, onError).0);
    }
  }
}
