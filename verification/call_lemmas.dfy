/**
 * What Call.swift promises about its calls, proved about the functions of `CallModel`
 * that the class `Calls.Call` is proved to follow.
 */
module CallLemmas {
  import opened Options
  import opened Outs
  import opened Keys
  import opened CallModel
  import Depositables

  // ---------------------------------------------------------------------------
  // BaseCall and ComposableCall: start, finish, cancel
  // ---------------------------------------------------------------------------

  /**
   * `finish(out:)`: a cancelled call does nothing at all; otherwise `didFinish` sees `out`,
   * the stored callback (if any) gets the same `out`, `executing` goes false, and the
   * callback stays stored until the main queue releases it.
   */
  lemma FinishDelivers(v: CallView, o: Out)
    ensures var (w, r) := FinishV(v, o);
      if v.st.cancelled then w == v && r == Silent
      else
        w.st == v.st.(didFinishLog := v.st.didFinishLog + [o], executing := false,
                      scheduledClears := w.st.scheduledClears) &&
        (r.Delivered? <==> v.st.callback.Some?) &&
        (v.st.callback.Some? ==> r == Delivered(v.st.callback.value, o) && w.st.scheduledClears == v.st.scheduledClears + 1) &&
        (v.st.callback.None? ==> r == Silent && w.st.scheduledClears == v.st.scheduledClears)
  {
  }

  /**
   * `start` of a leaf stores the callback, clears `cancelled` and sets `executing`; a
   * synchronous ComposableCall then finishes at once with its stored out, an asynchronous
   * one puts that finish on the main queue.
   */
  lemma LeafStartStores(v: CallView, cb: Callback)
    requires v.kind.IsLeaf()
    ensures var (w, r) := LeafStartV(v, cb);
      w.st.callback == Some(cb) && !w.st.cancelled && w.kind == v.kind && w.inner == v.inner &&
      match v.kind
      case Composable(o) =>
        if v.st.synchronous then r == Delivered(cb, o) && !w.st.executing && w.st.didFinishLog == v.st.didFinishLog + [o]
        else r == Silent && w.st.executing && w.st.scheduledFinishes == v.st.scheduledFinishes + 1
      case _ => r == Silent && w.st.executing && IsExecutingV(w) && !ShouldRemoveV(w)
  {
  }

  /** `cancel()` of a leaf: `cancelled` set, not executing, no callback; a later `finish` delivers nothing and changes nothing. */
  lemma CancelThenFinishIsSilent(v: CallView, o: Out)
    requires v.kind.IsLeaf()
    ensures var c := CancelV(v);
      c.st.cancelled && !c.st.executing && c.st.callback.None? && !IsExecutingV(c) && ShouldRemoveV(c) &&
      FinishV(c, o) == (c, Silent)
  {
  }

  /**
   * The events `evs` happen one after another to the call at `path`: the state after them
   * and what each did. A driver for the lemmas below, not a property of its own.
   */
  function DispatchAll(v: CallView, path: seq<Step>, evs: seq<Event>): (r: (CallView, seq<Outcome>))
    ensures |r.1| == |evs|
    decreases |evs|
  {
    if evs == [] then (v, [])
    else
      var (v1, r1) := DispatchV(v, path, evs[0]);
      var (v2, rs) := DispatchAll(v1, path, evs[1..]);
      (v2, [r1] + rs)
  }

  /**
   * Once a leaf is cancelled, nothing that can happen to it from outside delivers anything,
   * calls `didFinish`, or clears `cancelled`, however many events follow.
   */
  lemma {:induction false} CancelledLeafStaysSilent(v: CallView, evs: seq<Event>)
    requires v.kind.IsLeaf() && v.st.cancelled
    ensures var (w, rs) := DispatchAll(v, [], evs);
      w.st.cancelled && w.st.didFinishLog == v.st.didFinishLog && w.st.executing == v.st.executing &&
      w.kind == v.kind && forall i :: 0 <= i < |rs| ==> rs[i] == Silent
    decreases |evs|
  {
    if evs != [] {
      var (v1, r1) := DispatchV(v, [], evs[0]);
      CancelledLeafStaysSilent(v1, evs[1..]);
    }
  }

  /**
   * The deferred `self.callback = nil` of `finish`: until it runs, a second `finish`
   * delivers again to the same callback.
   */
  lemma FinishTwiceDeliversTwice(v: CallView, cb: Callback, o1: Out, o2: Out)
    requires !v.st.cancelled && v.st.callback == Some(cb)
    ensures var (w, r1) := FinishV(v, o1);
      r1 == Delivered(cb, o1) && FinishV(w, o2).1 == Delivered(cb, o2)
  {
  }

  /**
   * The deferred release also hits a callback stored by a restart in between: a call
   * finished and then started again with `cb2` loses `cb2` when the earlier release runs,
   * and its next `finish` reaches nobody.
   */
  lemma StaleClearDropsNewCallback(v: CallView, cb1: Callback, cb2: Callback, o1: Out, o2: Out)
    requires v.kind.Plain? && !v.st.cancelled && v.st.callback == Some(cb1) && v.st.scheduledClears == 0
    ensures var v1 := FinishV(v, o1).0;
      var v2 := StartV(v1, cb2).0;
      var v3 := HandleV(v2, RunCallbackClear).0;
      v2.st.callback == Some(cb2) && v3.st.callback.None? && v3.st.executing &&
      FinishV(v3, o2).1 == Silent
  {
  }

  // ---------------------------------------------------------------------------
  // WrappedCall's forwarding
  // ---------------------------------------------------------------------------

  /** A decorator's `cancel` only cancels what it owns: its own stored properties stay as they were. */
  lemma WrapperCancelKeepsOwnFlags(v: CallView)
    requires !v.kind.IsLeaf()
    ensures CancelV(v).st == v.st && CancelV(v).kind == v.kind
  {
  }

  /** No started sequence anywhere along the chain of wrapped calls. */
  ghost predicate NoContinuationAlongChain(v: CallView)
    decreases v
  {
    v.continuation.None? && (v.inner.Some? ==> NoContinuationAlongChain(v.inner.value))
  }

  /**
   * `depositableWillRemove()` is `cancel()` for a leaf, and a decorator forwards both to
   * its wrapped call, so the two agree on every chain that holds no started sequence.
   */
  lemma {:induction false} WillRemoveIsCancel(v: CallView)
    requires WellFormed(v) && NoContinuationAlongChain(v)
    ensures WillRemoveV(v) == CancelV(v)
  {
    if !v.kind.IsLeaf() && v.inner.Some? {
      WillRemoveIsCancel(v.inner.value);
    }
  }

  /**
   * SequenceCall overrides `cancel` but not `depositableWillRemove`: removing a sequence from
   * its owner leaves its continuation running, where cancelling it would not.
   */
  lemma WillRemoveSparesContinuation(v: CallView)
    requires v.kind.Sequence? && v.continuation.Some?
    ensures WillRemoveV(v).continuation == v.continuation
    ensures CancelV(v).continuation == Some(CancelV(v.continuation.value))
  {
  }

  /** The path runs through wrapped calls and continuations only, never into a group member. */
  predicate ThroughWrappers(path: seq<Step>)
  {
    forall i :: 0 <= i < |path| ==> !path[i].Child?
  }

  /** `cancel()` reaches the leaf at the end of every such path and cancels it. */
  lemma {:induction false} CancelReachesLeaf(v: CallView, path: seq<Step>)
    requires WellFormed(v) && ThroughWrappers(path)
    requires NodeAt(v, path).Some? && NodeAt(v, path).value.kind.IsLeaf()
    ensures NodeAt(CancelV(v), path) == Some(CancelV(NodeAt(v, path).value))
    decreases |path|
  {
    if path != [] {
      assert ThroughWrappers(path[1..]) by {
        forall i | 0 <= i < |path[1..]| ensures !path[1..][i].Child? {
          assert path[1..][i] == path[i + 1];
        }
      }
      match path[0]
      case Inner =>
        CancelReachesLeaf(v.inner.value, path[1..]);
      case Continuation =>
        CancelReachesLeaf(v.continuation.value, path[1..]);
    }
  }

  /** A `finish` of a cancelled call delivers nothing, and so nothing travels up from it. */
  lemma {:induction false} SilentBelowCancelled(v: CallView, path: seq<Step>, o: Out)
    requires NodeAt(v, path).Some? && NodeAt(v, path).value.st.cancelled
    ensures DispatchV(v, path, Finish(o)).1 == Silent
    decreases |path|
  {
    if path != [] {
      assert DispatchV(v, path, Finish(o)) == DispatchStepV(v, path[0], path[1..], Finish(o));
      match path[0]
      case Inner =>
        SilentBelowCancelled(v.inner.value, path[1..], o);
      case Continuation =>
        SilentBelowCancelled(v.continuation.value, path[1..], o);
      case Child(k) =>
        SilentBelowCancelled(v.children[k], path[1..], o);
    }
  }

  /** After `cancel()` of a chain, the leaf at its bottom finishing reaches no callback anywhere. */
  lemma CancelledChainIsSilent(v: CallView, path: seq<Step>, o: Out)
    requires WellFormed(v) && ThroughWrappers(path)
    requires NodeAt(v, path).Some? && NodeAt(v, path).value.kind.IsLeaf()
    ensures DispatchV(CancelV(v), path, Finish(o)).1 == Silent
  {
    CancelReachesLeaf(v, path);
    SilentBelowCancelled(CancelV(v), path, o);
  }

  // ---------------------------------------------------------------------------
  // WrappedCall, OnceCall, OutWrapCall and MulticastCall: what their closures deliver
  // ---------------------------------------------------------------------------

  /**
   * A chain the factories build out of plain, once, out-wrapping, intercepting and timeout
   * decorators, down to the leaf at its bottom.
   */
  ghost predicate RelayKinds(v: CallView)
    decreases v
  {
    v.kind.IsLeaf() ||
    ((v.kind.Wrapped? || v.kind.OutWrap? || v.kind.Multicast? || v.kind.Timeout? || v.kind.Once?) &&
     v.inner.Some? && RelayKinds(v.inner.value))
  }

  /**
   * A chain of decorators, sequences included, whose start delivers nothing: no OnceCall in it
   * was started before, and the leaf at its bottom is not a synchronous ComposableCall.
   */
  ghost predicate QuietStart(v: CallView)
    decreases v
  {
    if v.kind.IsLeaf() then !(v.kind.Composable? && v.st.synchronous)
    else
      (v.kind.Wrapped? || v.kind.OutWrap? || v.kind.Multicast? || v.kind.Timeout? || v.kind.Sequence? ||
       (v.kind.Once? && !v.st.called)) &&
      v.inner.Some? && QuietStart(v.inner.value)
  }

  /** Every call of the chain holds the closure of the call above it (the top one `cb`), and none is cancelled. */
  ghost predicate StartedChain(v: CallView, cb: Callback)
    decreases v
  {
    v.st.callback == Some(cb) && !v.st.cancelled &&
    (!v.kind.IsLeaf() ==> !v.kind.Group? && v.inner.Some? && StartedChain(v.inner.value, Closure(Inner)))
  }

  /** The path of wrapped calls from `v` down to the call at the bottom of its chain. */
  function DownPath(v: CallView): seq<Step>
    decreases v
  {
    if v.kind.IsLeaf() || v.inner.None? then [] else [Inner] + DownPath(v.inner.value)
  }

  /** What the chain hands its callback when its bottom leaf finishes with `o`: `o`, mapped by each out wrapper on the way up. */
  function ChainOut(v: CallView, o: Out): Out
    decreases v
  {
    if v.kind.IsLeaf() || v.inner.None? then o
    else
      var o1 := ChainOut(v.inner.value, o);
      if v.kind.OutWrap? then v.kind.outWrapper(o1) else o1
  }

  /** A plain WrappedCall or a OnceCall hands its callback exactly the out its wrapped call finished with. */
  lemma RelayDelivers(v: CallView, cb: Callback, o: Out)
    requires (v.kind.Wrapped? || v.kind.Once?) && !v.st.cancelled && v.st.callback == Some(cb)
    ensures var (w, r) := ReactV(v, Inner, o);
      r == Delivered(cb, o) && w.st.didFinishLog == v.st.didFinishLog + [o] && !w.st.executing
    ensures StartedChain(v, cb) && RelayKinds(v) ==>
      DispatchV(v, DownPath(v), Finish(o)).1 == Delivered(cb, ChainOut(v.inner.value, o))
  {
    if StartedChain(v, cb) && RelayKinds(v) {
      ChainFinishDelivers(v, cb, o);
    }
  }

  /** `wrapOut`: the callback gets the wrapper's image of the out the wrapped call finished with. */
  lemma OutWrapDelivers(v: CallView, cb: Callback, o: Out)
    requires v.kind.OutWrap? && !v.st.cancelled && v.st.callback == Some(cb)
    ensures var (w, r) := ReactV(v, Inner, o);
      r == Delivered(cb, v.kind.outWrapper(o)) && w.st.didFinishLog == v.st.didFinishLog + [v.kind.outWrapper(o)]
    ensures StartedChain(v, cb) && RelayKinds(v) ==>
      DispatchV(v, DownPath(v), Finish(o)).1 == Delivered(cb, v.kind.outWrapper(ChainOut(v.inner.value, o)))
  {
    if StartedChain(v, cb) && RelayKinds(v) {
      ChainFinishDelivers(v, cb, o);
    }
  }

  /** `intercept`: the intercept callback sees the out first, then the callback gets the same out. */
  lemma MulticastDelivers(v: CallView, cb: Callback, o: Out)
    requires v.kind.Multicast? && !v.st.cancelled && v.st.callback == Some(cb)
    ensures var (w, r) := ReactV(v, Inner, o);
      r == Delivered(cb, o) && w.st.intercepted == v.st.intercepted + [o] &&
      w.st.didFinishLog == v.st.didFinishLog + [o]
    ensures StartedChain(v, cb) && RelayKinds(v) ==>
      DispatchV(v, DownPath(v), Finish(o)).1 == Delivered(cb, ChainOut(v.inner.value, o))
  {
    if StartedChain(v, cb) && RelayKinds(v) {
      ChainFinishDelivers(v, cb, o);
    }
  }

  /**
   * In a started chain of such decorators, the leaf at the bottom finishing with `o` reaches
   * the top callback, with `o` mapped by each out wrapper on the way.
   */
  lemma {:induction false} ChainFinishDelivers(v: CallView, cb: Callback, o: Out)
    requires StartedChain(v, cb) && RelayKinds(v)
    ensures DispatchV(v, DownPath(v), Finish(o)).1 == Delivered(cb, ChainOut(v, o))
    decreases v
  {
    if !v.kind.IsLeaf() {
      var c := v.inner.value;
      var rest := DownPath(c);
      ChainFinishDelivers(c, Closure(Inner), o);
      assert DownPath(v)[1..] == rest;
      assert DispatchV(v, DownPath(v), Finish(o)) == DispatchInnerV(v, rest, Finish(o));
    }
  }

  /** A decorator that wraps one call and starts it with its closure; OnceCall only before its first start. */
  predicate Relaying(v: CallView)
  {
    v.kind.Wrapped? || v.kind.OutWrap? || v.kind.Multicast? || v.kind.Sequence? || v.kind.Timeout? ||
    (v.kind.Once? && !v.st.called)
  }

  /**
   * Starting such a decorator over a call whose own start delivers nothing starts that call
   * with the decorator's closure, and delivers nothing yet.
   */
  lemma WrapperStartWaits(v: CallView, cb: Callback)
    requires Relaying(v) && v.inner.Some? && StartV(v.inner.value, Closure(Inner)).1 == Silent
    ensures var (w, r) := StartV(v, cb);
      r == Silent && w.inner == Some(StartV(v.inner.value, Closure(Inner)).0) &&
      w.st == StartedWrapper(v, cb).st.(scheduledTimers := w.st.scheduledTimers) &&
      (v.kind.Timeout? ==> w.st.scheduledTimers == v.st.scheduledTimers + 1)
  {
    assert StartV(v, cb) == WrapperDidStartV(StartedWrapper(v, cb), StartV(v.inner.value, Closure(Inner)));
  }

  /**
   * Starting a chain whose start delivers nothing leaves every call in it holding the closure
   * of the call above it, and the chain executing; its shape and its out wrappers are kept.
   */
  lemma {:induction false} QuietStartWaits(v: CallView, cb: Callback, o: Out)
    requires QuietStart(v)
    ensures var (w, r) := StartV(v, cb);
      r == Silent && StartedChain(w, cb) && IsExecutingV(w) &&
      DownPath(w) == DownPath(v) && ChainOut(w, o) == ChainOut(v, o) && (RelayKinds(v) ==> RelayKinds(w))
    decreases v
  {
    if !v.kind.IsLeaf() {
      var c := v.inner.value;
      QuietStartWaits(c, Closure(Inner), o);
      WrapperStartWaits(v, cb);
    }
  }

  /**
   * From `start` to delivery: once a chain of plain, once, out-wrapping, intercepting and
   * timeout decorators whose start delivers nothing is started with `cb`, the leaf at its
   * bottom finishing with `o` hands `cb` that out, mapped by each out wrapper on the way.
   */
  lemma StartThenFinishDelivers(v: CallView, cb: Callback, o: Out)
    requires QuietStart(v) && RelayKinds(v)
    ensures DispatchV(StartV(v, cb).0, DownPath(v), Finish(o)).1 == Delivered(cb, ChainOut(v, o))
  {
    QuietStartWaits(v, cb, o);
    ChainFinishDelivers(StartV(v, cb).0, cb, o);
  }

  /** `WrappedCall(c).once().timeout(t)` over a BaseCall `c`: a finish of `c` after the start reaches `cb` with the same out. */
  lemma OnceTimeoutChainDelivers(cb: Callback, o: Out)
    ensures var c := Fresh(Plain, None, map[], []);
      var chain := Fresh(Timeout, Some(Fresh(Once, Some(Fresh(Wrapped, Some(c), map[], [])), map[], [])), map[], []);
      DispatchV(StartV(chain, cb).0, [Inner, Inner, Inner], Finish(o)).1 == Delivered(cb, o)
  {
    var c := Fresh(Plain, None, map[], []);
    var chain := Fresh(Timeout, Some(Fresh(Once, Some(Fresh(Wrapped, Some(c), map[], [])), map[], [])), map[], []);
    assert DownPath(chain) == [Inner, Inner, Inner];
    StartThenFinishDelivers(chain, cb, o);
  }

  // ---------------------------------------------------------------------------
  // TimeoutCall
  // ---------------------------------------------------------------------------

  /** A started TimeoutCall, waiting on both its wrapped call and its timer. */
  ghost predicate TimeoutRacing(v: CallView, cb: Callback)
  {
    v.kind.Timeout? && v.inner.Some? &&
    !v.st.cancelled && v.st.callback == Some(cb) && !v.st.finished && v.st.scheduledTimers > 0
  }

  /** Starting a TimeoutCall over a call whose start delivers nothing starts that call with the closure and arms the race. */
  lemma TimeoutStartRaces(v: CallView, cb: Callback)
    requires v.kind.Timeout? && v.inner.Some? && StartV(v.inner.value, Closure(Inner)).1 == Silent
    ensures var (w, r) := StartV(v, cb);
      TimeoutRacing(w, cb) && r == Silent && w.inner == Some(StartV(v.inner.value, Closure(Inner)).0)
  {
    WrapperStartWaits(v, cb);
  }

  /**
   * The wrapped call finishes first: the timeout call forwards its out and sets `finished`,
   * and the timer, when it fires, does nothing but leave the queue. End to end, the leaf at
   * the bottom of a started chain inside finishing has the same effect.
   */
  lemma TimeoutInnerWins(v: CallView, cb: Callback, o: Out)
    requires TimeoutRacing(v, cb)
    ensures var (v1, r1) := ReactV(v, Inner, o);
      r1 == Delivered(cb, o) && v1.st.finished &&
      HandleV(v1, FireTimer) == (v1.(st := v1.st.(scheduledTimers := v1.st.scheduledTimers - 1)), Silent)
    ensures StartedChain(v.inner.value, Closure(Inner)) && RelayKinds(v.inner.value) ==>
      var (v2, r2) := DispatchV(v, DownPath(v), Finish(o));
      r2 == Delivered(cb, ChainOut(v.inner.value, o)) && v2.st.finished && HandleV(v2, FireTimer).1 == Silent
  {
    var c := v.inner.value;
    if StartedChain(c, Closure(Inner)) && RelayKinds(c) {
      var rest := DownPath(c);
      ChainFinishDelivers(c, Closure(Inner), o);
      assert DownPath(v)[1..] == rest;
      var (c1, r) := DispatchV(c, rest, Finish(o));
      assert DispatchV(v, DownPath(v), Finish(o)) == DispatchInnerV(v, rest, Finish(o));
      assert DispatchInnerV(v, rest, Finish(o)) == AfterChildV(v.(inner := Some(c1)), Inner, r);
      assert r == Delivered(Closure(Inner), ChainOut(c, o));
    }
  }

  /**
   * The timer fires first: the wrapped call is cancelled and the timeout call finishes with
   * the "Time out" error, code -100001; the leaf at the end of any path through wrapped calls
   * and continuations inside finishing later reaches nobody.
   */
  lemma TimeoutTimerWins(v: CallView, cb: Callback, o: Out, path: seq<Step>)
    requires TimeoutRacing(v, cb) && WellFormed(v)
    ensures var (v1, r1) := HandleV(v, FireTimer);
      r1 == Delivered(cb, TimeoutOut()) && !r1.out.HasValue() &&
      r1.out.error.value.domain == "Time out" && r1.out.error.value.code == -100001 &&
      v1.inner == Some(CancelV(v.inner.value))
    ensures ThroughWrappers(path) && NodeAt(v.inner.value, path).Some? && NodeAt(v.inner.value, path).value.kind.IsLeaf() ==>
      DispatchV(HandleV(v, FireTimer).0, [Inner] + path, Finish(o)).1 == Silent
  {
    var c := v.inner.value;
    if ThroughWrappers(path) && NodeAt(c, path).Some? && NodeAt(c, path).value.kind.IsLeaf() {
      var v1 := HandleV(v, FireTimer).0;
      CancelledChainIsSilent(c, path, o);
      assert ([Inner] + path)[1..] == path;
      assert DispatchV(v1, [Inner] + path, Finish(o)) == DispatchInnerV(v1, path, Finish(o));
    }
  }

  /**
   * `cancel()` of a TimeoutCall does not set its own `cancelled` flag or disarm the timer,
   * so a timer that fires afterwards still finishes it with the timeout error.
   */
  lemma TimeoutFiresAfterCancel(v: CallView, cb: Callback)
    requires TimeoutRacing(v, cb)
    ensures HandleV(CancelV(v), FireTimer).1 == Delivered(cb, TimeoutOut())
  {
  }

  // ---------------------------------------------------------------------------
  // OnceCall
  // ---------------------------------------------------------------------------

  /** The first `start` of a OnceCall starts its wrapped call; every later one changes nothing. */
  lemma OnceIgnoresSecondStart(v: CallView, cb1: Callback, cb2: Callback)
    requires v.kind.Once? && v.inner.Some?
    ensures var w := StartV(v, cb1).0;
      w.st.called && StartV(w, cb2) == (w, Silent) &&
      (!v.st.called ==> w.inner == Some(StartV(v.inner.value, Closure(Inner)).0))
  {
  }

  // ---------------------------------------------------------------------------
  // SequenceCall
  // ---------------------------------------------------------------------------

  /**
   * When the original call finishes, the sequence builds its continuation from that out and
   * starts it; the sequence finishes with whatever the continuation finishes with.
   */
  lemma SequenceRelaysContinuation(v: CallView, cb: Callback, o: Out, o2: Out)
    requires v.kind.Sequence? && !v.st.cancelled && v.st.callback == Some(cb)
    ensures var (w, r) := ReactV(v, Inner, o);
      w.continuation.Some? && w.continuation.value.kind.IsLeaf() &&
      match v.kind.continuing(o)
      case ComposableLeaf(o1, true) => r == Delivered(cb, o1)
      case ComposableLeaf(o1, false) => r == Silent && DispatchV(w, [Continuation], RunScheduledFinish).1 == Delivered(cb, o1)
      case PlainLeaf => r == Silent && DispatchV(w, [Continuation], Finish(o2)).1 == Delivered(cb, o2)
  {
  }

  // ---------------------------------------------------------------------------
  // GroupCall
  // ---------------------------------------------------------------------------

  /** A group has no wrapped call: `cancel` and `depositableWillRemove` do nothing, it never executes, and it may always go. */
  lemma GroupHasNoInner(v: CallView)
    requires v.kind.Group? && WellFormed(v)
    ensures CancelV(v) == v && WillRemoveV(v) == v && !IsExecutingV(v) && ShouldRemoveV(v)
  {
  }

  /** A group over no calls starts and then never finishes: nothing is left to complete. */
  lemma EmptyGroupNeverFinishes(v: CallView, cb: Callback)
    requires v.kind.Group? && v.keyOrder == []
    ensures GroupStartV(v, cb) == (StartedGroup(v, cb), Silent)
    ensures StartedGroup(v, cb).st.pending == Some([]) && StartedGroup(v, cb).st.executing
  {
  }

  /** Removing the one occurrence of `s[i]` from a sequence without repeats. */
  lemma {:induction false} RemoveAtRemovesOne(s: seq<string>, i: nat)
    requires Distinct(s) && i < |s|
    ensures Distinct(RemoveAt(s, i)) && |RemoveAt(s, i)| == |s| - 1
    ensures forall x :: x in RemoveAt(s, i) <==> x in s && x != s[i]
  {
    var t := RemoveAt(s, i);
    assert forall j :: 0 <= j < |t| ==> t[j] == if j < i then s[j] else s[j + 1];
    forall x ensures x in t <==> x in s && x != s[i] {
      if x in t {
        var j :| 0 <= j < |t| && t[j] == x;
        assert x == if j < i then s[j] else s[j + 1];
      }
      if x in s && x != s[i] {
        var j :| 0 <= j < |s| && s[j] == x;
        assert j != i;
        assert x == t[if j < i then j else j - 1];
      }
    }
  }

  /**
   * The per-member closure records the member's out under its key, whether value or error,
   * removes exactly that key from the pending list, and finishes the group exactly when the
   * list becomes empty, with the joined outs.
   */
  lemma GroupReactRecordsKey(v: CallView, k: string, o: Out)
    requires v.kind.Group? && !v.st.cancelled && v.st.outs.Some? && v.st.pending.Some?
    requires Distinct(v.st.pending.value) && k in v.st.pending.value
    ensures var (w, r) := GroupReactV(v, k, o);
      var joined := v.st.outs.value[k := o];
      w.st.outs == Some(joined) && w.st.pending.Some? && Distinct(w.st.pending.value) &&
      (forall x :: x in w.st.pending.value <==> x in v.st.pending.value && x != k) &&
      |w.st.pending.value| == |v.st.pending.value| - 1 &&
      (w.st.didFinishLog != v.st.didFinishLog <==> w.st.pending.value == []) &&
      (w.st.pending.value == [] ==>
         w.st.didFinishLog == v.st.didFinishLog + [OfValue(Joined(joined))] && !w.st.executing &&
         r == if v.st.callback.Some? then Delivered(v.st.callback.value, OfValue(Joined(joined))) else Silent) &&
      (w.st.pending.value != [] ==> r == Silent && w.st.executing == v.st.executing)
  {
    var i := IndexOf(v.st.pending.value, k).value;
    RemoveAtRemovesOne(v.st.pending.value, i);
  }

  /** A member finishing when its key is no longer pending (a second time, say) hits the force-unwrap of `find`. */
  lemma GroupReactTrapsUnknownKey(v: CallView, k: string, o: Out)
    requires v.kind.Group? && !v.st.cancelled && v.st.outs.Some? && v.st.pending.Some? && k !in v.st.pending.value
    ensures GroupReactV(v, k, o).1 == Trapped
  {
  }

  /** Every key of the group is either pending or has its out recorded, never both. */
  ghost predicate JoinInvariant(v: CallView)
  {
    v.st.outs.Some? && v.st.pending.Some? && Distinct(v.st.pending.value) &&
    (forall x :: x in v.st.pending.value ==> x !in v.st.outs.value) &&
    (forall x :: x in v.keyOrder <==> x in v.st.outs.value || x in v.st.pending.value)
  }

  /** `start` makes every key pending with nothing recorded. */
  lemma StartedGroupJoins(v: CallView, cb: Callback)
    requires v.kind.Group? && Distinct(v.keyOrder)
    ensures JoinInvariant(StartedGroup(v, cb))
    ensures StartedGroup(v, cb).st.pending == Some(v.keyOrder) && StartedGroup(v, cb).st.outs == Some(map[])
  {
  }

  /**
   * A member of a started group completing keeps the invariant; when it was the last one
   * pending, the group finishes with an out for every key.
   */
  lemma GroupReactKeepsJoin(v: CallView, k: string, o: Out)
    requires v.kind.Group? && JoinInvariant(v) && k in v.st.pending.value
    ensures JoinInvariant(GroupReactV(v, k, o).0)
    ensures var w := GroupReactV(v, k, o).0;
      w.st.pending.value == [] ==> forall x :: x in w.st.outs.value <==> x in v.keyOrder
  {
    if !v.st.cancelled {
      GroupReactRecordsKey(v, k, o);
    }
  }

  /** What the group's closure does when the member under `step` hands it something keeps the invariant, unless it traps. */
  lemma AfterMemberKeepsJoin(g: CallView, step: Step, r1: Outcome)
    requires g.kind.Group? && JoinInvariant(g)
    ensures var (g2, r2) := AfterChildV(g, step, r1); r2.Trapped? || JoinInvariant(g2)
  {
    if r1.Delivered? && r1.callback.Closure? && step.Child? && step.key in g.st.pending.value {
      GroupReactKeepsJoin(g, step.key, r1.out);
    }
  }

  /** The group's loop keeps the invariant unless it traps. */
  lemma {:induction false} GroupFoldKeepsJoin(g: CallView, keys: seq<string>, started: map<string, (CallView, Outcome)>, i: nat, acc: Outcome)
    requires g.kind.Group? && JoinInvariant(g)
    ensures var (g2, r2) := GroupFoldV(g, keys, started, i, acc); r2.Trapped? || JoinInvariant(g2)
    decreases |keys| - i
  {
    if i < |keys| && keys[i] in started {
      var k := keys[i];
      var g1 := g.(children := g.children[k := started[k].0]);
      assert JoinInvariant(g1);
      AfterMemberKeepsJoin(g1, Child(k), started[k].1);
      var (g2, r2) := AfterChildV(g1, Child(k), started[k].1);
      if !r2.Trapped? {
        GroupFoldKeepsJoin(g2, keys, started, i + 1, if r2.Delivered? then r2 else acc);
      }
    }
  }

  /**
   * Starting a group leaves every key either pending or recorded, whatever its members did
   * synchronously, unless one of them completed twice; if none of them completed at once,
   * every key is still pending.
   */
  lemma GroupStartJoins(v: CallView, cb: Callback)
    requires v.kind.Group? && WellFormed(v)
    ensures var (g, r) := GroupStartV(v, cb); r.Trapped? || JoinInvariant(g)
    ensures (forall k :: k in v.children ==> StartV(v.children[k], Closure(Child(k))).1 == Silent) ==>
      GroupStartV(v, cb).1 == Silent && GroupStartV(v, cb).0.st == StartedGroup(v, cb).st
  {
    StartedGroupJoins(v, cb);
    GroupFoldKeepsJoin(StartedGroup(v, cb), v.keyOrder, StartedMembers(v), 0, Silent);
    if forall k :: k in v.children ==> StartV(v.children[k], Closure(Child(k))).1 == Silent {
      GroupFoldQuiet(StartedGroup(v, cb), v.keyOrder, StartedMembers(v), 0, Silent);
    }
  }

  /**
   * The group's loop leaves each member it visits as that member's start left it, keeps
   * every other member as it was, and adds no member.
   */
  lemma {:induction false} GroupFoldSetsMembers(g: CallView, keys: seq<string>, started: map<string, (CallView, Outcome)>, i: nat, acc: Outcome)
    requires Distinct(keys) && i <= |keys|
    ensures var (g2, r2) := GroupFoldV(g, keys, started, i, acc);
      (forall k :: k in g2.children ==> k in g.children || k in keys[i..]) &&
      (forall k :: k in g.children ==> k in g2.children) &&
      (forall k :: k in g.children && k !in keys[i..] ==> k in g2.children && g2.children[k] == g.children[k]) &&
      (!r2.Trapped? ==> forall j :: i <= j < |keys| ==>
         keys[j] in started && keys[j] in g2.children && g2.children[keys[j]] == started[keys[j]].0)
    decreases |keys| - i
  {
    if i < |keys| && keys[i] in started {
      var k := keys[i];
      assert keys[i..] == [k] + keys[i + 1..];
      assert k !in keys[i + 1..];
      var g1 := g.(children := g.children[k := started[k].0]);
      var (g2, r2) := AfterChildV(g1, Child(k), started[k].1);
      if !r2.Trapped? {
        GroupFoldSetsMembers(g2, keys, started, i + 1, if r2.Delivered? then r2 else acc);
      }
    }
  }

  /** A group's `start` starts every member once, with the closure for its key, and hits no force-unwrap. */
  lemma GroupStartStartsEveryMember(v: CallView, cb: Callback)
    requires v.kind.Group? && WellFormed(v)
    ensures var (w, r) := GroupStartV(v, cb);
      !r.Trapped? && (forall k :: k in w.children <==> k in v.children) &&
      forall k :: k in v.keyOrder ==> w.children[k] == StartV(v.children[k], Closure(Child(k))).0
  {
    StartNeverTraps(v, cb);
    GroupFoldSetsMembers(StartedGroup(v, cb), v.keyOrder, StartedMembers(v), 0, Silent);
    assert v.keyOrder[0..] == v.keyOrder;
  }

  /** A member that did not trap hands the group's closure something that does not trap and keeps the other keys pending. */
  lemma AfterMemberKeepsPending(g1: CallView, k: string, r1: Outcome)
    requires g1.kind.Group? && !g1.st.cancelled && g1.st.outs.Some? && g1.st.pending.Some?
    requires Distinct(g1.st.pending.value) && k in g1.st.pending.value && !r1.Trapped?
    ensures var (g2, r2) := AfterChildV(g1, Child(k), r1);
      !r2.Trapped? && !g2.st.cancelled && g2.st.outs.Some? && g2.st.pending.Some? && Distinct(g2.st.pending.value) &&
      forall x :: x in g1.st.pending.value && x != k ==> x in g2.st.pending.value
  {
    if r1.Delivered? && r1.callback.Closure? {
      var idx := IndexOf(g1.st.pending.value, k).value;
      RemoveAtRemovesOne(g1.st.pending.value, idx);
    }
  }

  /**
   * The group's loop cannot hit a force-unwrap while every key still to visit is pending
   * and has a started member whose own start did not trap.
   */
  lemma {:induction false} GroupFoldNeverTraps(g: CallView, keys: seq<string>, started: map<string, (CallView, Outcome)>, i: nat, acc: Outcome)
    requires g.kind.Group? && Distinct(keys) && i <= |keys| && !acc.Trapped?
    requires !g.st.cancelled && g.st.outs.Some? && g.st.pending.Some? && Distinct(g.st.pending.value)
    requires forall j :: i <= j < |keys| ==> keys[j] in g.st.pending.value && keys[j] in started && !started[keys[j]].1.Trapped?
    ensures !GroupFoldV(g, keys, started, i, acc).1.Trapped?
    decreases |keys| - i
  {
    if i < |keys| {
      var k := keys[i];
      var g1 := g.(children := g.children[k := started[k].0]);
      var (g2, r2) := AfterChildV(g1, Child(k), started[k].1);
      AfterMemberKeepsPending(g1, k, started[k].1);
      assert forall j :: i + 1 <= j < |keys| ==> keys[j] != k;
      GroupFoldStep(g, keys, started, i, acc, started[k].0, started[k].1, g2, r2);
      GroupFoldNeverTraps(g2, keys, started, i + 1, if r2.Delivered? then r2 else acc);
    }
  }

  /** No force-unwrap fails while a call of a shape the initialisers build is started. */
  lemma {:induction false} StartNeverTraps(v: CallView, cb: Callback)
    requires WellFormed(v)
    ensures !StartV(v, cb).1.Trapped?
    decreases v, 1
  {
    if v.kind.Once? && v.st.called {
    } else if v.kind.Group? {
      GroupStartNeverTraps(v, cb);
    } else if !v.kind.IsLeaf() {
      StartNeverTraps(v.inner.value, Closure(Inner));
      WrapperDidStartNeverTraps(StartedWrapper(v, cb), StartV(v.inner.value, Closure(Inner)));
    }
  }

  /** A decorator other than a group traps in `didStart` only when its wrapped call's start did. */
  lemma WrapperDidStartNeverTraps(v1: CallView, started: (CallView, Outcome))
    requires !v1.kind.IsLeaf() && !v1.kind.Group? && !started.1.Trapped?
    ensures !WrapperDidStartV(v1, started).1.Trapped?
  {
  }

  /** A group's loop traps only when a member's own start did. */
  lemma {:induction false} GroupStartNeverTraps(v: CallView, cb: Callback)
    requires v.kind.Group? && WellFormed(v)
    ensures !GroupStartV(v, cb).1.Trapped?
    decreases v, 0
  {
    var started := StartedMembers(v);
    forall k | k in v.children ensures !started[k].1.Trapped? {
      StartNeverTraps(v.children[k], Closure(Child(k)));
    }
    GroupFoldNeverTraps(StartedGroup(v, cb), v.keyOrder, started, 0, Silent);
  }

  /** When no member delivers anything while being started, the loop changes none of the group's own state. */
  lemma {:induction false} GroupFoldQuiet(g: CallView, keys: seq<string>, started: map<string, (CallView, Outcome)>, i: nat, acc: Outcome)
    requires forall j :: i <= j < |keys| ==> keys[j] in started && started[keys[j]].1 == Silent
    ensures GroupFoldV(g, keys, started, i, acc).1 == acc && GroupFoldV(g, keys, started, i, acc).0.st == g.st
    decreases |keys| - i
  {
    if i < |keys| {
      var k := keys[i];
      GroupFoldQuiet(g.(children := g.children[k := started[k].0]), keys, started, i + 1, acc);
    }
  }

  // ---------------------------------------------------------------------------
  // Calls deposited on an owner
  // ---------------------------------------------------------------------------

  /** `shouldRemoveDepositable()` of the call object with handle `h`, asked in its current state `live[h]`. */
  predicate AsksLiveCall(live: map<nat, CallView>, h: nat)
  {
    h in live && ShouldRemoveV(live[h])
  }

  /**
   * The dictionary holds the calls themselves, so a memory warning asks each call about its
   * state at that moment. With the entries as handles of call objects and `live` the current
   * state of each, the warning keeps exactly the calls that are executing then, whatever
   * state they were in when they were deposited.
   */
  lemma MemoryWarningKeepsExecutingCalls(m: map<string, nat>, live: map<nat, CallView>)
    requires forall k :: k in m ==> m[k] in live
    ensures forall k :: k in Depositables.Kept(m, h => AsksLiveCall(live, h)) <==> k in m && IsExecutingV(live[m[k]])
  {
  }

  /**
   * A call deposited before its `start`, as `deposit(by:).start {...}` does, was idle when
   * deposited; once started, and while its bottom leaf has not finished, it is executing, so a
   * memory warning keeps it.
   */
  lemma DepositedThenStartedIsKept(m: map<string, nat>, live: map<nat, CallView>, k: string, v: CallView, cb: Callback)
    requires forall k' :: k' in m ==> m[k'] in live
    requires k in m && QuietStart(v) && live[m[k]] == StartV(v, cb).0
    ensures k in Depositables.Kept(m, h => AsksLiveCall(live, h))
  {
    QuietStartWaits(v, cb, OfValue(Text("")));
  }
}
