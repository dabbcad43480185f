/**
 * The call state machine of Call.swift as values. A `CallView` is the state of one
 * call and of the calls it owns; the functions here are what `start`, `finish`,
 * `cancel`, the Depositable hooks, the decorators' completion closures and the
 * main-queue blocks do to it. The class `Calls.Call` is proved to follow them.
 *
 * A callback is a token. `finish` does not invoke it: it reports it in the
 * `Outcome`, and the parent that installed the token runs its closure body
 * (`ReactV`) on the way back up.
 */
module CallModel {
  import opened Options
  import opened Outs
  import opened Keys

  /** Where a call sits inside its parent: the wrapped call, a sequence's continuation, a group member. */
  datatype Step = Inner | Continuation | Child(key: string)

  /** A stored completion callback: one a client passed to `start`, or the closure a parent installed. */
  datatype Callback = Client(id: nat) | Closure(step: Step)

  /** What an operation did with the callback of the call it was applied to. */
  datatype Outcome =
    | Silent
    | Delivered(callback: Callback, out: Out)
    | Trapped  // a force-unwrap of nil: the process stops

  /** The call a sequence's continuation returns: a bare `BaseCall` or a `ComposableCall`. */
  datatype Leaf = PlainLeaf | ComposableLeaf(out: Out, synchronous: bool)

  /** Which class of Call.swift a call is, with the values fixed at construction. */
  datatype Kind =
    | Plain                                 // BaseCall: its work finishes it from outside
    | Composable(out: Out)                  // ComposableCall
    | Wrapped                               // WrappedCall(call)
    | OutWrap(outWrapper: Out -> Out)       // wrapOut
    | Multicast                             // intercept
    | Timeout                               // timeout
    | Sequence(continuing: Out -> Leaf)     // append
    | Once                                  // once
    | Group                                 // group(keyIdValueCall:)
  {
    predicate IsLeaf() {
      Plain? || Composable?
    }
  }

  /**
   * Things that happen to one call from outside the chain: somebody calls its
   * `finish`, or a block it put on the main queue runs.
   */
  datatype Event =
    | Finish(out: Out)         // `finish(out:)` called on the call
    | RunScheduledFinish       // ComposableCall's asynchronous `finish(out: self.out)`
    | RunCallbackClear         // the deferred `self.callback = nil` of `finish`
    | FireTimer                // TimeoutCall's `dispatch_after` block

  /**
   * The stored properties a call changes: the three of BaseCall (`callback`, `cancelled`,
   * `executing`), the counts of its pending main-queue blocks, the logs of the hooks it
   * called (`didFinish`, the intercept callback) and the state of each decorator.
   */
  datatype State = State(
    synchronous: bool,                    // ComposableCall
    callback: Option<Callback>,
    cancelled: bool,
    executing: bool,
    scheduledClears: nat,                 // deferred `self.callback = nil` blocks
    didFinishLog: seq<Out>,
    scheduledFinishes: nat,               // ComposableCall's asynchronous `finish(out: self.out)` blocks
    finished: bool,                       // TimeoutCall
    scheduledTimers: nat,                 // TimeoutCall's `dispatch_after` blocks
    called: bool,                         // OnceCall
    intercepted: seq<Out>,                // what MulticastCall handed its `multicastCallback`
    outs: Option<map<string, Out>>,       // GroupCall's `keyIdentifierValueOut`
    pending: Option<seq<string>>)         // GroupCall's `processingIdentifiers`

  /** The state of a call and of the calls it owns. */
  datatype CallView = CallView(
    kind: Kind,
    st: State,
    keyOrder: seq<string>,
    inner: Option<CallView>,
    continuation: Option<CallView>,
    children: map<string, CallView>)

  /**
   * The shapes the initialisers of Call.swift can build: a leaf owns nothing, every
   * decorator wraps one call, a group owns one call per key and no wrapped call, and only
   * a sequence holds a continuation, which is a leaf.
   */
  ghost predicate WellFormed(v: CallView)
    decreases v
  {
    (v.kind.IsLeaf() ==> v.inner.None? && v.children == map[]) &&
    (!v.kind.IsLeaf() && !v.kind.Group? ==> v.inner.Some? && v.children == map[]) &&
    (v.kind.Group? ==> v.inner.None? && Distinct(v.keyOrder) &&
                        (forall k :: k in v.children <==> k in v.keyOrder)) &&
    (!v.kind.Sequence? ==> v.continuation.None?) &&
    (v.inner.Some? ==> WellFormed(v.inner.value)) &&
    (v.continuation.Some? ==> v.continuation.value.kind.IsLeaf() && WellFormed(v.continuation.value)) &&
    (forall k :: k in v.children ==> WellFormed(v.children[k]))
  }

  /** The stored properties as the initialisers leave them. */
  const Initial := State(false, None, false, false, 0, [], 0, false, 0, false, [], None, None)

  /** A call as its initialiser leaves it. */
  function Fresh(kind: Kind, inner: Option<CallView>, children: map<string, CallView>, keyOrder: seq<string>): CallView
  {
    CallView(kind, Initial, keyOrder, inner, None, children)
  }

  /** The call a continuation's result describes, freshly built. */
  function LeafView(leaf: Leaf): (v: CallView)
    ensures v.kind.IsLeaf() && v.st.callback.None? && !v.st.executing && !v.st.cancelled
  {
    match leaf
    case PlainLeaf => Fresh(Plain, None, map[], [])
    case ComposableLeaf(o, s) => Fresh(Composable(o), None, map[], []).(st := Initial.(synchronous := s))
  }

  // ---------------------------------------------------------------------------
  // Small sequence helpers for the group's `processingIdentifiers` array
  // ---------------------------------------------------------------------------

  /** `find(s, x)`: the first index holding `x`. */
  function IndexOf(s: seq<string>, x: string): (r: Option<nat>)
    ensures r.Some? ==> r.value < |s| && s[r.value] == x && forall j :: 0 <= j < r.value ==> s[j] != x
    ensures r.None? ==> x !in s
  {
    if |s| == 0 then None
    else if s[0] == x then Some(0)
    else match IndexOf(s[1..], x)
      case None => None
      case Some(i) => Some(i + 1)
  }

  /** `removeAtIndex(i)` */
  function RemoveAt(s: seq<string>, i: nat): seq<string>
    requires i < |s|
  {
    s[..i] + s[i + 1..]
  }

  // ---------------------------------------------------------------------------
  // Where deliveries go
  // ---------------------------------------------------------------------------

  /**
   * An operation on `v` that leaves its stored callback and `cancelled` flag alone and
   * delivers, if at all, to that stored callback.
   */
  predicate KeepsCallback(v: CallView, r: (CallView, Outcome))
  {
    r.0.st.callback == v.st.callback && r.0.st.cancelled == v.st.cancelled &&
    (r.1.Delivered? ==> v.st.callback == Some(r.1.callback))
  }

  /** A delivery, if any, to a closure a parent installed. */
  predicate ToClosure(r: Outcome)
  {
    r.Delivered? ==> r.callback.Closure?
  }

  /** A `start(callback: cb)` that stored `cb`, cleared `cancelled`, and delivers, if at all, to `cb`. */
  predicate StartedWith(r: (CallView, Outcome), cb: Callback)
  {
    r.0.st.callback == Some(cb) && !r.0.st.cancelled && (r.1.Delivered? ==> r.1.callback == cb)
  }

  // ---------------------------------------------------------------------------
  // BaseCall (Call.swift:43-111) and ComposableCall (113-141)
  // ---------------------------------------------------------------------------

  /**
   * `finish(out:)`: unless cancelled, call `didFinish(out)`, hand `out` to the stored
   * callback if there is one (scheduling its release on the main queue), and stop executing.
   */
  function FinishV(v: CallView, o: Out): (r: (CallView, Outcome))
    ensures r.0 == v.(st := r.0.st)
    ensures KeepsCallback(v, r) && !r.1.Trapped? && (r.1.Delivered? ==> r.1.out == o)
  {
    var s := v.st;
    if s.cancelled then (v, Silent)
    else
      var s1 := s.(didFinishLog := s.didFinishLog + [o], executing := false,
                   scheduledClears := if s.callback.Some? then s.scheduledClears + 1 else s.scheduledClears);
      (v.(st := s1), if s.callback.Some? then Delivered(s.callback.value, o) else Silent)
  }

  /** The field updates of `BaseCall.start` that precede `didStart()`. */
  function BaseStartV(v: CallView, cb: Callback): CallView
  {
    v.(st := v.st.(callback := Some(cb), cancelled := false, executing := true))
  }

  /** `start` of a BaseCall or ComposableCall: the base updates, then ComposableCall's `didStart`. */
  function LeafStartV(v: CallView, cb: Callback): (r: (CallView, Outcome))
    ensures r.0.kind == v.kind && StartedWith(r, cb) && !r.1.Trapped?
    ensures r.1.Delivered? <==> v.kind.Composable? && v.st.synchronous
    ensures r.1.Delivered? ==> r.1.out == v.kind.out
  {
    var v0 := BaseStartV(v, cb);
    match v.kind
    case Composable(o) =>
      if v.st.synchronous then FinishV(v0, o)
      else (v0.(st := v0.st.(scheduledFinishes := v0.st.scheduledFinishes + 1)), Silent)
    case _ => (v0, Silent)
  }

  // ---------------------------------------------------------------------------
  // Queries and cancellation, with WrappedCall's forwarding (162-194) and
  // SequenceCall's cancel (362-365)
  // ---------------------------------------------------------------------------

  /** The call at the bottom of a chain of decorators: the first leaf, or the first call that wraps nothing. */
  function Bottom(v: CallView): CallView
    decreases v
  {
    if v.kind.IsLeaf() || v.inner.None? then v else Bottom(v.inner.value)
  }

  /** `isExecuting()`: a leaf's own flag; a decorator asks its wrapped call; a group has none. */
  function IsExecutingV(v: CallView): (b: bool)
    ensures b <==> Bottom(v).kind.IsLeaf() && Bottom(v).st.executing
  {
    if v.kind.IsLeaf() then v.st.executing
    else v.inner.Some? && IsExecutingV(v.inner.value)
  }

  /** `shouldRemoveDepositable()` */
  function ShouldRemoveV(v: CallView): (b: bool)
    ensures b <==> !IsExecutingV(v)
  {
    if v.kind.IsLeaf() then !v.st.executing
    else if v.inner.Some? then ShouldRemoveV(v.inner.value)
    else true
  }

  /** The bottom of a chain is a leaf that `cancel()` has reached: cancelled, idle, with no callback. */
  predicate CancelledAtBottom(v: CallView)
  {
    var b := Bottom(v);
    !b.kind.IsLeaf() || (b.st.cancelled && !b.st.executing && b.st.callback.None?)
  }

  /** `cancel()`: a leaf clears its callback and sets `cancelled`; a decorator only cancels what it owns. */
  function CancelV(v: CallView): (r: CallView)
    ensures r.kind == v.kind && r.st.didFinishLog == v.st.didFinishLog
    ensures CancelledAtBottom(r) && !IsExecutingV(r) && ShouldRemoveV(r)
  {
    if v.kind.IsLeaf() then v.(st := v.st.(executing := false, cancelled := true, callback := None))
    else
      var v1 := if v.inner.Some? then v.(inner := Some(CancelV(v.inner.value))) else v;
      if v.kind.Sequence? && v.continuation.Some? then v1.(continuation := Some(CancelV(v.continuation.value)))
      else v1
  }

  /** `depositableWillRemove()`: a leaf cancels itself; a decorator forwards the hook to its wrapped call. */
  function WillRemoveV(v: CallView): (r: CallView)
    ensures r.kind == v.kind && (!v.kind.IsLeaf() ==> r.st == v.st && r.continuation == v.continuation)
    ensures CancelledAtBottom(r) && !IsExecutingV(r) && ShouldRemoveV(r)
  {
    if v.kind.IsLeaf() then CancelV(v)
    else if v.inner.Some? then v.(inner := Some(WillRemoveV(v.inner.value)))
    else v
  }

  // ---------------------------------------------------------------------------
  // The completion closures each decorator installs in what it owns
  // ---------------------------------------------------------------------------

  /** GroupCall's per-child closure (Call.swift:411-421). */
  function GroupReactV(v: CallView, k: string, o: Out): (r: (CallView, Outcome))
    ensures r.0 == v.(st := r.0.st)
    ensures KeepsCallback(v, r)
  {
    var s := v.st;
    if s.cancelled then (v, Silent)
    else if s.outs.None? || s.pending.None? then (v, Trapped)
    else
      var outs := s.outs.value[k := o];
      match IndexOf(s.pending.value, k)
      case None => (v.(st := s.(outs := Some(outs))), Trapped)
      case Some(i) =>
        var pending := RemoveAt(s.pending.value, i);
        var v1 := v.(st := s.(outs := Some(outs), pending := Some(pending)));
        if |pending| == 0 then FinishV(v1, OfValue(Joined(outs))) else (v1, Silent)
  }

  /** SequenceCall's `originalCallDidFinish` (367-374): build the continuation and start it. */
  function ContinueV(v: CallView, o: Out): (r: (CallView, Outcome))
    requires v.kind.Sequence?
    ensures r.0 == v.(st := r.0.st, continuation := r.0.continuation)
    ensures KeepsCallback(v, r)
  {
    if v.st.cancelled then (v, Silent)
    else
      var (c, r) := LeafStartV(LeafView(v.kind.continuing(o)), Closure(Continuation));
      var v1 := v.(continuation := Some(c));
      if r.Delivered? then FinishV(v1, r.out) else (v1, r)
  }

  /** What the closure a call installed at `step` does when that call hands it `o`. */
  function ReactV(v: CallView, step: Step, o: Out): (r: (CallView, Outcome))
    ensures r.0 == v.(st := r.0.st, continuation := r.0.continuation)
    ensures KeepsCallback(v, r)
  {
    match v.kind
    case OutWrap(f) => FinishV(v, f(o))
    case Multicast => FinishV(v.(st := v.st.(intercepted := v.st.intercepted + [o])), o)
    case Timeout => FinishV(v.(st := v.st.(finished := true)), o)
    case Sequence(_) => if step.Continuation? then FinishV(v, o) else ContinueV(v, o)
    case Group => if step.Child? then GroupReactV(v, step.key, o) else (v, Silent)
    case _ => FinishV(v, o)
  }

  /** After an operation on an owned call: run the closure if that call's callback fired. */
  function AfterChildV(v: CallView, step: Step, r1: Outcome): (r: (CallView, Outcome))
    ensures r.0 == v.(st := r.0.st, continuation := r.0.continuation)
    ensures r.0.st.callback == v.st.callback && r.0.st.cancelled == v.st.cancelled
    ensures ToClosure(r1) ==> KeepsCallback(v, r)
  {
    match r1
    case Delivered(Closure(_), o) => ReactV(v, step, o)
    case _ => (v, r1)
  }

  // ---------------------------------------------------------------------------
  // start, with each class's didStart
  // ---------------------------------------------------------------------------

  /** The group's loop over its keys (403-423), given what starting each member did. */
  function GroupFoldV(g: CallView, keys: seq<string>, started: map<string, (CallView, Outcome)>, i: nat, acc: Outcome): (r: (CallView, Outcome))
    ensures r.0.kind == g.kind && r.0.st.callback == g.st.callback && r.0.st.cancelled == g.st.cancelled
    ensures AllToClosures(started) && KeepsCallback(g, (g, acc)) ==> KeepsCallback(g, r)
    decreases |keys| - i
  {
    if i >= |keys| then (g, acc)
    else
      var k := keys[i];
      if k !in started then (g, Trapped)  // `keyIdValueCall[identifier]!`
      else
        var (g2, r2) := AfterChildV(g.(children := g.children[k := started[k].0]), Child(k), started[k].1);
        if r2.Trapped? then (g2, Trapped)
        else GroupFoldV(g2, keys, started, i + 1, if r2.Delivered? then r2 else acc)
  }

  /** Every member's start delivers, if at all, to the closure the group installed. */
  predicate AllToClosures(started: map<string, (CallView, Outcome)>)
  {
    forall k :: k in started ==> ToClosure(started[k].1)
  }

  /** One round of the group's loop: the member under `keys[i]` started with `started[keys[i]]`, and its closure ran. */
  lemma GroupFoldStep(g: CallView, keys: seq<string>, started: map<string, (CallView, Outcome)>, i: nat, acc: Outcome,
                      c: CallView, r1: Outcome, g2: CallView, r2: Outcome)
    requires i < |keys| && keys[i] in started && started[keys[i]] == (c, r1)
    requires (g2, r2) == AfterChildV(g.(children := g.children[keys[i] := c]), Child(keys[i]), r1)
    ensures GroupFoldV(g, keys, started, i, acc) ==
      if r2.Trapped? then (g2, Trapped) else GroupFoldV(g2, keys, started, i + 1, if r2.Delivered? then r2 else acc)
  {
  }

  /** The members under `keys[i..]` are still to be started, and starting each does what `started` says. */
  ghost predicate PendingRounds(g: CallView, started: map<string, (CallView, Outcome)>, keys: seq<string>, i: nat)
  {
    forall j :: i <= j < |keys| ==>
      keys[j] in g.children && keys[j] in started && started[keys[j]] == StartV(g.children[keys[j]], Closure(Child(keys[j])))
  }

  /** Before the group's loop, every member is still to be started. */
  lemma StartedMembersPending(g: CallView)
    requires forall k :: k in g.keyOrder ==> k in g.children
    ensures PendingRounds(g, StartedMembers(g), g.keyOrder, 0)
  {
  }

  /** A round of the group's loop leaves the members after it still to be started. */
  lemma PendingRoundsStep(g: CallView, started: map<string, (CallView, Outcome)>, keys: seq<string>, i: nat,
                          c: CallView, r1: Outcome, g2: CallView, r2: Outcome)
    requires Distinct(keys) && i < |keys| && PendingRounds(g, started, keys, i)
    requires (g2, r2) == AfterChildV(g.(children := g.children[keys[i] := c]), Child(keys[i]), r1)
    ensures PendingRounds(g2, started, keys, i + 1)
  {
  }

  /** `start(callback:)` */
  function StartV(v: CallView, cb: Callback): (r: (CallView, Outcome))
    ensures r.0.kind == v.kind && (r.1.Delivered? ==> r.1.callback == cb)
    ensures !(v.kind.Once? && v.st.called) ==> StartedWith(r, cb)
    decreases v, 2
  {
    if v.kind.Once? && v.st.called then (v, Silent)
    else if v.kind.IsLeaf() then LeafStartV(v, cb)
    else if v.kind.Group? then GroupStartV(v, cb)
    else WrapperStartV(v, cb)
  }

  /** A decorator's `start`: BaseCall's updates, then its `didStart` starts the wrapped call. */
  function WrapperStartV(v: CallView, cb: Callback): (r: (CallView, Outcome))
    ensures r.0.kind == v.kind && StartedWith(r, cb)
    ensures v.inner.Some? ==> r.0.inner == Some(StartV(v.inner.value, Closure(Inner)).0)
    decreases v, 1
  {
    if v.inner.None? then (StartedWrapper(v, cb), Silent)
    else WrapperDidStartV(StartedWrapper(v, cb), StartV(v.inner.value, Closure(Inner)))
  }

  /** BaseCall's updates of `start`, with OnceCall's `called` and TimeoutCall's `finished` flags. */
  function StartedWrapper(v: CallView, cb: Callback): CallView
  {
    var v0 := BaseStartV(v, cb);
    var v1 := if v.kind.Once? then v0.(st := v0.st.(called := true)) else v0;
    if v.kind.Timeout? then v1.(st := v1.st.(finished := false)) else v1
  }

  /** TimeoutCall's `didStart` puts its timer block on the queue. */
  function ArmedTimer(v: CallView): CallView
  {
    v.(st := v.st.(scheduledTimers := v.st.scheduledTimers + 1))
  }

  /** GroupCall's updates of `start` before it starts its members: BaseCall's, an empty out dictionary, every key pending. */
  function StartedGroup(v: CallView, cb: Callback): CallView
  {
    var v0 := BaseStartV(v, cb);
    v0.(st := v0.st.(outs := Some(map[]), pending := Some(v.keyOrder)))
  }

  /** A decorator's `didStart` once its wrapped call's `start` returned `started`. */
  function WrapperDidStartV(v1: CallView, started: (CallView, Outcome)): (r: (CallView, Outcome))
    ensures r.0.kind == v1.kind && r.0.inner == Some(started.0)
    ensures ToClosure(started.1) ==> KeepsCallback(v1, r)
  {
    var (v2, r2) := AfterChildV(v1.(inner := Some(started.0)), Inner, started.1);
    if v1.kind.Timeout? && !r2.Trapped? then (ArmedTimer(v2), r2) else (v2, r2)
  }

  /** GroupCall's `start`: every key pending, every member started, their outs folded in key order. */
  function GroupStartV(v: CallView, cb: Callback): (r: (CallView, Outcome))
    ensures r.0.kind == v.kind && StartedWith(r, cb)
    decreases v, 1
  {
    GroupFoldV(StartedGroup(v, cb), v.keyOrder, StartedMembers(v), 0, Silent)
  }

  /** What starting each member of group `g` does, member by member. */
  function StartedMembers(g: CallView): (m: map<string, (CallView, Outcome)>)
    ensures m.Keys == g.children.Keys
    ensures forall k :: k in g.children ==> m[k] == StartV(g.children[k], Closure(Child(k)))
    decreases g, 0
  {
    map k | k in g.children :: StartV(g.children[k], Closure(Child(k)))
  }

  // ---------------------------------------------------------------------------
  // Events from outside
  // ---------------------------------------------------------------------------

  /** An event that happens to the call itself. */
  function HandleV(v: CallView, ev: Event): (r: (CallView, Outcome))
    ensures r.0.kind == v.kind
  {
    match ev
    case Finish(o) => FinishV(v, o)
    case RunScheduledFinish =>
      if v.kind.Composable? && v.st.scheduledFinishes > 0
      then FinishV(v.(st := v.st.(scheduledFinishes := v.st.scheduledFinishes - 1)), v.kind.out)
      else (v, Silent)
    case RunCallbackClear =>
      if v.st.scheduledClears > 0 then (v.(st := v.st.(callback := None, scheduledClears := v.st.scheduledClears - 1)), Silent)
      else (v, Silent)
    case FireTimer =>
      if v.kind.Timeout? && v.st.scheduledTimers > 0 then
        var v1 := v.(st := v.st.(scheduledTimers := v.st.scheduledTimers - 1));
        if v1.st.finished then (v1, Silent)
        else FinishV(v1.(inner := if v1.inner.Some? then Some(CancelV(v1.inner.value)) else None), TimeoutOut())
      else (v, Silent)
  }

  /** An event that happens to the call reached from `v` along `path`, and what the closures above it do. */
  function DispatchV(v: CallView, path: seq<Step>, ev: Event): (r: (CallView, Outcome))
    ensures r.0.kind == v.kind
    decreases |path|, 2
  {
    if path == [] then HandleV(v, ev) else DispatchStepV(v, path[0], path[1..], ev)
  }

  /** The same, one step down: into the call at `step`, then `rest` from there. */
  function DispatchStepV(v: CallView, step: Step, rest: seq<Step>, ev: Event): (r: (CallView, Outcome))
    ensures r.0.kind == v.kind
    decreases |rest| + 1, 1
  {
    match step
    case Inner => DispatchInnerV(v, rest, ev)
    case Continuation => DispatchContinuationV(v, rest, ev)
    case Child(k) => DispatchChildV(v, k, rest, ev)
  }

  /** Into the wrapped call: its closure reacts to what it delivers. */
  function DispatchInnerV(v: CallView, rest: seq<Step>, ev: Event): (r: (CallView, Outcome))
    ensures r.0.kind == v.kind
    decreases |rest| + 1, 0
  {
    if v.inner.None? then (v, Silent)
    else
      var (c, r) := DispatchV(v.inner.value, rest, ev);
      AfterChildV(v.(inner := Some(c)), Inner, r)
  }

  /** Into a sequence's continuation. */
  function DispatchContinuationV(v: CallView, rest: seq<Step>, ev: Event): (r: (CallView, Outcome))
    ensures r.0.kind == v.kind
    decreases |rest| + 1, 0
  {
    if v.continuation.None? then (v, Silent)
    else
      var (c, r) := DispatchV(v.continuation.value, rest, ev);
      AfterChildV(v.(continuation := Some(c)), Continuation, r)
  }

  /** Into the group member under `k`. */
  function DispatchChildV(v: CallView, k: string, rest: seq<Step>, ev: Event): (r: (CallView, Outcome))
    ensures r.0.kind == v.kind
    decreases |rest| + 1, 0
  {
    if k !in v.children then (v, Silent)
    else
      var (c, r) := DispatchV(v.children[k], rest, ev);
      AfterChildV(v.(children := v.children[k := c]), Child(k), r)
  }

  /** An event dispatched to a leaf, at whatever path, changes only its stored properties, so the leaf keeps its shape. */
  lemma LeafDispatchKeepsShape(v: CallView, path: seq<Step>, ev: Event)
    requires v.kind.IsLeaf() && WellFormed(v)
    ensures DispatchV(v, path, ev).0 == v.(st := DispatchV(v, path, ev).0.st)
    ensures WellFormed(DispatchV(v, path, ev).0)
  {
    if path != [] {
      assert v.inner.None? && v.continuation.None? && v.children == map[];
      match path[0]
      case Inner => assert DispatchInnerV(v, path[1..], ev) == (v, Silent);
      case Continuation => assert DispatchContinuationV(v, path[1..], ev) == (v, Silent);
      case Child(k) => assert DispatchChildV(v, k, path[1..], ev) == (v, Silent);
    }
  }

  /** The call `path` leads to, if any. */
  function NodeAt(v: CallView, path: seq<Step>): Option<CallView>
    decreases |path|
  {
    if path == [] then Some(v)
    else match path[0]
      case Inner => if v.inner.Some? then NodeAt(v.inner.value, path[1..]) else None
      case Continuation => if v.continuation.Some? then NodeAt(v.continuation.value, path[1..]) else None
      case Child(k) => if k in v.children then NodeAt(v.children[k], path[1..]) else None
  }
}
