/**
 * The call classes of Call.swift as one class whose `kind` says which of BaseCall,
 * ComposableCall, WrappedCall and its decorators, or GroupCall it is. The ghost field
 * `model` is the state of the call and of every call it owns as a `CallModel.CallView`;
 * every method is proved to do to it exactly what the matching function of `CallModel` does.
 */
module Calls {
  import opened Options
  import opened Outs
  import opened Keys
  import opened CallModel
  import CallLemmas

  class Call {
    const kind: Kind
    /** The stored properties the call changes: BaseCall's, ComposableCall's, and each decorator's. */
    var st: State
    // GroupCall's `keyIdValueCall`, and the order in which its keys are enumerated
    const keyOrder: seq<string>
    const children: map<string, Call>
    // WrappedCall's `call`
    const inner: Call?
    /** SequenceCall's `continuingCall`: the leaf call its continuation built, as a value. */
    var continuation: Option<CallView>

    /** The state of this call and of every call it owns. */
    ghost var model: CallView
    ghost var Repr: set<object>

    ghost predicate Valid()
      reads this, Repr
      decreases Repr
    {
      this in Repr &&
      (kind.IsLeaf() ==> inner == null && children == map[] && Repr == {this}) &&
      (!kind.IsLeaf() && !kind.Group? ==> inner != null && children == map[]) &&
      (kind.Group? ==> inner == null && Distinct(keyOrder) &&
                       (forall k :: k in children <==> k in keyOrder)) &&
      (continuation.Some? ==> kind.Sequence? && continuation.value.kind.IsLeaf() && WellFormed(continuation.value)) &&
      (inner != null ==>
         inner in Repr && inner.Repr <= Repr && this !in inner.Repr && inner.Valid()) &&
      (forall k :: k in children ==>
         children[k] in Repr && children[k].Repr <= Repr && this !in children[k].Repr && children[k].Valid()) &&
      (forall k1, k2 :: k1 in children && k2 in children && k1 != k2 ==> children[k1].Repr !! children[k2].Repr) &&
      // the model holds the fields and the models of the calls this call owns
      model.kind == kind && model.st == st && model.keyOrder == keyOrder && model.continuation == continuation &&
      model.inner == (if inner == null then None else Some(inner.model)) &&
      model.children.Keys == children.Keys &&
      (forall k :: k in children ==> model.children[k] == children[k].model)
    }

    // -------------------------------------------------------------------------
    // Why the invariant survives each kind of change
    // -------------------------------------------------------------------------

    /** Only this call's own fields changed, and the model took them over. */
    twostate lemma OwnChanged()
      requires old(Valid()) && Repr == old(Repr) && unchanged(old(Repr) - {this})
      requires continuation.Some? ==> kind.Sequence? && continuation.value.kind.IsLeaf() && WellFormed(continuation.value)
      requires model == old(model).(st := st, continuation := continuation)
      ensures Valid()
    {
    }

    /** The wrapped call changed within its footprint, and the model holds its new model. */
    twostate lemma InnerChanged()
      requires old(Valid()) && inner != null && inner.Valid() && inner.Repr == old(inner.Repr)
      requires Repr == old(Repr) && st == old(st) && continuation == old(continuation)
      requires unchanged(old(Repr) - {this} - inner.Repr)
      requires model == old(model).(inner := Some(inner.model))
      ensures Valid()
    {
    }

    /** The member under `k` changed within its footprint, and the model holds its new model. */
    twostate lemma ChildChanged(k: string)
      requires old(Valid()) && k in children && children[k].Valid() && children[k].Repr == old(children[k].Repr)
      requires Repr == old(Repr) && st == old(st) && continuation == old(continuation)
      requires unchanged(old(Repr) - {this} - children[k].Repr)
      requires model == old(model).(children := old(model).children[k := children[k].model])
      ensures Valid()
    {
      MembersKept(k);
    }

    /** When the member under `k` changes within its footprint, every member keeps its footprint and stays valid. */
    twostate lemma MembersKept(k: string)
      requires old(Valid()) && k in children && children[k].Valid() && children[k].Repr == old(children[k].Repr)
      requires unchanged(old(Repr) - {this} - children[k].Repr)
      ensures forall k2 :: k2 in children ==> children[k2].Repr == old(children[k2].Repr) && children[k2].Valid()
      ensures forall k2 :: k2 in children && k2 != k ==> children[k2].model == old(children[k2].model)
    {
      OtherMembersKept(k);
    }

    /** When the member under `k` changes within its footprint, the other members stay as they were. */
    twostate lemma OtherMembersKept(k: string)
      requires old(Valid()) && k in children && children[k].Repr == old(children[k].Repr)
      requires unchanged(old(Repr) - {this} - children[k].Repr)
      ensures forall k2 :: k2 in children && k2 != k ==>
        children[k2].Repr == old(children[k2].Repr) && children[k2].Valid() && children[k2].model == old(children[k2].model)
    {
      forall k2 | k2 in children && k2 != k
        ensures children[k2].Repr == old(children[k2].Repr) && children[k2].Valid()
        ensures children[k2].model == old(children[k2].model)
      {
      }
    }

    /** The model of a valid call has a shape the initialisers build, so the lemmas about `WellFormed` views apply to it. */
    lemma ValidIsWellFormed()
      requires Valid()
      ensures WellFormed(model)
      decreases Repr
    {
      if inner != null {
        inner.ValidIsWellFormed();
      }
      forall k | k in children
        ensures WellFormed(model.children[k])
      {
        children[k].ValidIsWellFormed();
      }
    }

    // -------------------------------------------------------------------------
    // Initialisers
    // -------------------------------------------------------------------------

    /** `BaseCall()`: a call whose work finishes it from outside. */
    constructor Plain()
      ensures Valid() && Repr == {this} && model == Fresh(Kind.Plain, None, map[], [])
    {
      kind, st, inner, children, keyOrder, continuation := Kind.Plain, Initial, null, map[], [], None;
      model := Fresh(Kind.Plain, None, map[], []);
      Repr := {this};
    }

    /** `ComposableCall(out:synchronous:)` */
    constructor Composable(out: Out, synchronous: bool)
      ensures Valid() && Repr == {this}
      ensures model == Fresh(Kind.Composable(out), None, map[], []).(st := Initial.(synchronous := synchronous))
    {
      kind, st := Kind.Composable(out), Initial.(synchronous := synchronous);
      inner, children, keyOrder, continuation := null, map[], [], None;
      model := Fresh(Kind.Composable(out), None, map[], []).(st := Initial.(synchronous := synchronous));
      Repr := {this};
    }

    /**
     * `WrappedCall(call)` and the initialisers of its subclasses: `kind` wraps `call`,
     * which from now on belongs to the new call.
     */
    constructor Decorate(kind: Kind, call: Call)
      requires !kind.IsLeaf() && !kind.Group? && call.Valid()
      ensures Valid() && Repr == {this} + call.Repr && inner == call
      ensures model == Fresh(kind, Some(call.model), map[], [])
    {
      this.kind, st, inner, children, keyOrder, continuation := kind, Initial, call, map[], [], None;
      model := Fresh(kind, Some(call.model), map[], []);
      Repr := {this} + call.Repr;
    }

    /**
     * `group(keyIdValueCall:)`: a GroupCall over `calls`, which has no wrapped call.
     * `order` is the order in which the dictionary's keys are enumerated; `members` is
     * everything the calls own.
     */
    constructor Group(calls: map<string, Call>, order: seq<string>, ghost members: set<object>)
      requires Distinct(order) && forall k :: k in calls <==> k in order
      requires forall k :: k in calls ==> calls[k].Valid() && calls[k].Repr <= members
      requires forall k1, k2 :: k1 in calls && k2 in calls && k1 != k2 ==> calls[k1].Repr !! calls[k2].Repr
      ensures Valid() && children == calls && Repr == {this} + members
      ensures model == Fresh(Kind.Group, None, model.children, order)
      ensures model.children.Keys == calls.Keys && forall k :: k in calls ==> model.children[k] == calls[k].model
    {
      kind, st, inner, children, keyOrder, continuation := Kind.Group, Initial, null, calls, order, None;
      model := Fresh(Kind.Group, None, map k | k in calls :: calls[k].model, order);
      Repr := {this} + members;
    }

    // -------------------------------------------------------------------------
    // Queries
    // -------------------------------------------------------------------------

    /** `isExecuting()` */
    function IsExecuting(): (b: bool)
      reads this, Repr
      requires Valid()
      ensures b == IsExecutingV(model)
      decreases Repr
    {
      if kind.IsLeaf() then st.executing else inner != null && inner.IsExecuting()
    }

    /** `shouldRemoveDepositable()` */
    function ShouldRemoveDepositable(): (b: bool)
      reads this, Repr
      requires Valid()
      ensures b == ShouldRemoveV(model)
      decreases Repr
    {
      if kind.IsLeaf() then !st.executing
      else if inner != null then inner.ShouldRemoveDepositable()
      else true
    }

    /** `depositableDidAdd()`: empty in BaseCall, forwarded by WrappedCall. */
    method DepositableDidAdd()
      requires Valid()
      ensures model == old(model)
      decreases Repr
    {
      if !kind.IsLeaf() && inner != null {
        inner.DepositableDidAdd();
      }
    }

    // -------------------------------------------------------------------------
    // BaseCall and ComposableCall
    // -------------------------------------------------------------------------

    /** `finish(out:)` */
    method Finish(o: Out) returns (r: Outcome)
      requires Valid()
      modifies this
      ensures Valid() && Repr == old(Repr)
      ensures (model, r) == FinishV(old(model), o)
    {
      r := Silent;
      if !st.cancelled {
        var clears := st.scheduledClears;
        if st.callback.Some? {
          r := Delivered(st.callback.value, o);
          clears := clears + 1;
        }
        st := st.(didFinishLog := st.didFinishLog + [o], scheduledClears := clears, executing := false);
        model := model.(st := st);
        OwnChanged();
      }
    }

    /** `setSynchronous(_:)` */
    method SetSynchronous(synchronous: bool) returns (self: Call)
      requires Valid() && kind.Composable?
      modifies this
      ensures self == this && Valid() && Repr == old(Repr)
      ensures model == old(model).(st := old(model).st.(synchronous := synchronous))
    {
      st := st.(synchronous := synchronous);
      model := model.(st := st);
      OwnChanged();
      self := this;
    }

    /** `start` of a BaseCall or ComposableCall, with ComposableCall's `didStart`. */
    method LeafStart(cb: Callback) returns (r: Outcome)
      requires Valid() && kind.IsLeaf()
      modifies this
      ensures Valid() && Repr == old(Repr)
      ensures (model, r) == LeafStartV(old(model), cb)
    {
      st := st.(callback := Some(cb), cancelled := false, executing := true);
      model := model.(st := st);
      OwnChanged();
      r := Silent;
      if kind.Composable? {
        if st.synchronous {
          r := Finish(kind.out);
        } else {
          label Scheduling:
          st := st.(scheduledFinishes := st.scheduledFinishes + 1);
          model := model.(st := st);
          OwnChanged@Scheduling();
        }
      }
    }

    // -------------------------------------------------------------------------
    // Cancellation and the Depositable removal hook
    // -------------------------------------------------------------------------

    /** `cancel()`: BaseCall's, WrappedCall's forwarding one, or SequenceCall's. */
    method Cancel()
      requires Valid()
      modifies Repr
      ensures Valid() && Repr == old(Repr)
      ensures model == CancelV(old(model))
      decreases Repr, 1
    {
      if kind.IsLeaf() {
        st := st.(executing := false, cancelled := true, callback := None);
        model := model.(st := st);
        OwnChanged();
      } else {
        if inner != null {
          CancelInner();
        }
        if kind.Sequence? && continuation.Some? {
          label Continuing:
          continuation := Some(CancelV(continuation.value));
          model := model.(continuation := continuation);
          OwnChanged@Continuing();
        }
      }
    }

    /** The wrapped call's `cancel()`. */
    method CancelInner()
      requires Valid() && inner != null
      modifies Repr
      ensures Valid() && Repr == old(Repr)
      ensures model == old(model).(inner := Some(CancelV(old(inner.model))))
      decreases Repr, 0
    {
      model := model.(inner := Some(CancelV(inner.model)));
      inner.Cancel();
      InnerChanged();
    }

    /** `depositableWillRemove()` */
    method DepositableWillRemove()
      requires Valid()
      modifies Repr
      ensures Valid() && Repr == old(Repr)
      ensures model == WillRemoveV(old(model))
      decreases Repr
    {
      if kind.IsLeaf() {
        Cancel();
      } else if inner != null {
        model := model.(inner := Some(WillRemoveV(inner.model)));
        inner.DepositableWillRemove();
        InnerChanged();
      }
    }

    // -------------------------------------------------------------------------
    // The completion closures the decorators install
    // -------------------------------------------------------------------------

    /** GroupCall's per-member closure: record `o` under `k`, and finish once nothing is pending. */
    method GroupReact(k: string, o: Out) returns (r: Outcome)
      requires Valid() && kind.Group?
      modifies this
      ensures Valid() && Repr == old(Repr)
      ensures (model, r) == GroupReactV(old(model), k, o)
    {
      if st.cancelled {
        return Silent;
      }
      if st.outs.None? || st.pending.None? {
        return Trapped;
      }
      st := st.(outs := Some(st.outs.value[k := o]));
      var index := IndexOf(st.pending.value, k);
      if index.None? {
        model := model.(st := st);
        OwnChanged();
        return Trapped;
      }
      st := st.(pending := Some(RemoveAt(st.pending.value, index.value)));
      model := model.(st := st);
      OwnChanged();
      r := Silent;
      if |st.pending.value| == 0 {
        r := Finish(OfValue(Joined(st.outs.value)));
      }
    }

    /** SequenceCall's `originalCallDidFinish`: build the continuation from `o` and start it with a closure that finishes this call. */
    method Continue(o: Out) returns (r: Outcome)
      requires Valid() && kind.Sequence?
      modifies this
      ensures Valid() && Repr == old(Repr)
      ensures (model, r) == ContinueV(old(model), o)
    {
      if st.cancelled {
        return Silent;
      }
      var started := LeafStartV(LeafView(kind.continuing(o)), Closure(Continuation));
      continuation := Some(started.0);
      model := model.(continuation := continuation);
      OwnChanged();
      r := started.1;
      if r.Delivered? {
        r := Finish(r.out);
      }
    }

    /** What the closure this call installed at `step` does with `o`. */
    method React(step: Step, o: Out) returns (r: Outcome)
      requires Valid()
      modifies this
      ensures Valid() && Repr == old(Repr)
      ensures (model, r) == ReactV(old(model), step, o)
    {
      match kind
      case OutWrap(f) =>
        r := Finish(f(o));
      case Multicast =>
        st := st.(intercepted := st.intercepted + [o]);
        model := model.(st := st);
        OwnChanged();
        r := Finish(o);
      case Timeout =>
        st := st.(finished := true);
        model := model.(st := st);
        OwnChanged();
        r := Finish(o);
      case Sequence(_) =>
        if step.Continuation? {
          r := Finish(o);
        } else {
          r := Continue(o);
        }
      case Group =>
        r := Silent;
        if step.Child? {
          r := GroupReact(step.key, o);
        }
      case _ =>
        r := Finish(o);
    }

    /** Run the closure if the call at `step` handed its callback an out. */
    method AfterChild(step: Step, r1: Outcome) returns (r: Outcome)
      requires Valid()
      modifies this
      ensures Valid() && Repr == old(Repr)
      ensures (model, r) == AfterChildV(old(model), step, r1)
    {
      r := r1;
      if r1.Delivered? && r1.callback.Closure? {
        r := React(step, r1.out);
      }
    }

    // -------------------------------------------------------------------------
    // start
    // -------------------------------------------------------------------------

    /** `start(callback:)`, with OnceCall's override and each class's `didStart`. */
    method Start(cb: Callback) returns (r: Outcome)
      requires Valid()
      modifies Repr
      ensures Valid() && Repr == old(Repr)
      ensures (model, r) == StartV(old(model), cb)
      ensures !r.Trapped?
      decreases Repr, 4
    {
      ValidIsWellFormed();
      CallLemmas.StartNeverTraps(model, cb);
      if kind.Once? && st.called {
        return Silent;
      }
      if kind.IsLeaf() {
        r := LeafStart(cb);
      } else if kind.Group? {
        r := StartGroup(cb);
      } else {
        r := StartWrapper(cb);
      }
    }

    /** A decorator's `start`: BaseCall's updates, then its `didStart`. */
    method StartWrapper(cb: Callback) returns (r: Outcome)
      requires Valid() && !kind.IsLeaf() && !kind.Group?
      modifies Repr
      ensures Valid() && Repr == old(Repr)
      ensures (model, r) == WrapperStartV(old(model), cb)
      decreases Repr, 3
    {
      st := st.(callback := Some(cb), cancelled := false, executing := true);
      if kind.Once? {
        st := st.(called := true);
      }
      if kind.Timeout? {
        st := st.(finished := false);
      }
      model := model.(st := st);
      OwnChanged();
      r := DidStartWrapper();
    }

    /** A decorator's `didStart`: start the wrapped call, run the closure, and arm TimeoutCall's timer. */
    method DidStartWrapper() returns (r: Outcome)
      requires Valid() && !kind.IsLeaf() && !kind.Group?
      modifies Repr
      ensures Valid() && Repr == old(Repr)
      ensures (model, r) == WrapperDidStartV(old(model), StartV(old(inner.model), Closure(Inner)))
      decreases Repr, 1
    {
      var r1 := StartInner();
      r := AfterChild(Inner, r1);
      if kind.Timeout? && !r.Trapped? {
        label Arming:
        st := st.(scheduledTimers := st.scheduledTimers + 1);
        model := model.(st := st);
        OwnChanged@Arming();
      }
    }

    /** The wrapped call's `start`, with the closure of this call. */
    method StartInner() returns (r: Outcome)
      requires Valid() && inner != null
      modifies Repr
      ensures Valid() && Repr == old(Repr)
      ensures (inner.model, r) == StartV(old(inner.model), Closure(Inner))
      ensures model == old(model).(inner := Some(inner.model))
      decreases Repr, 0
    {
      model := model.(inner := Some(StartV(inner.model, Closure(Inner)).0));
      r := inner.Start(Closure(Inner));
      InnerChanged();
    }

    /** GroupCall's `start`: every key pending, then each member started in key order. */
    method StartGroup(cb: Callback) returns (r: Outcome)
      requires Valid() && kind.Group?
      modifies Repr
      ensures Valid() && Repr == old(Repr)
      ensures (model, r) == GroupStartV(old(model), cb)
      decreases Repr, 3
    {
      st := st.(callback := Some(cb), cancelled := false, executing := true);
      st := st.(outs := Some(map[]), pending := Some(keyOrder));
      model := model.(st := st);
      OwnChanged();
      assert StartedMembers(model) == StartedMembers(old(model));
      StartedMembersPending(model);
      r := StartMembers(StartedMembers(old(model)));
    }

    /**
     * The loop of GroupCall's `didStart`: start each member in key order, running the group's
     * closure after each. `started` is what starting each member does.
     */
    method StartMembers(ghost started: map<string, (CallView, Outcome)>) returns (r: Outcome)
      requires Valid() && kind.Group? && PendingRounds(model, started, keyOrder, 0)
      modifies Repr
      ensures Valid() && Repr == old(Repr)
      ensures (model, r) == GroupFoldV(old(model), keyOrder, started, 0, Silent)
      decreases Repr, 2
    {
      r := Silent;
      var i := 0;
      while i < |keyOrder|
        invariant i <= |keyOrder|
        invariant Valid() && Repr == old(Repr)
        invariant GroupFoldV(model, keyOrder, started, i, r) == GroupFoldV(old(model), keyOrder, started, 0, Silent)
        invariant PendingRounds(model, started, keyOrder, i) && !r.Trapped?
        decreases |keyOrder| - i
      {
        r := Round(i, started, r);
        if r.Trapped? {
          return;
        }
        i := i + 1;
      }
    }

    /**
     * One round of the group's loop: start the member under `keyOrder[i]`, then run the
     * group's closure on what it delivered. `acc` is what the loop has delivered so far,
     * and `r` what it has delivered after this round, or `Trapped`.
     */
    method Round(i: nat, ghost started: map<string, (CallView, Outcome)>, acc: Outcome) returns (r: Outcome)
      requires Valid() && kind.Group? && i < |keyOrder|
      requires PendingRounds(model, started, keyOrder, i) && !acc.Trapped?
      modifies Repr
      ensures Valid() && Repr == old(Repr)
      ensures GroupFoldV(old(model), keyOrder, started, i, acc) ==
        if r.Trapped? then (model, Trapped) else GroupFoldV(model, keyOrder, started, i + 1, r)
      ensures PendingRounds(model, started, keyOrder, i + 1)
      decreases Repr, 1
    {
      var k := keyOrder[i];
      ghost var g := model;
      var r1 := StartMember(k);
      var r2 := AfterChild(Child(k), r1);
      GroupFoldStep(g, keyOrder, started, i, acc, started[k].0, started[k].1, model, r2);
      PendingRoundsStep(g, started, keyOrder, i, started[k].0, started[k].1, model, r2);
      r := if r2.Trapped? || r2.Delivered? then r2 else acc;
    }

    /** The `start` of the member under `k`, with the group's closure for `k`. */
    method StartMember(k: string) returns (r: Outcome)
      requires Valid() && k in children
      modifies Repr
      ensures Valid() && Repr == old(Repr)
      ensures (children[k].model, r) == StartV(old(children[k].model), Closure(Child(k)))
      ensures model == old(model).(children := old(model).children[k := children[k].model])
      decreases Repr, 0
    {
      model := model.(children := model.children[k := StartV(children[k].model, Closure(Child(k))).0]);
      r := children[k].Start(Closure(Child(k)));
      ChildChanged(k);
    }

    // -------------------------------------------------------------------------
    // Events
    // -------------------------------------------------------------------------

    /** An event that happens to this call: `finish`, or one of the blocks it scheduled. */
    method Handle(ev: Event) returns (r: Outcome)
      requires Valid()
      modifies Repr
      ensures Valid() && Repr == old(Repr)
      ensures (model, r) == HandleV(old(model), ev)
    {
      r := Silent;
      match ev
      case Finish(o) =>
        r := Finish(o);
      case RunScheduledFinish =>
        if kind.Composable? && st.scheduledFinishes > 0 {
          st := st.(scheduledFinishes := st.scheduledFinishes - 1);
          model := model.(st := st);
          OwnChanged();
          r := Finish(kind.out);
        }
      case RunCallbackClear =>
        if st.scheduledClears > 0 {
          st := st.(callback := None, scheduledClears := st.scheduledClears - 1);
          model := model.(st := st);
          OwnChanged();
        }
      case FireTimer =>
        if kind.Timeout? && st.scheduledTimers > 0 {
          r := FireTimer();
        }
    }

    /** TimeoutCall's `dispatch_after` block: unless the wrapped call finished first, cancel it and time out. */
    method FireTimer() returns (r: Outcome)
      requires Valid() && kind.Timeout? && st.scheduledTimers > 0
      modifies Repr
      ensures Valid() && Repr == old(Repr)
      ensures (model, r) == HandleV(old(model), Event.FireTimer)
    {
      st := st.(scheduledTimers := st.scheduledTimers - 1);
      model := model.(st := st);
      OwnChanged();
      if st.finished {
        return Silent;
      }
      CancelInner();
      r := Finish(TimeoutOut());
    }

    /** An event that happens to the call `path` leads to, and what the closures above it do. */
    method Dispatch(path: seq<Step>, ev: Event) returns (r: Outcome)
      requires Valid()
      modifies Repr
      ensures Valid() && Repr == old(Repr)
      ensures (model, r) == DispatchV(old(model), path, ev)
      decreases |path|, 2
    {
      if path == [] {
        r := Handle(ev);
        return;
      }
      match path[0]
      case Inner =>
        r := DispatchInner(path[1..], ev);
      case Continuation =>
        r := DispatchContinuation(path[1..], ev);
      case Child(k) =>
        r := DispatchChild(k, path[1..], ev);
    }

    /** The event is for the wrapped call or below it. */
    method DispatchInner(rest: seq<Step>, ev: Event) returns (r: Outcome)
      requires Valid()
      modifies Repr
      ensures Valid() && Repr == old(Repr)
      ensures (model, r) == DispatchInnerV(old(model), rest, ev)
      decreases |rest| + 1, 1
    {
      if inner == null {
        return Silent;
      }
      var r1 := InnerDispatch(rest, ev);
      r := AfterChild(Inner, r1);
    }

    /** The wrapped call handles the event; the model holds its new model. */
    method InnerDispatch(rest: seq<Step>, ev: Event) returns (r: Outcome)
      requires Valid() && inner != null
      modifies Repr
      ensures Valid() && Repr == old(Repr)
      ensures (inner.model, r) == DispatchV(old(inner.model), rest, ev)
      ensures model == old(model).(inner := Some(inner.model))
      decreases |rest| + 1, 0
    {
      model := model.(inner := Some(DispatchV(inner.model, rest, ev).0));
      r := inner.Dispatch(rest, ev);
      InnerChanged();
    }

    /** The event is for a sequence's continuation. */
    method DispatchContinuation(rest: seq<Step>, ev: Event) returns (r: Outcome)
      requires Valid()
      modifies this
      ensures Valid() && Repr == old(Repr)
      ensures (model, r) == DispatchContinuationV(old(model), rest, ev)
    {
      if continuation.None? {
        return Silent;
      }
      var (c, r1) := DispatchV(continuation.value, rest, ev);
      LeafDispatchKeepsShape(continuation.value, rest, ev);
      continuation := Some(c);
      model := model.(continuation := continuation);
      OwnChanged();
      r := AfterChild(Continuation, r1);
    }

    /** The event is for the group member under `k` or below it. */
    method DispatchChild(k: string, rest: seq<Step>, ev: Event) returns (r: Outcome)
      requires Valid()
      modifies Repr
      ensures Valid() && Repr == old(Repr)
      ensures (model, r) == DispatchChildV(old(model), k, rest, ev)
      decreases |rest| + 1, 1
    {
      if k !in children {
        return Silent;
      }
      var r1 := ChildDispatch(k, rest, ev);
      r := AfterChild(Child(k), r1);
    }

    /** The member under `k` handles the event; the model holds its new model. */
    method ChildDispatch(k: string, rest: seq<Step>, ev: Event) returns (r: Outcome)
      requires Valid() && k in children
      modifies Repr
      ensures Valid() && Repr == old(Repr)
      ensures (children[k].model, r) == DispatchV(old(children[k].model), rest, ev)
      ensures model == old(model).(children := old(model).children[k := children[k].model])
      decreases |rest| + 1, 0
    {
      model := model.(children := model.children[k := DispatchV(children[k].model, rest, ev).0]);
      r := children[k].Dispatch(rest, ev);
      ChildChanged(k);
    }

    // -------------------------------------------------------------------------
    // WrappedCall's factory methods
    // -------------------------------------------------------------------------

    /** `wrapOut(_:)`: an OutWrapCall around this call. */
    method WrapOut(outWrapper: Out -> Out) returns (c: Call)
      requires Valid() && !kind.IsLeaf()
      ensures fresh(c) && c.Valid() && c.Repr == {c} + Repr
      ensures c.model == Fresh(OutWrap(outWrapper), Some(model), map[], [])
    {
      c := new Call.Decorate(OutWrap(outWrapper), this);
    }

    /** `intercept(callback:)`: a MulticastCall around this call. */
    method Intercept() returns (c: Call)
      requires Valid() && !kind.IsLeaf()
      ensures fresh(c) && c.Valid() && c.Repr == {c} + Repr
      ensures c.model == Fresh(Multicast, Some(model), map[], [])
    {
      c := new Call.Decorate(Multicast, this);
    }

    /** `once()`: a OnceCall around this call. */
    method MakeOnce() returns (c: Call)
      requires Valid() && !kind.IsLeaf()
      ensures fresh(c) && c.Valid() && c.Repr == {c} + Repr
      ensures c.model == Fresh(Once, Some(model), map[], [])
    {
      c := new Call.Decorate(Once, this);
    }

    /** `timeout(_:)`: a TimeoutCall around this call. */
    method MakeTimeout() returns (c: Call)
      requires Valid() && !kind.IsLeaf()
      ensures fresh(c) && c.Valid() && c.Repr == {c} + Repr
      ensures c.model == Fresh(Timeout, Some(model), map[], [])
    {
      c := new Call.Decorate(Timeout, this);
    }

    /** `append(_:)`: a SequenceCall that runs this call, then the one `continuing` builds from its out. */
    method Append(continuing: Out -> Leaf) returns (c: Call)
      requires Valid() && !kind.IsLeaf()
      ensures fresh(c) && c.Valid() && c.Repr == {c} + Repr
      ensures c.model == Fresh(Sequence(continuing), Some(model), map[], [])
    {
      c := new Call.Decorate(Sequence(continuing), this);
    }
  }
}
