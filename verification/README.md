# SWF calls and owner-bound registries, modelled in Dafny

This project models the core of the SWF Swift framework in Dafny:

- **Calls** (`SWF/SWF/Call.swift`). A call is an asynchronous operation with `start`, `cancel`,
  `finish` and `isExecuting`. The model covers `BaseCall` and `ComposableCall`. It covers
  `WrappedCall` with its forwarding and factory methods, and the decorators built on it: out
  wrapping, interception, timeout, sequence (`append`), once, and group (`group(keyIdValueCall:)`).
- **Depositable registry** (`SWF/SWF/AnyObject+Depositable.swift`). Each owner object has a
  dictionary from id to depositable, created lazily. Entries can be deposited, looked up and
  removed. A memory warning evicts the entries that ask to be removed. When the owner dies,
  every entry is told it is going.
- **Died and deinit observer registries** (`SWF/SWF/AnyObject+DiedObserver.swift`,
  `SWF/SWF/AnyObject+DeinitObserver.swift`). Each is a dictionary from id to observer block.
  Every block still registered runs once when the owner goes away.
- **`Delay` and `after`** (`SWF/SWF/ObjcExt.swift`). A depositable that runs a block once,
  some time after it is started, unless it was removed first.

## Layout

| file | module | what it holds |
|---|---|---|
| `options.dfy` | `Options` | `Option` |
| `outs.dfy` | `Outs` | `Out`, its error record, the two well-known error kinds |
| `keys.dfy` | `Keys` | `Distinct`, and the enumeration of a dictionary's keys |
| `call_model.dfy` | `CallModel` | the state of a call and of everything it owns, as a value (`CallView`), and what each operation does to it |
| `calls.dfy` | `Calls` | the class `Call`: fields updated in place, each method proved to do what the matching `CallModel` function does |
| `call_lemmas.dfy` | `CallLemmas` | what Call.swift promises, proved about the `CallModel` functions |
| `depositables.dfy` | `Depositables` | the depositable dictionary (`Store`) and its hooks |
| `observers.dfy` | `Observers` | the observing context both observer files declare |
| `owners.dfy` | `Owners` | an owner with its three associated objects, and the owner going away |
| `delays.dfy` | `Delays` | `Delay` and `after` |

How the calls are modelled:

- **One class for all call kinds.** `Calls.Call` has a `kind` tag saying which class of
  Call.swift it is. The stored properties it changes are grouped in one record field `st`:
  - BaseCall's `callback`, `cancelled` and `executing`;
  - ComposableCall's `synchronous`;
  - TimeoutCall's `finished` and OnceCall's `called`;
  - GroupCall's `keyIdValueOut` and `processingIdentifiers`.

  A wrapped call is the field `inner`, and group members are `children`. A ghost `model`
  mirrors the whole tree as a `CallModel.CallView`.
- **Callbacks are tokens.** A callback is a `Client(id)` passed by the user, or a
  `Closure(step)` that a parent installed in the call it owns. `finish` returns an `Outcome`
  instead of invoking a closure: `Silent`, `Delivered(callback, out)`, or `Trapped` for a
  force-unwrap of nil. The parent then runs its closure body (`CallModel.ReactV`).
- **Main-queue blocks are counters** on the call that scheduled them:
  - the deferred `self.callback = nil` of `finish`;
  - ComposableCall's asynchronous finish;
  - TimeoutCall's `dispatch_after` block.

  They run when the caller dispatches the matching `Event` to the call at a path of
  `Inner | Continuation | Child(key)` steps.

The owner going away is the explicit method `Owners.Owner.Die`. Clock-made ids are
parameters. The answers of `shouldRemoveDepositable()` are a function parameter.

## Behaviour of the code worth knowing

The model keeps each of these as Call.swift does it:

- **Cancelling a group cancels none of its members.** `GroupCall` does not override `cancel`
  and holds no wrapped call (`SWF/SWF/Call.swift:398-401`), so its `cancel` and
  `depositableWillRemove` do nothing (`CallLemmas.GroupHasNoInner`).
- **A cancelled decorator can still deliver.** A decorator's `cancel` only cancels its wrapped
  call and never sets its own `cancelled` flag (`SWF/SWF/Call.swift:170-174`). A TimeoutCall
  whose timer fires after `cancel()` therefore still finishes with the timeout error
  (`CallLemmas.TimeoutFiresAfterCancel`).
- **A second `finish` delivers again.** `finish` drops the callback only later, in a block on
  the main queue (`SWF/SWF/Call.swift:93-95`). Until that block runs, a second `finish`
  reaches the same callback (`CallLemmas.FinishTwiceDeliversTwice`). When it runs after a
  restart, it drops the new callback (`CallLemmas.StaleClearDropsNewCallback`).
- **The "Nil call" error is never produced.** `CallNilCallErrorDomain` and its code are
  declared (`SWF/SWF/Call.swift:13-14`) but never used. TimeoutCall, SyncedCall and SequenceCall
  force-unwrap their wrapped call (`SWF/SWF/Call.swift:303`, `:335`, `:357`). WrappedCall,
  OutWrapCall, MulticastCall and OnceCall skip it with `if let`, and then do nothing. The
  constants are defined in `Outs`, and every decorator the model builds has a wrapped call.

## Model

| member | source | states |
|---|---|---|
| Outs.OfValue | SWF/SWF/Call.swift:26-28 | `Out(value:)` holds the value and `hasValue()` is true |
| Outs.OfError | SWF/SWF/Call.swift:30-32 | `Out(error:)` holds the error, no value, and `hasValue()` is false |
| Outs.TimeoutError | SWF/SWF/Call.swift:323-325 | the timeout error has domain `CallTimeoutErrorDomain` ("Time out") and code `CallTimeoutErrorCode` (-100001) |
| Outs.TimeoutOut | SWF/SWF/Call.swift:317 | a timed-out call finishes with an error out carrying the timeout error |
| CallModel.IndexOf | SWF/SWF/Call.swift:415 | `find`: the first index holding the key, or none exactly when the key is absent |
| CallModel.FinishV | SWF/SWF/Call.swift:86-101 | `finish` changes only the call's own stored properties, keeps its callback and `cancelled` flag, never traps, and delivers `out`, if at all, to the stored callback |
| CallModel.GroupReactV | SWF/SWF/Call.swift:411-421 | the group's per-member closure changes only the group's own stored properties and delivers, if at all, to the group's callback |
| CallModel.ContinueV | SWF/SWF/Call.swift:367-374 | `originalCallDidFinish` changes only the sequence's stored properties and its continuation, and delivers, if at all, to the sequence's callback |
| CallModel.ReactV | SWF/SWF/Call.swift:251-375 | a decorator's completion closure changes only the decorator's stored properties and continuation, and delivers, if at all, to the decorator's own callback |
| CallModel.AfterChildV | SWF/SWF/Call.swift:152-160 | running the closure for what an owned call delivered changes only the owner's stored properties and continuation. What reaches a closure goes on to the owner's callback |
| CallModel.IsExecutingV | SWF/SWF/Call.swift:162-168 | `isExecuting()`: a chain of decorators is executing exactly when the leaf at its bottom is |
| CallModel.ShouldRemoveV | SWF/SWF/Call.swift:176-182 | `shouldRemoveDepositable()` is `!isExecuting()` for every call, decorated or not |
| CallModel.CancelV | SWF/SWF/Call.swift:63-72 | `cancel()` reaches the leaf at the bottom of a chain and leaves it cancelled, idle and without callback. Afterwards nothing is executing and the call may be removed |
| CallModel.WillRemoveV | SWF/SWF/Call.swift:184-188 | `depositableWillRemove()` cancels the leaf at the bottom and leaves a decorator's own state and continuation as they were |
| CallModel.LeafStartV | SWF/SWF/Call.swift:132-140 | a leaf's `start` stores the callback and clears `cancelled`. It delivers exactly when it is a synchronous ComposableCall, then its own out to that callback |
| CallModel.StartV | SWF/SWF/Call.swift:48-57 | `start(callback: cb)` stores `cb` and clears `cancelled` unless a OnceCall ignores it; whatever it delivers goes to `cb` |
| CallModel.WrapperStartV | SWF/SWF/Call.swift:152-160 | a decorator's `start` stores `cb`, and its wrapped call is left as starting it with the decorator's closure leaves it |
| CallModel.WrapperDidStartV | SWF/SWF/Call.swift:152-160 | the `didStart` of every decorator other than a group (also 251-278, 302-321, 355-359) keeps its callback and holds its wrapped call as that call's `start` left it; any delivery goes to its own callback. What is delivered is stated by `RelayDelivers`, `OutWrapDelivers`, `MulticastDelivers` and `SequenceRelaysContinuation` |
| CallModel.GroupStartV | SWF/SWF/Call.swift:403-423 | a group's `start` stores `cb`, and the members' completions reach only `cb` |
| CallModel.GroupFoldV | SWF/SWF/Call.swift:408-422 | the group's loop keeps the group's callback and `cancelled` flag; when every member reports to its closure, all deliveries go to the group's callback |
| CallModel.HandleV | SWF/SWF/Call.swift:86-101 | an event on a call never changes which class the call is |
| CallModel.DispatchV | SWF/SWF/Call.swift:152-160 | an event anywhere below a call never changes which class the call is |
| CallLemmas.FinishDelivers | SWF/SWF/Call.swift:86-101 | `finish` on a cancelled call changes nothing and delivers nothing. Otherwise: `didFinish` gets `out`, the stored callback (if any) gets the same `out`, `executing` goes false, and the callback's release is queued |
| CallLemmas.LeafStartStores | SWF/SWF/Call.swift:48-57 | `start` stores the callback and clears `cancelled`. A plain call is then executing and not removable. A synchronous ComposableCall finishes at once with its out; an asynchronous one queues that finish |
| CallLemmas.CancelThenFinishIsSilent | SWF/SWF/Call.swift:63-72 | `cancel` sets `cancelled`, clears `executing` and drops the callback; a later `finish` changes nothing and delivers nothing |
| CallLemmas.CancelledLeafStaysSilent | SWF/SWF/Call.swift:86-101 | after `cancel`, no sequence of finishes or queued blocks delivers anything, calls `didFinish`, or clears `cancelled` |
| CallLemmas.FinishTwiceDeliversTwice | SWF/SWF/Call.swift:91-95 | before the queued release runs, a second `finish` delivers to the same callback again |
| CallLemmas.StaleClearDropsNewCallback | SWF/SWF/Call.swift:93-95 | a release queued by one `finish` also drops the callback stored by a later `start`, so the next `finish` reaches nobody |
| CallLemmas.WrapperCancelKeepsOwnFlags | SWF/SWF/Call.swift:170-174 | a decorator's `cancel` leaves its own stored properties, `cancelled` included, as they were |
| CallLemmas.WillRemoveIsCancel | SWF/SWF/Call.swift:78-80 | `depositableWillRemove()` equals `cancel()` on every chain without a started sequence |
| CallLemmas.WillRemoveSparesContinuation | SWF/SWF/Call.swift:362-365 | removing a sequence leaves its continuation running; cancelling it cancels the continuation |
| CallLemmas.CancelReachesLeaf | SWF/SWF/Call.swift:170-174 | `cancel` of a decorator chain cancels the leaf at the bottom of every path through wrapped calls and continuations |
| CallLemmas.SilentBelowCancelled | SWF/SWF/Call.swift:89 | a `finish` of a cancelled call anywhere in the tree delivers nothing at the top |
| CallLemmas.CancelledChainIsSilent | SWF/SWF/Call.swift:63-101 | after `cancel` of a chain, the leaf at its bottom finishing reaches no callback anywhere |
| CallLemmas.RelayDelivers | SWF/SWF/Call.swift:152-160 | a plain WrappedCall or a OnceCall hands its callback exactly the out its wrapped call finished with; in a started chain, the bottom leaf's finish arrives as the chain's out |
| CallLemmas.OutWrapDelivers | SWF/SWF/Call.swift:251-260 | `wrapOut`: the callback gets the wrapper's image of the wrapped call's out, and `didFinish` sees that image |
| CallLemmas.MulticastDelivers | SWF/SWF/Call.swift:271-278 | `intercept`: the intercept callback gets the wrapped call's out, then the callback gets the same out |
| CallLemmas.WrapperStartWaits | SWF/SWF/Call.swift:152-160 | starting a plain, out-wrapping, intercepting, timeout or sequence decorator, or a OnceCall the first time, over any call whose own start delivers nothing, stores the decorator's state, starts that call with the decorator's closure, arms a TimeoutCall's timer, and delivers nothing yet |
| CallLemmas.QuietStartWaits | SWF/SWF/Call.swift:48-57 | starting a chain of decorators (sequences included) whose bottom leaf does not finish inside `start` delivers nothing, leaves every call in it holding the closure of the one above, and leaves the chain executing |
| CallLemmas.ChainFinishDelivers | SWF/SWF/Call.swift:251-278 | in a started chain of plain, once, out-wrapping, intercepting and timeout decorators, the bottom leaf finishing with `o` reaches the top callback with `o` mapped by each out wrapper on the way |
| CallLemmas.StartThenFinishDelivers | SWF/SWF/Call.swift:251-278 | from `start(callback: cb)` of any such chain the factories build (`once()`, `wrapOut`, `intercept`, `timeout` over a `WrappedCall`) to its bottom leaf's `finish(out:)`: `cb` gets the out, mapped by each out wrapper |
| CallLemmas.OnceTimeoutChainDelivers | SWF/SWF/Call.swift:214-230 | `WrappedCall(c).once().timeout(t)` over a BaseCall `c`, once started, delivers `c`'s out to the callback |
| CallLemmas.TimeoutStartRaces | SWF/SWF/Call.swift:302-321 | starting a TimeoutCall over any call whose start delivers nothing stores its callback, clears `finished`, starts the wrapped call with its closure and arms the timer |
| CallLemmas.TimeoutInnerWins | SWF/SWF/Call.swift:307-310 | the wrapped call finishing first: the out is forwarded, `finished` is set, and the timer later only leaves the queue; end to end, for the bottom leaf of a started chain inside |
| CallLemmas.TimeoutTimerWins | SWF/SWF/Call.swift:312-320 | the timer firing first cancels the wrapped call and finishes with "Time out", -100001; any leaf below reached through wrapped calls and continuations finishing later reaches nobody |
| CallLemmas.TimeoutFiresAfterCancel | SWF/SWF/Call.swift:170-174 | after `cancel` of a racing TimeoutCall, whatever it wraps, its timer still finishes it with the timeout error |
| CallLemmas.OnceIgnoresSecondStart | SWF/SWF/Call.swift:377-391 | the first `start` of a OnceCall starts its wrapped call; every later one changes nothing and delivers nothing |
| CallLemmas.SequenceRelaysContinuation | SWF/SWF/Call.swift:367-374 | the original call finishing builds the continuation from its out and starts it. The sequence finishes with what the continuation finishes with: at once for a synchronous ComposableCall, when the queued finish runs for an asynchronous one, and on `finish` for a plain call |
| CallLemmas.GroupHasNoInner | SWF/SWF/Call.swift:398-401 | a group's `cancel` and `depositableWillRemove` do nothing; it is never executing and always removable |
| CallLemmas.EmptyGroupNeverFinishes | SWF/SWF/Call.swift:403-423 | a group over no calls starts with nothing pending; its `executing` flag stays true, and no member can finish it |
| CallLemmas.RemoveAtRemovesOne | SWF/SWF/Call.swift:415 | `removeAtIndex` on a list without repeats removes exactly that one key |
| CallLemmas.GroupReactRecordsKey | SWF/SWF/Call.swift:411-421 | a member's completion records its out (value or error) under its key and removes exactly that key. The group finishes, with the joined outs, exactly when nothing is left pending |
| CallLemmas.GroupReactTrapsUnknownKey | SWF/SWF/Call.swift:415 | a completion for a key no longer pending hits the force-unwrap of `find` |
| CallLemmas.StartedGroupJoins | SWF/SWF/Call.swift:405-406 | on start every key is pending and no out is recorded |
| CallLemmas.GroupReactKeepsJoin | SWF/SWF/Call.swift:411-421 | each completion keeps every key either pending or recorded, never both; once nothing is pending, the outs hold every key |
| CallLemmas.AfterMemberKeepsJoin | SWF/SWF/Call.swift:411-421 | whatever a member hands the group's closure keeps that invariant, unless it traps |
| CallLemmas.GroupFoldKeepsJoin | SWF/SWF/Call.swift:409-422 | the group's start loop keeps that invariant, unless it traps |
| CallLemmas.GroupStartJoins | SWF/SWF/Call.swift:403-423 | after start every key is pending or recorded; if no member completed at once, every key is still pending and nothing was delivered |
| CallLemmas.GroupFoldSetsMembers | SWF/SWF/Call.swift:409-422 | the group's loop leaves each member it visits as that member's start left it, keeps the others, and adds none |
| CallLemmas.GroupStartStartsEveryMember | SWF/SWF/Call.swift:403-423 | a group's `start` starts every member once, with the closure for its key, and hits no force-unwrap |
| CallLemmas.AfterMemberKeepsPending | SWF/SWF/Call.swift:411-421 | a member's completion during the loop hits no force-unwrap and leaves every other key pending |
| CallLemmas.GroupFoldNeverTraps | SWF/SWF/Call.swift:409-422 | the `!` of `keyIdValueCall[identifier]` and `find` never fail while the keys still to visit are pending and their members did not trap |
| CallLemmas.StartNeverTraps | SWF/SWF/Call.swift:48-57 | starting any call of a shape the initialisers build hits no force-unwrap |
| CallModel.LeafDispatchKeepsShape | SWF/SWF/Call.swift:86-101 | an event reaching a BaseCall or ComposableCall changes only its stored properties, so a sequence's continuation keeps its shape |
| CallLemmas.WrapperDidStartNeverTraps | SWF/SWF/Call.swift:152-160 | a decorator's `didStart` traps only when its wrapped call's start did |
| CallLemmas.GroupStartNeverTraps | SWF/SWF/Call.swift:403-423 | a group's `start` traps only when a member's own start did |
| CallLemmas.GroupFoldQuiet | SWF/SWF/Call.swift:409-422 | when no member completes while being started, the loop changes none of the group's own state |
| CallLemmas.MemoryWarningKeepsExecutingCalls | SWF/SWF/AnyObject+Depositable.swift:111-129 | a memory warning asks each deposited call in its state at that moment, and keeps exactly the calls executing then |
| CallLemmas.DepositedThenStartedIsKept | SWF/SWF/Call.swift:176-182 | a decorated call deposited before its `start`, as `deposit(by:).start {...}` does, is executing once started, so a memory warning keeps it |
| Calls.Call.Plain | SWF/SWF/Call.swift:43-46 | a new BaseCall: no callback, not cancelled, not executing |
| Calls.Call.Composable | SWF/SWF/Call.swift:117-124 | a new ComposableCall holding its out and `synchronous` flag |
| Calls.Call.Decorate | SWF/SWF/Call.swift:148-150 | a new decorator that owns the call it wraps |
| Calls.Call.Group | SWF/SWF/Call.swift:398-401 | a new group owning one call per key, with no wrapped call |
| Calls.Call.IsExecuting | SWF/SWF/Call.swift:59-61 | `isExecuting()` is the model's answer: a leaf's own flag, or the wrapped call's answer, or false |
| Calls.Call.ShouldRemoveDepositable | SWF/SWF/Call.swift:176-182 | `shouldRemoveDepositable()` is the model's answer, forwarded like `isExecuting`, true without a wrapped call |
| Calls.Call.DepositableDidAdd | SWF/SWF/Call.swift:190-194 | `depositableDidAdd()` changes no call |
| Calls.Call.Finish | SWF/SWF/Call.swift:86-101 | `finish` does what `FinishV` does |
| Calls.Call.SetSynchronous | SWF/SWF/Call.swift:126-130 | `setSynchronous` sets only that flag and returns the same call |
| Calls.Call.LeafStart | SWF/SWF/Call.swift:132-140 | a leaf's `start` with ComposableCall's `didStart` does what `LeafStartV` does |
| Calls.Call.Cancel | SWF/SWF/Call.swift:63-72 | `cancel`, forwarded by decorators and extended by SequenceCall, does what `CancelV` does |
| Calls.Call.CancelInner | SWF/SWF/Call.swift:170-174 | a decorator's `cancel` cancels only its wrapped call |
| Calls.Call.DepositableWillRemove | SWF/SWF/Call.swift:184-188 | `depositableWillRemove` does what `WillRemoveV` does |
| Calls.Call.GroupReact | SWF/SWF/Call.swift:411-421 | the group's per-member closure does what `GroupReactV` does |
| Calls.Call.Continue | SWF/SWF/Call.swift:367-374 | `originalCallDidFinish` does what `ContinueV` does |
| Calls.Call.React | SWF/SWF/Call.swift:251-279 | each decorator's completion closure does what `ReactV` does. That is: relay the out (`RelayDelivers`), its wrapped image (`OutWrapDelivers`), or the out after the intercept callback (`MulticastDelivers`), always to the decorator's own callback |
| Calls.Call.AfterChild | SWF/SWF/Call.swift:156-158 | the closure runs exactly when the owned call delivered to it |
| Calls.Call.Start | SWF/SWF/Call.swift:48-57 | `start`, with OnceCall's override and each class's `didStart`, does what `StartV` does, and no force-unwrap in it fails |
| Calls.Call.StartWrapper | SWF/SWF/Call.swift:48-57 | BaseCall's `start` on a decorator, with the `called` flag OnceCall sets first (380-387), does what `WrapperStartV` does |
| Calls.Call.ValidIsWellFormed | SWF/SWF/Call.swift:143-150 | the state of every valid call object has a shape the initialisers build, so the `CallLemmas` lemmas about such shapes hold of it, before and after every method |
| Calls.Call.DidStartWrapper | SWF/SWF/Call.swift:302-321 | a decorator's `didStart` starts the wrapped call, runs the closure and arms TimeoutCall's timer |
| Calls.Call.StartInner | SWF/SWF/Call.swift:155-159 | the wrapped call is started with the decorator's closure |
| Calls.Call.StartGroup | SWF/SWF/Call.swift:403-406 | a group's `start` does what `GroupStartV` does |
| Calls.Call.StartMembers | SWF/SWF/Call.swift:408-423 | the loop over the keys does what `GroupFoldV` does |
| Calls.Call.Round | SWF/SWF/Call.swift:410-421 | one round of that loop starts one member and runs the closure on what it delivered |
| Calls.Call.StartMember | SWF/SWF/Call.swift:411 | the member under a key is started with the group's closure for that key |
| Calls.Call.Handle | SWF/SWF/Call.swift:86-101 | a `finish` or a queued block on the call itself does what `HandleV` does |
| Calls.Call.FireTimer | SWF/SWF/Call.swift:312-320 | TimeoutCall's timer block does what `HandleV` does for it |
| Calls.Call.Dispatch | SWF/SWF/Call.swift:152-160 | an event anywhere below the call does what `DispatchV` does |
| Calls.Call.DispatchInner | SWF/SWF/Call.swift:156-158 | an event below the wrapped call does what `DispatchInnerV` does |
| Calls.Call.InnerDispatch | SWF/SWF/Call.swift:156-158 | the wrapped call handles the event as `DispatchV` says |
| Calls.Call.DispatchContinuation | SWF/SWF/Call.swift:370-372 | an event below the continuation does what `DispatchContinuationV` does |
| Calls.Call.DispatchChild | SWF/SWF/Call.swift:411-421 | an event below a group member does what `DispatchChildV` does |
| Calls.Call.ChildDispatch | SWF/SWF/Call.swift:411 | the member handles the event as `DispatchV` says |
| Calls.Call.WrapOut | SWF/SWF/Call.swift:196-200 | `wrapOut` returns a new OutWrapCall owning this call |
| Calls.Call.Intercept | SWF/SWF/Call.swift:208-212 | `intercept` returns a new MulticastCall owning this call |
| Calls.Call.MakeOnce | SWF/SWF/Call.swift:214-218 | `once` returns a new OnceCall owning this call |
| Calls.Call.MakeTimeout | SWF/SWF/Call.swift:226-230 | `timeout` returns a new TimeoutCall owning this call |
| Calls.Call.Append | SWF/SWF/Call.swift:232-236 | `append` returns a new SequenceCall owning this call |
| Keys.EnumerateKeys | SWF/SWF/AnyObject+Depositable.swift:116 | a dictionary's keys are enumerated once each, in some order |
| Depositables.Removable | SWF/SWF/AnyObject+Depositable.swift:116-122 | the keys the first loop collects, no more than it looks at |
| Depositables.RemovableMembers | SWF/SWF/AnyObject+Depositable.swift:116-122 | the collected keys are exactly those whose entries ask to be removed, each once |
| Depositables.Kept | SWF/SWF/AnyObject+Depositable.swift:111-129 | the entries a memory warning keeps are exactly those that do not ask to be removed, unchanged |
| Depositables.WillRemovesAt | SWF/SWF/AnyObject+Depositable.swift:104-109 | the i-th hook goes to the entry under the i-th key |
| Depositables.Store.constructor | SWF/SWF/AnyObject+Depositable.swift:69 | a new dictionary is empty |
| Depositables.Store.Deposit | SWF/SWF/AnyObject+Depositable.swift:29-34 | stores under the id and replaces any old entry without telling it. Calls `depositableDidAdd` once and returns the same entry |
| Depositables.Store.Deposited | SWF/SWF/AnyObject+Depositable.swift:37-45 | the entry under the id exactly when there is one |
| Depositables.Store.RemoveDeposited | SWF/SWF/AnyObject+Depositable.swift:47-59 | a present id: its entry is told it is going and only that key goes; an absent id changes nothing |
| Depositables.Store.NotifyAll | SWF/SWF/AnyObject+Depositable.swift:104-109 | every entry is told exactly once that it is going; the dictionary is unchanged |
| Depositables.Store.HandleMemoryWarning | SWF/SWF/AnyObject+Depositable.swift:111-129 | the entries that ask to be removed are told, once each, and removed; the others stay untold |
| Depositables.Store.TellRemovable | SWF/SWF/AnyObject+Depositable.swift:116-122 | the first loop tells exactly the entries that ask to be removed and collects their keys |
| Depositables.Store.DropKeys | SWF/SWF/AnyObject+Depositable.swift:124-126 | the second loop removes exactly the collected keys and tells nobody |
| Observers.ObservingContext.constructor | SWF/SWF/AnyObject+DiedObserver.swift:38 | a new context has no observers |
| Observers.ObservingContext.AddObserver | SWF/SWF/AnyObject+DiedObserver.swift:47-49 | `updateValue`: the block under the id is the new one |
| Observers.ObservingContext.RemoveObserver | SWF/SWF/AnyObject+DiedObserver.swift:51-53 | only that id goes; an unknown id changes nothing |
| Observers.ObservingContext.Deinit | SWF/SWF/AnyObject+DiedObserver.swift:40-45 | `deinit` runs every block still registered, exactly once each |
| Owners.Owner.DiedContext | SWF/SWF/AnyObject+DiedObserver.swift:56-71 | the died-observer context is created at most once and then reused with its observers intact |
| Owners.Owner.AddDiedObserver | SWF/SWF/AnyObject+DiedObserver.swift:25-29 | stores the block under the id, replacing the old one, and returns the id |
| Owners.Owner.AddDiedObserverNow | SWF/SWF/AnyObject+DiedObserver.swift:12-20 | registers under the id made from the clock and returns that id |
| Owners.Owner.RemoveDiedObserver | SWF/SWF/AnyObject+DiedObserver.swift:31-33 | only that id goes from the died observers |
| Owners.Owner.DeinitContext | SWF/SWF/AnyObject+DeinitObserver.swift:33-48 | the deinit-observer context is created at most once and then reused |
| Owners.Owner.AddDeinitObserver | SWF/SWF/AnyObject+DeinitObserver.swift:50-52 | stores the block under the id, replacing the old one |
| Owners.Owner.RemoveDeinitObserver | SWF/SWF/AnyObject+DeinitObserver.swift:54-56 | only that id goes from the deinit observers |
| Owners.Owner.DepositStore | SWF/SWF/AnyObject+Depositable.swift:61-102 | the dictionary is created at most once and then reused with its contents intact. On creation it registers its release with the died-observer context |
| Owners.Owner.Deposit | SWF/SWF/AnyObject+Depositable.swift:22-35 | stores under the id, or under the clock-made id when there is none; `depositableDidAdd` is called once; a dictionary made here is new and has its release registered |
| Owners.Owner.Deposited | SWF/SWF/AnyObject+Depositable.swift:37-45 | the entry under the id exactly when there is one; nothing deposited changes and no hook is called; a dictionary made here is new and has its release registered |
| Owners.Owner.RemoveDeposited | SWF/SWF/AnyObject+Depositable.swift:47-59 | only that id goes, and its entry alone is told; a dictionary made here is new and has its release registered |
| Owners.Owner.MemoryWarning | SWF/SWF/AnyObject+Depositable.swift:72-77 | only an existing dictionary reacts: it keeps exactly the entries that do not ask to be removed |
| Owners.Owner.Die | SWF/SWF/AnyObject+DiedObserver.swift:40-45 | every died and deinit observer still registered runs exactly once. The dictionary's release tells every deposited entry exactly once that it is going |
| Owners.DepositThenDie | SWF/SWF/AnyObject+Depositable.swift:104-109 | an entry deposited on a new owner gets `depositableDidAdd` and then, when the owner goes away, exactly one `depositableWillRemove` |
| Owners.Owner.RunDiedObservers | SWF/SWF/AnyObject+Depositable.swift:89-95 | the blocks run in order: client blocks are recorded, and the release notifies every entry once |
| Owners.ReleaseIndex | SWF/SWF/AnyObject+Depositable.swift:89 | the release is found in the died observers' order exactly when it is registered, at its own id; no other block there is a release |
| Delays.Delay.constructor | SWF/SWF/ObjcExt.swift:31-35 | a new delay holds its block, not started and not finished |
| Delays.Delay.ShouldRemoveDepositable | SWF/SWF/ObjcExt.swift:37-39 | removable exactly when finished |
| Delays.Delay.DepositableWillRemove | SWF/SWF/ObjcExt.swift:41-43 | the block is dropped and nothing else changes |
| Delays.Delay.DepositableDidAdd | SWF/SWF/ObjcExt.swift:60-62 | changes nothing |
| Delays.Delay.Start | SWF/SWF/ObjcExt.swift:45-58 | schedules the block only on the first start, marks started, and returns the same delay |
| Delays.Delay.Fire | SWF/SWF/ObjcExt.swift:49-54 | runs the block if it is still there, at most once, and sets `finished` either way |
| Delays.After | SWF/SWF/ObjcExt.swift:19-21 | returns a new delay already started, with its block scheduled |

## Left out

- `SyncedCall` (`SWF/SWF/Call.swift:328-345`) is not modelled: it blocks a thread on a semaphore.
- `MainThreadCallbackCall` (`SWF/SWF/Call.swift:281-291`) is not modelled: it only re-dispatches completion to the main queue.
- The `sync()` and `mainthreadCallback()` factories are left out for the same reason.
- `dispatch_async`, `dispatch_after` and the `Double` delays are not modelled. Each queued block is a counter on the call that queued it and runs when the caller dispatches its event. No timing is modelled.
- `objc_sync_enter`/`objc_sync_exit` and `objc_sync` are not modelled. Every method is atomic and the model is sequential.
- The NSNotificationCenter subscription and its removal (`SWF/SWF/AnyObject+Depositable.swift:71-87`) are not modelled. The memory warning is the method `Owners.Owner.MemoryWarning`.
- ARC, `deinit`, weak references and associated objects are not modelled. The three associated objects are fields of `Owners.Owner`, and the owner going away is the method `Owners.Owner.Die`. Every `[weak self]` closure is modelled as if `self` is still alive.
- `Owners.Owner.Die` runs the died-observer context before the deinit-observer context. The runtime leaves the order in which associated objects are released open.
- `Owners.Owner.Die`: the dictionary's release follows the build that captures the dictionary strongly (`SWF/SWF/AnyObject+Depositable.swift:89-95`), where it is always there. The iOS build captures it weakly (`SWF/SWF/AnyObject+Depositable.swift:79-87`). If the dictionary goes before the died-observer context there, that block only prints an error and no deposited entry is told. The model does not cover that case, nor the `println`. The memory-warning path the model covers exists only in the iOS build.
- Clock-made ids (`SWF/SWF/AnyObject+Depositable.swift:25-27`, `SWF/SWF/AnyObject+DiedObserver.swift:15`) are the parameter `now`.
- Dictionary enumeration order is left open. `Keys.EnumerateKeys` returns the keys in some order. A group's key order is a constructor parameter.
- An entry's answer to `shouldRemoveDepositable()` is a function parameter. The hooks the registry calls are recorded in `log` instead of being run, because entries are values of any type.
- Observer blocks are `Client(id)` tokens, and running one records its id. The only block with effects, the dictionary's release, is the `ReleaseDepositables` observer.
- `Calls.Call.Append`: a continuation may only return a BaseCall or ComposableCall (`CallModel.Leaf`), not a decorated call. Its continuation is held as a value (`CallModel.CallView`) in the field `continuation`, not as a `Call` object, so it shares no state with other objects.
- `Calls.Call.Intercept`: the intercept callback is not invoked. The outs handed to it are recorded in the call's `intercepted` log.
- `Calls.Call.Group`: the ghost parameter `members` names everything the member calls own, so the group's footprint can be stated.
- `Calls.Call.Group`: it requires the members to share no object, which `group(keyIdValueCall:)` does not require. The same call under two keys, or two members sharing a wrapped call, are not modelled. In the source, the second `start` of such a call replaces the closure of the first key. What follows depends on the member. A synchronous ComposableCall finishes inside each `start` (`SWF/SWF/Call.swift:132-136`), each key's closure removes its own key, and the group finishes. An asynchronous ComposableCall queues two finishes, and both reach the second key's closure: the first removes that key, and the second finds it no longer pending, so the force-unwrap of `find` at `SWF/SWF/Call.swift:415` fails. A call that finishes once, after both starts, reaches only the second key's closure, so the first key never leaves `processingIdentifiers` and the group never finishes.
- The stored properties of all call classes form one record (`CallModel.State`). A kind ignores the fields it does not have.
- `CallModel.FinishV`, `CallModel.GroupReactV`, `CallModel.ContinueV`, `CallModel.ReactV` and `CallModel.AfterChildV`: their own contracts state what they leave unchanged and where they deliver. What each delivers is stated by lemmas: `FinishDelivers`, `GroupReactRecordsKey`, `SequenceRelaysContinuation`, `RelayDelivers`, `OutWrapDelivers`, `MulticastDelivers` and the TimeoutCall lemmas.
- `CallModel.FinishV`: all of `finish`'s updates are applied before the delivery is reported. The source invokes the callback after `didFinish`, but before it queues the release and before `executing = false` (`SWF/SWF/Call.swift:89-97`). In the source, a callback that asks the call `isExecuting()` gets true. A callback that restarts the call (`objc_sync` locks are recursive) leaves it not executing, and its new callback is dropped by the release queued after it. The model does not capture this re-entrancy.
- `CallModel.HandleV` and `CallModel.DispatchV`: their own contracts state only that the class of a call never changes. What events do is stated by the `CallLemmas` lemmas about them.
- `Calls.Call.WrapOut`, `Intercept`, `MakeOnce`, `MakeTimeout`, `Append`: they require a decorator, not a leaf, because Call.swift declares them on `WrappedCall` only.
- `WrappedCall.deposit(by:id:)` (`SWF/SWF/Call.swift:238-240`) has no member of its own. It deposits the call on an owner, which is `Owners.Owner.Deposit` with calls as entries. The dictionary holds the call object, not a copy of its state, so an entry is a handle of a call (`Owners.Owner<nat>`), and the states of the calls at the time of a memory warning are a separate map. `CallLemmas.MemoryWarningKeepsExecutingCalls` and `CallLemmas.DepositedThenStartedIsKept` state what a memory warning does to such calls. The model does not connect that map to `Calls.Call` objects.
