/**
 Lazy engine initialisation: `get_or_init_engine` of oxcer_ffi/src/lib.rs as a state machine. Any
 number of callers interleave over the statics LAZY_MODEL_ROOT, GLOBAL_ENGINE and INIT_LOCK; each
 transition is one read, write, lock or unlock. A load may succeed, fail or panic.
 */
module LazyEngine {
  import opened Wrappers

  /** The identity of a loaded engine. */
  type Engine = nat

  datatype InitError = FilesNotEnsured | LockPoisoned | LoadError

  datatype Pc =
    | FirstCheck
    | ReadRoot
    | Locking
    | SecondCheck
    | Loading
    | Publishing(engine: Engine)
    | Unlocking(result: Result<Engine, InitError>)
    | Returned(outcome: Result<Engine, InitError>)
    | Panicked

  datatype State = State(
    rootKnown: bool,
    globalEngine: Option<Engine>,
    holder: Option<nat>,
    poisoned: bool,
    threads: seq<Pc>,
    loaded: seq<Engine>) // every successful load, in order

  datatype LoadOutcome = Loads(engine: Engine) | Fails | Panics

  /** One transition: the setup phase finishes, a new caller arrives, or caller `t` moves. */
  datatype Action = EnsureModel | Call | Move(t: nat, load: LoadOutcome)

  const INIT := State(false, None, None, false, [], [])

  predicate Finished(pc: Pc) {
    pc.Returned? || pc.Panicked?
  }

  predicate Enabled(s: State, t: nat) {
    t < |s.threads| && !Finished(s.threads[t]) && (s.threads[t].Locking? ==> s.holder.None?)
  }

  function Goto(s: State, t: nat, pc: Pc): State
    requires t < |s.threads|
  {
    s.(threads := s.threads[t := pc])
  }

  function Moved(s: State, t: nat, load: LoadOutcome): State
    requires Enabled(s, t)
  {
    match s.threads[t]
    case FirstCheck =>
      if s.globalEngine.Some? then Goto(s, t, Returned(Ok(s.globalEngine.value))) else Goto(s, t, ReadRoot)
    case ReadRoot =>
      if s.rootKnown then Goto(s, t, Locking) else Goto(s, t, Returned(Err(FilesNotEnsured)))
    case Locking =>
      if s.poisoned then Goto(s, t, Returned(Err(LockPoisoned))) else Goto(s, t, SecondCheck).(holder := Some(t))
    case SecondCheck =>
      if s.globalEngine.Some? then Goto(s, t, Unlocking(Ok(s.globalEngine.value))) else Goto(s, t, Loading)
    case Loading => (
      match load
      case Loads(e) => Goto(s, t, Publishing(e)).(loaded := s.loaded + [e])
      case Fails => Goto(s, t, Unlocking(Err(LoadError)))
      case Panics => Goto(s, t, Panicked).(holder := None, poisoned := true))
    case Publishing(e) =>
      // OnceLock::get_or_init keeps an engine that is already there; the caller returns its own
      Goto(s, t, Unlocking(Ok(e))).(globalEngine := if s.globalEngine.Some? then s.globalEngine else Some(e))
    case Unlocking(result) => Goto(s, t, Returned(result)).(holder := None)
    case Returned(_) => s
    case Panicked => s
  }

  /** A move that is not enabled changes nothing, so every action sequence is an interleaving. */
  function Do(s: State, a: Action): State {
    match a
    case EnsureModel => s.(rootKnown := true)
    case Call => s.(threads := s.threads + [FirstCheck])
    case Move(t, load) => if Enabled(s, t) then Moved(s, t, load) else s
  }

  function Run(s: State, actions: seq<Action>): State {
    if actions == [] then s else Do(Run(s, actions[..|actions| - 1]), actions[|actions| - 1])
  }

  lemma RunOneMore(s: State, actions: seq<Action>, a: Action)
    ensures Run(s, actions + [a]) == Do(Run(s, actions), a)
  {
    assert (actions + [a])[..|actions|] == actions;
  }

  lemma {:induction false} RunConcat(s: State, first: seq<Action>, second: seq<Action>)
    ensures Run(s, first + second) == Run(Run(s, first), second)
  {
    if second == [] {
      assert first + second == first;
    } else {
      var rest, a := second[..|second| - 1], second[|second| - 1];
      RunConcat(s, first, rest);
      assert second == rest + [a] && first + second == (first + rest) + [a];
      RunOneMore(s, first + rest, a);
      RunOneMore(Run(s, first), rest, a);
    }
  }

  // ---------------------------------------------------------------- safety

  predicate InCriticalSection(pc: Pc) {
    pc.SecondCheck? || pc.Loading? || pc.Publishing? || pc.Unlocking?
  }

  /** What a caller at `pc` knows about the shared state. */
  predicate Knows(s: State, pc: Pc) {
    && (pc.Loading? ==> s.globalEngine.None? && s.loaded == [])
    && (pc.Publishing? ==> s.globalEngine.None? && s.loaded == [pc.engine])
    && (pc.Unlocking? && pc.result.Ok? ==> s.globalEngine == Some(pc.result.value))
    && (pc.Unlocking? && pc.result.Err? ==> s.globalEngine.None? && s.loaded == [])
    && (pc.Returned? && pc.outcome.Ok? ==> s.globalEngine == Some(pc.outcome.value))
  }

  predicate Inv(s: State) {
    && (forall t :: 0 <= t < |s.threads| ==> (InCriticalSection(s.threads[t]) <==> s.holder == Some(t)))
    && (s.holder.Some? ==> s.holder.value < |s.threads|)
    && (forall t :: 0 <= t < |s.threads| ==> Knows(s, s.threads[t]))
    && (s.poisoned ==> s.holder.None? && s.loaded == [])
    && (s.globalEngine.Some? ==> s.loaded == [s.globalEngine.value])
    && (s.globalEngine.None? ==>
          s.loaded == [] || (s.holder.Some? && s.threads[s.holder.value].Publishing?))
  }

  lemma MoveKeepsInv(s: State, t: nat, load: LoadOutcome)
    requires Inv(s) && Enabled(s, t)
    ensures Inv(Moved(s, t, load))
  {
    var u := Moved(s, t, load);
    forall i | 0 <= i < |u.threads|
      ensures (InCriticalSection(u.threads[i]) <==> u.holder == Some(i)) && Knows(u, u.threads[i])
    {
      assert Knows(s, s.threads[i]) && Knows(s, s.threads[t]);
    }
  }

  lemma DoKeepsInv(s: State, a: Action)
    requires Inv(s)
    ensures Inv(Do(s, a))
  {
    if a.Move? && Enabled(s, a.t) {
      MoveKeepsInv(s, a.t, a.load);
    } else {
      assert forall t :: 0 <= t < |s.threads| ==> Do(s, a).threads[t] == s.threads[t];
    }
  }

  lemma {:induction false} InvHolds(s: State, actions: seq<Action>)
    requires Inv(s)
    ensures Inv(Run(s, actions))
  {
    if actions != [] {
      InvHolds(s, actions[..|actions| - 1]);
      DoKeepsInv(Run(s, actions[..|actions| - 1]), actions[|actions| - 1]);
    }
  }

  /**
   Every interleaving of any number of callers, with loads that succeed, fail or panic: at most one
   load succeeds, every Ok result is the one engine in GLOBAL_ENGINE, which is the one loaded, and
   at most one caller is between lock and unlock.
   */
  lemma Safety(actions: seq<Action>)
    ensures var s := Run(INIT, actions);
            && |s.loaded| <= 1
            && (s.globalEngine.Some? ==> s.loaded == [s.globalEngine.value])
            && (forall t :: 0 <= t < |s.threads| && s.threads[t].Returned? && s.threads[t].outcome.Ok? ==>
                  s.globalEngine == Some(s.threads[t].outcome.value))
            && (forall t, u | 0 <= t < |s.threads| && 0 <= u < |s.threads| ::
                  InCriticalSection(s.threads[t]) && InCriticalSection(s.threads[u]) ==> t == u)
  {
    InvHolds(INIT, actions);
    var s := Run(INIT, actions);
    forall t | 0 <= t < |s.threads| ensures Knows(s, s.threads[t]) {
    }
  }

  lemma DoIsStable(s: State, a: Action)
    requires Inv(s)
    ensures s.globalEngine.Some? ==> Do(s, a).globalEngine == s.globalEngine
    ensures s.poisoned ==> Do(s, a).poisoned
    ensures |s.threads| <= |Do(s, a).threads|
    ensures forall t :: 0 <= t < |s.threads| && Finished(s.threads[t]) ==> Do(s, a).threads[t] == s.threads[t]
  {
  }

  /** The published engine never changes, a returned result is final, and a panic in a load is too. */
  lemma {:induction false} PublishedForever(s: State, actions: seq<Action>)
    requires Inv(s)
    ensures s.globalEngine.Some? ==> Run(s, actions).globalEngine == s.globalEngine
    ensures s.poisoned ==> Run(s, actions).poisoned
    ensures |s.threads| <= |Run(s, actions).threads|
    ensures forall t :: 0 <= t < |s.threads| && Finished(s.threads[t]) ==> Run(s, actions).threads[t] == s.threads[t]
  {
    if actions != [] {
      PublishedForever(s, actions[..|actions| - 1]);
      InvHolds(s, actions[..|actions| - 1]);
      DoIsStable(Run(s, actions[..|actions| - 1]), actions[|actions| - 1]);
    }
  }

  /** A load that panics poisons the lock: from then on nothing is loaded and no call returns Ok. */
  lemma PoisonIsFinal(s: State, actions: seq<Action>)
    requires Inv(s) && s.poisoned
    ensures var u := Run(s, actions);
            && u.loaded == [] && u.globalEngine.None?
            && forall t :: 0 <= t < |u.threads| && u.threads[t].Returned? ==> u.threads[t].outcome.Err?
  {
    PublishedForever(s, actions);
    InvHolds(s, actions);
    var u := Run(s, actions);
    forall t | 0 <= t < |u.threads| ensures Knows(u, u.threads[t]) {
    }
  }

  /** A caller that arrives after publication never touches the lock and can only return that engine. */
  lemma {:induction false} LateCallersAreServed(s: State, t: nat, e: Engine, actions: seq<Action>)
    requires Inv(s) && s.globalEngine == Some(e) && t < |s.threads| && s.threads[t] == FirstCheck
    ensures var u := Run(s, actions);
            t < |u.threads| && (u.threads[t] == FirstCheck || u.threads[t] == Returned(Ok(e)))
  {
    if actions != [] {
      LateCallersAreServed(s, t, e, actions[..|actions| - 1]);
      PublishedForever(s, actions[..|actions| - 1]);
      var u := Run(s, actions[..|actions| - 1]);
      InvHolds(s, actions[..|actions| - 1]);
      DoIsStable(u, actions[|actions| - 1]);
    }
  }

  // ---------------------------------------------------------------- what each error means

  /** Before the setup phase has finished, nobody gets to the lock, and nothing is loaded. */
  lemma {:induction false} NothingBeforeSetup(actions: seq<Action>)
    requires forall i :: 0 <= i < |actions| ==> !actions[i].EnsureModel?
    ensures var s := Run(INIT, actions);
            && !s.rootKnown && s.loaded == [] && s.globalEngine.None? && s.holder.None? && !s.poisoned
            && forall t :: 0 <= t < |s.threads| ==>
                 s.threads[t] in {FirstCheck, ReadRoot, Returned(Err(FilesNotEnsured))}
  {
    if actions != [] {
      NothingBeforeSetup(actions[..|actions| - 1]);
    }
  }

  lemma {:induction false} RootIsKnown(actions: seq<Action>)
    ensures Run(INIT, actions).rootKnown <==> exists i :: 0 <= i < |actions| && actions[i].EnsureModel?
  {
    if actions != [] {
      var n := |actions| - 1;
      RootIsKnown(actions[..n]);
      if exists i :: 0 <= i < n && actions[i].EnsureModel? {
        var i :| 0 <= i < n && actions[i].EnsureModel?;
        assert actions[..n][i].EnsureModel?;
      }
    }
  }

  predicate At(s: State, t: nat, pc: Pc) {
    t < |s.threads| && s.threads[t] == pc
  }

  /** Action `k` moved caller `t` from `pc` to `now`. */
  predicate MovedTo(actions: seq<Action>, k: int, t: nat, pc: Pc, now: Pc) {
    && 0 <= k < |actions| && actions[k].Move? && actions[k].t == t
    && At(Run(INIT, actions[..k]), t, pc) && At(Do(Run(INIT, actions[..k]), actions[k]), t, now)
  }

  lemma MovedToLater(actions: seq<Action>, n: nat, k: int, t: nat, pc: Pc, now: Pc)
    requires n <= |actions| && MovedTo(actions[..n], k, t, pc, now)
    ensures MovedTo(actions, k, t, pc, now)
  {
    assert actions[..n][..k] == actions[..k];
  }

  lemma OthersStay(s: State, a: Action, t: nat, pc: Pc)
    requires At(Do(s, a), t, pc) && !At(s, t, pc)
    ensures (a.Call? && pc == FirstCheck) || (a.Move? && a.t == t && t < |s.threads|)
  {
  }

  /** A caller got to where it is by a move of its own. */
  lemma {:induction false} LastMove(actions: seq<Action>, t: nat, now: Pc) returns (k: int, pc: Pc)
    requires At(Run(INIT, actions), t, now) && now != FirstCheck
    ensures MovedTo(actions, k, t, pc, now) && pc != now
  {
    if actions == [] {
      assert false;
    } else {
      var n := |actions| - 1;
      var before := Run(INIT, actions[..n]);
      if At(before, t, now) {
        k, pc := LastMove(actions[..n], t, now);
        MovedToLater(actions, n, k, t, pc, now);
      } else {
        OthersStay(before, actions[n], t, now);
        k, pc := n, before.threads[t];
      }
    }
  }

  /** What is unlocked with is an engine or a failed load, never another error. */
  predicate OnlyLoadErrors(s: State) {
    forall t :: 0 <= t < |s.threads| && s.threads[t].Unlocking? && s.threads[t].result.Err? ==>
      s.threads[t].result == Err(LoadError)
  }

  lemma {:induction false} UnlockingErrors(actions: seq<Action>)
    ensures OnlyLoadErrors(Run(INIT, actions))
  {
    if actions != [] {
      var n := |actions| - 1;
      UnlockingErrors(actions[..n]);
      var s, u := Run(INIT, actions[..n]), Run(INIT, actions);
      forall t | 0 <= t < |u.threads| && u.threads[t].Unlocking? && u.threads[t].result.Err?
        ensures u.threads[t].result == Err(LoadError)
      {
        if !At(s, t, u.threads[t]) {
          OthersStay(s, actions[n], t, u.threads[t]);
        }
      }
    }
  }

  /** A caller that looks for the root is turned away exactly when setup has not finished. */
  lemma RootDecides(s: State, t: nat, load: LoadOutcome)
    requires At(s, t, ReadRoot)
    ensures At(Do(s, Move(t, load)), t, if s.rootKnown then Locking else Returned(Err(FilesNotEnsured)))
  {
  }

  /** "Model files not ensured" is returned only to a caller that looked for them before setup finished. */
  lemma FilesNotEnsuredIsTrue(actions: seq<Action>, t: nat)
    requires At(Run(INIT, actions), t, Returned(Err(FilesNotEnsured)))
    ensures exists k :: MovedTo(actions, k, t, ReadRoot, Returned(Err(FilesNotEnsured)))
                && forall i :: 0 <= i < k ==> !actions[i].EnsureModel?
  {
    var k, pc := LastMove(actions, t, Returned(Err(FilesNotEnsured)));
    UnlockingErrors(actions[..k]);
    assert pc == ReadRoot;
    RootIsKnown(actions[..k]);
    forall i | 0 <= i < k ensures !actions[i].EnsureModel? {
      assert actions[..k][i] == actions[i];
    }
  }

  /** "Init lock poisoned" is returned only when it is. */
  lemma LockPoisonedIsTrue(actions: seq<Action>, t: nat)
    requires At(Run(INIT, actions), t, Returned(Err(LockPoisoned)))
    ensures Run(INIT, actions).poisoned
  {
    var k, pc := LastMove(actions, t, Returned(Err(LockPoisoned)));
    var s := Run(INIT, actions[..k]);
    UnlockingErrors(actions[..k]);
    assert s.poisoned;
    InvHolds(INIT, actions[..k]);
    assert actions == actions[..k] + actions[k..];
    RunConcat(INIT, actions[..k], actions[k..]);
    PublishedForever(s, actions[k..]);
  }

  predicate OwnLoadFailed(actions: seq<Action>, k: int, t: nat) {
    MovedTo(actions, k, t, Loading, Unlocking(Err(LoadError))) && actions[k].load == Fails
  }

  lemma ToUnlocking(s: State, t: nat, load: LoadOutcome)
    requires Enabled(s, t) && Moved(s, t, load).threads[t] == Unlocking(Err(LoadError))
    ensures s.threads[t] == Loading && load == Fails
  {
  }

  lemma ToReturned(s: State, t: nat, load: LoadOutcome)
    requires Enabled(s, t) && Moved(s, t, load).threads[t] == Returned(Err(LoadError))
    ensures s.threads[t] == Unlocking(Err(LoadError))
  {
  }

  lemma EffectiveMove(s: State, t: nat, load: LoadOutcome, pc: Pc, now: Pc)
    requires At(s, t, pc) && At(Do(s, Move(t, load)), t, now) && pc != now
    ensures Enabled(s, t) && Moved(s, t, load).threads[t] == now
  {
  }

  lemma UnlockingAfterFailure(actions: seq<Action>, t: nat) returns (k: int)
    requires At(Run(INIT, actions), t, Unlocking(Err(LoadError)))
    ensures OwnLoadFailed(actions, k, t)
  {
    var pc: Pc;
    k, pc := LastMove(actions, t, Unlocking(Err(LoadError)));
    EffectiveMove(Run(INIT, actions[..k]), t, actions[k].load, pc, Unlocking(Err(LoadError)));
    ToUnlocking(Run(INIT, actions[..k]), t, actions[k].load);
  }

  /** A load error is returned only to a caller whose own load failed. */
  lemma LoadErrorIsTrue(actions: seq<Action>, t: nat)
    requires At(Run(INIT, actions), t, Returned(Err(LoadError)))
    ensures exists k :: OwnLoadFailed(actions, k, t)
  {
    var n, pc := LastMove(actions, t, Returned(Err(LoadError)));
    EffectiveMove(Run(INIT, actions[..n]), t, actions[n].load, pc, Returned(Err(LoadError)));
    ToReturned(Run(INIT, actions[..n]), t, actions[n].load);
    var k := UnlockingAfterFailure(actions[..n], t);
    MovedToLater(actions, n, k, t, Loading, Unlocking(Err(LoadError)));
    assert actions[..n][k] == actions[k];
    assert OwnLoadFailed(actions, k, t);
  }

  // ---------------------------------------------------------------- what can still be published

  /** `n` moves of caller `t`. */
  function Repeated(t: nat, load: LoadOutcome, n: nat): seq<Action> {
    if n == 0 then [] else Repeated(t, load, n - 1) + [Move(t, load)]
  }

  /** The first of them, and then the others. */
  lemma {:induction false} RepeatedFirst(s: State, t: nat, load: LoadOutcome, n: nat)
    ensures Run(s, Repeated(t, load, n + 1)) == Run(Do(s, Move(t, load)), Repeated(t, load, n))
  {
    RunOneMore(s, Repeated(t, load, n), Move(t, load));
    if n > 0 {
      RepeatedFirst(s, t, load, n - 1);
      RunOneMore(Do(s, Move(t, load)), Repeated(t, load, n - 1), Move(t, load));
    }
  }

  lemma OneMove(s: State, t: nat, load: LoadOutcome)
    ensures Run(s, Repeated(t, load, 1)) == Do(s, Move(t, load))
  {
    RepeatedFirst(s, t, load, 0);
    assert Repeated(t, load, 0) == [];
  }

  /** `n` moves of caller `t` publish `e`, which it returns. */
  predicate Publishes(s: State, t: nat, e: Engine, n: nat)
    requires t < |s.threads|
  {
    var u := Run(s, Repeated(t, Loads(e), n));
    u.globalEngine == Some(e) && u.loaded == [e] && u.threads == s.threads[t := Returned(Ok(e))]
  }

  lemma FromUnlocking(s: State, t: nat, e: Engine)
    requires t < |s.threads| && s.threads[t] == Unlocking(Ok(e)) && s.globalEngine == Some(e) && s.loaded == [e]
    ensures Publishes(s, t, e, 1)
  {
    OneMove(s, t, Loads(e));
    assert Do(s, Move(t, Loads(e))) == s.(threads := s.threads[t := Returned(Ok(e))], holder := None);
  }

  /** One more move in front, which only moves `t` on. */
  lemma MoveThenPublishes(s: State, t: nat, e: Engine, n: nat, pc: Pc)
    requires t < |s.threads| && Do(s, Move(t, Loads(e))).threads == s.threads[t := pc]
    requires Publishes(Do(s, Move(t, Loads(e))), t, e, n)
    ensures Publishes(s, t, e, n + 1)
  {
    RepeatedFirst(s, t, Loads(e), n);
    assert s.threads[t := pc][t := Returned(Ok(e))] == s.threads[t := Returned(Ok(e))];
  }

  lemma FromPublishing(s: State, t: nat, e: Engine)
    requires t < |s.threads| && s.threads[t] == Publishing(e) && s.globalEngine.None? && s.loaded == [e]
    ensures Publishes(s, t, e, 2)
  {
    FromUnlocking(Do(s, Move(t, Loads(e))), t, e);
    MoveThenPublishes(s, t, e, 1, Unlocking(Ok(e)));
  }

  lemma FromLoading(s: State, t: nat, e: Engine)
    requires t < |s.threads| && s.threads[t] == Loading && s.globalEngine.None? && s.loaded == []
    ensures Publishes(s, t, e, 3)
  {
    FromPublishing(Do(s, Move(t, Loads(e))), t, e);
    MoveThenPublishes(s, t, e, 2, Publishing(e));
  }

  lemma FromSecondCheck(s: State, t: nat, e: Engine)
    requires t < |s.threads| && s.threads[t] == SecondCheck && s.globalEngine.None? && s.loaded == []
    ensures Publishes(s, t, e, 4)
  {
    FromLoading(Do(s, Move(t, Loads(e))), t, e);
    MoveThenPublishes(s, t, e, 3, Loading);
  }

  /** A caller at a free, unpoisoned lock loads and publishes whatever its load gives. */
  lemma LockedLoads(s: State, t: nat, e: Engine)
    requires !s.poisoned && s.holder.None? && s.globalEngine.None? && s.loaded == []
    requires t < |s.threads| && s.threads[t] == Locking
    ensures Publishes(s, t, e, 5)
  {
    FromSecondCheck(Do(s, Move(t, Loads(e))), t, e);
    MoveThenPublishes(s, t, e, 4, SecondCheck);
  }

  /** How many moves a caller has left at most. */
  function Left(pc: Pc): nat {
    match pc
    case FirstCheck => 7
    case ReadRoot => 6
    case Locking => 5
    case SecondCheck => 4
    case Loading => 3
    case Publishing(_) => 2
    case Unlocking(_) => 1
    case Returned(_) => 0
    case Panicked => 0
  }

  /** One move of the holder, with a load that works: it gets nearer to unlocking. */
  lemma HolderMoves(s: State)
    requires Inv(s) && !s.poisoned && s.holder.Some?
    ensures var h := s.holder.value; var u := Do(s, Move(h, Loads(0)));
            && Inv(u) && !u.poisoned && |u.threads| == |s.threads|
            && (u.holder.Some? ==> u.holder == s.holder && Left(u.threads[h]) < Left(s.threads[h]))
  {
    var h := s.holder.value;
    assert InCriticalSection(s.threads[h]);
    DoKeepsInv(s, Move(h, Loads(0)));
  }

  /** The holder unlocks in at most four moves. */
  lemma {:induction false} HolderDrains(s: State) returns (actions: seq<Action>)
    requires Inv(s) && !s.poisoned
    ensures var u := Run(s, actions); Inv(u) && !u.poisoned && u.holder.None?
    decreases if s.holder.Some? then Left(s.threads[s.holder.value]) + 1 else 0
  {
    if s.holder.None? {
      actions := [];
    } else {
      var a := Move(s.holder.value, Loads(0));
      HolderMoves(s);
      var rest := HolderDrains(Do(s, a));
      actions := [a] + rest;
      RunConcat(s, [a], rest);
      RunOneMore(s, [], a);
      assert [] + [a] == [a];
    }
  }

  const ENTER := [EnsureModel, Call]

  lemma Enters(s: State)
    ensures Run(s, ENTER) == s.(rootKnown := true, threads := s.threads + [FirstCheck])
  {
    RunOneMore(s, [], EnsureModel);
    RunOneMore(s, [EnsureModel], Call);
    assert [] + [EnsureModel] == [EnsureModel] && [EnsureModel] + [Call] == ENTER;
  }

  lemma FromReadRoot(s: State, t: nat)
    requires t < |s.threads| && s.threads[t] == ReadRoot && s.rootKnown
    ensures Run(s, Repeated(t, Fails, 1)) == s.(threads := s.threads[t := Locking])
  {
    OneMove(s, t, Fails);
  }

  lemma FromFirstCheck(s: State, t: nat)
    requires t < |s.threads| && s.threads[t] == FirstCheck && s.rootKnown && s.globalEngine.None?
    ensures Run(s, Repeated(t, Fails, 2)) == s.(threads := s.threads[t := Locking])
  {
    RepeatedFirst(s, t, Fails, 1);
    FromReadRoot(Do(s, Move(t, Fails)), t);
  }

  /** A new caller gets to the lock. */
  lemma NewCallerLocks(s: State)
    requires s.globalEngine.None?
    ensures Run(s, ENTER + Repeated(|s.threads|, Fails, 2)) ==
            s.(rootKnown := true, threads := s.threads + [Locking])
  {
    Enters(s);
    RunConcat(s, ENTER, Repeated(|s.threads|, Fails, 2));
    FromFirstCheck(Run(s, ENTER), |s.threads|);
  }

  /** From every unpoisoned state some schedule publishes an engine. */
  lemma CanPublish(s: State) returns (actions: seq<Action>)
    requires Inv(s) && !s.poisoned
    ensures Run(s, actions).globalEngine.Some?
  {
    var drain := HolderDrains(s);
    var u := Run(s, drain);
    if u.globalEngine.Some? {
      actions := drain;
    } else {
      var t := |u.threads|;
      var enter, load := ENTER + Repeated(t, Fails, 2), Repeated(t, Loads(0), 5);
      NewCallerLocks(u);
      InvHolds(u, enter);
      LockedLoads(Run(u, enter), t, 0);
      RunConcat(u, enter, load);
      RunConcat(s, drain, enter + load);
      actions := drain + (enter + load);
    }
  }

  /**
   An engine can still be published exactly when the lock is not poisoned: failed loads, however many,
   never stand in the way of a later one, and a panic under the lock always does.
   */
  lemma PublishableUnlessPoisoned(s: State)
    requires Inv(s)
    ensures (exists actions :: Run(s, actions).globalEngine.Some?) <==> !s.poisoned
  {
    if s.poisoned {
      forall actions ensures Run(s, actions).globalEngine.None? {
        PoisonIsFinal(s, actions);
      }
    } else {
      var actions := CanPublish(s);
    }
  }

  /**
   A failed load is retried: once the failing caller has unlocked, a caller waiting at the lock loads
   itself, and what it loads is published and returned.
   */
  lemma FailedLoadIsRetried(s: State, t: nat, waiting: nat, e: Engine)
    requires Inv(s) && t < |s.threads| && s.threads[t] == Unlocking(Err(LoadError))
    requires waiting < |s.threads| && s.threads[waiting] == Locking
    ensures var u := Run(s, [Move(t, Fails)] + Repeated(waiting, Loads(e), 5));
            && u.threads == s.threads[t := Returned(Err(LoadError))][waiting := Returned(Ok(e))]
            && u.globalEngine == Some(e) && u.loaded == [e]
  {
    var u := Do(s, Move(t, Fails));
    FailureUnlocks(s, t);
    RunOneMore(s, [], Move(t, Fails));
    assert [] + [Move(t, Fails)] == [Move(t, Fails)];
    RunConcat(s, [Move(t, Fails)], Repeated(waiting, Loads(e), 5));
    LockedLoads(u, waiting, e);
  }

  lemma FailureUnlocks(s: State, t: nat)
    requires Inv(s) && t < |s.threads| && s.threads[t] == Unlocking(Err(LoadError))
    ensures var u := Do(s, Move(t, Fails));
            && u.threads == s.threads[t := Returned(Err(LoadError))]
            && !u.poisoned && u.holder.None? && u.globalEngine.None? && u.loaded == []
  {
    assert Knows(s, s.threads[t]) && InCriticalSection(s.threads[t]);
  }

  lemma DoPoisons(s: State, a: Action)
    requires !s.poisoned && (a.Move? ==> !a.load.Panics?)
    ensures !Do(s, a).poisoned
  {
  }

  /** Only a load that panics poisons the lock, so without one an engine can still be published. */
  lemma {:induction false} PoisonNeedsPanic(actions: seq<Action>)
    requires forall i :: 0 <= i < |actions| && actions[i].Move? ==> !actions[i].load.Panics?
    ensures !Run(INIT, actions).poisoned
  {
    if actions != [] {
      var n := |actions| - 1;
      PoisonNeedsPanic(actions[..n]);
      DoPoisons(Run(INIT, actions[..n]), actions[n]);
    }
  }

  /** And one that does, does: five moves of a single caller. */
  lemma PanicPoisons()
    ensures Run(INIT, (ENTER + Repeated(0, Fails, 2)) + Repeated(0, Panics, 3)).poisoned
  {
    var enter := ENTER + Repeated(0, Fails, 2);
    NewCallerLocks(INIT);
    RunConcat(INIT, enter, Repeated(0, Panics, 3));
    LockedPanics(Run(INIT, enter), 0);
  }

  lemma LoadingPanics(s: State, t: nat)
    requires t < |s.threads| && s.threads[t] == Loading
    ensures Run(s, Repeated(t, Panics, 1)).poisoned
  {
    assert Do(s, Move(t, Panics)).poisoned;
    OneMove(s, t, Panics);
  }

  lemma SecondCheckPanics(s: State, t: nat)
    requires t < |s.threads| && s.threads[t] == SecondCheck && s.globalEngine.None?
    ensures Run(s, Repeated(t, Panics, 2)).poisoned
  {
    RepeatedFirst(s, t, Panics, 1);
    LoadingPanics(Do(s, Move(t, Panics)), t);
  }

  lemma LockedPanics(s: State, t: nat)
    requires t < |s.threads| && s.threads[t] == Locking && !s.poisoned && s.holder.None? && s.globalEngine.None?
    ensures Run(s, Repeated(t, Panics, 3)).poisoned
  {
    RepeatedFirst(s, t, Panics, 2);
    SecondCheckPanics(Do(s, Move(t, Panics)), t);
  }

  // ---------------------------------------------------------------- progress

  /** No deadlock: while some caller has not finished, some caller can move. */
  lemma SomeoneCanMove(actions: seq<Action>, t: nat)
    requires var s := Run(INIT, actions); t < |s.threads| && !Finished(s.threads[t])
    ensures var s := Run(INIT, actions); exists u :: 0 <= u < |s.threads| && Enabled(s, u)
  {
    InvHolds(INIT, actions);
    var s := Run(INIT, actions);
    assert Enabled(s, if s.holder.Some? then s.holder.value else t);
  }

  function TotalLeft(threads: seq<Pc>): nat {
    if threads == [] then 0 else TotalLeft(threads[..|threads| - 1]) + Left(threads[|threads| - 1])
  }

  lemma {:induction false} TotalLeftUpdate(threads: seq<Pc>, t: nat, pc: Pc)
    requires t < |threads|
    ensures TotalLeft(threads[t := pc]) == TotalLeft(threads) - Left(threads[t]) + Left(pc)
  {
    var n := |threads| - 1;
    if t < n {
      TotalLeftUpdate(threads[..n], t, pc);
      assert threads[t := pc][..n] == threads[..n][t := pc];
    } else {
      assert threads[t := pc][..n] == threads[..n];
    }
  }

  /** The moves among `actions` that changed something. */
  function Moves(s: State, actions: seq<Action>): nat {
    if actions == [] then 0
    else
      var before, a := Run(s, actions[..|actions| - 1]), actions[|actions| - 1];
      Moves(s, actions[..|actions| - 1]) + if a.Move? && Enabled(before, a.t) then 1 else 0
  }

  /** A move changes one caller's program point, and brings that caller nearer its end. */
  lemma MoveSpends(s: State, t: nat, load: LoadOutcome)
    requires Enabled(s, t)
    ensures var u := Moved(s, t, load);
            && |u.threads| == |s.threads| && u.threads == s.threads[t := u.threads[t]]
            && Left(u.threads[t]) < Left(s.threads[t])
  {
  }

  lemma DoSpends(s: State, a: Action)
    ensures TotalLeft(Do(s, a).threads) + (if a.Move? && Enabled(s, a.t) then 1 else 0)
            <= TotalLeft(s.threads) + 7 * (|Do(s, a).threads| - |s.threads|)
  {
    if a.Call? {
      assert (s.threads + [FirstCheck])[..|s.threads|] == s.threads;
    } else if a.Move? && Enabled(s, a.t) {
      var pc := Moved(s, a.t, a.load).threads[a.t];
      MoveSpends(s, a.t, a.load);
      TotalLeftUpdate(s.threads, a.t, pc);
    }
  }

  /** No livelock: n callers make at most 7n moves altogether, whatever the schedule. */
  lemma {:induction false} MovesAreBounded(actions: seq<Action>)
    ensures Moves(INIT, actions) + TotalLeft(Run(INIT, actions).threads) <= 7 * |Run(INIT, actions).threads|
  {
    if actions != [] {
      MovesAreBounded(actions[..|actions| - 1]);
      DoSpends(Run(INIT, actions[..|actions| - 1]), actions[|actions| - 1]);
    }
  }
}
