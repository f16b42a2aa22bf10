/** The wake-up protocol of the block builder (vm/block_builder.go): a flag for
    pending transactions, a channel with one slot, goroutines that signal, goroutines
    that clear the flag, and goroutines that wait. Every step between two points
    where another goroutine may run is a step of its own. */
module Builder {
  type Thread = nat

  /** Where a waiter is in waitForNeedToBuild. */
  datatype Waiter =
    | Away                      // not in the method
    | Reading                   // about to read the flag
    | Read(pending: bool)       // has read it, about to ask needToBuild
    | Clearing                  // about to clear the flag and return
    | Selecting                 // blocked in select

  datatype State = State(
    hasPendingTxs: bool,
    wake: bool,                 // the slot is full
    signalling: set<Thread>,    // have set the flag and not yet sent
    waiters: map<Thread, Waiter>)

  datatype Step =
    | SetFlag(t: Thread)        // signalCanBuild, its first half
    | Send(t: Thread)           // signalCanBuild, its second half
    | ClearFlag                 // handleBuildAttempt or clearPendingSignal
    | Enter(t: Thread)
    | ReadFlag(t: Thread)
    | Decide(t: Thread, needToBuild: bool)
    | Return(t: Thread)
    | Wake(t: Thread)
    | Tick(t: Thread)
    | GiveUp(t: Thread)         // the context is done, or the VM shuts down

  predicate At(s: State, t: Thread, w: Waiter) {
    t in s.waiters && s.waiters[t] == w
  }

  function Moved(s: State, t: Thread, w: Waiter): State {
    s.(waiters := s.waiters[t := w])
  }

  /** Whether a step is possible. */
  predicate Enabled(s: State, step: Step) {
    match step
    case SetFlag(t) => t !in s.signalling
    case Send(t) => t in s.signalling
    case ClearFlag => true
    case Enter(t) => At(s, t, Away)
    case ReadFlag(t) => At(s, t, Reading)
    case Decide(t, _) => t in s.waiters && s.waiters[t].Read?
    case Return(t) => At(s, t, Clearing)
    case Wake(t) => At(s, t, Selecting) && s.wake
    case Tick(t) => At(s, t, Selecting)
    case GiveUp(t) => At(s, t, Selecting)
  }

  function Next(s: State, step: Step): State
    requires Enabled(s, step)
  {
    match step
    case SetFlag(t) => s.(hasPendingTxs := true, signalling := s.signalling + {t})
    case Send(t) => s.(wake := true, signalling := s.signalling - {t})
    case ClearFlag => s.(hasPendingTxs := false)
    case Enter(t) => Moved(s, t, Reading)
    case ReadFlag(t) => Moved(s, t, Read(s.hasPendingTxs))
    case Decide(t, needToBuild) => Moved(s, t, if s.waiters[t].pending || needToBuild then Clearing else Selecting)
    case Return(t) => Moved(s, t, Away).(hasPendingTxs := false)
    case Wake(t) => Moved(s, t, Reading).(wake := false)
    case Tick(t) => Moved(s, t, Reading)
    case GiveUp(t) => Moved(s, t, Away)
  }

  ghost predicate IsRun(states: seq<State>, steps: seq<Step>) {
    && |states| == |steps| + 1
    && Start(states[0])
    && forall i :: 0 <= i < |steps| ==> Enabled(states[i], steps[i]) && states[i + 1] == Next(states[i], steps[i])
  }

  ghost predicate Start(s: State) {
    !s.hasPendingTxs && !s.wake && s.signalling == {} && forall t :: t in s.waiters ==> s.waiters[t] == Away
  }

  /** A waiter that took the flag for clear, and will sleep on that. */
  predicate Asleep(w: Waiter) {
    w == Selecting || w == Read(false)
  }

  /** A waiter that will see the flag, or has seen it. */
  predicate Alert(w: Waiter) {
    w == Reading || w == Read(true) || w == Clearing
  }

  /** When the flag is set and a waiter sleeps, a wake-up is on its way: in the slot,
      in a signaller that has not sent yet, or taken by a waiter that is awake. */
  ghost predicate WakeUpComing(s: State) {
    s.hasPendingTxs && (exists t :: t in s.waiters && Asleep(s.waiters[t])) ==>
      s.wake || s.signalling != {} || exists t :: t in s.waiters && Alert(s.waiters[t])
  }

  lemma StartComing(s: State)
    requires Start(s)
    ensures WakeUpComing(s)
  {
  }

  /** Every step of every goroutine keeps it. */
  lemma StepKeeps(s: State, step: Step)
    requires Enabled(s, step) && WakeUpComing(s)
    ensures WakeUpComing(Next(s, step))
  {
    var u := Next(s, step);
    match step
    case SetFlag(t) => assert t in u.signalling;
    case Send(_) => assert u.wake;
    case ClearFlag => assert !u.hasPendingTxs;
    case Return(_) => assert !u.hasPendingTxs;
    case Enter(t) => SeesFlag(u, t);
    case ReadFlag(t) => if s.hasPendingTxs { SeesFlag(u, t); }
    case Decide(t, _) => if u.waiters[t] == Clearing { SeesFlag(u, t); } else { SleeperMoves(s, u, t); }
    case Wake(t) => SeesFlag(u, t);
    case Tick(t) => SeesFlag(u, t);
    case GiveUp(t) => SleeperMoves(s, u, t);
  }

  lemma SeesFlag(s: State, t: Thread)
    requires t in s.waiters && Alert(s.waiters[t])
    ensures WakeUpComing(s)
  {
  }

  /** A sleeping waiter goes on sleeping, or leaves: the others are as they were. */
  lemma SleeperMoves(s: State, u: State, t: Thread)
    requires WakeUpComing(s) && t in s.waiters && Asleep(s.waiters[t])
    requires u == Moved(s, t, Selecting) || u == Moved(s, t, Away)
    ensures WakeUpComing(u)
  {
    assert forall v :: v in s.waiters && Alert(s.waiters[v]) ==> v in u.waiters && Alert(u.waiters[v]);
  }

  lemma {:induction false} RunKeeps(states: seq<State>, steps: seq<Step>, i: nat)
    requires IsRun(states, steps) && i < |states|
    ensures WakeUpComing(states[i])
  {
    if i == 0 {
      StartComing(states[0]);
    } else {
      RunKeeps(states, steps, i - 1);
      StepKeeps(states[i - 1], steps[i - 1]);
    }
  }

  /** No lost wake-up: under every interleaving, whenever a waiter is blocked in select
      with the flag set, the slot empty and no signaller between its two steps,
      another waiter is awake with the flag before it. A waiter that is the only
      one is never blocked so. */
  lemma NoLostWakeUp(states: seq<State>, steps: seq<Step>, i: nat, t: Thread)
    requires IsRun(states, steps) && i < |states| && At(states[i], t, Selecting)
    requires states[i].hasPendingTxs && !states[i].wake && states[i].signalling == {}
    ensures exists v :: v in states[i].waiters && v != t && Alert(states[i].waiters[v])
    ensures |states[i].waiters| > 1
  {
    RunKeeps(states, steps, i);
    var s := states[i];
    assert Asleep(s.waiters[t]);
    var v :| v in s.waiters && Alert(s.waiters[v]);
    assert v != t;
    assert {t, v} <= s.waiters.Keys;
    TwoKeys(s.waiters.Keys, t, v);
  }

  lemma TwoKeys(keys: set<Thread>, t: Thread, v: Thread)
    requires t in keys && v in keys && t != v
    ensures |keys| > 1
  {
    assert |keys - {t}| == |keys| - 1;
    assert v in keys - {t};
  }

  /** With two waiters the bare property fails: the second is blocked with the flag
      set, the slot empty and nobody signalling, while the first has taken the
      wake-up and is about to read the flag. */
  lemma TwoWaiters() returns (states: seq<State>, steps: seq<Step>)
    ensures IsRun(states, steps) && |states| > 0
    ensures var s := states[|states| - 1];
      s.hasPendingTxs && !s.wake && s.signalling == {} && At(s, 1, Selecting)
  {
    hide IsRun;
    var s0 := State(false, false, {}, map[0 := Away, 1 := Away]);
    states, steps := [s0], [];
    RunStarts(s0);
    states, steps := Goes(states, steps, s0, Enter(0));
    states, steps := Goes(states, steps, states[|states| - 1], ReadFlag(0));
    states, steps := Goes(states, steps, states[|states| - 1], Decide(0, false));
    states, steps := Goes(states, steps, states[|states| - 1], Enter(1));
    states, steps := Goes(states, steps, states[|states| - 1], ReadFlag(1));
    states, steps := Goes(states, steps, states[|states| - 1], Decide(1, false));
    states, steps := Goes(states, steps, states[|states| - 1], SetFlag(2));
    states, steps := Goes(states, steps, states[|states| - 1], Send(2));
    states, steps := Goes(states, steps, states[|states| - 1], Wake(0));
  }

  lemma RunStarts(s: State)
    requires Start(s)
    ensures IsRun([s], [])
  {
  }

  lemma Goes(states: seq<State>, steps: seq<Step>, last: State, step: Step) returns (more: seq<State>, taken: seq<Step>)
    requires IsRun(states, steps) && |states| > 0 && last == states[|states| - 1] && Enabled(last, step)
    ensures IsRun(more, taken) && |more| > 0 && more[|more| - 1] == Next(last, step)
  {
    more, taken := states + [Next(last, step)], steps + [step];
  }

  // ---- what the state of a run remembers

  /** The steps that waiter t takes itself. */
  predicate Own(t: Thread, step: Step) {
    match step
    case Enter(v) => v == t
    case ReadFlag(v) => v == t
    case Decide(v, _) => v == t
    case Return(v) => v == t
    case Wake(v) => v == t
    case Tick(v) => v == t
    case GiveUp(v) => v == t
    case SetFlag(_) => false
    case Send(_) => false
    case ClearFlag => false
  }

  /** The last step of waiter t before the i-th. */
  ghost predicate LastOwn(steps: seq<Step>, t: Thread, j: nat, i: nat) {
    j < i <= |steps| && Own(t, steps[j]) && forall k :: j < k < i ==> !Own(t, steps[k])
  }

  /** A step of another goroutine does not move the waiter. */
  lemma OthersKeep(s: State, step: Step, t: Thread)
    requires Enabled(s, step) && !Own(t, step)
    ensures t in Next(s, step).waiters <==> t in s.waiters
    ensures t in s.waiters ==> Next(s, step).waiters[t] == s.waiters[t]
  {
  }

  /** Until its next step a waiter stays where its last one took it. */
  lemma {:induction false} StaysPut(states: seq<State>, steps: seq<Step>, t: Thread, j: nat, i: nat)
    requires IsRun(states, steps) && j <= i < |states| && forall k :: j <= k < i ==> !Own(t, steps[k])
    ensures t in states[i].waiters <==> t in states[j].waiters
    ensures t in states[j].waiters ==> states[i].waiters[t] == states[j].waiters[t]
    decreases i
  {
    hide Own, Next, Enabled;
    if j < i {
      StaysPut(states, steps, t, j, i - 1);
      OthersKeep(states[i - 1], steps[i - 1], t);
    }
  }

  /** A waiter that is in the method has taken a step. */
  lemma {:induction false} HasLastOwn(states: seq<State>, steps: seq<Step>, t: Thread, i: nat) returns (j: nat)
    requires IsRun(states, steps) && i < |states| && t in states[i].waiters && states[i].waiters[t] != Away
    ensures LastOwn(steps, t, j, i)
    decreases i
  {
    hide Own, Next, Enabled;
    if Own(t, steps[i - 1]) {
      j := i - 1;
    } else {
      OthersKeep(states[i - 1], steps[i - 1], t);
      j := HasLastOwn(states, steps, t, i - 1);
    }
  }

  /** Where a step takes the waiter whose own it is. */
  lemma OwnMoves(s: State, step: Step, t: Thread)
    requires Enabled(s, step) && Own(t, step)
    ensures t in s.waiters && t in Next(s, step).waiters
    ensures var w, u := s.waiters[t], Next(s, step).waiters[t];
      && (step.Enter? ==> w == Away && u == Reading)
      && (step.ReadFlag? ==> w == Reading && u == Read(s.hasPendingTxs))
      && (step.Decide? ==> w.Read? && u == if w.pending || step.needToBuild then Clearing else Selecting)
      && (step.Return? ==> w == Clearing && u == Away)
      && (step.Wake? || step.Tick? ==> w == Selecting && u == Reading)
      && (step.GiveUp? ==> w == Selecting && u == Away)
  {
  }

  /** A waiter that has read the flag: what it read, and when. */
  lemma ReadWas(states: seq<State>, steps: seq<Step>, t: Thread, i: nat) returns (j: nat)
    requires IsRun(states, steps) && i < |states| && t in states[i].waiters && states[i].waiters[t].Read?
    ensures LastOwn(steps, t, j, i) && steps[j] == ReadFlag(t)
    ensures states[i].waiters[t].pending == states[j].hasPendingTxs
  {
    hide Own, Next, Enabled, IsRun;
    j := LastMove(states, steps, t, i);
    OwnIs(t, steps[j]);
  }

  /** The last step of a waiter in the method, and that it took the waiter there. */
  lemma LastMove(states: seq<State>, steps: seq<Step>, t: Thread, i: nat) returns (j: nat)
    requires IsRun(states, steps) && i < |states| && t in states[i].waiters && states[i].waiters[t] != Away
    ensures LastOwn(steps, t, j, i) && |states| == |steps| + 1 && Enabled(states[j], steps[j])
    ensures var w := states[i].waiters[t];
      && t in states[j].waiters
      && (steps[j].Enter? || steps[j].Wake? || steps[j].Tick? ==> w == Reading)
      && (steps[j].ReadFlag? ==> states[j].waiters[t] == Reading && w == Read(states[j].hasPendingTxs))
      && (steps[j].Decide? ==> states[j].waiters[t].Read?)
      && (steps[j].Decide? ==>
            w == if states[j].waiters[t].pending || steps[j].needToBuild then Clearing else Selecting)
      && !steps[j].Return? && !steps[j].GiveUp?
  {
    hide Own, Next, Enabled;
    j := HasLastOwn(states, steps, t, i);
    StaysPut(states, steps, t, j + 1, i);
    OwnMoves(states[j], steps[j], t);
  }

  lemma OwnIs(t: Thread, step: Step)
    ensures Own(t, step) ==>
      || step == Enter(t) || step == ReadFlag(t) || (step.Decide? && step.t == t) || step == Return(t)
      || step == Wake(t) || step == Tick(t) || step == GiveUp(t)
  {
  }

  /** Why a waiter is blocked, or about to return nil: it read the flag, asked whether
      there is anything to build, and did nothing else since. It is blocked exactly when
      the flag was clear at that moment and the answer was no. */
  lemma DecidedBy(states: seq<State>, steps: seq<Step>, t: Thread, i: nat) returns (read: nat, decide: nat)
    requires IsRun(states, steps) && i < |states|
    requires At(states[i], t, Selecting) || At(states[i], t, Clearing)
    ensures read < decide < i && steps[read] == ReadFlag(t)
    ensures LastOwn(steps, t, read, decide) && LastOwn(steps, t, decide, i)
    ensures steps[decide].Decide? && steps[decide].t == t
    ensures At(states[i], t, Selecting) <==> !states[read].hasPendingTxs && !steps[decide].needToBuild
    ensures At(states[i], t, Clearing) <==> states[read].hasPendingTxs || steps[decide].needToBuild
  {
    hide Own, Next, Enabled, IsRun;
    decide := LastMove(states, steps, t, i);
    OwnIs(t, steps[decide]);
    read := ReadWas(states, steps, t, decide);
  }

  /** A waiter returns nil only if it had read the flag set, or there was something to
      build when it asked. */
  lemma ReturnsFor(states: seq<State>, steps: seq<Step>, t: Thread, i: nat) returns (read: nat, decide: nat)
    requires IsRun(states, steps) && i < |steps| && steps[i] == Return(t)
    ensures read < decide < i && steps[read] == ReadFlag(t) && steps[decide].Decide? && steps[decide].t == t
    ensures LastOwn(steps, t, read, decide) && LastOwn(steps, t, decide, i)
    ensures |states| > i && (states[read].hasPendingTxs || steps[decide].needToBuild)
  {
    hide Own, Next;
    read, decide := DecidedBy(states, steps, t, i);
  }

  /** The recheck: a waiter woken by a signal or by the clock that then reads the flag and
      asks is about to return if the flag was set or there is something to build, and is
      blocked again if neither. Nothing the others do meanwhile matters. */
  lemma Rechecks(states: seq<State>, steps: seq<Step>, t: Thread, woken: nat, read: nat, decide: nat)
    requires IsRun(states, steps) && woken < read < decide < |steps|
    requires steps[woken] == Tick(t) || steps[woken] == Wake(t)
    requires steps[read] == ReadFlag(t) && steps[decide].Decide? && steps[decide].t == t
    requires LastOwn(steps, t, woken, read) && LastOwn(steps, t, read, decide)
    ensures |states| == |steps| + 1
    ensures At(states[woken + 1], t, Reading) && At(states[read], t, Reading)
    ensures At(states[decide + 1], t, Clearing) <==> states[read].hasPendingTxs || steps[decide].needToBuild
    ensures At(states[decide + 1], t, Selecting) <==> !states[read].hasPendingTxs && !steps[decide].needToBuild
  {
    hide Own, Next, Enabled;
    OwnWaits(t, steps[woken], steps[read], steps[decide]);
    OwnMoves(states[woken], steps[woken], t);
    StaysPut(states, steps, t, woken + 1, read);
    OwnMoves(states[read], steps[read], t);
    StaysPut(states, steps, t, read + 1, decide);
    OwnMoves(states[decide], steps[decide], t);
  }

  lemma OwnWaits(t: Thread, woken: Step, read: Step, decide: Step)
    ensures woken == Tick(t) || woken == Wake(t) ==> Own(t, woken)
    ensures read == ReadFlag(t) ==> Own(t, read)
    ensures decide.Decide? && decide.t == t ==> Own(t, decide)
  {
  }

  // ---- flag, slot and signallers are what their last change made them

  predicate Clears(step: Step) {
    step.ClearFlag? || step.Return?
  }

  ghost predicate SetSince(steps: seq<Step>, i: nat, j: nat) {
    j < i <= |steps| && steps[j].SetFlag? && forall k :: j < k < i ==> !Clears(steps[k])
  }

  /** The flag is set exactly when it was set and has not been cleared since. */
  lemma {:induction false} FlagIs(states: seq<State>, steps: seq<Step>, i: nat)
    requires IsRun(states, steps) && i < |states|
    ensures states[i].hasPendingTxs <==> exists j: nat :: SetSince(steps, i, j)
  {
    if i > 0 {
      var last := i - 1;
      FlagIs(states, steps, last);
      assert SetSince(steps, i, last) <==> steps[last].SetFlag?;
      forall j: nat | j < last
        ensures SetSince(steps, i, j) <==> SetSince(steps, last, j) && !Clears(steps[last])
      {
      }
    }
  }

  ghost predicate SentSince(steps: seq<Step>, i: nat, j: nat) {
    j < i <= |steps| && steps[j].Send? && forall k :: j < k < i ==> !steps[k].Wake?
  }

  /** The slot is full exactly when something was sent and nothing received since. */
  lemma {:induction false} SlotIs(states: seq<State>, steps: seq<Step>, i: nat)
    requires IsRun(states, steps) && i < |states|
    ensures states[i].wake <==> exists j: nat :: SentSince(steps, i, j)
  {
    if i > 0 {
      var last := i - 1;
      SlotIs(states, steps, last);
      assert SentSince(steps, i, last) <==> steps[last].Send?;
      forall j: nat | j < last
        ensures SentSince(steps, i, j) <==> SentSince(steps, last, j) && !steps[last].Wake?
      {
      }
    }
  }

  ghost predicate OwesSend(steps: seq<Step>, t: Thread, i: nat, j: nat) {
    j < i <= |steps| && steps[j] == SetFlag(t) && forall k :: j < k < i ==> steps[k] != Send(t)
  }

  /** A signaller is one that has set the flag and not sent since. */
  lemma {:induction false} SignallerIs(states: seq<State>, steps: seq<Step>, t: Thread, i: nat)
    requires IsRun(states, steps) && i < |states|
    ensures t in states[i].signalling <==> exists j: nat :: OwesSend(steps, t, i, j)
  {
    if i > 0 {
      var last := i - 1;
      SignallerIs(states, steps, t, last);
      assert OwesSend(steps, t, i, last) <==> steps[last] == SetFlag(t);
      forall j: nat | j < last
        ensures OwesSend(steps, t, i, j) <==> OwesSend(steps, t, last, j) && steps[last] != Send(t)
      {
      }
    }
  }

  /** A waiter is away exactly when it has taken no step, or its last was to return or to
      give up. */
  lemma AwayIs(states: seq<State>, steps: seq<Step>, t: Thread, i: nat)
    requires IsRun(states, steps) && i < |states| && t in states[i].waiters
    ensures states[i].waiters[t] == Away <==>
      forall j: nat :: LastOwn(steps, t, j, i) ==> steps[j] == Return(t) || steps[j] == GiveUp(t)
  {
    hide Own, Next, Enabled, IsRun;
    if states[i].waiters[t] != Away {
      var j := LastMove(states, steps, t, i);
    } else {
      forall j: nat | LastOwn(steps, t, j, i)
        ensures steps[j] == Return(t) || steps[j] == GiveUp(t)
      {
        AwayBy(states, steps, t, j, i);
      }
    }
  }

  lemma AwayBy(states: seq<State>, steps: seq<Step>, t: Thread, j: nat, i: nat)
    requires IsRun(states, steps) && i < |states| && At(states[i], t, Away) && LastOwn(steps, t, j, i)
    ensures steps[j] == Return(t) || steps[j] == GiveUp(t)
  {
    hide Own, Next, Enabled;
    StaysPut(states, steps, t, j + 1, i);
    OwnMoves(states[j], steps[j], t);
    OwnIs(t, steps[j]);
  }
}
