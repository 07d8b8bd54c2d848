/**
 * The wake gate between the actor, its workers and the UI: a locked effect queue, a
 * published snapshot and one atomic flag that decides who wakes the UI.
 *
 * A state machine over the atomic instructions of any number of threads. A worker
 * pushes under the queue lock and then flips the gate; the actor stores a snapshot and
 * then flips the gate; whoever flips it from false to true invokes the wakers. A drain
 * holds the queue lock while it clears the gate and takes the queue.
 */
module WakeGate {
  type Thread = nat
  type Effect = nat

  datatype Drain = NotDraining | Locked | Rearmed

  /**
   * `pushed`, `stored` and `waking` are the threads between two of their instructions. The
   * last six fields record history: all effects pushed and drained, gate flips, wakes
   * issued, re-arms that found the gate set, and the snapshot seen by the last re-arm.
   */
  datatype State = State(
    queue: seq<Effect>, gate: bool, drain: Drain, snapshot: nat,
    pushed: set<Thread>, stored: set<Thread>, waking: set<Thread>,
    pushLog: seq<Effect>, drainLog: seq<Effect>, flips: nat, wakes: nat, rearms: nat, seen: nat)

  const START: State := State([], false, NotDraining, 0, {}, {}, {}, [], [], 0, 0, 0, 0)

  datatype Action =
    | Push(thread: Thread, effect: Effect)
    | StoreSnapshot(thread: Thread)
    | Flip(thread: Thread)
    | Wake(thread: Thread)
    | LockQueue
    | Rearm
    | TakeQueue

  predicate Busy(s: State, t: Thread) {
    t in s.pushed || t in s.stored || t in s.waking
  }

  /** An instruction that cannot run now (lock taken, thread elsewhere) leaves the state alone. */
  function Next(s: State, a: Action): State {
    match a
    case Push(t, e) =>
      if Busy(s, t) || s.drain != NotDraining then s
      else s.(queue := s.queue + [e], pushLog := s.pushLog + [e], pushed := s.pushed + {t})
    case StoreSnapshot(t) =>
      if Busy(s, t) then s else s.(snapshot := s.snapshot + 1, stored := s.stored + {t})
    case Flip(t) =>
      if t !in s.pushed && t !in s.stored then s
      else
        var idle := s.(pushed := s.pushed - {t}, stored := s.stored - {t});
        if s.gate then idle else idle.(gate := true, flips := s.flips + 1, waking := s.waking + {t})
    case Wake(t) =>
      if t !in s.waking then s else s.(waking := s.waking - {t}, wakes := s.wakes + 1)
    case LockQueue =>
      if s.drain != NotDraining then s else s.(drain := Locked)
    case Rearm =>
      if s.drain != Locked then s
      else s.(drain := Rearmed, gate := false, seen := s.snapshot, rearms := s.rearms + (if s.gate then 1 else 0))
    case TakeQueue =>
      if s.drain != Rearmed then s else s.(drain := NotDraining, queue := [], drainLog := s.drainLog + s.queue)
  }

  function After(actions: seq<Action>): State {
    if actions == [] then START else Next(After(actions[..|actions| - 1]), actions[|actions| - 1])
  }

  /** Work is waiting that the last re-arm did not cover. */
  predicate EffectsWait(s: State) {
    s.queue != [] && s.drain != Rearmed
  }

  predicate SnapshotWaits(s: State) {
    s.snapshot != s.seen
  }

  ghost predicate Inv(s: State) {
    && s.drainLog + s.queue == s.pushLog
    && (EffectsWait(s) ==> s.gate || s.pushed != {})
    && (SnapshotWaits(s) ==> s.gate || s.stored != {})
    && s.flips == s.rearms + (if s.gate then 1 else 0)
    && s.wakes + |s.waking| == s.flips
    && s.pushed !! s.waking && s.stored !! s.waking
  }

  lemma NextKeepsInv(s: State, a: Action)
    requires Inv(s)
    ensures Inv(Next(s, a))
  {
    match a
    case Push(t, e) =>
      assert s.drainLog + (s.queue + [e]) == (s.drainLog + s.queue) + [e];
    case Flip(t) =>
      assert t !in s.waking ==> |s.waking + {t}| == |s.waking| + 1;
    case TakeQueue =>
      assert s.drainLog + s.queue + [] == s.drainLog + s.queue;
    case _ =>
  }

  lemma {:induction false} EveryRunKeepsInv(actions: seq<Action>)
    ensures Inv(After(actions))
  {
    if actions != [] {
      EveryRunKeepsInv(actions[..|actions| - 1]);
      NextKeepsInv(After(actions[..|actions| - 1]), actions[|actions| - 1]);
    }
  }

  /**
   * No lost wake: under every interleaving, work that waits outside a drain is covered by the set
   * gate or by a thread that has yet to flip it; and once no thread is between two instructions,
   * the gate is set and every wake owed, including the one for this work, has been issued.
   */
  lemma NoLostWake(actions: seq<Action>)
    ensures var s := After(actions);
            && (EffectsWait(s) ==> s.gate || s.pushed != {})
            && (SnapshotWaits(s) ==> s.gate || s.stored != {})
            && ((EffectsWait(s) || SnapshotWaits(s)) && s.pushed == s.stored == s.waking == {} ==>
                  s.gate && s.wakes == s.rearms + 1)
  {
    EveryRunKeepsInv(actions);
  }

  /** Effects come out exactly once and in the order they were pushed. */
  lemma EffectsDrainInOrder(actions: seq<Action>)
    ensures var s := After(actions); s.drainLog + s.queue == s.pushLog
  {
    EveryRunKeepsInv(actions);
  }

  /** In every stretch of a run that re-arms the gate at most `n` times, at most `n + 1` wakes start. */
  lemma OneWakePerRearm(actions: seq<Action>, more: seq<Action>)
    ensures var s, s' := After(actions), After(actions + more);
            && s'.flips - s.flips <= s'.rearms - s.rearms + 1
            && s'.wakes <= s'.rearms + 1
            && (s.gate ==> s'.flips - s.flips <= s'.rearms - s.rearms)
  {
    EveryRunKeepsInv(actions);
    EveryRunKeepsInv(actions + more);
  }

  // ------------------------------------------------------------------
  // The history fields, told by the actions of the run
  // ------------------------------------------------------------------

  /** Thread `t` is between two instructions of its own. */
  predicate MidCall(s: State, t: Thread) {
    t in s.pushed + s.stored + s.waking
  }

  /** The effects of the pushes that found their thread free and the queue lock open, in order. */
  function PushedEffects(actions: seq<Action>): seq<Effect> {
    if actions == [] then []
    else
      var init, last := actions[..|actions| - 1], actions[|actions| - 1];
      PushedEffects(init)
      + (if last.Push? && !MidCall(After(init), last.thread) && After(init).drain == NotDraining then [last.effect] else [])
  }

  /** Snapshots stored by free threads. */
  function SnapshotsStored(actions: seq<Action>): nat {
    if actions == [] then 0
    else
      var init, last := actions[..|actions| - 1], actions[|actions| - 1];
      SnapshotsStored(init) + (if last.StoreSnapshot? && !MidCall(After(init), last.thread) then 1 else 0)
  }

  lemma NextHistory(s: State, a: Action)
    ensures var t := Next(s, a);
            && t.pushLog == s.pushLog
                            + (if a.Push? && !MidCall(s, a.thread) && s.drain == NotDraining then [a.effect] else [])
            && t.snapshot == s.snapshot + (if a.StoreSnapshot? && !MidCall(s, a.thread) then 1 else 0)
  {
  }

  /** Nothing is lost or made up: every accepted push is drained or waiting, in order, and every snapshot counts. */
  lemma {:induction false} HistoryIsTheRun(actions: seq<Action>)
    ensures var s := After(actions);
            s.drainLog + s.queue == PushedEffects(actions) && s.snapshot == SnapshotsStored(actions)
  {
    EffectsDrainInOrder(actions);
    LogsAreTheRun(actions);
  }

  lemma {:induction false} LogsAreTheRun(actions: seq<Action>)
    ensures After(actions).pushLog == PushedEffects(actions) && After(actions).snapshot == SnapshotsStored(actions)
  {
    hide Next;
    if actions != [] {
      LogsAreTheRun(actions[..|actions| - 1]);
      NextHistory(After(actions[..|actions| - 1]), actions[|actions| - 1]);
    }
  }

  lemma AfterThree(actions: seq<Action>, a: Action, b: Action, c: Action)
    ensures After(actions + [a, b, c]) == Next(Next(Next(After(actions), a), b), c)
  {
    hide Next;
    assert (actions + [a])[..|actions|] == actions;
    assert (actions + [a, b])[..|actions| + 1] == actions + [a];
    assert (actions + [a, b, c])[..|actions| + 2] == actions + [a, b];
    assert After(actions + [a]) == Next(After(actions), a);
    assert After(actions + [a, b]) == Next(After(actions + [a]), b);
  }

  /** A whole drain, from the free lock: the gate is open again, and the queue came out once and entirely. */
  lemma DrainTakesAll(actions: seq<Action>)
    requires After(actions).drain == NotDraining
    ensures var s, t := After(actions), After(actions + [LockQueue, Rearm, TakeQueue]);
            && t.queue == [] && t.drainLog == s.drainLog + s.queue && !t.gate && t.seen == t.snapshot
            && t.drain == NotDraining
  {
    AfterThree(actions, LockQueue, Rearm, TakeQueue);
  }

  /** A push, its flip and its wake, with nothing in between: the UI is woken exactly if the gate was open. */
  lemma PushWakes(actions: seq<Action>, t: Thread, e: Effect)
    requires After(actions).drain == NotDraining && !MidCall(After(actions), t)
    ensures var s, r := After(actions), After(actions + [Push(t, e), Flip(t), Wake(t)]);
            && r.queue == s.queue + [e] && r.gate && r.wakes == s.wakes + (if s.gate then 0 else 1)
            && r.pushed == s.pushed && r.waking == s.waking
  {
    AfterThree(actions, Push(t, e), Flip(t), Wake(t));
  }
}
