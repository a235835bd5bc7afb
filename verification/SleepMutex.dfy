/**
 * The sleeping mutex over a wait queue with a wake sequence number, as a machine of atomic steps:
 * what one thread does under the mutex's spin lock, or under the scheduler lock, is one step.
 * Any number of threads run in any order.
 */
module SleepMutex {
  import opened Sets

  type Thread = nat

  /**
   * Where a thread is.  `Check` is about to take the spin lock and look at `held`; `ReadSeq` holds
   * the spin lock, has found the mutex taken and reads the sequence number; `Attach` is about to
   * take the scheduler lock and go to sleep; `Waking` has released the mutex and has yet to wake.
   */
  datatype Pc = Outside | Check(queue: bool) | ReadSeq(queue: bool) | NoQueue | Attach(seen: nat) | Sleeping | Holding | Waking

  /** `parked` threads were stopped: they take no step of their own until they are continued. */
  datatype State = State(held: bool, spin: bool, installed: bool, wakeSeq: nat, queue: seq<Thread>, pc: map<Thread, Pc>,
                         parked: set<Thread>)

  function At(s: State, t: Thread): Pc {
    if t in s.pc then s.pc[t] else Outside
  }

  function Go(s: State, t: Thread, c: Pc): State {
    s.(pc := s.pc[t := c])
  }

  const INITIAL: State := State(false, false, false, 0, [], map[], {})

  datatype Step =
    | Enter(t: Thread, created: bool)
    | Look(t: Thread)
    | NoteSeq(t: Thread)
    | GetQueue(t: Thread, created: bool)
    | GiveUp(t: Thread)
    | Block(t: Thread)
    | Disturb(t: Thread)
    | Stop(t: Thread)
    | Continue(t: Thread)
    | TryLock(t: Thread)
    | Unlock(t: Thread)
    | WakeOne(t: Thread)

  function Remove(q: seq<Thread>, t: Thread): seq<Thread> {
    if q == [] then [] else if q[0] == t then q[1..] else [q[0]] + Remove(q[1..], t)
  }

  predicate Enabled(s: State, step: Step) {
    if step.Continue? then step.t in s.parked else step.t !in s.parked && Placed(s, step)
  }

  /** The thread is where the step starts.  A thread with the spin lock runs with interrupts off: it is not stopped there. */
  predicate Placed(s: State, step: Step) {
    match step
    case Enter(t, _) => At(s, t).Outside?
    case Look(t) => At(s, t).Check? && !s.spin
    case NoteSeq(t) => At(s, t).ReadSeq?
    case GetQueue(t, _) => At(s, t).NoQueue?
    case GiveUp(t) => At(s, t).Attach?
    case Block(t) => At(s, t).Attach?
    case Disturb(t) => At(s, t).Sleeping?
    case Stop(t) => !At(s, t).ReadSeq?
    case Continue(_) => true
    case TryLock(t) => At(s, t).Outside? && !s.spin
    case Unlock(t) => At(s, t).Holding? && !s.spin
    case WakeOne(t) => At(s, t).Waking?
  }

  /** One atomic step. */
  function Do(s: State, step: Step): State
    requires Enabled(s, step)
  {
    match step
    // lock: fetch the wait queue, creating it unless memory is short
    case Enter(t, created) =>
      Go(s.(installed := s.installed || created), t, Check(s.installed || created))
    // under the spin lock: take a free mutex, or go on to read the sequence number
    case Look(t) =>
      if !s.held then Go(s.(held := true), t, Holding) else Go(s.(spin := true), t, ReadSeq(At(s, t).queue))
    case NoteSeq(t) =>
      Go(s.(spin := false), t, if At(s, t).queue then Attach(s.wakeSeq) else NoQueue)
    case GetQueue(t, created) =>
      Go(s.(installed := s.installed || created), t, Check(s.installed || created))
    // sleeping is not allowed here: try again
    case GiveUp(t) =>
      Go(s, t, Check(true))
    // under the scheduler lock: sleep unless a wake came in between
    case Block(t) =>
      if s.wakeSeq == At(s, t).seen then Go(s.(queue := s.queue + [t]), t, Sleeping) else Go(s, t, Check(true))
    // a signal that the sleeper has masked takes it out of the queue: it will look again
    case Disturb(t) =>
      Go(s.(queue := Remove(s.queue, t)), t, Check(true))
    // a stop parks the thread; a sleeper leaves the queue and will look again once it is continued
    case Stop(t) =>
      if At(s, t).Sleeping? then Go(s.(queue := Remove(s.queue, t), parked := s.parked + {t}), t, Check(true))
      else s.(parked := s.parked + {t})
    // SIGCONT, or a SIGKILL that the thread must run to act on
    case Continue(t) =>
      s.(parked := s.parked - {t})
    case TryLock(t) =>
      if !s.held then Go(s.(held := true), t, Holding) else s
    // under the spin lock: release, and remember the queue
    case Unlock(t) =>
      Go(s.(held := false), t, if s.installed then Waking else Outside)
    // under the scheduler lock: count the wake and pop the first sleeper
    case WakeOne(t) =>
      var w := Go(s.(wakeSeq := s.wakeSeq + 1), t, Outside);
      if s.queue == [] then w else Go(w.(queue := s.queue[1..]), s.queue[0], Check(true))
  }

  /** A run: steps that are not enabled do nothing. */
  function Run(s: State, steps: seq<Step>): State {
    if steps == [] then s
    else
      var last := Run(s, steps[..|steps| - 1]);
      if Enabled(last, steps[|steps| - 1]) then Do(last, steps[|steps| - 1]) else last
  }

  // ----- the invariant

  ghost predicate Owned(s: State) {
    && (forall t :: At(s, t).Holding? ==> s.held)
    && (forall t, u :: At(s, t).Holding? && At(s, u).Holding? ==> t == u)
    && (s.held ==> exists t :: At(s, t).Holding?)
  }

  ghost predicate Spinning(s: State) {
    && (forall t :: At(s, t).ReadSeq? ==> s.spin && s.held)
    && (s.spin ==> exists t :: At(s, t).ReadSeq?)
    && (forall t, u :: At(s, t).ReadSeq? && At(s, u).ReadSeq? ==> t == u)
  }

  /** The queue holds exactly the sleepers, each once. */
  ghost predicate Queued(s: State) {
    NoRepeats(s.queue) && forall t :: t in s.queue <==> At(s, t).Sleeping?
  }

  /** Whoever sleeps, is about to, or is about to wake, uses the installed queue. */
  ghost predicate Installed(s: State) {
    forall t :: NeedsQueue(At(s, t)) ==> s.installed
  }

  predicate NeedsQueue(c: Pc) {
    c.Sleeping? || c.Attach? || c.Waking? || (c.Check? && c.queue) || (c.ReadSeq? && c.queue)
  }

  ghost predicate Seen(s: State) {
    forall t :: At(s, t).Attach? ==> At(s, t).seen <= s.wakeSeq
  }

  /** Asleep, or bound to fall asleep if nothing happens first. */
  predicate Dormant(s: State, t: Thread) {
    At(s, t).Sleeping? || (At(s, t).Attach? && At(s, t).seen == s.wakeSeq)
  }

  /** Has a wake to deliver, or has yet to look at the mutex again. */
  predicate Active(s: State, t: Thread) {
    At(s, t).Waking? || At(s, t).Check? || At(s, t).NoQueue? || (At(s, t).Attach? && At(s, t).seen != s.wakeSeq)
  }

  /** On the way, and not stopped. */
  predicate Awake(s: State, t: Thread) {
    Active(s, t) && t !in s.parked
  }

  /** A stopped thread is neither in the queue nor inside the spin lock. */
  ghost predicate Parked(s: State) {
    forall t :: t in s.parked ==> !At(s, t).Sleeping? && !At(s, t).ReadSeq?
  }

  /** A free mutex with a sleeper always has somebody on the way to wake it or to take the mutex. */
  ghost predicate NoLostWakeup(s: State) {
    !s.held && (exists t :: Dormant(s, t)) ==> exists u :: Active(s, u)
  }

  ghost predicate Inv(s: State) {
    Owned(s) && Spinning(s) && Queued(s) && Installed(s) && Seen(s) && Parked(s) && NoLostWakeup(s)
  }

  // ----- every step keeps it

  /** What a step does to the place of a thread: it moves its own, and a wake that of the first sleeper. */
  lemma Places(s: State, step: Step)
    requires Enabled(s, step)
    ensures forall u :: u != step.t && !(step.WakeOne? && s.queue != [] && u == s.queue[0]) ==> At(Do(s, step), u) == At(s, u)
    ensures step.WakeOne? && s.queue != [] ==> At(Do(s, step), s.queue[0]) == Check(true)
    ensures step.WakeOne? && (s.queue == [] || s.queue[0] != step.t) ==> At(Do(s, step), step.t) == Outside
  {
    hide Remove;
  }

  lemma OwnedKept(s: State, step: Step)
    requires Owned(s) && Queued(s) && Enabled(s, step)
    ensures Owned(Do(s, step))
  {
    hide Remove, NoRepeats, Queued;
    var n := Do(s, step);
    HeadSleeps(s);
    Places(s, step);
    if s.held && !step.Unlock? {
      var h :| At(s, h).Holding?;
      assert At(n, h).Holding?;
    }
    if n.held && !s.held {
      assert At(n, step.t).Holding?;
    }
    forall t
      ensures At(n, t).Holding? ==> n.held && (At(s, t).Holding? || (t == step.t && !s.held)) && (step.Unlock? ==> false)
    {
      assert At(s, t).Holding? ==> s.held;
      assert step.Unlock? && At(s, t).Holding? ==> t == step.t;
    }
  }

  lemma SpinningKept(s: State, step: Step)
    requires Owned(s) && Spinning(s) && Queued(s) && Enabled(s, step)
    ensures Spinning(Do(s, step))
  {
    hide Remove, NoRepeats, Owned, Queued;
    var n := Do(s, step);
    HeadSleeps(s);
    Places(s, step);
    if s.spin {
      var h :| At(s, h).ReadSeq?;
      if step.t != h || step.Stop? || step.Continue? {
        assert At(n, h).ReadSeq?;
      }
    }
    if n.spin && !s.spin {
      assert At(n, step.t).ReadSeq?;
    }
    forall t
      ensures At(n, t).ReadSeq? ==> n.spin && n.held && (At(s, t).ReadSeq? || (t == step.t && !s.spin))
    {
      assert At(s, t).ReadSeq? ==> s.spin && s.held;
    }
  }

  lemma HeadSleeps(s: State)
    requires Queued(s)
    ensures s.queue != [] ==> At(s, s.queue[0]).Sleeping?
  {
    hide NoRepeats;
  }

  lemma NoRepeatsCons(x: Thread, q: seq<Thread>)
    ensures NoRepeats([x] + q) <==> x !in q && NoRepeats(q)
  {
    var c := [x] + q;
    assert forall i :: 0 <= i < |q| ==> c[i + 1] == q[i];
    if NoRepeats(c) {
      forall i | 0 <= i < |q|
        ensures q[i] != x
      {
        assert c[0] != c[i + 1];
      }
      forall i, j | 0 <= i < j < |q|
        ensures q[i] != q[j]
      {
        assert c[i + 1] != c[j + 1];
      }
    }
  }

  lemma {:induction false} RemoveFacts(q: seq<Thread>, t: Thread)
    requires NoRepeats(q)
    ensures NoRepeats(Remove(q, t)) && forall x :: x in Remove(q, t) <==> x in q && x != t
  {
    if q != [] {
      assert q == [q[0]] + q[1..];
      NoRepeatsCons(q[0], q[1..]);
      if q[0] != t {
        RemoveFacts(q[1..], t);
        NoRepeatsCons(q[0], Remove(q[1..], t));
      }
    }
    hide NoRepeats;
  }

  /** The others keep their order. */
  lemma {:induction false} RemoveOrder(a: seq<Thread>, t: Thread, b: seq<Thread>)
    requires t !in a
    ensures Remove(a + [t] + b, t) == a + b
  {
    var q := a + [t] + b;
    if a == [] {
      assert q[1..] == b;
    } else {
      assert q[1..] == a[1..] + [t] + b;
      RemoveOrder(a[1..], t, b);
      assert [a[0]] + (a[1..] + b) == a + b;
    }
  }

  /** How a step changes the queue. */
  lemma QueueAfter(s: State, step: Step)
    requires NoRepeats(s.queue) && Enabled(s, step)
    ensures var q := Do(s, step).queue;
            q == if step.Block? && s.wakeSeq == At(s, step.t).seen then s.queue + [step.t]
                 else if step.Disturb? || (step.Stop? && At(s, step.t).Sleeping?) then Remove(s.queue, step.t)
                 else if step.WakeOne? && s.queue != [] then s.queue[1..] else s.queue
  {
    hide Remove;
  }

  lemma AppendFacts(q: seq<Thread>, t: Thread)
    requires NoRepeats(q) && t !in q
    ensures NoRepeats(q + [t])
  {
  }

  lemma TailFacts(q: seq<Thread>)
    requires NoRepeats(q) && q != []
    ensures NoRepeats(q[1..]) && forall x :: x in q[1..] <==> x in q && x != q[0]
  {
    assert q == [q[0]] + q[1..];
    NoRepeatsCons(q[0], q[1..]);
  }

  lemma QueuedKept(s: State, step: Step)
    requires Queued(s) && Enabled(s, step)
    ensures Queued(Do(s, step))
  {
    hide Remove, NoRepeats;
    var n := Do(s, step);
    QueueAfter(s, step);
    RemoveFacts(s.queue, step.t);
    if step.Block? { AppendFacts(s.queue, step.t); }
    if step.WakeOne? && s.queue != [] { TailFacts(s.queue); }
    Places(s, step);
    forall t
      ensures t in n.queue <==> At(n, t).Sleeping?
    {
      assert t != step.t && !(step.WakeOne? && s.queue != [] && t == s.queue[0]) ==> At(n, t) == At(s, t);
    }
  }

  lemma InstalledKept(s: State, step: Step)
    requires Installed(s) && Queued(s) && Enabled(s, step)
    ensures Installed(Do(s, step))
  {
    hide Remove, NoRepeats;
    var n := Do(s, step);
    Places(s, step);
    forall t
      ensures NeedsQueue(At(n, t)) ==> n.installed
    {
      assert NeedsQueue(At(s, t)) ==> s.installed;
      assert NeedsQueue(At(s, step.t)) ==> s.installed;
    }
  }

  lemma SeenKept(s: State, step: Step)
    requires Seen(s) && Enabled(s, step)
    ensures Seen(Do(s, step))
  {
    hide Remove;
    var n := Do(s, step);
    Places(s, step);
    assert n.wakeSeq >= s.wakeSeq;
    forall t
      ensures At(n, t).Attach? ==> At(n, t).seen <= n.wakeSeq
    {
      assert At(s, t).Attach? ==> At(s, t).seen <= s.wakeSeq;
    }
  }

  lemma ParkedKept(s: State, step: Step)
    requires Parked(s) && Queued(s) && Enabled(s, step)
    ensures Parked(Do(s, step))
  {
    hide Remove, NoRepeats;
    Places(s, step);
  }

  lemma NoLostKept(s: State, step: Step)
    requires Inv(s) && Enabled(s, step)
    ensures NoLostWakeup(Do(s, step))
  {
    hide Remove, NoRepeats;
    var n := Do(s, step);
    if !n.held {
      if d :| Dormant(n, d) {
        StillActive(s, step, d);
      }
    }
  }

  /** The heart of the protocol: who keeps the promise after each step. */
  lemma StillActive(s: State, step: Step, d: Thread)
    requires Inv(s) && Enabled(s, step) && !Do(s, step).held && Dormant(Do(s, step), d)
    ensures exists u :: Active(Do(s, step), u)
  {
    hide Remove, NoRepeats, Owned;
    var n := Do(s, step);
    Places(s, step);
    match step
    case Enter(t, _) =>
      assert Active(n, t);
    case GetQueue(t, _) =>
      assert Active(n, t);
    case GiveUp(t) =>
      assert Active(n, t);
    case Disturb(t) =>
      assert Active(n, t);
    case Stop(t) =>
      if At(s, t).Sleeping? {
        assert Active(n, t);
      } else {
        assert Dormant(s, d);
        var u :| Active(s, u);
        assert Active(n, u);
      }
    case Continue(t) =>
      assert Dormant(s, d);
      var u :| Active(s, u);
      assert Active(n, u);
    case Unlock(t) =>
      assert NeedsQueue(At(s, d));
      assert Active(n, t);
    case WakeOne(t) =>
      assert At(s, d).Attach? ==> At(s, d).seen <= s.wakeSeq;
      assert s.queue != [];
      assert Active(n, s.queue[0]);
    case NoteSeq(t) =>
    case Block(t) =>
      if At(n, t).Sleeping? {
        assert Dormant(s, t);
        var u :| Active(s, u);
        assert Active(n, u);
      } else {
        assert Active(n, t);
      }
    case Look(t) =>
    case TryLock(t) =>
  }

  lemma InvKept(s: State, step: Step)
    requires Inv(s) && Enabled(s, step)
    ensures Inv(Do(s, step))
  {
    hide Do, Enabled, Owned, Spinning, Queued, Installed, Seen, Parked, NoLostWakeup;
    OwnedKept(s, step);
    SpinningKept(s, step);
    QueuedKept(s, step);
    InstalledKept(s, step);
    SeenKept(s, step);
    ParkedKept(s, step);
    NoLostKept(s, step);
  }

  lemma {:induction false} Always(steps: seq<Step>)
    ensures Inv(Run(INITIAL, steps))
  {
    hide Do, Enabled, Inv;
    if steps == [] {
      InitialInv();
    } else {
      var n := |steps| - 1;
      Always(steps[..n]);
      var s := Run(INITIAL, steps[..n]);
      if Enabled(s, steps[n]) { InvKept(s, steps[n]); }
    }
  }

  lemma InitialInv()
    ensures Inv(INITIAL)
  {
  }

  // ----- what the mutex promises

  /** In every run, at most one thread holds the mutex, and it is held exactly when one does. */
  lemma MutualExclusion(steps: seq<Step>, t: Thread, u: Thread)
    ensures At(Run(INITIAL, steps), t).Holding? && At(Run(INITIAL, steps), u).Holding? ==> t == u
    ensures Run(INITIAL, steps).held <==> exists h :: At(Run(INITIAL, steps), h).Holding?
  {
    Always(steps);
    hide Run;
  }

  /** In every run, whenever the mutex is free and a thread sleeps, a wake or a retry is on its way: by an awake
      thread when nobody is stopped at that point, and so in every run without stops. */
  lemma NoWakeupIsLost(steps: seq<Step>, t: Thread)
    requires !Run(INITIAL, steps).held && At(Run(INITIAL, steps), t).Sleeping?
    ensures exists u :: Active(Run(INITIAL, steps), u)
    ensures Run(INITIAL, steps).parked == {} || (forall k :: 0 <= k < |steps| ==> !steps[k].Stop?) ==>
              exists u :: Awake(Run(INITIAL, steps), u)
  {
    Always(steps);
    hide Run;
    assert Dormant(Run(INITIAL, steps), t);
    var u :| Active(Run(INITIAL, steps), u);
    if forall k :: 0 <= k < |steps| ==> !steps[k].Stop? { NobodyStopped(steps); }
    assert Run(INITIAL, steps).parked == {} ==> Awake(Run(INITIAL, steps), u);
  }

  lemma {:induction false} NobodyStopped(steps: seq<Step>)
    requires forall k :: 0 <= k < |steps| ==> !steps[k].Stop?
    ensures Run(INITIAL, steps).parked == {}
  {
    if steps != [] {
      NobodyStopped(steps[..|steps| - 1]);
    }
  }

  lemma RunMore(s: State, steps: seq<Step>, step: Step)
    requires Enabled(Run(s, steps), step)
    ensures Run(s, steps + [step]) == Do(Run(s, steps), step)
  {
    assert (steps + [step])[..|steps|] == steps;
  }

  /**
   * A step by which a thread that already asked for the mutex, or held it, goes on by itself.  The threads of
   * `restless` may not sleep where they are: they try again at once.  All others fall asleep.
   */
  predicate Own(step: Step, restless: set<Thread>) {
    || step.Look? || step.NoteSeq? || step.GetQueue? || step.Unlock? || step.WakeOne?
    || (step.GiveUp? && step.t in restless) || (step.Block? && step.t !in restless)
  }

  ghost predicate AllOwn(steps: seq<Step>, restless: set<Thread>) {
    forall k :: 0 <= k < |steps| ==> Own(steps[k], restless)
  }

  /** Comes to look at the mutex, or to wake somebody, by itself. */
  predicate Contends(s: State, t: Thread, restless: set<Thread>) {
    Awake(s, t) || (At(s, t).Attach? && t in restless && t !in s.parked)
  }

  /** A free mutex and nobody who will look at it. */
  ghost predicate Stalled(s: State, restless: set<Thread>) {
    Inv(s) && !s.held && forall u :: !Contends(s, u, restless)
  }

  /** Nothing happened but that threads fell asleep. */
  ghost predicate Settled(s: State, n: State) {
    && n == s.(queue := n.queue, pc := n.pc) && s.queue <= n.queue
    && forall u :: At(n, u) == At(s, u) || (At(s, u).Attach? && At(n, u).Sleeping?)
  }

  lemma StalledStep(s: State, step: Step, restless: set<Thread>)
    requires Stalled(s, restless) && Enabled(s, step) && Own(step, restless)
    ensures Stalled(Do(s, step), restless) && Settled(s, Do(s, step))
  {
    hide Remove, NoRepeats, Installed, Seen, Queued, NoLostWakeup;
    InvKept(s, step);
    assert !Contends(s, step.t, restless);
    assert step.Block? && At(s, step.t).seen == s.wakeSeq;
    var n := Do(s, step);
    forall u
      ensures !Contends(n, u, restless)
    {
      assert !Contends(s, u, restless);
    }
  }

  lemma SettledSelf(s: State)
    ensures Settled(s, s)
  {
  }

  lemma SettledMore(s: State, m: State, n: State)
    requires Settled(s, m) && Settled(m, n)
    ensures Settled(s, n)
  {
    hide At;
  }

  /** Once nobody will look at a free mutex, the threads that asked for it leave it free for good. */
  lemma {:induction false} StalledStays(s: State, steps: seq<Step>, restless: set<Thread>)
    requires Stalled(s, restless) && AllOwn(steps, restless)
    ensures Stalled(Run(s, steps), restless) && Settled(s, Run(s, steps))
  {
    hide Do, Enabled, Own, Stalled, Settled;
    if steps == [] {
      SettledSelf(s);
    } else {
      var k := |steps| - 1;
      StalledStays(s, steps[..k], restless);
      var m := Run(s, steps[..k]);
      if Enabled(m, steps[k]) {
        StalledStep(m, steps[k], restless);
        SettledMore(s, m, Do(m, steps[k]));
      }
    }
  }

  /**
   * With a free mutex and a sleeper, the threads that already asked for the mutex bring one of them to hold it,
   * in at most two steps, exactly when one of them contends: when one is awake on the way, or about to sleep
   * where it may not.  Otherwise whatever steps they take leave the mutex free, and only put threads to sleep.
   */
  lemma Progress(s: State, restless: set<Thread>) returns (steps: seq<Step>)
    requires Inv(s) && !s.held && exists d :: At(s, d).Sleeping?
    ensures AllOwn(steps, restless) && |steps| <= 2
    ensures (exists u :: Contends(s, u, restless)) <==> Run(s, steps).held
    ensures !(exists u :: Contends(s, u, restless)) ==>
              forall more :: AllOwn(more, restless) ==> !Run(s, more).held && Settled(s, Run(s, more))
  {
    hide Remove, NoRepeats, Owned, Installed, NoLostWakeup, Settled;
    if u :| Contends(s, u, restless) {
      steps := Advance(s, u, restless);
    } else {
      steps := [];
      forall more | AllOwn(more, restless)
        ensures !Run(s, more).held && Settled(s, Run(s, more))
      {
        StalledStays(s, more, restless);
      }
    }
  }

  /** When every thread may sleep, that is exactly when somebody is awake on the way. */
  lemma AwakeProgress(s: State) returns (steps: seq<Step>)
    requires Inv(s) && !s.held && exists d :: At(s, d).Sleeping?
    ensures AllOwn(steps, {}) && |steps| <= 2
    ensures (exists u :: Awake(s, u)) <==> Run(s, steps).held
    ensures !(exists u :: Awake(s, u)) ==> forall more :: AllOwn(more, {}) ==> !Run(s, more).held
  {
    hide Inv, AllOwn, Awake, Run;
    steps := Progress(s, {});
    assert forall u :: Contends(s, u, {}) == Awake(s, u);
  }

  lemma Advance(s: State, u: Thread, restless: set<Thread>) returns (steps: seq<Step>)
    requires Inv(s) && !s.held && Contends(s, u, restless) && exists d :: At(s, d).Sleeping?
    ensures |steps| <= 2 && AllOwn(steps, restless) && Run(s, steps).held
  {
    hide Remove, NoRepeats, Owned, Installed, NoLostWakeup;
    var d :| At(s, d).Sleeping?;
    assert !s.spin;
    if At(s, u).Check? {
      steps := Take(s, [], u, restless);
    } else {
      var step := if At(s, u).NoQueue? then GetQueue(u, true) else if At(s, u).Waking? then WakeOne(u)
                  else if u in restless then GiveUp(u) else Block(u);
      RunMore(s, [], step);
      Places(s, step);
      assert d in s.queue;
      assert s.queue[0] in s.queue;
      steps := Take(s, [] + [step], if step.WakeOne? then s.queue[0] else u, restless);
    }
  }

  lemma Take(s: State, steps: seq<Step>, t: Thread, restless: set<Thread>) returns (more: seq<Step>)
    requires At(Run(s, steps), t).Check? && !Run(s, steps).held && !Run(s, steps).spin && t !in Run(s, steps).parked
    requires AllOwn(steps, restless)
    ensures more == steps + [Look(t)] && Run(s, more).held && AllOwn(more, restless)
  {
    more := steps + [Look(t)];
    RunMore(s, steps, Look(t));
  }

  /** While a thread sleeps and nobody stops a thread, an awake thread on the way stays until the mutex is taken. */
  lemma AwakeStays(s: State, step: Step, t: Thread)
    requires Inv(s) && !s.held && Enabled(s, step) && !step.Stop? && !Do(s, step).held && At(Do(s, step), t).Sleeping?
    requires exists u :: Awake(s, u)
    ensures exists u :: Awake(Do(s, step), u)
  {
    hide Remove, NoRepeats, Owned, NoLostWakeup;
    var n := Do(s, step);
    Places(s, step);
    var u :| Awake(s, u);
    if step.t != u {
      assert step.WakeOne? && s.queue != [] ==> s.queue[0] in s.queue;
      assert Awake(n, if step.WakeOne? && s.queue != [] then s.queue[0] else u);
    } else if step.WakeOne? {
      assert t in s.queue;
      assert s.queue[0] in s.queue;
      assert Awake(n, s.queue[0]);
    } else {
      assert Awake(n, u);
    }
  }

  /** A stop takes the thread off the queue if it slept, and parks it; a continue lets it go on where it was. */
  lemma StopParks(s: State, t: Thread)
    requires Inv(s) && Enabled(s, Stop(t))
    ensures var p := Do(s, Stop(t));
            && t in p.parked && t !in p.queue && At(p, t) == (if At(s, t).Sleeping? then Check(true) else At(s, t))
            && Enabled(p, Continue(t)) && Do(p, Continue(t)) == p.(parked := s.parked)
  {
    hide Remove, NoRepeats, Owned, Spinning, NoLostWakeup;
    RemoveFacts(s.queue, t);
    assert s.parked + {t} - {t} == s.parked;
  }

  lemma ParkedStep(s: State, t: Thread, step: Step)
    requires Inv(s) && t in s.parked && Enabled(s, step) && step != Continue(t)
    ensures t in Do(s, step).parked && At(Do(s, step), t) == At(s, t)
  {
    hide Remove, NoRepeats, Owned, Spinning, NoLostWakeup;
    HeadSleeps(s);
    Places(s, step);
  }

  /** A stopped thread makes no move until it is continued, whatever the others do. */
  lemma {:induction false} StoppedStays(s: State, t: Thread, steps: seq<Step>)
    requires Inv(s) && t in s.parked && forall k :: 0 <= k < |steps| ==> steps[k] != Continue(t)
    ensures Inv(Run(s, steps)) && t in Run(s, steps).parked && At(Run(s, steps), t) == At(s, t)
  {
    hide Do, Enabled, Inv, At;
    if steps != [] {
      var k := |steps| - 1;
      StoppedStays(s, t, steps[..k]);
      var m := Run(s, steps[..k]);
      if Enabled(m, steps[k]) {
        InvKept(m, steps[k]);
        ParkedStep(m, t, steps[k]);
      }
    }
  }

  // ----- runs that stall

  lemma {:induction false} RunSum(s: State, a: seq<Step>, b: seq<Step>)
    ensures Run(s, a + b) == Run(Run(s, a), b)
  {
    hide Do, Enabled;
    if b == [] {
      assert a + b == a;
    } else {
      var k := |b| - 1;
      RunSum(s, a, b[..k]);
      assert (a + b)[..|a| + k] == a + b[..k];
    }
  }

  lemma RunOne(s: State, step: Step)
    requires Enabled(s, step)
    ensures Run(s, [step]) == Do(s, step)
  {
    hide Do, Enabled;
    RunMore(s, [], step);
    assert [] + [step] == [step];
  }

  lemma RunNext(s: State, steps: seq<Step>, m: State, step: Step)
    requires Run(s, steps) == m && Enabled(m, step)
    ensures Run(s, steps + [step]) == Do(m, step)
  {
    hide Do, Enabled;
    RunMore(s, steps, step);
  }

  /** A thread that finds the mutex taken, up to where it is about to sleep. */
  lemma ChecksFacts(s: State, t: Thread)
    requires s.held && !s.spin && At(s, t) == Check(true) && t !in s.parked
    ensures Run(s, [Look(t)] + [NoteSeq(t)]) == Go(s, t, Attach(s.wakeSeq))
  {
    hide Run;
    RunOne(s, Look(t));
    var b := Go(s.(spin := true), t, ReadSeq(true));
    assert Do(s, Look(t)) == b;
    RunNext(s, [Look(t)], b, NoteSeq(t));
    assert Do(b, NoteSeq(t)) == Go(s, t, Attach(s.wakeSeq));
  }

  /** A thread that asks for a taken mutex, up to where it is about to sleep. */
  function Asks(t: Thread): seq<Step> {
    [Enter(t, true)] + ([Look(t)] + [NoteSeq(t)])
  }

  lemma AsksFacts(s: State, t: Thread)
    requires s.held && !s.spin && At(s, t).Outside? && t !in s.parked
    ensures Run(s, Asks(t)) == Go(s.(installed := true), t, Attach(s.wakeSeq))
  {
    hide Run;
    RunOne(s, Enter(t, true));
    RunSum(s, [Enter(t, true)], [Look(t)] + [NoteSeq(t)]);
    ChecksFacts(Go(s.(installed := true), t, Check(true)), t);
  }

  lemma SleepsFacts(s: State, t: Thread)
    requires s.held && !s.spin && At(s, t).Outside? && t !in s.parked
    ensures Run(s, Asks(t) + [Block(t)]) == Go(s.(installed := true, queue := s.queue + [t]), t, Sleeping)
  {
    hide Run, Asks;
    AsksFacts(s, t);
    var a := Go(s.(installed := true), t, Attach(s.wakeSeq));
    RunNext(s, Asks(t), a, Block(t));
  }

  /** A thread that had no queue and gets one goes to sleep like any other. */
  lemma LateSleeper(s: State, t: Thread)
    requires s.held && !s.spin && At(s, t).NoQueue? && t !in s.parked
    ensures Run(s, [GetQueue(t, true)] + ([Look(t)] + [NoteSeq(t)]) + [Block(t)]) == Go(s.(installed := true, queue := s.queue + [t]), t, Sleeping)
  {
    hide Run;
    RunOne(s, GetQueue(t, true));
    RunSum(s, [GetQueue(t, true)], [Look(t)] + [NoteSeq(t)]);
    ChecksFacts(Go(s.(installed := true), t, Check(true)), t);
    var a := Go(s.(installed := true), t, Attach(s.wakeSeq));
    assert Run(s, [GetQueue(t, true)] + ([Look(t)] + [NoteSeq(t)])) == a;
    RunNext(s, [GetQueue(t, true)] + ([Look(t)] + [NoteSeq(t)]), a, Block(t));
  }

  /** A free mutex is taken at once, with or without memory for a queue; a taken one is not taken by trying. */
  lemma Uncontended(s: State, t: Thread, created: bool)
    requires !s.spin && At(s, t).Outside? && t !in s.parked
    ensures !s.held ==> Run(s, [Enter(t, created)] + [Look(t)]) == Go(s.(held := true, installed := s.installed || created), t, Holding)
    ensures Run(s, [TryLock(t)]) == if s.held then s else Go(s.(held := true), t, Holding)
  {
    hide Run;
    RunOne(s, TryLock(t));
    RunOne(s, Enter(t, created));
    var a := Go(s.(installed := s.installed || created), t, Check(s.installed || created));
    RunNext(s, [Enter(t, created)], a, Look(t));
  }

  /** Thread 0 takes the mutex and `t` goes to sleep on it. */
  function Begins(t: Thread): seq<Step> {
    [TryLock(0)] + (Asks(t) + [Block(t)])
  }

  lemma BeginsFacts(t: Thread)
    requires t != 0
    ensures Run(INITIAL, Begins(t)) == State(true, false, true, 0, [t], map[0 := Holding, t := Sleeping], {})
  {
    var a := State(true, false, false, 0, [], map[0 := Holding], {});
    assert Do(INITIAL, TryLock(0)) == a;
    hide Run, Asks;
    RunOne(INITIAL, TryLock(0));
    RunSum(INITIAL, [TryLock(0)], Asks(t) + [Block(t)]);
    SleepsFacts(a, t);
  }

  /** Threads 1 and 2 sleep, 0 unlocks and wakes 1, and 1 is stopped before it runs. */
  const STALLING: seq<Step> := Begins(1) + (Asks(2) + [Block(2)]) + [Unlock(0)] + [WakeOne(0)] + [Stop(1)]

  /** Thread 2 sleeps, 3 is about to, 0 unlocks and is stopped before it wakes anybody. */
  const DOZING: seq<Step> := Begins(2) + Asks(3) + [Unlock(0)] + [Stop(0)]

  lemma BothSleep()
    ensures Run(INITIAL, Begins(1) + (Asks(2) + [Block(2)])) ==
            State(true, false, true, 0, [1, 2], map[0 := Holding, 1 := Sleeping, 2 := Sleeping], {})
  {
    hide Run, Asks, Begins;
    BeginsFacts(1);
    RunSum(INITIAL, Begins(1), Asks(2) + [Block(2)]);
    SleepsFacts(State(true, false, true, 0, [1], map[0 := Holding, 1 := Sleeping], {}), 2);
  }

  lemma Unlocks(s: State)
    requires Enabled(s, Unlock(0)) && s.installed
    ensures Do(s, Unlock(0)) == Go(s.(held := false), 0, Waking)
  {
  }

  lemma Wakes(s: State, t: Thread)
    requires Enabled(s, WakeOne(0)) && |s.queue| > 0 && s.queue[0] == t && t != 0
    ensures Do(s, WakeOne(0)) == s.(wakeSeq := s.wakeSeq + 1, queue := s.queue[1..], pc := s.pc[0 := Outside][t := Check(true)])
  {
  }

  lemma Stops(s: State, t: Thread)
    requires t !in s.parked && !At(s, t).ReadSeq? && !At(s, t).Sleeping?
    ensures Enabled(s, Stop(t)) && Do(s, Stop(t)) == s.(parked := s.parked + {t})
  {
  }

  lemma StallingEnds()
    ensures Run(INITIAL, STALLING) == State(false, false, true, 1, [2], map[0 := Outside, 1 := Check(true), 2 := Sleeping], {1})
  {
    var s2 := State(true, false, true, 0, [1, 2], map[0 := Holding, 1 := Sleeping, 2 := Sleeping], {});
    var s3 := State(false, false, true, 0, [1, 2], map[0 := Waking, 1 := Sleeping, 2 := Sleeping], {});
    var s4 := State(false, false, true, 1, [2], map[0 := Outside, 1 := Check(true), 2 := Sleeping], {});
    Unlocks(s2);
    Wakes(s3, 1);
    Stops(s4, 1);
    hide Run, Asks, Begins, Do, Enabled;
    var steps := Begins(1) + (Asks(2) + [Block(2)]);
    BothSleep();
    RunNext(INITIAL, steps, s2, Unlock(0));
    RunNext(INITIAL, steps + [Unlock(0)], s3, WakeOne(0));
    RunNext(INITIAL, steps + [Unlock(0)] + [WakeOne(0)], s4, Stop(1));
  }

  /** In that run the mutex is free, thread 2 sleeps on it, no wake is pending and nobody awake is on the way:
      whatever the threads that asked for the mutex do, it stays free until the stopped one is continued. */
  lemma StopStalls(more: seq<Step>, restless: set<Thread>)
    requires AllOwn(more, restless)
    ensures var s := Run(INITIAL, STALLING);
            && !s.held && At(s, 2).Sleeping? && Active(s, 1) && (forall u :: !Awake(s, u)) && (forall u :: !At(s, u).Waking?)
            && !Run(s, more).held
  {
    hide Run, Do, Enabled, Inv, Settled, AllOwn;
    StallingEnds();
    Always(STALLING);
    StalledStays(Run(INITIAL, STALLING), more, restless);
  }

  lemma DozingEnds()
    ensures Run(INITIAL, DOZING) == State(false, false, true, 0, [2], map[0 := Waking, 2 := Sleeping, 3 := Attach(0)], {0})
  {
    var s1 := State(true, false, true, 0, [2], map[0 := Holding, 2 := Sleeping], {});
    var s2 := State(true, false, true, 0, [2], map[0 := Holding, 2 := Sleeping, 3 := Attach(0)], {});
    var s3 := State(false, false, true, 0, [2], map[0 := Waking, 2 := Sleeping, 3 := Attach(0)], {});
    Unlocks(s2);
    Stops(s3, 0);
    hide Run, Asks, Begins, Do, Enabled;
    BeginsFacts(2);
    RunSum(INITIAL, Begins(2), Asks(3));
    AsksFacts(s1, 3);
    assert Run(INITIAL, Begins(2) + Asks(3)) == s2;
    RunNext(INITIAL, Begins(2) + Asks(3), s2, Unlock(0));
    RunNext(INITIAL, Begins(2) + Asks(3) + [Unlock(0)], s3, Stop(0));
  }

  /** In that run thread 3 is not stopped and has yet to come to rest, and still the mutex stays free: exactly when 3 may sleep. */
  lemma DozingStalls(restless: set<Thread>) returns (steps: seq<Step>)
    ensures var s := Run(INITIAL, DOZING);
            && !s.held && At(s, 2).Sleeping? && At(s, 3).Attach? && 3 !in s.parked && (forall u :: !Awake(s, u))
            && AllOwn(steps, restless) && (Run(s, steps).held <==> 3 in restless)
            && (3 !in restless ==> forall more :: AllOwn(more, restless) ==> !Run(s, more).held)
  {
    hide Run, Do, Enabled, Inv, Settled, AllOwn;
    DozingEnds();
    var s := Run(INITIAL, DOZING);
    Always(DOZING);
    assert At(s, 2).Sleeping?;
    assert 3 in restless <==> exists u :: Contends(s, u, restless) by {
      assert 3 in restless ==> Contends(s, 3, restless);
    }
    steps := Progress(s, restless);
  }

  // ----- order

  /** The thread that a step puts to sleep, if any. */
  function Sleeper(s: State, step: Step): seq<Thread> {
    if step.Block? && Enabled(s, step) && At(s, step.t).seen == s.wakeSeq then [step.t] else []
  }

  /** The thread that a step wakes from the queue, if any. */
  function Popped(s: State, step: Step): seq<Thread> {
    if step.WakeOne? && Enabled(s, step) && s.queue != [] then [s.queue[0]] else []
  }

  /** The threads that fell asleep in a run, in order. */
  function Slept(s: State, steps: seq<Step>): seq<Thread> {
    if steps == [] then []
    else Slept(s, steps[..|steps| - 1]) + Sleeper(Run(s, steps[..|steps| - 1]), steps[|steps| - 1])
  }

  /** The threads that were woken from the queue in a run, in order. */
  function Woken(s: State, steps: seq<Step>): seq<Thread> {
    if steps == [] then []
    else Woken(s, steps[..|steps| - 1]) + Popped(Run(s, steps[..|steps| - 1]), steps[|steps| - 1])
  }

  /** The step takes a sleeper out of the queue other than by a wake. */
  predicate Leaves(s: State, step: Step) {
    (step.Disturb? || step.Stop?) && At(s, step.t).Sleeping?
  }

  lemma QueueStep(s: State, step: Step)
    requires !Leaves(s, step)
    ensures var n := if Enabled(s, step) then Do(s, step) else s;
            s.queue + Sleeper(s, step) == Popped(s, step) + n.queue
  {
    if s.queue != [] {
      assert s.queue == [s.queue[0]] + s.queue[1..];
    }
  }

  lemma Regroup(w: seq<Thread>, q: seq<Thread>, a: seq<Thread>, p: seq<Thread>, q': seq<Thread>)
    requires q + a == p + q'
    ensures w + q + a == w + p + q'
  {
    assert w + q + a == w + (q + a);
    assert w + p + q' == w + (p + q');
  }

  /** No step of the run takes a sleeper out of the queue other than by a wake. */
  ghost predicate Undisturbed(steps: seq<Step>) {
    forall k {:trigger steps[k]} :: 0 <= k < |steps| ==> !Leaves(Run(INITIAL, steps[..k]), steps[k])
  }

  lemma UndisturbedPrefix(steps: seq<Step>, n: nat)
    requires Undisturbed(steps) && n < |steps|
    ensures Undisturbed(steps[..n]) && !Leaves(Run(INITIAL, steps[..n]), steps[n])
  {
    hide Run, Leaves;
    forall k | 0 <= k < n
      ensures !Leaves(Run(INITIAL, steps[..n][..k]), steps[..n][k])
    {
      assert steps[..n][k] == steps[k] && steps[..n][..k] == steps[..k];
    }
  }

  /** Threads are woken in the order in which they fell asleep, as long as no stop or signal takes one from the queue. */
  lemma {:induction false} FirstInFirstOut(steps: seq<Step>)
    requires Undisturbed(steps)
    ensures Slept(INITIAL, steps) == Woken(INITIAL, steps) + Run(INITIAL, steps).queue
  {
    hide Do, Enabled, Sleeper, Popped, Leaves, Undisturbed;
    if steps != [] {
      var n := |steps| - 1;
      UndisturbedPrefix(steps, n);
      FirstInFirstOut(steps[..n]);
      var last := Run(INITIAL, steps[..n]);
      QueueStep(last, steps[n]);
      Regroup(Woken(INITIAL, steps[..n]), last.queue, Sleeper(last, steps[n]), Popped(last, steps[n]), Run(INITIAL, steps).queue);
    }
  }
}
