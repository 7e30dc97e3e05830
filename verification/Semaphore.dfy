/**
 The monitor-based semaphore of delete-me/semaphore.hpp (the `__APPLE__` branch).  A stretch of code
 that runs under the mutex without waiting is one step; a thread inside `wait` is either asleep on the
 condition or has been woken and has yet to get the mutex back.
 */
module Semaphore {
  datatype State = State(semvalue: nat, waitercount: nat, asleep: set<nat>, woken: set<nat>)

  /** 2^64: a size_t that is decremented below zero wraps around. */
  const SIZE_RANGE := 0x1_0000_0000_0000_0000

  const INITIAL := State(0, 0, {}, {})

  datatype Action =
    | Post(signalled: set<nat>)   // the threads the signal wakes
    | Wait(t: nat)                // thread t calls wait
    | Stir(t: nat)                // thread t wakes up of itself
    | Resume(t: nat)              // woken thread t gets the mutex

  /** A signal wakes at least one of the threads asleep, if there is one, and perhaps more. */
  predicate Signal(asleep: set<nat>, signalled: set<nat>) {
    signalled <= asleep && (asleep != {} ==> signalled != {})
  }

  predicate Enabled(s: State, a: Action) {
    match a
    case Post(signalled) => if s.waitercount > 0 then Signal(s.asleep, signalled) else signalled == {}
    case Wait(t) => t !in s.asleep + s.woken
    case Stir(t) => t in s.asleep
    case Resume(t) => t in s.woken
  }

  /** Lines 62-66, from the test of the loop on, for a thread that is counted as a waiter. */
  function Test(s: State, t: nat): State {
    if s.semvalue == 0 then s.(asleep := s.asleep + {t})
    else s.(waitercount := if s.waitercount == 0 then SIZE_RANGE - 1 else s.waitercount - 1,
            semvalue := s.semvalue - 1)
  }

  function Next(s: State, a: Action): State
    requires Enabled(s, a)
  {
    match a
    case Post(signalled) =>
      s.(asleep := s.asleep - signalled, woken := s.woken + signalled, semvalue := s.semvalue + 1)
    case Wait(t) => Test(s.(waitercount := s.waitercount + 1), t)
    case Stir(t) => s.(asleep := s.asleep - {t}, woken := s.woken + {t})
    case Resume(t) => Test(s.(woken := s.woken - {t}), t)
  }

  predicate Steps(s: State, a: Action, s': State) {
    Enabled(s, a) && s' == Next(s, a)
  }

  ghost predicate IsRun(run: seq<State>, acts: seq<Action>) {
    |run| == |acts| + 1 && run[0] == INITIAL && forall k: nat | k < |acts| :: Steps(run[k], acts[k], run[k + 1])
  }

  predicate Inv(s: State) {
    && s.asleep !! s.woken
    && s.waitercount == |s.asleep| + |s.woken|
    && (s.asleep != {} ==> s.semvalue <= |s.woken|)
  }

  lemma PostInv(s: State, signalled: set<nat>)
    requires Inv(s) && Enabled(s, Post(signalled))
    ensures Inv(Next(s, Post(signalled)))
  {
    MoveSizes(s.asleep, s.woken, signalled);
  }

  lemma MoveSizes(asleep: set<nat>, woken: set<nat>, moved: set<nat>)
    requires moved <= asleep && asleep !! woken
    ensures (asleep - moved) !! (woken + moved)
    ensures |asleep - moved| == |asleep| - |moved| && |woken + moved| == |woken| + |moved|
  {
    assert asleep == (asleep - moved) + moved;
  }

  /** A waiter tests the value when a waiter is missing from the two sets. */
  lemma TestInv(s: State, t: nat)
    requires s.asleep !! s.woken && t !in s.asleep + s.woken
    requires s.waitercount == |s.asleep| + |s.woken| + 1
    requires s.asleep != {} ==> s.semvalue <= |s.woken| + 1
    ensures Inv(Test(s, t))
  {
  }

  lemma NextInv(s: State, a: Action)
    requires Inv(s) && Enabled(s, a)
    ensures Inv(Next(s, a))
  {
    hide Inv, Test;
    match a
    case Post(signalled) => PostInv(s, signalled);
    case Wait(t) => WaitInv(s, t);
    case Stir(t) => StirInv(s, t);
    case Resume(t) => ResumeInv(s, t);
  }

  lemma WaitInv(s: State, t: nat)
    requires Inv(s) && Enabled(s, Wait(t))
    ensures Inv(Next(s, Wait(t)))
  {
    hide Test;
    TestInv(s.(waitercount := s.waitercount + 1), t);
  }

  lemma StirInv(s: State, t: nat)
    requires Inv(s) && Enabled(s, Stir(t))
    ensures Inv(Next(s, Stir(t)))
  {
    MoveSizes(s.asleep, s.woken, {t});
  }

  lemma ResumeInv(s: State, t: nat)
    requires Inv(s) && Enabled(s, Resume(t))
    ensures Inv(Next(s, Resume(t)))
  {
    hide Test;
    TestInv(s.(woken := s.woken - {t}), t);
  }

  lemma {:induction false} RunInv(run: seq<State>, acts: seq<Action>, k: nat)
    requires IsRun(run, acts) && k < |run|
    ensures Inv(run[k])
  {
    if k > 0 {
      RunInv(run, acts, k - 1);
      assert Steps(run[k - 1], acts[k - 1], run[k - 1 + 1]);
      NextInv(run[k - 1], acts[k - 1]);
    }
  }

  // ----- Counting posts, calls and returns along a run -----

  /** An action that lets its thread go on in wait, from its call or from its sleep. */
  predicate Turn(a: Action) {
    a.Wait? || a.Resume?
  }

  /** With action `a`, which leads to `s'`, its thread returns from wait: it is no longer inside. */
  predicate Leaves(a: Action, s': State) {
    Turn(a) && a.t !in s'.asleep && a.t !in s'.woken
  }

  predicate ReturnsAt(run: seq<State>, acts: seq<Action>, k: nat) {
    k < |acts| && k + 1 < |run| && Leaves(acts[k], run[k + 1])
  }

  /** How many calls of post there are among the first `k` actions. */
  function Posts(acts: seq<Action>, k: nat): nat {
    if k == 0 then 0 else Posts(acts, k - 1) + if k <= |acts| && acts[k - 1].Post? then 1 else 0
  }

  /** How many calls of wait. */
  function Calls(acts: seq<Action>, k: nat): nat {
    if k == 0 then 0 else Calls(acts, k - 1) + if k <= |acts| && acts[k - 1].Wait? then 1 else 0
  }

  /** How many returns from wait. */
  function Returns(run: seq<State>, acts: seq<Action>, k: nat): nat {
    if k == 0 then 0 else Returns(run, acts, k - 1) + if ReturnsAt(run, acts, k - 1) then 1 else 0
  }

  /** How many calls of wait by thread `t`. */
  function CallsOf(acts: seq<Action>, k: nat, t: nat): nat {
    if k == 0 then 0 else CallsOf(acts, k - 1, t) + if k <= |acts| && acts[k - 1] == Wait(t) then 1 else 0
  }

  /** How many returns from wait by thread `t`. */
  function ReturnsOf(run: seq<State>, acts: seq<Action>, k: nat, t: nat): nat {
    if k == 0 then 0
    else ReturnsOf(run, acts, k - 1, t) + if ReturnsAt(run, acts, k - 1) && acts[k - 1].t == t then 1 else 0
  }

  /** A step raises the value for a post, and lowers it for a return. */
  lemma StepCounts(s: State, a: Action, s': State)
    requires Inv(s) && Steps(s, a, s')
    ensures s'.semvalue == s.semvalue + (if a.Post? then 1 else 0) - (if Leaves(a, s') then 1 else 0)
    ensures s'.waitercount == s.waitercount + (if a.Wait? then 1 else 0) - (if Leaves(a, s') then 1 else 0)
  {
  }

  predicate Within(s: State, t: nat) {
    t in s.asleep || t in s.woken
  }

  lemma TurnInside(s: State, a: Action, s': State, t: nat)
    requires Inv(s) && Steps(s, a, s') && Turn(a)
    ensures a == Wait(t) ==> !Within(s, t)
    ensures Leaves(a, s') && a.t == t ==> a == Wait(t) || Within(s, t)
    ensures Within(s', t) <==> (Within(s, t) || a == Wait(t)) && !(Leaves(a, s') && a.t == t)
  {
  }

  lemma QuietInside(s: State, a: Action, s': State, t: nat)
    requires Steps(s, a, s') && !Turn(a)
    ensures Within(s', t) <==> Within(s, t)
  {
  }

  /** A step takes a thread inside by its call and out by its return. */
  lemma StepInside(s: State, a: Action, s': State, t: nat)
    requires Inv(s) && Steps(s, a, s')
    ensures a == Wait(t) ==> !Within(s, t)
    ensures Leaves(a, s') && a.t == t ==> a == Wait(t) || Within(s, t)
    ensures Within(s', t) <==> (Within(s, t) || a == Wait(t)) && !(Leaves(a, s') && a.t == t)
  {
    hide Steps, Inv, Within;
    if Turn(a) {
      TurnInside(s, a, s', t);
    } else {
      QuietInside(s, a, s', t);
    }
  }

  /** The value is the posts less the returns from wait, and `waitercount` the calls less the returns. */
  lemma {:induction false} ValueIsExact(run: seq<State>, acts: seq<Action>, k: nat)
    requires IsRun(run, acts) && k < |run|
    ensures run[k].semvalue == Posts(acts, k) - Returns(run, acts, k)
    ensures run[k].waitercount == Calls(acts, k) - Returns(run, acts, k)
  {
    hide Leaves, Steps, Inv;
    if k > 0 {
      ValueIsExact(run, acts, k - 1);
      RunInv(run, acts, k - 1);
      assert Steps(run[k - 1], acts[k - 1], run[k - 1 + 1]);
      StepCounts(run[k - 1], acts[k - 1], run[k]);
    }
  }

  /** The threads inside wait are those that have called it once more than they have returned, and
      `waitercount` is their number. */
  lemma {:induction false} InsideIsExact(run: seq<State>, acts: seq<Action>, k: nat, t: nat)
    requires IsRun(run, acts) && k < |run|
    ensures CallsOf(acts, k, t) == ReturnsOf(run, acts, k, t) + if Within(run[k], t) then 1 else 0
    ensures run[k].waitercount == |run[k].asleep + run[k].woken| && run[k].asleep !! run[k].woken
  {
    RunInv(run, acts, k);
    hide Leaves, Steps;
    if k > 0 {
      InsideIsExact(run, acts, k - 1, t);
      RunInv(run, acts, k - 1);
      assert Steps(run[k - 1], acts[k - 1], run[k - 1 + 1]);
      StepInside(run[k - 1], acts[k - 1], run[k], t);
    }
  }

  /** A thread that has the mutex returns if and only if the value is positive, and takes one unit with it;
      otherwise it is asleep and takes nothing. */
  lemma ReturnTakesUnit(run: seq<State>, acts: seq<Action>, k: nat)
    requires IsRun(run, acts) && k < |acts| && Turn(acts[k])
    ensures ReturnsAt(run, acts, k) <==> run[k].semvalue > 0
    ensures !ReturnsAt(run, acts, k) <==> acts[k].t in run[k + 1].asleep
    ensures run[k + 1].semvalue == run[k].semvalue - if ReturnsAt(run, acts, k) then 1 else 0
  {
    RunInv(run, acts, k);
    assert Steps(run[k], acts[k], run[k + 1]);
  }

  /** A thread that is asleep is woken by a post whose signal it gets, or stirs of itself, and otherwise
      sleeps on; and who is woken stays so until its turn. */
  lemma WakesOnly(run: seq<State>, acts: seq<Action>, k: nat, t: nat)
    requires IsRun(run, acts) && k < |acts| && t in run[k].asleep + run[k].woken && acts[k] != Resume(t)
    ensures t in run[k + 1].woken <==>
      t in run[k].woken || acts[k] == Stir(t) || (acts[k].Post? && t in acts[k].signalled)
    ensures t in run[k + 1].asleep <==> t !in run[k + 1].woken
  {
    RunInv(run, acts, k);
    assert Steps(run[k], acts[k], run[k + 1]);
  }

  /** No wake-up is lost: if a thread is asleep, at least as many threads are on their way to the mutex
      as there are units to take, whoever comes late and takes a unit first. */
  lemma NoLostWakeup(run: seq<State>, acts: seq<Action>, k: nat)
    requires IsRun(run, acts) && k < |run| && run[k].asleep != {}
    ensures run[k].semvalue <= |run[k].woken|
    ensures run[k].woken == {} ==> run[k].semvalue == 0
  {
    RunInv(run, acts, k);
  }

  // ----- The code -----

  class MonitorSemaphore {
    var semvalue: nat
    var waitercount: nat
    ghost var asleep: set<nat>
    ghost var woken: set<nat>

    ghost function Snapshot(): State
      reads this
    {
      State(semvalue, waitercount, asleep, woken)
    }

    constructor ()
      ensures Snapshot() == INITIAL
    {
      semvalue, waitercount, asleep, woken := 0, 0, {}, {};
    }

    /** post; the signal wakes the threads in `signalled`. */
    method Post(ghost signalled: set<nat>)
      requires Enabled(Snapshot(), Action.Post(signalled))
      modifies this
      ensures Snapshot() == Next(old(Snapshot()), Action.Post(signalled))
    {
      if waitercount > 0 {
        asleep, woken := asleep - signalled, woken + signalled;
      }
      semvalue := semvalue + 1;
    }

    /** wait, up to its return or to its first sleep on the condition. */
    method Wait(t: nat) returns (returned: bool)
      requires Enabled(Snapshot(), Action.Wait(t))
      modifies this
      ensures Snapshot() == Next(old(Snapshot()), Action.Wait(t))
      ensures returned <==> t !in asleep
    {
      waitercount := waitercount + 1;
      returned := TestLoop(t);
    }

    /** The rest of wait after thread `t` has got the mutex back, up to its return or its next sleep. */
    method Resume(t: nat) returns (returned: bool)
      requires Enabled(Snapshot(), Action.Resume(t)) && t !in asleep
      modifies this
      ensures Snapshot() == Next(old(Snapshot()), Action.Resume(t))
      ensures returned <==> t !in asleep
    {
      woken := woken - {t};
      returned := TestLoop(t);
    }

    method TestLoop(t: nat) returns (returned: bool)
      requires t !in asleep
      modifies this
      ensures Snapshot() == Test(old(Snapshot()), t)
      ensures returned <==> t !in asleep
    {
      returned := semvalue != 0;
      if returned {
        waitercount := if waitercount == 0 then SIZE_RANGE - 1 else waitercount - 1;
        semvalue := semvalue - 1;
      } else {
        asleep := asleep + {t};
      }
    }
  }
}
