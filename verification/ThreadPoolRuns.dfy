/** What holds in every run of the thread pool. */
module ThreadPoolRuns {
  import opened Sets
  import opened ThreadPool

  // ----- Tasks and exceptions, with any number of joiners -----

  /** The task that worker `w` is busy with. */
  predicate Busy(s: State, w: nat, task: nat) {
    && w < |s.workers|
    && match s.workers[w]
       case Free => false
       case Running(t) => t == task
       case Raised(t, _) => t == task
       case Finishing(t) => t == task
  }

  /** The queue holds the tasks launched last, in order of launch. */
  predicate QueueOk(s: State) {
    && |s.queue| <= s.inserted
    && forall k: nat | k < |s.queue| :: s.queue[k] == s.inserted - |s.queue| + k
  }

  /** Tasks taken from the queue. */
  function Taken(s: State): nat
    requires |s.queue| <= s.inserted
  {
    s.inserted - |s.queue|
  }

  /** A task taken from the queue is with one worker, or is done. */
  ghost predicate Tasks(s: State)
    requires |s.queue| <= s.inserted
  {
    && (forall t: nat | t in s.done :: t < Taken(s))
    && (forall w: nat, t: nat | Busy(s, w, t) :: t < Taken(s) && t !in s.done)
    && (forall v: nat, w: nat, t: nat | Busy(s, v, t) && Busy(s, w, t) :: v == w)
    && (forall t: nat | t < Taken(s) && t !in s.done :: exists w: nat :: Busy(s, w, t))
  }

  ghost predicate Inv(s: State) {
    && QueueOk(s) && Tasks(s)
    && s.completed == |s.done|
  }

  /** A step that does not touch the tasks. */
  lemma QuietInv(s: State, s': State)
    requires Inv(s) && s'.queue == s.queue && s'.inserted == s.inserted && s'.completed == s.completed
    requires s'.done == s.done
    requires forall w: nat, t: nat :: Busy(s', w, t) <==> Busy(s, w, t)
    ensures Inv(s')
  {
    forall t: nat | t < Taken(s') && t !in s'.done
      ensures exists w: nat :: Busy(s', w, t)
    {
      var w: nat :| Busy(s, w, t);
      assert Busy(s', w, t);
    }
  }

  lemma LaunchInv(s: State)
    requires Inv(s)
    ensures Inv(Next(s, Launch))
  {
    var s' := Next(s, Launch);
    assert forall w: nat, t: nat :: Busy(s', w, t) <==> Busy(s, w, t);
    forall t: nat | t < Taken(s') && t !in s'.done
      ensures exists w: nat :: Busy(s', w, t)
    {
      var w: nat :| Busy(s, w, t);
      assert Busy(s', w, t);
    }
  }

  lemma DequeueInv(s: State, w: nat)
    requires Inv(s) && Enabled(s, Dequeue(w))
    ensures Inv(Next(s, Dequeue(w)))
  {
    var s' := Next(s, Dequeue(w));
    assert s.queue[0] == Taken(s);
    assert forall v: nat, t: nat :: Busy(s', v, t) <==> Busy(s, v, t) || (v == w && t == s.queue[0]);
    forall t: nat | t < Taken(s') && t !in s'.done
      ensures exists v: nat :: Busy(s', v, t)
    {
      if t == s.queue[0] {
        assert Busy(s', w, t);
      } else {
        var v: nat :| Busy(s, v, t);
        assert Busy(s', v, t);
      }
    }
  }

  /** Worker `w` gives up its task, which is then done. */
  lemma DoneInv(s: State, s': State, w: nat, task: nat)
    requires Inv(s) && Busy(s, w, task)
    requires s'.queue == s.queue && s'.inserted == s.inserted && s'.completed == s.completed + 1
    requires s'.done == s.done + {task}
    requires forall v: nat, t: nat :: Busy(s', v, t) <==> Busy(s, v, t) && v != w
    ensures Inv(s')
  {
    forall t: nat | t < Taken(s') && t !in s'.done
      ensures exists v: nat :: Busy(s', v, t)
    {
      var v: nat :| Busy(s, v, t);
      assert Busy(s', v, t);
    }
  }

  lemma CompleteInv(s: State, w: nat, signalled: set<nat>)
    requires Inv(s) && Enabled(s, Complete(w, signalled))
    ensures Inv(Next(s, Complete(w, signalled)))
  {
    hide Tasks, QueueOk;
    var s' := Next(s, Complete(w, signalled));
    assert forall v: nat, t: nat :: Busy(s', v, t) <==> Busy(s, v, t) && v != w;
    DoneInv(s, s', w, s.workers[w].task);
  }

  lemma WorkerInv(s: State, a: Action)
    requires Inv(s) && Enabled(s, a) && (a.Return? || a.Throw? || a.Push?)
    ensures Inv(Next(s, a))
  {
    var s' := Next(s, a);
    assert forall w: nat, t: nat :: Busy(s', w, t) <==> Busy(s, w, t);
    QuietInv(s, s');
  }

  lemma JoinerInv(s: State, a: Action)
    requires Inv(s) && Enabled(s, a) && (a.Join? || a.SeeEmpty? || a.Enter? || a.Stir? || a.Resume?)
    ensures Inv(Next(s, a))
  {
    hide Inv;
    var s' := Next(s, a);
    assert forall w: nat, t: nat :: Busy(s', w, t) <==> Busy(s, w, t);
    QuietInv(s, s');
  }

  lemma NextInv(s: State, a: Action)
    requires Inv(s) && Enabled(s, a)
    ensures Inv(Next(s, a))
  {
    hide Inv, Next;
    match a
    case Launch => LaunchInv(s);
    case Dequeue(w) => DequeueInv(s, w);
    case Complete(w, signalled) => CompleteInv(s, w, signalled);
    case Return(_) | Throw(_, _) | Push(_, _) => WorkerInv(s, a);
    case _ => JoinerInv(s, a);
  }

  lemma {:induction false} RunInv(run: seq<State>, acts: seq<Action>, workers: nat, joiners: nat, k: nat)
    requires IsRun(run, acts, workers, joiners) && k < |run|
    ensures Inv(run[k])
  {
    hide Next, Enabled;
    if k > 0 {
      RunInv(run, acts, workers, joiners, k - 1);
      assert Steps(run[k - 1], acts[k - 1], run[k - 1 + 1]);
      NextInv(run[k - 1], acts[k - 1]);
    }
  }

  /** When as many tasks are counted as were launched, nothing is left to do. */
  lemma NothingLeft(s: State)
    requires Inv(s) && s.completed == s.inserted
    ensures s.done == Below(s.inserted) && s.queue == []
    ensures forall w: nat | w < |s.workers| :: s.workers[w] == Free
  {
    assert s.done <= Below(s.inserted);
    AllOf(s.done, s.inserted);
    forall w: nat | w < |s.workers|
      ensures s.workers[w] == Free
    {
      if s.workers[w] != Free {
        assert Busy(s, w, s.workers[w].task);
      }
    }
    if s.inserted > 0 {
      assert s.inserted - 1 in s.done;
    }
  }

  lemma AllOf(a: set<nat>, n: nat)
    requires a <= Below(n) && |a| == n
    ensures a == Below(n)
  {
    if a != Below(n) {
      var x :| x in Below(n) && x !in a;
      SubsetSize(a + {x}, Below(n));
    }
  }

  // ----- What has happened, read off the actions -----

  datatype Event = Launched | Dequeued | Threw | Pushed | Completed | Other

  function EventOf(a: Action): Event {
    match a
    case Launch => Event.Launched
    case Dequeue(_) => Event.Dequeued
    case Throw(_, _) => Event.Threw
    case Push(_, _) => Event.Pushed
    case Complete(_, _) => Event.Completed
    case _ => Event.Other
  }

  /** How often `e` has happened among the first `k` actions. */
  function Count(acts: seq<Action>, k: nat, e: Event): nat
    requires k <= |acts|
  {
    if k == 0 then 0 else Count(acts, k - 1, e) + if EventOf(acts[k - 1]) == e then 1 else 0
  }

  /** The exceptions thrown by the tasks of worker `w`, in order. */
  function RaisedBy(acts: seq<Action>, k: nat, w: nat): seq<string>
    requires k <= |acts|
  {
    if k == 0 then []
    else RaisedBy(acts, k - 1, w) + if acts[k - 1].Throw? && acts[k - 1].w == w then [acts[k - 1].ex] else []
  }

  /** The one thrown last. */
  function LastRaised(acts: seq<Action>, k: nat, w: nat): string
    requires k <= |acts|
  {
    var raised := RaisedBy(acts, k, w);
    if raised == [] then "" else raised[|raised| - 1]
  }

  /** The exceptions thrown by tasks, in the order in which their workers have come to put them in the queue. */
  function PushedBy(acts: seq<Action>, k: nat): seq<string>
    requires k <= |acts|
  {
    if k == 0 then []
    else PushedBy(acts, k - 1) + if acts[k - 1].Push? then [LastRaised(acts, k - 1, acts[k - 1].w)] else []
  }

  /** Those of them that worker `w` has put there. */
  function PushedOf(acts: seq<Action>, k: nat, w: nat): seq<string>
    requires k <= |acts|
  {
    if k == 0 then []
    else PushedOf(acts, k - 1, w)
         + if acts[k - 1].Push? && acts[k - 1].w == w then [LastRaised(acts, k - 1, w)] else []
  }

  predicate TurnOf(a: Action, j: nat) {
    a == Enter(j) || a == Resume(j)
  }

  /** With action `k` a call of join by `j` ends with outcome `o`. */
  predicate EndsAt(run: seq<State>, acts: seq<Action>, k: nat, j: nat, o: Outcome) {
    && k < |acts| && k + 1 < |run| && TurnOf(acts[k], j)
    && j < |run[k + 1].joiners| && run[k + 1].joiners[j] == Away(o)
  }

  /** The exception that a call of join throws with action `a`, which leads to `s'`. */
  function Thrown(a: Action, s': State): seq<string> {
    if (a.Enter? || a.Resume?) && a.j < |s'.joiners| && s'.joiners[a.j].Away? && s'.joiners[a.j].left.Throws?
    then [s'.joiners[a.j].left.ex] else []
  }

  /** The exceptions thrown by calls of join, in order. */
  function ThrownBy(run: seq<State>, acts: seq<Action>, k: nat): seq<string>
    requires k <= |acts| && k < |run|
  {
    if k == 0 then [] else ThrownBy(run, acts, k - 1) + Thrown(acts[k - 1], run[k])
  }

  /** With action `l` the function of task `t` returns or throws. */
  predicate RunsAt(run: seq<State>, acts: seq<Action>, l: nat, t: nat) {
    && l < |acts| && l < |run| && (acts[l].Return? || acts[l].Throw?)
    && acts[l].w < |run[l].workers| && run[l].workers[acts[l].w] == Running(t)
  }

  lemma StepCounters(s: State, a: Action, s': State)
    requires Steps(s, a, s')
    ensures s'.inserted == s.inserted + if EventOf(a) == Event.Launched then 1 else 0
    ensures s'.completed == s.completed + if EventOf(a) == Event.Completed then 1 else 0
    ensures s'.inserted - |s'.queue| == s.inserted - |s.queue| + if EventOf(a) == Event.Dequeued then 1 else 0
  {
  }

  /** The counters of the code are what they are called. */
  lemma {:induction false} CountersExact(run: seq<State>, acts: seq<Action>, workers: nat, joiners: nat, k: nat)
    requires IsRun(run, acts, workers, joiners) && k < |run|
    ensures run[k].inserted == Count(acts, k, Event.Launched) && run[k].completed == Count(acts, k, Event.Completed)
    ensures run[k].inserted == |run[k].queue| + Count(acts, k, Event.Dequeued)
  {
    hide Steps;
    if k > 0 {
      CountersExact(run, acts, workers, joiners, k - 1);
      assert Steps(run[k - 1], acts[k - 1], run[k - 1 + 1]);
      StepCounters(run[k - 1], acts[k - 1], run[k]);
    }
  }

  /** Tasks are started in the order in which they were launched. */
  lemma StartsInOrder(run: seq<State>, acts: seq<Action>, workers: nat, joiners: nat, k: nat)
    requires IsRun(run, acts, workers, joiners) && k < |acts| && acts[k].Dequeue?
    ensures acts[k].w < |run[k + 1].workers|
    ensures run[k + 1].workers[acts[k].w] == Running(Count(acts, k, Event.Dequeued))
  {
    RunInv(run, acts, workers, joiners, k);
    CountersExact(run, acts, workers, joiners, k);
    assert Steps(run[k], acts[k], run[k + 1]);
  }

  // ----- Exceptions -----

  /** The exception that worker `w` holds. */
  function Holding(s: State, w: nat): seq<string> {
    if w < |s.workers| && s.workers[w].Raised? then [s.workers[w].ex] else []
  }

  /** A worker puts each exception its tasks throw in the queue before it goes on, in order. */
  lemma {:induction false} RaisedArePushed(run: seq<State>, acts: seq<Action>, workers: nat, joiners: nat,
                                           k: nat, w: nat)
    requires IsRun(run, acts, workers, joiners) && k < |run|
    ensures RaisedBy(acts, k, w) == PushedOf(acts, k, w) + Holding(run[k], w)
  {
    NothingHeldAtStart(workers, joiners, w);
    hide Steps, Holding;
    if k > 0 {
      RaisedArePushed(run, acts, workers, joiners, k - 1, w);
      assert Steps(run[k - 1], acts[k - 1], run[k - 1 + 1]);
      HoldingStep(run[k - 1], acts[k - 1], run[k], w);
      HoldingShort(run[k - 1], w);
    }
  }

  lemma HoldingStep(s: State, a: Action, s': State, w: nat)
    requires Steps(s, a, s')
    ensures a.Throw? && a.w == w ==> Holding(s, w) == [] && Holding(s', w) == [a.ex]
    ensures a.Push? && a.w == w ==> Holding(s, w) != [] && Holding(s', w) == []
    ensures !((a.Throw? || a.Push?) && a.w == w) ==> Holding(s', w) == Holding(s, w)
  {
  }

  lemma NothingHeldAtStart(workers: nat, joiners: nat, w: nat)
    ensures Holding(Initial(workers, joiners), w) == []
  {
  }

  lemma HoldingShort(s: State, w: nat)
    ensures |Holding(s, w)| <= 1
  {
  }

  /** A step throws from the front of the exception queue, and puts what its worker holds at the end. */
  lemma QueueStep(s: State, a: Action, s': State)
    requires Steps(s, a, s')
    ensures Thrown(a, s') + s'.exceptions == s.exceptions + if a.Push? then Holding(s, a.w) else []
    ensures a.Push? ==> |Holding(s, a.w)| == 1
  {
  }

  lemma Regroup(thrown: seq<string>, queue: seq<string>, t: seq<string>, queue': seq<string>, p: seq<string>)
    requires t + queue' == queue + p
    ensures (thrown + t) + queue' == (thrown + queue) + p
  {
    assert (thrown + t) + queue' == thrown + (t + queue');
    assert (thrown + queue) + p == thrown + (queue + p);
  }

  /** The exceptions that joins have thrown, followed by those in the queue, are those that tasks have thrown,
      in the order in which they were put in the queue; so none is lost, and none is thrown twice. */
  lemma {:induction false} ThrownInOrder(run: seq<State>, acts: seq<Action>, workers: nat, joiners: nat, k: nat)
    requires IsRun(run, acts, workers, joiners) && k < |run|
    ensures ThrownBy(run, acts, k) + run[k].exceptions == PushedBy(acts, k)
  {
    hide Steps, Holding, Thrown;
    if k > 0 {
      var s, a, s' := run[k - 1], acts[k - 1], run[k];
      ThrownInOrder(run, acts, workers, joiners, k - 1);
      assert Steps(s, a, run[k - 1 + 1]);
      QueueStep(s, a, s');
      RaisedArePushed(run, acts, workers, joiners, k - 1, if a.Push? then a.w else 0);
      Regroup(ThrownBy(run, acts, k - 1), s.exceptions, Thrown(a, s'), s'.exceptions,
              if a.Push? then Holding(s, a.w) else []);
    }
  }

  // ----- Each task runs once -----

  predicate Past(s: State, w: nat, t: nat) {
    Busy(s, w, t) && !s.workers[w].Running?
  }

  /** Task `t` has been run by its worker, and perhaps counted. */
  ghost predicate HasRun(s: State, t: nat) {
    t in s.done || exists w: nat :: Past(s, w, t)
  }

  /** A task that worker `w` runs now has not been run before. */
  lemma RunningIsNew(s: State, w: nat, t: nat)
    requires Inv(s) && w < |s.workers| && s.workers[w] == Running(t)
    ensures !HasRun(s, t)
  {
    assert Busy(s, w, t);
  }

  lemma StaysRun(s: State, a: Action, t: nat)
    requires Enabled(s, a) && HasRun(s, t)
    ensures HasRun(Next(s, a), t)
  {
    if t !in s.done {
      var w: nat :| Past(s, w, t);
      assert Past(Next(s, a), w, t) || t in Next(s, a).done;
    }
  }

  lemma HasRunAfter(s: State, a: Action, t: nat)
    requires Enabled(s, a) && (a.Return? || a.Throw?) && s.workers[a.w] == Running(t)
    ensures HasRun(Next(s, a), t)
  {
    assert Past(Next(s, a), a.w, t);
  }

  /** Whatever has been run was run by the step, or before it. */
  lemma RunBefore(s: State, a: Action, t: nat)
    requires Enabled(s, a) && HasRun(Next(s, a), t)
    ensures HasRun(s, t) || ((a.Return? || a.Throw?) && s.workers[a.w] == Running(t))
  {
    var s' := Next(s, a);
    if t in s'.done {
      if t !in s.done {
        assert Past(s, a.w, t);
      }
    } else {
      var w: nat :| Past(s', w, t);
      assert Past(s, w, t) || s.workers[w] == Running(t);
    }
  }

  lemma {:induction false} RunStaysRun(run: seq<State>, acts: seq<Action>, workers: nat, joiners: nat,
                                       k: nat, l: nat, t: nat)
    requires IsRun(run, acts, workers, joiners) && k <= l < |run| && HasRun(run[k], t)
    ensures HasRun(run[l], t)
  {
    hide HasRun;
    if k < l {
      RunStaysRun(run, acts, workers, joiners, k, l - 1, t);
      assert Steps(run[l - 1], acts[l - 1], run[l - 1 + 1]);
      StaysRun(run[l - 1], acts[l - 1], t);
    }
  }

  /** No task is run twice. */
  lemma RunsOnce(run: seq<State>, acts: seq<Action>, workers: nat, joiners: nat, k: nat, l: nat, t: nat)
    requires IsRun(run, acts, workers, joiners) && RunsAt(run, acts, k, t) && RunsAt(run, acts, l, t)
    ensures k == l
  {
    var first, second := if k < l then k else l, if k < l then l else k;
    if first < second {
      assert Steps(run[first], acts[first], run[first + 1]);
      HasRunAfter(run[first], acts[first], t);
      RunStaysRun(run, acts, workers, joiners, first + 1, second, t);
      RunInv(run, acts, workers, joiners, second);
      RunningIsNew(run[second], acts[second].w, t);
    }
  }

  lemma NotRunAtStart(workers: nat, joiners: nat, t: nat)
    ensures !HasRun(Initial(workers, joiners), t)
  {
  }

  /** With one of the first `k` actions task `t` is run. */
  ghost predicate RanBy(run: seq<State>, acts: seq<Action>, k: nat, t: nat) {
    exists l: nat :: l < k && RunsAt(run, acts, l, t)
  }

  /** And every task that has been run was run by some action. */
  lemma {:induction false} WasRun(run: seq<State>, acts: seq<Action>, workers: nat, joiners: nat, k: nat, t: nat)
    returns (l: nat)
    requires IsRun(run, acts, workers, joiners) && k < |run| && HasRun(run[k], t)
    ensures l < k && RunsAt(run, acts, l, t)
  {
    NotRunAtStart(workers, joiners, t);
    hide HasRun;
    assert Steps(run[k - 1], acts[k - 1], run[k - 1 + 1]);
    RunBefore(run[k - 1], acts[k - 1], t);
    if HasRun(run[k - 1], t) {
      l := WasRun(run, acts, workers, joiners, k - 1, t);
    } else {
      l := k - 1;
    }
  }

  // ----- What a turn of join does -----

  /** A joiner that has the mutex throws the oldest exception not yet thrown if there is one, or returns if as
      many tasks have been counted as launched, or else sleeps. */
  lemma TurnExactly(run: seq<State>, acts: seq<Action>, workers: nat, joiners: nat, k: nat, j: nat)
    requires IsRun(run, acts, workers, joiners) && k < |acts| && TurnOf(acts[k], j)
    ensures var pushed, n := PushedBy(acts, k), |ThrownBy(run, acts, k)|;
      && n <= |pushed|
      && (forall ex: string :: EndsAt(run, acts, k, j, Throws(ex)) <==> n < |pushed| && pushed[n] == ex)
      && (EndsAt(run, acts, k, j, Returns) <==>
            n == |pushed| && Count(acts, k, Event.Launched) == Count(acts, k, Event.Completed))
    ensures j < |run[k + 1].joiners|
    ensures run[k + 1].joiners[j] == Asleep <==> !run[k + 1].joiners[j].Away?
    ensures run[k + 1].joiners[j].Away? ==> !run[k + 1].waitingOnJoin
  {
    ThrownInOrder(run, acts, workers, joiners, k);
    CountersExact(run, acts, workers, joiners, k);
    assert Steps(run[k], acts[k], run[k + 1]);
  }

  /** A call of join ends only with such a turn: before the first it waits for the queue to be empty. */
  lemma EndsByTurn(run: seq<State>, acts: seq<Action>, workers: nat, joiners: nat, k: nat, j: nat)
    requires IsRun(run, acts, workers, joiners) && k < |acts|
    requires j < |run[k].joiners| && !run[k].joiners[j].Away?
    ensures j < |run[k + 1].joiners|
    ensures run[k + 1].joiners[j].Away? ==> TurnOf(acts[k], j)
    ensures run[k].joiners[j] == Emptying ==>
      run[k + 1].joiners[j] == if acts[k] == SeeEmpty(j) && run[k].queue == [] then Entering else Emptying
  {
    assert Steps(run[k], acts[k], run[k + 1]);
  }

  /** With action `l` joiner `j` finds the task queue empty. */
  predicate SeesEmptyAt(run: seq<State>, acts: seq<Action>, l: nat, j: nat) {
    l < |acts| && l < |run| && acts[l] == SeeEmpty(j) && run[l].queue == []
  }

  /** Whoever has got to the mutex in join has seen the task queue empty since it called. */
  lemma {:induction false} WaitedForEmpty(run: seq<State>, acts: seq<Action>, workers: nat, joiners: nat,
                                          k: nat, j: nat) returns (l: nat)
    requires IsRun(run, acts, workers, joiners) && k < |run| && j < |run[k].joiners|
    requires !run[k].joiners[j].Away? && run[k].joiners[j] != Emptying
    ensures l < k && SeesEmptyAt(run, acts, l, j) && forall m: nat | l < m < k :: acts[m] != Join(j)
  {
    assert k > 0;
    assert Steps(run[k - 1], acts[k - 1], run[k - 1 + 1]);
    if acts[k - 1] == SeeEmpty(j) {
      l := k - 1;
    } else {
      l := WaitedForEmpty(run, acts, workers, joiners, k - 1, j);
    }
  }

  /** A sleeping joiner is woken by a signal that it gets or stirs of itself, and sleeps on otherwise. */
  lemma WakesOnly(run: seq<State>, acts: seq<Action>, workers: nat, joiners: nat, k: nat, j: nat)
    requires IsRun(run, acts, workers, joiners) && k < |acts|
    requires j < |run[k].joiners| && run[k].joiners[j] == Asleep
    ensures j < |run[k + 1].joiners|
    ensures run[k + 1].joiners[j] ==
      if acts[k] == Stir(j) || ((acts[k].Push? || acts[k].Complete?) && j in acts[k].signalled) then Woken else Asleep
  {
    assert Steps(run[k], acts[k], run[k + 1]);
  }

  /** When join returns normally, every task launched so far has been run exactly once and has been counted, no
      worker is busy, the queue is empty, and every exception that a task has thrown has been thrown by an
      earlier call of join, in the order in which they were put in the queue. */
  lemma JoinMeansDone(run: seq<State>, acts: seq<Action>, workers: nat, joiners: nat, k: nat, j: nat)
    requires IsRun(run, acts, workers, joiners) && EndsAt(run, acts, k, j, Returns)
    ensures Count(acts, k, Event.Completed) == Count(acts, k, Event.Launched) == Count(acts, k, Event.Dequeued)
    ensures forall t: nat | t < Count(acts, k, Event.Launched) :: RanBy(run, acts, k, t)
    ensures run[k].queue == [] && forall w: nat | w < |run[k].workers| :: run[k].workers[w] == Free
    ensures ThrownBy(run, acts, k) == PushedBy(acts, k)
    ensures forall w: nat :: RaisedBy(acts, k, w) == PushedOf(acts, k, w)
  {
    TurnExactly(run, acts, workers, joiners, k, j);
    CountersExact(run, acts, workers, joiners, k);
    ThrownInOrder(run, acts, workers, joiners, k);
    RunInv(run, acts, workers, joiners, k);
    NothingLeft(run[k]);
    forall t: nat | t < Count(acts, k, Event.Launched)
      ensures RanBy(run, acts, k, t)
    {
      assert t in run[k].done;
      var l := WasRun(run, acts, workers, joiners, k, t);
    }
    forall w: nat
      ensures RaisedBy(acts, k, w) == PushedOf(acts, k, w)
    {
      RaisedArePushed(run, acts, workers, joiners, k, w);
    }
  }

  /** Each launched task is in exactly one of queue, one worker and done, where it has been run. */
  lemma Accounting(run: seq<State>, acts: seq<Action>, workers: nat, joiners: nat, k: nat, t: nat)
    requires IsRun(run, acts, workers, joiners) && k < |run|
    ensures var s := run[k];
      && (t < Count(acts, k, Event.Launched) <==> t in s.queue || t in s.done || exists w: nat :: Busy(s, w, t))
      && !(t in s.queue && t in s.done)
      && (forall w: nat | Busy(s, w, t) :: t !in s.queue && t !in s.done)
      && (forall v: nat, w: nat | Busy(s, v, t) && Busy(s, w, t) :: v == w)
      && (t in s.done ==> RanBy(run, acts, k, t))
    ensures |run[k].done| == Count(acts, k, Event.Completed)
  {
    RunInv(run, acts, workers, joiners, k);
    CountersExact(run, acts, workers, joiners, k);
    var s := run[k];
    if Taken(s) <= t < s.inserted {
      assert s.queue[t - Taken(s)] == t;
    }
    if t in s.done {
      var l := WasRun(run, acts, workers, joiners, k, t);
    }
  }

  // ----- A single joiner -----

  /** With one joiner: whoever is inside the loop has set the flag, and a joiner that is asleep has
      nothing to do. */
  ghost predicate OneJoiner(s: State) {
    && |s.joiners| == 1
    && (s.joiners[0].Asleep? || s.joiners[0].Woken? <==> s.waitingOnJoin)
    && (s.joiners[0].Asleep? ==> s.exceptions == [] && s.completed < s.inserted)
  }

  lemma CompletedBound(s: State)
    requires Inv(s)
    ensures s.completed <= s.inserted
  {
    assert s.done <= Below(s.inserted);
    SubsetSize(s.done, Below(s.inserted));
  }

  lemma TurnOneJoiner(s: State)
    requires |s.joiners| == 1 && s.completed <= s.inserted && s.waitingOnJoin
    ensures OneJoiner(Turn(s, 0))
  {
  }

  lemma SignalOneJoiner(s: State, a: Action)
    requires OneJoiner(s) && Enabled(s, a) && (a.Push? || a.Complete?)
    requires a.Complete? ==> s.completed < s.inserted
    ensures OneJoiner(Next(s, a))
  {
    hide Signal;
    OnlySleeper(s, a.signalled);
  }

  lemma OneJoinerStep(s: State, a: Action)
    requires Inv(s) && OneJoiner(s) && Enabled(s, a)
    ensures OneJoiner(Next(s, a))
  {
    CompletedBound(s);
    hide Inv, Signal, Turn, Wake;
    match a
    case Push(_, _) => SignalOneJoiner(s, a);
    case Complete(w, _) =>
      MoreToDo(s, w);
      SignalOneJoiner(s, a);
    case Enter(_) => TurnOneJoiner(s.(waitingOnJoin := true));
    case Resume(_) => TurnOneJoiner(s);
    case _ =>
  }

  lemma OnlySleeper(s: State, signalled: set<nat>)
    requires |s.joiners| == 1
    ensures s.joiners[0].Asleep? && Signal(s, signalled) ==> 0 in signalled
    ensures !s.joiners[0].Asleep? && Signal(s, signalled) ==> signalled == {}
  {
    if s.joiners[0].Asleep? {
      assert 0 in Sleepers(s);
      if signalled != {} {
        var j :| j in signalled;
      }
    }
  }

  /** A worker that is busy has a task that is not counted yet. */
  lemma MoreToDo(s: State, w: nat)
    requires Inv(s) && w < |s.workers| && s.workers[w].Finishing?
    ensures s.completed < s.inserted
  {
    var t := s.workers[w].task;
    assert Busy(s, w, t);
    SubsetSize(s.done + {t}, Below(s.inserted));
  }

  lemma {:induction false} OneJoinerRun(run: seq<State>, acts: seq<Action>, workers: nat, k: nat)
    requires IsRun(run, acts, workers, 1) && k < |run|
    ensures OneJoiner(run[k])
  {
    hide Next, Enabled;
    if k > 0 {
      OneJoinerRun(run, acts, workers, k - 1);
      RunInv(run, acts, workers, 1, k - 1);
      assert Steps(run[k - 1], acts[k - 1], run[k - 1 + 1]);
      OneJoinerStep(run[k - 1], acts[k - 1]);
    }
  }

  /** With a single joiner no wake-up is lost: while it sleeps unsignalled there is no exception to
      throw and some task is unfinished. */
  lemma SingleJoinerNotForgotten(run: seq<State>, acts: seq<Action>, workers: nat, k: nat)
    requires IsRun(run, acts, workers, 1) && k < |run|
    ensures |run[k].joiners| == 1
    ensures run[k].joiners[0] == Asleep ==> run[k].exceptions == [] && run[k].completed < run[k].inserted
  {
    OneJoinerRun(run, acts, workers, k);
  }

  // ----- Exactly when a wake-up can be lost -----

  /** Joiner `j` sleeps although an exception is pending or all tasks are completed. */
  predicate Forgotten(s: State, j: nat) {
    j < |s.joiners| && s.joiners[j].Asleep? && (s.exceptions != [] || s.completed == s.inserted)
  }

  ghost predicate NeverForgotten(workers: nat, joiners: nat) {
    forall run, acts, k: nat, j: nat | IsRun(run, acts, workers, joiners) && k < |run| :: !Forgotten(run[k], j)
  }

  /** Without workers nothing is completed or thrown, and a joiner sleeps only after a launch. */
  predicate NoWorkers(s: State) {
    && s.workers == [] && s.completed == 0 && s.exceptions == []
    && forall j: nat | j < |s.joiners| && s.joiners[j].Asleep? :: 0 < s.inserted
  }

  lemma {:induction false} NoWorkersRun(run: seq<State>, acts: seq<Action>, joiners: nat, k: nat)
    requires IsRun(run, acts, 0, joiners) && k < |run|
    ensures NoWorkers(run[k])
  {
    if k > 0 {
      NoWorkersRun(run, acts, joiners, k - 1);
      assert Steps(run[k - 1], acts[k - 1], run[k - 1 + 1]);
    }
  }

  lemma {:induction false} NoJoinersRun(run: seq<State>, acts: seq<Action>, workers: nat, k: nat)
    requires IsRun(run, acts, workers, 0) && k < |run|
    ensures run[k].joiners == []
  {
    if k > 0 {
      NoJoinersRun(run, acts, workers, k - 1);
      assert Steps(run[k - 1], acts[k - 1], run[k - 1 + 1]);
    }
  }

  lemma NotForgotten(run: seq<State>, acts: seq<Action>, workers: nat, joiners: nat, k: nat, j: nat)
    requires (joiners <= 1 || workers == 0) && IsRun(run, acts, workers, joiners) && k < |run|
    ensures !Forgotten(run[k], j)
  {
    if workers == 0 {
      NoWorkersRun(run, acts, joiners, k);
    } else if joiners == 0 {
      NoJoinersRun(run, acts, workers, k);
    } else {
      SingleJoinerNotForgotten(run, acts, workers, k);
    }
  }

  lemma Extend(run: seq<State>, acts: seq<Action>, workers: nat, joiners: nat, a: Action, s: State)
    returns (run': seq<State>, acts': seq<Action>)
    requires IsRun(run, acts, workers, joiners) && Steps(run[|acts|], a, s)
    ensures IsRun(run', acts', workers, joiners) && run'[|acts'|] == s
  {
    hide Steps;
    run', acts' := run + [s], acts + [a];
    forall k: nat | k < |acts'|
      ensures Steps(run'[k], acts'[k], run'[k + 1])
    {
      if k < |acts| {
        assert Steps(run[k], acts[k], run[k + 1]);
      }
    }
  }

  /** `n` workers of which the first is at `w`. */
  function Crew(n: nat, w: Worker): seq<Worker> {
    seq(n, x => if x == 0 then w else Free)
  }

  const NEW := Away(Returns)

  /** `m` joiners of which the first two are at `j0` and `j1`. */
  function Callers(m: nat, j0: Joiner, j1: Joiner): seq<Joiner> {
    seq(m, x => if x == 0 then j0 else if x == 1 then j1 else NEW)
  }

  /** One task has been launched and taken by the first worker; no exception has been thrown yet. */
  function Busily(n: nat, m: nat, waiting: bool, w: Worker, j0: Joiner, j1: Joiner): State {
    State([], 1, 0, waiting, [], Crew(n, w), Callers(m, j0, j1), {})
  }

  const EX := "failed"

  lemma TaskTaken(n: nat, m: nat) returns (run: seq<State>, acts: seq<Action>)
    requires n >= 1 && m >= 2
    ensures IsRun(run, acts, n, m) && run[|acts|] == Busily(n, m, false, Running(0), NEW, NEW)
  {
    var s1 := State([0], 1, 0, false, [], Crew(n, Free), Callers(m, NEW, NEW), {});
    assert Steps(Initial(n, m), Launch, s1);
    run, acts := Extend([Initial(n, m)], [], n, m, Launch, s1);
    run, acts := Extend(run, acts, n, m, Dequeue(0), Busily(n, m, false, Running(0), NEW, NEW));
  }

  /** The first joiner goes to sleep while the task runs. */
  lemma FirstSleeps(n: nat, m: nat) returns (run: seq<State>, acts: seq<Action>)
    requires n >= 1 && m >= 2
    ensures IsRun(run, acts, n, m) && run[|acts|] == Busily(n, m, true, Running(0), Asleep, NEW)
  {
    run, acts := TaskTaken(n, m);
    run, acts := Extend(run, acts, n, m, Join(0), Busily(n, m, false, Running(0), Emptying, NEW));
    run, acts := Extend(run, acts, n, m, SeeEmpty(0), Busily(n, m, false, Running(0), Entering, NEW));
    run, acts := Extend(run, acts, n, m, Enter(0), Busily(n, m, true, Running(0), Asleep, NEW));
  }

  /** So does the second. */
  lemma BothSleep(n: nat, m: nat) returns (run: seq<State>, acts: seq<Action>)
    requires n >= 1 && m >= 2
    ensures IsRun(run, acts, n, m) && run[|acts|] == Busily(n, m, true, Running(0), Asleep, Asleep)
  {
    run, acts := FirstSleeps(n, m);
    run, acts := Extend(run, acts, n, m, Join(1), Busily(n, m, true, Running(0), Asleep, Emptying));
    run, acts := Extend(run, acts, n, m, SeeEmpty(1), Busily(n, m, true, Running(0), Asleep, Entering));
    run, acts := Extend(run, acts, n, m, Enter(1), Busily(n, m, true, Running(0), Asleep, Asleep));
  }

  /** With a second joiner a wake-up can be lost: the task's exception wakes the first joiner, whose throw
      clears the flag, so that nobody signals the second one when the task is counted. */
  lemma SecondJoinerForgotten(n: nat, m: nat) returns (run: seq<State>, acts: seq<Action>)
    requires n >= 1 && m >= 2
    ensures IsRun(run, acts, n, m)
    ensures var s := run[|acts|];
      && Forgotten(s, 1) && !s.waitingOnJoin && s.exceptions == [] && s.completed == s.inserted
      && s.queue == [] && forall w: nat | w < |s.workers| :: s.workers[w] == Free
  {
    run, acts := BothSleep(n, m);
    var s1 := Busily(n, m, true, Worker.Raised(0, EX), Asleep, Asleep);
    run, acts := Extend(run, acts, n, m, Throw(0, EX), s1);
    var s2 := State([], 1, 0, true, [EX], Crew(n, Finishing(0)), Callers(m, Woken, Asleep), {});
    assert 0 in Sleepers(s1);
    run, acts := Extend(run, acts, n, m, Push(0, {0}), s2);
    var s3 := State([], 1, 0, false, [], Crew(n, Finishing(0)), Callers(m, Away(Throws(EX)), Asleep), {});
    run, acts := Extend(run, acts, n, m, Resume(0), s3);
    var s4 := State([], 1, 1, false, [], Crew(n, Free), Callers(m, Away(Throws(EX)), Asleep), {0});
    run, acts := Extend(run, acts, n, m, Complete(0, {}), s4);
  }

  /** What can wake joiner `j` while the flag is clear: a new join, an exception, or nothing at all. */
  predicate MayWake(a: Action, j: nat) {
    a.Enter? || a.Push? || a == Stir(j)
  }

  /** And nobody will signal it: from a state with the flag clear, a sleeping joiner stays asleep however many
      tasks are launched and completed, until somebody joins anew, an exception arrives or it stirs of itself. */
  lemma {:induction false} StaysAsleep(run: seq<State>, acts: seq<Action>, workers: nat, joiners: nat,
                                       k: nat, l: nat, j: nat)
    requires IsRun(run, acts, workers, joiners) && k <= l < |run|
    requires j < |run[k].joiners| && run[k].joiners[j].Asleep? && !run[k].waitingOnJoin
    requires forall m: nat | k <= m < l :: !MayWake(acts[m], j)
    ensures j < |run[l].joiners| && run[l].joiners[j].Asleep? && !run[l].waitingOnJoin
  {
    if k < l {
      StaysAsleep(run, acts, workers, joiners, k, l - 1, j);
      assert Steps(run[l - 1], acts[l - 1], run[l - 1 + 1]) && !MayWake(acts[l - 1], j);
    }
  }

  /** No joiner is ever left asleep with something to do if and only if there is at most one, or there
      are no workers. */
  lemma NeverForgottenIff(workers: nat, joiners: nat)
    ensures NeverForgotten(workers, joiners) <==> joiners <= 1 || workers == 0
  {
    if joiners <= 1 || workers == 0 {
      forall run, acts, k: nat, j: nat | IsRun(run, acts, workers, joiners) && k < |run|
        ensures !Forgotten(run[k], j)
      {
        NotForgotten(run, acts, workers, joiners, k, j);
      }
    } else {
      var run, acts := SecondJoinerForgotten(workers, joiners);
      assert Forgotten(run[|acts|], 1);
    }
  }
}
