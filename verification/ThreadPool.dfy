/**
 Task and exception accounting of delete-me/thread_pool.hpp: launch, the worker loop and join, as a
 monitor.  A stretch of code under the mutex is one step.  The task queue is a FIFO sequence, and a
 task is named by the order in which it was launched.
 */
module ThreadPool {
  datatype Worker =
    | Free                            // 238: dequeue
    | Running(task: nat)              // 247: the task's function
    | Raised(task: nat, ex: string)   // 251-254: put the exception in the queue
    | Finishing(task: nat)            // 257-265: count the task as completed

  /** How the turn of a joiner that has the mutex ends. */
  datatype Outcome = Throws(ex: string) | Returns | Sleeps

  /** Outside join a joiner keeps how its last call ended, `Returns` before the first. */
  datatype Joiner =
    | Away(left: Outcome)
    | Emptying                        // 284: wait until the task queue is empty
    | Entering                        // 286: lock
    | Asleep                          // 304: on event_condition
    | Woken                           // 304: and yet to get the mutex back

  /** `done` is the set of tasks counted as completed; the code does not have it. */
  datatype State = State(
    queue: seq<nat>, inserted: nat, completed: nat, waitingOnJoin: bool, exceptions: seq<string>,
    workers: seq<Worker>, joiners: seq<Joiner>, done: set<nat>)

  datatype Action =
    | Launch
    | Dequeue(w: nat)
    | Return(w: nat)                           // the function returns
    | Throw(w: nat, ex: string)                // the function throws a string
    | Push(w: nat, signalled: set<nat>)        // lines 251-254; the signal wakes joiners `signalled`
    | Complete(w: nat, signalled: set<nat>)    // lines 257-265
    | Join(j: nat)
    | SeeEmpty(j: nat)
    | Enter(j: nat)                            // lines 286-304
    | Stir(j: nat)                             // joiner j wakes up of itself
    | Resume(j: nat)                           // joiner j gets the mutex back

  function Initial(workers: nat, joiners: nat): State {
    State([], 0, 0, false, [], seq(workers, _ => Free), seq(joiners, _ => Away(Returns)), {})
  }

  function Sleepers(s: State): set<nat> {
    set j: nat | j < |s.joiners| && s.joiners[j].Asleep?
  }

  /** A signal wakes at least one of the joiners asleep, if there is one, and perhaps more. */
  predicate Signal(s: State, signalled: set<nat>) {
    signalled <= Sleepers(s) && (Sleepers(s) != {} ==> signalled != {})
  }

  /** Line 262, after the increment. */
  predicate Signals(s: State) {
    s.waitingOnJoin && s.completed + 1 == s.inserted
  }

  predicate WorkerAt(s: State, w: nat) {
    w < |s.workers|
  }

  predicate JoinerAt(s: State, j: nat) {
    j < |s.joiners|
  }

  predicate Enabled(s: State, a: Action) {
    match a
    case Launch => true
    case Dequeue(w) => WorkerAt(s, w) && s.workers[w].Free? && s.queue != []
    case Return(w) => WorkerAt(s, w) && s.workers[w].Running?
    case Throw(w, _) => WorkerAt(s, w) && s.workers[w].Running?
    case Push(w, signalled) => WorkerAt(s, w) && s.workers[w].Raised? && Signal(s, signalled)
    case Complete(w, signalled) =>
      && WorkerAt(s, w) && s.workers[w].Finishing?
      && if Signals(s) then Signal(s, signalled) else signalled == {}
    case Join(j) => JoinerAt(s, j) && s.joiners[j].Away?
    case SeeEmpty(j) => JoinerAt(s, j) && s.joiners[j].Emptying? && s.queue == []
    case Enter(j) => JoinerAt(s, j) && s.joiners[j].Entering?
    case Stir(j) => JoinerAt(s, j) && s.joiners[j].Asleep?
    case Resume(j) => JoinerAt(s, j) && s.joiners[j].Woken?
  }

  function Set(s: State, w: nat, to: Worker): State
    requires WorkerAt(s, w)
  {
    s.(workers := s.workers[w := to])
  }

  function Move(s: State, j: nat, to: Joiner): State
    requires JoinerAt(s, j)
  {
    s.(joiners := s.joiners[j := to])
  }

  function Wake(s: State, signalled: set<nat>): State {
    s.(joiners := seq(|s.joiners|, j requires 0 <= j < |s.joiners| => if j in signalled then Woken else s.joiners[j]))
  }

  /** Lines 290-304. */
  function Check(s: State): Outcome {
    if s.exceptions != [] then Throws(s.exceptions[0])
    else if s.completed == s.inserted then Returns
    else Sleeps
  }

  /** One turn of the loop of join. */
  function Turn(s: State, j: nat): State
    requires JoinerAt(s, j)
  {
    match Check(s)
    case Throws(ex) =>
      Move(s.(exceptions := s.exceptions[1..], waitingOnJoin := false), j, Away(Throws(ex)))
    case Returns => Move(s.(waitingOnJoin := false), j, Away(Returns))
    case Sleeps => Move(s, j, Asleep)
  }

  function Next(s: State, a: Action): State
    requires Enabled(s, a)
  {
    match a
    case Launch => s.(inserted := s.inserted + 1, queue := s.queue + [s.inserted])
    case Dequeue(w) => Set(s.(queue := s.queue[1..]), w, Running(s.queue[0]))
    case Return(w) => Set(s, w, Finishing(s.workers[w].task))
    case Throw(w, ex) => Set(s, w, Raised(s.workers[w].task, ex))
    case Push(w, signalled) =>
      var ex, task := s.workers[w].ex, s.workers[w].task;
      Set(Wake(s.(exceptions := s.exceptions + [ex]), signalled), w, Finishing(task))
    case Complete(w, signalled) =>
      Set(Wake(s.(completed := s.completed + 1, done := s.done + {s.workers[w].task}), signalled), w, Free)
    case Join(j) => Move(s, j, Emptying)
    case SeeEmpty(j) => Move(s, j, Entering)
    case Enter(j) => Turn(s.(waitingOnJoin := true), j)
    case Stir(j) => Move(s, j, Woken)
    case Resume(j) => Turn(s, j)
  }

  predicate Steps(s: State, a: Action, s': State) {
    Enabled(s, a) && s' == Next(s, a)
  }

  ghost predicate IsRun(run: seq<State>, acts: seq<Action>, workers: nat, joiners: nat) {
    && |run| == |acts| + 1 && run[0] == Initial(workers, joiners)
    && forall k: nat | k < |acts| :: Steps(run[k], acts[k], run[k + 1])
  }

  // ----- The code -----

  class Pool {
    var spawnQueue: seq<nat>
    var tasksInserted: nat
    var tasksCompleted: nat
    var waitingOnJoin: bool
    var exceptionQueue: seq<string>
    ghost var workers: seq<Worker>
    ghost var joiners: seq<Joiner>
    ghost var done: set<nat>

    ghost function Snapshot(): State
      reads this
    {
      State(spawnQueue, tasksInserted, tasksCompleted, waitingOnJoin, exceptionQueue, workers, joiners, done)
    }

    constructor (ghost nworkers: nat, ghost njoiners: nat)
      ensures Snapshot() == Initial(nworkers, njoiners)
    {
      spawnQueue, tasksInserted, tasksCompleted, waitingOnJoin, exceptionQueue := [], 0, 0, false, [];
      workers, joiners, done := seq(nworkers, _ => Free), seq(njoiners, _ => Away(Returns)), {};
    }

    /** launch; the task is the number of tasks launched before it. */
    method LaunchTask()
      modifies this
      ensures Snapshot() == Next(old(Snapshot()), Launch)
    {
      tasksInserted := tasksInserted + 1;
      spawnQueue := spawnQueue + [tasksInserted - 1];
    }

    /** Line 238 by worker `w`. */
    method TakeTask(ghost w: nat) returns (task: nat)
      requires Enabled(Snapshot(), Dequeue(w))
      modifies this
      ensures Snapshot() == Next(old(Snapshot()), Dequeue(w)) && workers[w] == Running(task)
    {
      task, spawnQueue := spawnQueue[0], spawnQueue[1..];
      workers := workers[w := Running(task)];
    }

    /** Lines 251-254 by worker `w`, whose task has thrown `ex`. */
    method PushException(ghost w: nat, ex: string, ghost signalled: set<nat>)
      requires Enabled(Snapshot(), Push(w, signalled)) && workers[w].ex == ex
      modifies this
      ensures Snapshot() == Next(old(Snapshot()), Push(w, signalled))
    {
      exceptionQueue := exceptionQueue + [ex];
      joiners := Wake(Snapshot(), signalled).joiners;
      workers := workers[w := Finishing(workers[w].task)];
    }

    /** Lines 257-265 by worker `w`; the result says whether the joiner is signalled. */
    method CompleteTask(ghost w: nat, ghost signalled: set<nat>) returns (signals: bool)
      requires Enabled(Snapshot(), Complete(w, signalled))
      modifies this
      ensures Snapshot() == Next(old(Snapshot()), Complete(w, signalled))
      ensures signals <==> waitingOnJoin && tasksCompleted == tasksInserted
    {
      done := done + {workers[w].task};
      workers := workers[w := Free];
      tasksCompleted := tasksCompleted + 1;
      signals := waitingOnJoin && tasksCompleted == tasksInserted;
      if signals {
        joiners := Wake(Snapshot(), signalled).joiners;
      } else {
        assert joiners == Wake(Snapshot(), {}).joiners;
      }
    }

    /** Lines 286-307 by joiner `j` up to the throw, the return or the first sleep. */
    method EnterJoin(ghost j: nat) returns (o: Outcome)
      requires Enabled(Snapshot(), Enter(j))
      modifies this
      ensures Snapshot() == Next(old(Snapshot()), Enter(j)) && o == Check(old(Snapshot()))
    {
      waitingOnJoin := true;
      o := JoinTurn(j);
    }

    /** The loop of join by joiner `j`, which has the mutex. */
    method JoinTurn(ghost j: nat) returns (o: Outcome)
      requires JoinerAt(Snapshot(), j)
      modifies this
      ensures Snapshot() == Turn(old(Snapshot()), j) && o == Check(old(Snapshot()))
      ensures o == if old(exceptionQueue) != [] then Throws(old(exceptionQueue)[0])
                   else if tasksCompleted == tasksInserted then Returns else Sleeps
    {
      if exceptionQueue != [] {
        var ex := exceptionQueue[0];
        exceptionQueue := exceptionQueue[1..];
        waitingOnJoin := false;
        o := Throws(ex);
        joiners := joiners[j := Away(o)];
      } else if tasksCompleted == tasksInserted {
        waitingOnJoin := false;
        o := Returns;
        joiners := joiners[j := Away(o)];
      } else {
        joiners := joiners[j := Asleep];
        o := Sleeps;
      }
    }
  }
}
