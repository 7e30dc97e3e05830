/** What holds over whole runs of the queue-based lock, as coded. */
module QueuedRwLockRuns {
  import opened Wrappers
  import opened QueuedRwLock
  import opened QueuedRwLockInvariant
  import opened QueuedRwLockSteps

  predicate Steps(s: State, a: Action, s': State) {
    && (a.Run? ==> a.i < |s.reqs|)
    && Enabled(s, a)
    && s' == Next(s, a)
  }

  /** Action `acts[k]` takes `run[k]` to `run[k + 1]`: any number of requests, in any interleaving. */
  ghost predicate IsRun(run: seq<State>, acts: seq<Action>) {
    && |run| == |acts| + 1
    && run[0] == INITIAL
    && forall k: nat | k < |acts| :: Steps(run[k], acts[k], run[k + 1])
  }

  lemma Extend(run: seq<State>, acts: seq<Action>, a: Action, s: State)
    returns (run': seq<State>, acts': seq<Action>)
    requires IsRun(run, acts) && Steps(run[|acts|], a, s)
    ensures IsRun(run', acts') && run'[|acts'|] == s
  {
    hide Steps;
    run', acts' := run + [s], acts + [a];
    forall k: nat | k < |acts'|
      ensures Steps(run'[k], acts'[k], run'[k + 1])
    {
      if k < |acts| {
        assert Steps(run[k], acts[k], run[k + 1]);
      }
    }
  }

  lemma NextInv(s: State, a: Action)
    requires Inv(s) && (a.Run? ==> a.i < |s.reqs|)
    ensures Enabled(s, a) && Inv(Next(s, a))
  {
    match a
    case Arrive(cls) => ArriveInv(s, cls);
    case Run(i) => StepInv(s, i);
  }

  lemma InitialInv()
    ensures Inv(INITIAL)
  {
  }

  lemma {:induction false} RunInv(run: seq<State>, acts: seq<Action>, k: nat)
    requires IsRun(run, acts) && k < |run|
    ensures Inv(run[k])
  {
    if k == 0 {
      InitialInv();
    } else {
      RunInv(run, acts, k - 1);
      assert Steps(run[k - 1], acts[k - 1], run[k - 1 + 1]);
      NextInv(run[k - 1], acts[k - 1]);
    }
  }

  /** No step of a run follows a null pointer, reads a request that was never swapped in, or takes
      the reader count below zero. */
  lemma NoCrash(run: seq<State>, acts: seq<Action>, k: nat, i: nat)
    requires IsRun(run, acts) && k < |run| && i < |run[k].reqs|
    ensures Safe(run[k], i)
  {
    RunInv(run, acts, k);
    InvSafe(run[k], i);
  }

  // ----- Order of admission, writers -----

  /** Admission is first come first served, and a writer is let in only when every earlier writer
      has finished and lets nobody in behind it before it has. */
  lemma FairAdmission(run: seq<State>, acts: seq<Action>, k: nat, i: nat, j: nat)
    requires IsRun(run, acts) && k < |run| && i < j < |run[k].reqs| && !run[k].reqs[j].blocked
    ensures !run[k].reqs[i].blocked
    ensures run[k].reqs[i].cls == Write ==> run[k].reqs[i].pc == WDone
  {
    RunInv(run, acts, k);
    Fifo(run[k], i, j);
  }

  predicate HoldsWrite(r: Request) {
    r.cls == Write && !r.blocked && r.pc != WDone
  }

  lemma OneWriter(run: seq<State>, acts: seq<Action>, k: nat, i: nat, j: nat)
    requires IsRun(run, acts) && k < |run| && i < |run[k].reqs| && j < |run[k].reqs|
    requires HoldsWrite(run[k].reqs[i]) && HoldsWrite(run[k].reqs[j])
    ensures i == j
  {
    if i < j {
      FairAdmission(run, acts, k, i, j);
    } else if j < i {
      FairAdmission(run, acts, k, j, i);
    }
  }

  // ----- The reader count -----

  /** Between the return of readlock and the call of rdunlock. */
  predicate HoldsRead(r: Request) {
    r.pc == RHeld
  }

  /** The count is the number of readers that have been counted in and have not left, which takes in
      every reader that holds the lock. */
  lemma CountIsExact(run: seq<State>, acts: seq<Action>, k: nat)
    requires IsRun(run, acts) && k < |run|
    ensures run[k].readerCount == |Inside(run[k])|
    ensures forall i: nat | i < |run[k].reqs| && HoldsRead(run[k].reqs[i]) :: i in Inside(run[k])
  {
    RunInv(run, acts, k);
    forall i: nat | i < |run[k].reqs| && HoldsRead(run[k].reqs[i])
      ensures i in Inside(run[k])
    {
      assert NodeAt(run[k], i);
    }
  }

  // ----- Each request is let in exactly once -----

  /** The next step of request `i` writes `blocked = false` in request `j`. */
  predicate Unblocks(s: State, i: nat, j: nat) {
    && i < |s.reqs|
    && var r := s.reqs[i];
    match r.pc
    case WSelf | RSelf | RJoinSelf => i == j
    case WPass | RPass => r.next == Some(j)
    case RWake(w) => w == j
    case _ => false
  }

  lemma MovesUnblock(s: State, s': State, i: nat, j: nat)
    requires Moved(s, s', i) && OwnStep(s.reqs[i].pc) && j < |s.reqs|
    ensures s'.reqs[j].blocked == (s.reqs[j].blocked && !Unblocks(s, i, j))
  {
    hide MovesShared;
  }

  lemma JoinsUnblock(s: State, s': State, i: nat, j: nat)
    requires Joined(s, s', i) && j < |s.reqs|
    ensures s'.reqs[j].blocked == (s.reqs[j].blocked && !Unblocks(s, i, j))
  {
  }

  lemma PassesUnblock(s: State, s': State, i: nat, j: nat)
    requires PassedOn(s, s', i) && j < |s.reqs| && s.reqs[i].next == Some(i + 1)
    ensures s'.reqs[j].blocked == (s.reqs[j].blocked && !Unblocks(s, i, j))
  {
  }

  /** A step changes `blocked` exactly in the requests it unblocks. */
  lemma UnblockEffect(s: State, s': State, i: nat, j: nat)
    requires Inv(s) && Changed(s, s', i) && j < |s.reqs|
    ensures |s'.reqs| == |s.reqs|
    ensures s'.reqs[j].blocked == (s.reqs[j].blocked && !Unblocks(s, i, j))
  {
    hide Inv, Moves, MovesShared, Joins, Passes, Unblocks;
    if Woke(s, s', i) {
      WakesUnblock(s, i, j);
    } else if Joined(s, s', i) {
      JoinsUnblock(s, s', i, j);
    } else if PassedOn(s, s', i) {
      PassesNext(s, s', i);
      PassesUnblock(s, s', i, j);
    } else {
      MovesUnblock(s, s', i, j);
    }
  }

  lemma PassesNext(s: State, s': State, i: nat)
    requires Inv(s) && PassedOn(s, s', i)
    ensures s.reqs[i].next == Some(i + 1)
  {
    PassTarget(s, i);
  }

  lemma WakesUnblock(s: State, i: nat, j: nat)
    requires i < |s.reqs| && j < |s.reqs| && s.reqs[i].pc.RWake? && s.reqs[i].pc.w < |s.reqs|
    ensures var s' := Woken(s, i, s.reqs[i].pc.w, RDone);
      |s'.reqs| == |s.reqs| && s'.reqs[j].blocked == (s.reqs[j].blocked && !Unblocks(s, i, j))
  {
  }

  lemma UnblockTarget(s: State, i: nat, j: nat)
    requires Inv(s) && Unblocks(s, i, j)
    ensures j < |s.reqs| && s.reqs[j].blocked
  {
    assert NodeAt(s, i);
    if s.reqs[i].pc.WPass? || s.reqs[i].pc.RPass? {
      PassTarget(s, i);
    } else if s.reqs[i].pc.RWake? {
      assert WakesAt(s, i, j);
    }
  }

  predicate UnblocksBy(s: State, a: Action, j: nat) {
    a.Run? && Unblocks(s, a.i, j)
  }

  ghost predicate UnblockedAt(run: seq<State>, acts: seq<Action>, k: nat, j: nat) {
    k < |acts| && k < |run| && UnblocksBy(run[k], acts[k], j)
  }

  lemma NextUnblocks(s: State, a: Action, s': State, j: nat)
    requires Inv(s) && Steps(s, a, s')
    ensures |s.reqs| <= |s'.reqs|
    ensures j < |s.reqs| ==> s'.reqs[j].blocked == (s.reqs[j].blocked && !UnblocksBy(s, a, j))
    ensures |s.reqs| <= j < |s'.reqs| ==> s'.reqs[j].blocked
  {
    hide Inv, Step, Unblocks;
    if a.Run? {
      StepChanges(s, a.i);
      UnblockEffect(s, s', a.i, if j < |s.reqs| then j else a.i);
    }
  }

  /** Once let in, a request stays let in. */
  lemma {:induction false} StaysUnblocked(run: seq<State>, acts: seq<Action>, k: nat, l: nat, j: nat)
    requires IsRun(run, acts) && k <= l < |run| && j < |run[k].reqs| && !run[k].reqs[j].blocked
    ensures j < |run[l].reqs| && !run[l].reqs[j].blocked
  {
    hide Inv, Steps, UnblocksBy;
    if k < l {
      StaysUnblocked(run, acts, k, l - 1, j);
      RunInv(run, acts, l - 1);
      assert Steps(run[l - 1], acts[l - 1], run[l - 1 + 1]);
      NextUnblocks(run[l - 1], acts[l - 1], run[l], j);
    }
  }

  /** No request is unblocked twice, and every request that is let in was unblocked by a step. */
  lemma {:induction false} UnblockedOnce(run: seq<State>, acts: seq<Action>, j: nat)
    requires IsRun(run, acts)
    ensures forall k: nat, l: nat :: UnblockedAt(run, acts, k, j) && UnblockedAt(run, acts, l, j) ==> k == l
    ensures forall m: nat | m < |run| && j < |run[m].reqs| && !run[m].reqs[j].blocked ::
      exists k: nat :: k < m && UnblockedAt(run, acts, k, j)
  {
    hide Inv, Step, Unblocks;
    forall k: nat, l: nat | UnblockedAt(run, acts, k, j) && UnblockedAt(run, acts, l, j)
      ensures k >= l
    {
      if k < l {
        RunInv(run, acts, k);
        RunInv(run, acts, l);
        UnblockTarget(run[k], acts[k].i, j);
        UnblockTarget(run[l], acts[l].i, j);
        assert Steps(run[k], acts[k], run[k + 1]);
        NextUnblocks(run[k], acts[k], run[k + 1], j);
        StaysUnblocked(run, acts, k + 1, l, j);
      }
    }
    forall m: nat | m < |run| && j < |run[m].reqs| && !run[m].reqs[j].blocked
      ensures exists k: nat :: k < m && UnblockedAt(run, acts, k, j)
    {
      WasUnblocked(run, acts, m, j);
    }
  }

  lemma {:induction false} WasUnblocked(run: seq<State>, acts: seq<Action>, m: nat, j: nat)
    requires IsRun(run, acts) && m < |run| && j < |run[m].reqs| && !run[m].reqs[j].blocked
    ensures exists k: nat :: k < m && UnblockedAt(run, acts, k, j)
  {
    hide Inv, Steps, Unblocks;
    if m > 0 {
      RunInv(run, acts, m - 1);
      assert Steps(run[m - 1], acts[m - 1], run[m - 1 + 1]);
      NextUnblocks(run[m - 1], acts[m - 1], run[m], j);
      if run[m - 1].reqs[j].blocked {
        assert UnblockedAt(run, acts, m - 1, j);
      } else {
        WasUnblocked(run, acts, m - 1, j);
      }
    }
  }

  // ----- A finished request may be reused -----

  /** The other requests whose memory the next step of request `i` reads or writes. */
  function Touches(s: State, i: nat): set<nat>
    requires Safe(s, i)
  {
    var r := s.reqs[i];
    if UsesPred(r.pc) then {r.pred.value}
    else if r.pc == WClass || r.pc == WPass || r.pc == RPass then {r.next.value}
    else if r.pc.RWake? then {r.pc.w}
    else {}
  }

  predicate Finished(pc: Pc) {
    pc == WDone || pc == RDone
  }

  lemma PredIsUnfinished(s: State, i: nat)
    requires Shape(s) && i < |s.reqs| && UsesPred(s.reqs[i].pc)
    ensures i > 0 && s.reqs[i].pred == Some(i - 1) && !Finished(s.reqs[i - 1].pc)
  {
    assert NodeAt(s, i);
    if i > 0 {
      assert NodeAt(s, i - 1) && LinkAt(s, i - 1);
    }
  }

  lemma NextIsUnfinished(s: State, i: nat)
    requires Shape(s) && i < |s.reqs| && (s.reqs[i].pc.WClass? || s.reqs[i].pc.WPass? || s.reqs[i].pc.RPass?)
    ensures s.reqs[i].next == Some(i + 1) && i + 1 < |s.reqs| && !Finished(s.reqs[i + 1].pc)
  {
    assert NodeAt(s, i);
    if i + 1 < |s.reqs| {
      assert NodeAt(s, i + 1) && LinkAt(s, i);
    }
  }

  lemma WokenIsUnfinished(s: State, i: nat, w: nat)
    requires Inv(s) && WakesAt(s, i, w)
    ensures w < |s.reqs| && !Finished(s.reqs[w].pc)
  {
    assert NodeAt(s, w);
  }

  /** After its unlock has returned a request is never touched again, so its memory can be reused. */
  lemma FinishedIsUntouched(run: seq<State>, acts: seq<Action>, k: nat, i: nat, j: nat)
    requires IsRun(run, acts) && k < |run| && i < |run[k].reqs|
    ensures Safe(run[k], i)
    ensures j in Touches(run[k], i) ==> j < |run[k].reqs| && !Finished(run[k].reqs[j].pc)
  {
    hide IsRun, Shape, Mail, Counting, Finished;
    NoCrash(run, acts, k, i);
    RunInv(run, acts, k);
    var s := run[k];
    var r := s.reqs[i];
    if j in Touches(s, i) {
      if UsesPred(r.pc) {
        PredIsUnfinished(s, i);
      } else if r.pc.RWake? {
        WokenIsUnfinished(s, i, r.pc.w);
      } else {
        NextIsUnfinished(s, i);
      }
    }
  }

  // ----- Nobody waits for ever on a lock nobody holds -----

  predicate Stuck(s: State, i: nat)
    requires i < |s.reqs|
  {
    var r := s.reqs[i];
    match r.pc
    case WSpin | RSpin => r.blocked
    case WAwait | RAwait | RAwaitReader => r.next.None?
    case WDone | RDone => true
    case _ => false
  }

  lemma MovesUnlessStuck(s: State, s': State, i: nat)
    requires Moved(s, s', i)
    ensures Stuck(s, i) <==> s' == s
    ensures Stuck(s, i) <==> s'.reqs[i].pc == s.reqs[i].pc
  {
    assert Stuck(s, i) <==> s'.reqs[i].pc == s.reqs[i].pc by {
      hide MovesShared;
    }
  }

  /** A request is stuck exactly when its step does nothing. */
  lemma StuckMeansNoStep(s: State, s': State, i: nat)
    requires Changed(s, s', i)
    ensures |s'.reqs| == |s.reqs|
    ensures Stuck(s, i) <==> s' == s
    ensures Stuck(s, i) <==> s'.reqs[i].pc == s.reqs[i].pc
  {
    hide Moves, MovesShared;
    if Moved(s, s', i) {
      MovesUnlessStuck(s, s', i);
    }
  }

  predicate Holds(pc: Pc) {
    pc == WHeld || pc == RHeld
  }

  /** A request inside a call that can take a step, or one that holds the lock. */
  predicate Live(s: State, j: nat) {
    j < |s.reqs| && (Holds(s.reqs[j].pc) || !Stuck(s, j))
  }

  lemma AwaitedIsLive(s: State, i: nat)
    requires Inv(s) && i < |s.reqs| && s.reqs[i].next.None?
    requires s.reqs[i].pc.WAwait? || s.reqs[i].pc.RAwait? || s.reqs[i].pc.RAwaitReader?
    ensures Live(s, i + 1)
  {
    assert NodeAt(s, i);
    if i + 1 < |s.reqs| {
      assert NodeAt(s, i + 1) && LinkAt(s, i);
    }
  }

  lemma CountedIsLive(s: State, c: nat) returns (j: nat)
    requires Inv(s) && Counted(s, c)
    ensures Live(s, j)
  {
    j := c;
    if s.reqs[c].next.None? && (s.reqs[c].pc.RAwaitReader? || s.reqs[c].pc.RAwait?) {
      AwaitedIsLive(s, c);
      j := c + 1;
    } else if s.reqs[c].pc.RSpin? && s.reqs[c].blocked {
      j := c - 1;
    }
  }

  /** A writer that has been handed the mailbox and still spins will be woken by somebody. */
  lemma WaitingIsServed(s: State, w: nat) returns (j: nat)
    requires Inv(s) && Waiting(s, w) && s.reqs[w].pc.WSpin?
    ensures Live(s, j)
  {
    if Taken(s, w) {
      j :| WakesAt(s, j, w);
    } else if s.readerCount == 0 {
      j :| TakesAt(s, j);
    } else {
      var c :| c in Inside(s);
      j := CountedIsLive(s, c);
    }
  }

  /** No wake-up is lost: while a request is unfinished, some request inside a call can take a step,
      or some request holds the lock. */
  lemma {:induction false} Progress(s: State, i: nat) returns (j: nat)
    requires Inv(s) && i < |s.reqs| && !Finished(s.reqs[i].pc)
    ensures Live(s, j)
  {
    j := i;
    var r := s.reqs[i];
    assert NodeAt(s, i);
    if Stuck(s, i) {
      if r.next.None? && (r.pc.WAwait? || r.pc.RAwait? || r.pc.RAwaitReader?) {
        AwaitedIsLive(s, i);
        j := i + 1;
      } else if Waiting(s, i) {
        j := WaitingIsServed(s, i);
      } else {
        assert i > 0 && NodeAt(s, i - 1) && LinkAt(s, i - 1);
        j := Progress(s, i - 1);
      }
    }
  }

  /** In no reachable state are all unfinished requests stuck waiting for each other. */
  lemma NoDeadlock(run: seq<State>, acts: seq<Action>, k: nat, i: nat)
    requires IsRun(run, acts) && k < |run| && i < |run[k].reqs| && !Finished(run[k].reqs[i].pc)
    ensures exists j: nat ::
      j < |run[k].reqs| && Safe(run[k], j) && (Holds(run[k].reqs[j].pc) || Step(run[k], j) != run[k])
  {
    RunInv(run, acts, k);
    var j := Progress(run[k], i);
    StepChanges(run[k], j);
    StuckMeansNoStep(run[k], Step(run[k], j), j);
  }

  /** The mailbox form of the same: a posted writer with no reader left to count is either still in
      its own lines 49-50, or a reader is between the decrement and the swap that will find it. */
  lemma PostedWriterIsSeen(run: seq<State>, acts: seq<Action>, k: nat)
    requires IsRun(run, acts) && k < |run| && run[k].nextWriter.Some? && run[k].readerCount == 0
    ensures run[k].nextWriter.value < |run[k].reqs|
    ensures var pc := run[k].reqs[run[k].nextWriter.value].pc;
      pc == WCount || pc == WTake || exists i: nat :: i < |run[k].reqs| && run[k].reqs[i].pc == RTake
  {
    RunInv(run, acts, k);
    var s := run[k];
    if exists i: nat :: TakesAt(s, i) {
      var i: nat :| TakesAt(s, i);
      assert s.reqs[i].pc == RTake;
    }
  }
}
