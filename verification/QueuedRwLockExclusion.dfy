/**
 Exclusion between readers and writers.  Lines 131 and 133 of rdunlock are two separate accesses, and
 exclusion can fail between them.  A late take is the swap of line 133 that finds a writer while other
 readers are counted.  Without one, no reader holds the lock beside a writer and the assertion at line
 62 holds; after one, the assertion can fail within three more accesses.  A run in which the counted
 readers leave before the writer is woken goes well in spite of its late take.
 */
module QueuedRwLockExclusion {
  import opened Wrappers
  import opened QueuedRwLock
  import opened QueuedRwLockInvariant
  import opened QueuedRwLockSteps
  import opened QueuedRwLockRuns

  /** A writer in wrunlock that has counted in the reader it is about to unblock. */
  predicate PassingToReader(s: State, w: nat) {
    w + 1 < |s.reqs| && s.reqs[w].pc.WPass? && s.reqs[w + 1].cls.Read?
  }

  /** The lock has been given to writer `w`, or somebody is about to, and `w` has not released it. */
  ghost predicate Given(s: State, w: nat) {
    && w < |s.reqs| && s.reqs[w].cls.Write?
    && !s.reqs[w].pc.WDone? && !PassingToReader(s, w)
    && (!s.reqs[w].blocked || s.reqs[w].pc.WSelf? || Taken(s, w))
  }

  /** No reader is counted in while a writer has been given the lock.  This is stronger than exclusion: a
      writer that a reader has taken out of the mailbox and not yet woken has been given the lock. */
  ghost predicate Exclusive(s: State) {
    forall w: nat | Given(s, w) :: s.readerCount == 0
  }

  /** The step at line 133 that finds a writer although readers are still counted. */
  predicate LateTake(s: State, a: Action) {
    && a.Run? && a.i < |s.reqs|
    && s.reqs[a.i].pc.RTake? && s.nextWriter.Some? && s.readerCount > 0
  }

  /** What exclusion means to the callers, and for the assertion at line 62. */
  lemma ExclusiveMeaning(s: State, w: nat, r: nat)
    requires Inv(s) && Exclusive(s) && w < |s.reqs| && r < |s.reqs|
    ensures s.reqs[w].pc.WAssert? ==> s.readerCount == 0
    ensures s.reqs[w].pc == WHeld ==> s.reqs[r].pc != RHeld
  {
    assert NodeAt(s, w) && NodeAt(s, r);
    if s.reqs[w].pc.WAssert? || s.reqs[w].pc.WHeld? {
      assert Given(s, w);
      assert r !in Inside(s);
    }
  }

  /** While a reader is first in line the only writer that can still have the lock is the one in
      wrunlock that is counting that reader in. */
  lemma GivenBeforeReader(s: State, f: nat, w: nat)
    requires Inv(s) && FirstBlocked(s, f) && s.reqs[f].cls.Read? && Given(s, w)
    ensures w + 1 == f && !s.reqs[w].blocked
  {
    assert NodeAt(s, w);
    if s.reqs[w].blocked {
      if Taken(s, w) {
        var k: nat :| WakesAt(s, k, w);
      }
      WaitingUnique(s, w, f);
    } else if f < w {
      Fifo(s, f, w);
    } else if w + 1 < f {
      Fifo(s, w, f - 1);
    }
  }

  lemma IncrementGiven(s: State, i: nat, w: nat)
    requires Inv(s) && i < |s.reqs| && Increments(s.reqs[i].pc) && Given(s, w)
    ensures w == i && s.reqs[i].pc.WCountNext?
  {
    var f := Entering(s, i);
    EnteringIsFirst(s, i);
    GivenBeforeReader(s, f, w);
    assert NodeAt(s, w) && NodeAt(s, f) && LinkAt(s, w);
    assert NodeAt(s, i);
  }

  /** Waking marks carry over unless the step has just made one. */
  lemma OwnTaken(s: State, s': State, i: nat, w: nat)
    requires Moved(s, s', i) && Taken(s', w)
    ensures Taken(s, w) || (s.reqs[i].pc.RTake? && s.nextWriter == Some(w))
  {
    hide PredClass;
    var k: nat :| WakesAt(s', k, w);
    if k != i {
      assert WakesAt(s, k, w);
    }
  }

  lemma OwnGiven(s: State, s': State, i: nat, w: nat)
    requires Inv(s) && Moved(s, s', i) && Given(s', w)
    ensures Given(s, w) || (i == w && s.reqs[i].pc.WTake?) || (s.reqs[i].pc.RTake? && s.nextWriter == Some(w))
  {
    hide Taken, Mail, Counting, EndOk, LinkOk;
    assert NodeAt(s, i) && NodeAt(s, w);
    if Taken(s', w) {
      OwnTaken(s, s', i, w);
    }
  }

  lemma PassedGiven(s: State, s': State, i: nat, w: nat)
    requires Inv(s) && PassedOn(s, s', i)
    requires Given(s', w)
    ensures Given(s, w) || Given(s, i)
  {
    hide Mail, Counting, EndOk, LinkOk;
    assert NodeAt(s, i) && NodeAt(s, w);
    PassTarget(s, i);
    if Taken(s', w) {
      var k: nat :| WakesAt(s', k, w);
      assert WakesAt(s, k, w);
    }
  }

  lemma WokenGiven(s: State, i: nat, w: nat, x: nat)
    requires Inv(s) && WakesAt(s, i, w) && w < |s.reqs| && Given(Woken(s, i, w, RDone), x)
    ensures Given(s, x)
  {
    hide Counting, EndOk, LinkOk;
    var s' := Woken(s, i, w, RDone);
    assert NodeAt(s, i) && NodeAt(s, x);
    if Taken(s', x) {
      var k: nat :| WakesAt(s', k, x);
      assert WakesAt(s, k, x);
    }
  }

  /** A writer newly given the lock got it from the mailbox, or from a writer that had it. */
  lemma StepGiven(s: State, s': State, i: nat, w: nat)
    requires Inv(s) && Changed(s, s', i) && Given(s', w)
    ensures || Given(s, w) || Given(s, i) || s.reqs[i].pc.WTake?
            || (s.reqs[i].pc.RTake? && s.nextWriter == Some(w))
  {
    hide Inv, Moves, MovesShared, Joins, Passes, Given, Woken;
    if Woke(s, s', i) {
      WokenGiven(s, i, s.reqs[i].pc.w, w);
    } else if Joined(s, s', i) {
      JoinedGiven(s, s', i, w);
    } else if PassedOn(s, s', i) {
      PassedGiven(s, s', i, w);
    } else {
      OwnGiven(s, s', i, w);
    }
  }

  lemma JoinedGiven(s: State, s': State, i: nat, w: nat)
    requires Inv(s) && Joined(s, s', i)
    requires Given(s', w)
    ensures Given(s, w)
  {
    hide Mail, Counting, EndOk, LinkOk;
    assert NodeAt(s, i - 1) && NodeAt(s, w) && NodeAt(s, i);
    if Taken(s', w) {
      var k: nat :| WakesAt(s', k, w);
      assert WakesAt(s, k, w);
    }
  }

  /** A writer that counts a reader in gives the lock up to it. */
  lemma MovedGivesUp(s: State, s': State, i: nat)
    requires Shape(s) && Moved(s, s', i) && s.reqs[i].pc.WCountNext?
    ensures !Given(s', i)
  {
    hide MovesShared;
    assert NodeAt(s, i);
    if i + 1 < |s.reqs| {
      assert NodeAt(s, i + 1) && LinkAt(s, i);
    }
  }

  lemma MovedNotGiven(s: State, s': State, i: nat, w: nat)
    requires Inv(s) && Moved(s, s', i) && Increments(s.reqs[i].pc)
    ensures !Given(s', w)
  {
    hide Given, Shape, Mail, Counting, Moves, MovesShared;
    if Given(s', w) {
      OwnGiven(s, s', i, w);
      IncrementGiven(s, i, w);
      MovedGivesUp(s, s', i);
    }
  }

  lemma CountIsZero(s: State, i: nat, w: nat)
    requires Inv(s) && Exclusive(s) && i < |s.reqs| && !LateTake(s, Run(i))
    requires || Given(s, w) || Given(s, i) || s.reqs[i].pc.WTake?
             || (s.reqs[i].pc.RTake? && s.nextWriter == Some(w))
    ensures s.readerCount == 0
  {
    hide Shape, Mail, Given;
  }

  /** What a step does to the count, and how a reader gets to the swap of line 133. */
  predicate CountAndTake(s: State, s': State, i: nat) {
    && i < |s.reqs| == |s'.reqs|
    && (s'.readerCount <= s.readerCount || Increments(s.reqs[i].pc))
    && (s'.reqs[i].pc.RTake? ==> s.reqs[i].pc.RDec? && s.readerCount == 1 && s'.readerCount == 0)
    && forall j: nat | j < |s.reqs| && j != i :: s'.reqs[j].pc == s.reqs[j].pc
  }

  lemma MovedCountAndTake(s: State, s': State, i: nat)
    requires Moved(s, s', i)
    ensures CountAndTake(s, s', i)
  {
    hide PredClass;
  }

  lemma JoinedCountAndTake(s: State, s': State, i: nat)
    requires Joined(s, s', i)
    ensures CountAndTake(s, s', i)
  {
  }

  lemma StepCountAndTake(s: State, s': State, i: nat)
    requires Changed(s, s', i)
    ensures CountAndTake(s, s', i)
  {
    hide Moves, MovesShared, Joins;
    if Joined(s, s', i) {
      JoinedCountAndTake(s, s', i);
    } else if !Woke(s, s', i) && !PassedOn(s, s', i) {
      MovedCountAndTake(s, s', i);
    }
  }

  lemma ChangedExclusive(s: State, s': State, i: nat, w: nat)
    requires Inv(s) && Exclusive(s) && Changed(s, s', i) && !LateTake(s, Run(i)) && Given(s', w)
    ensures s'.readerCount == 0
  {
    hide Inv, Moves, MovesShared, Joins, Passes, Woken, Given, Exclusive, LateTake;
    if Increments(s.reqs[i].pc) {
      MovedNotGiven(s, s', i, w);
    } else {
      StepGiven(s, s', i, w);
      CountIsZero(s, i, w);
      StepCountAndTake(s, s', i);
    }
  }

  lemma ArriveExclusive(s: State, cls: Class)
    requires Inv(s) && Exclusive(s)
    ensures Exclusive(ArriveStep(s, cls))
  {
    var s' := ArriveStep(s, cls);
    forall w: nat | Given(s', w)
      ensures s'.readerCount == 0
    {
      if Taken(s', w) {
        var k: nat :| WakesAt(s', k, w);
        assert WakesAt(s, k, w);
      }
      assert w < |s.reqs| ==> NodeAt(s, w);
      if w + 1 == |s.reqs| { assert EndOk(s); }
      assert Given(s, w);
    }
  }

  lemma LateTakeBreaks(s: State, s': State, i: nat)
    requires Inv(s) && Moved(s, s', i) && LateTake(s, Run(i))
    ensures !Exclusive(s')
  {
    hide Counting, LinkOk, EndOk;
    var w := s.nextWriter.value;
    assert NodeAt(s, w) && NodeAt(s, i);
    assert WakesAt(s', i, w);
    assert Given(s', w);
  }

  /** One step, exactly: `Exclusive` survives unless the step is a late take. */
  lemma ExclusionStep(s: State, a: Action)
    requires Inv(s) && Exclusive(s) && (a.Run? ==> a.i < |s.reqs|)
    ensures Enabled(s, a)
    ensures Exclusive(Next(s, a)) <==> !LateTake(s, a)
  {
    hide Inv, Step, Given;
    NextInv(s, a);
    match a
    case Arrive(cls) => ArriveExclusive(s, cls);
    case Run(i) =>
      StepChanges(s, i);
      var s' := Step(s, i);
      if LateTake(s, a) {
        LateTakeBreaks(s, s', i);
      } else {
        forall w: nat | Given(s', w)
          ensures s'.readerCount == 0
        {
          ChangedExclusive(s, s', i, w);
        }
      }
  }

  lemma {:induction false} NoLateTakeExclusive(run: seq<State>, acts: seq<Action>, k: nat)
    requires IsRun(run, acts) && k < |run|
    requires forall l: nat | l < k :: !LateTake(run[l], acts[l])
    ensures Exclusive(run[k])
  {
    if k > 0 {
      NoLateTakeExclusive(run, acts, k - 1);
      RunInv(run, acts, k - 1);
      assert Steps(run[k - 1], acts[k - 1], run[k - 1 + 1]);
      ExclusionStep(run[k - 1], acts[k - 1]);
    }
  }

  /** `Exclusive` holds in all states of a run if and only if none of its steps swaps a writer out of the
      mailbox at line 133 while a reader is counted in. */
  lemma ExclusionIff(run: seq<State>, acts: seq<Action>)
    requires IsRun(run, acts)
    ensures (forall k: nat | k < |run| :: Exclusive(run[k])) <==>
            (forall k: nat | k < |acts| :: !LateTake(run[k], acts[k]))
  {
    if forall k: nat | k < |acts| :: !LateTake(run[k], acts[k]) {
      forall k: nat | k < |run|
        ensures Exclusive(run[k])
      {
        NoLateTakeExclusive(run, acts, k);
      }
    }
    if forall k: nat | k < |run| :: Exclusive(run[k]) {
      forall k: nat | k < |acts|
        ensures !LateTake(run[k], acts[k])
      {
        RunInv(run, acts, k);
        assert Steps(run[k], acts[k], run[k + 1]);
        ExclusionStep(run[k], acts[k]);
      }
    }
  }

  // ----- Late takes and the assertion at line 62 -----

  /** A writer is at line 62 and the count is not zero. */
  predicate FailsAt(s: State, w: nat) {
    w < |s.reqs| && s.reqs[w].pc.WAssert? && s.readerCount != 0
  }

  ghost predicate AssertionFails(s: State) {
    exists w: nat :: FailsAt(s, w)
  }

  /** The second run goes on from the first with action `a`, and then with no late take. */
  ghost predicate Continues(run: seq<State>, acts: seq<Action>, a: Action, run': seq<State>, acts': seq<Action>) {
    && IsRun(run', acts') && run <= run' && acts + [a] <= acts'
    && forall k: nat | |acts| < k < |acts'| :: !LateTake(run'[k], acts'[k])
  }

  lemma ContinueWith(run: seq<State>, acts: seq<Action>, a: Action, s: State)
    returns (run': seq<State>, acts': seq<Action>)
    requires IsRun(run, acts) && Steps(run[|acts|], a, s)
    ensures Continues(run, acts, a, run', acts')
    ensures |acts'| == |acts| + 1 && run'[|acts'|] == s
  {
    hide Steps, LateTake;
    run', acts' := run + [s], acts + [a];
    forall k: nat | k < |acts'|
      ensures Steps(run'[k], acts'[k], run'[k + 1])
    {
      if k < |acts| {
        assert Steps(run[k], acts[k], run[k + 1]);
      }
    }
  }

  lemma ContinueOn(run: seq<State>, acts: seq<Action>, a: Action,
                   mid: seq<State>, midActs: seq<Action>, b: Action, s: State)
    returns (run': seq<State>, acts': seq<Action>)
    requires Continues(run, acts, a, mid, midActs)
    requires Steps(mid[|midActs|], b, s) && !LateTake(mid[|midActs|], b)
    ensures Continues(run, acts, a, run', acts') && mid <= run'
    ensures |acts'| == |midActs| + 1 && run'[|acts'|] == s
  {
    hide Steps, LateTake;
    run', acts' := ContinueWith(mid, midActs, b, s);
    forall k: nat | |acts| < k < |acts'|
      ensures !LateTake(run'[k], acts'[k])
    {
      if k < |midActs| {
        assert !LateTake(mid[k], midActs[k]);
      }
    }
  }

  /** While readers are counted, the writer in the mailbox has not gone beyond the load of line 49. */
  lemma MailedWriterWaits(s: State, w: nat)
    requires Inv(s) && s.nextWriter == Some(w) && s.readerCount > 0
    ensures w < |s.reqs| && (s.reqs[w].pc.WCount? || s.reqs[w].pc.WSpin?)
  {
    assert Waiting(s, w);
    assert NodeAt(s, w);
    if w > 0 {
      assert NodeAt(s, w - 1) && LinkAt(s, w - 1);
    }
  }

  /** The state with reader `i` gone and writer `w` let in and at `pc`. */
  function TakenOver(s: State, i: nat, w: nat, pc: Pc): State
    requires i < |s.reqs| && w < |s.reqs|
  {
    s.(nextWriter := None,
       reqs := s.reqs[i := s.reqs[i].(pc := RDone)][w := s.reqs[w].(pc := pc, blocked := false)])
  }

  function Taking(s: State, i: nat, w: nat): State
    requires i < |s.reqs|
  {
    Goto(s.(nextWriter := None), i, RWake(w))
  }

  /** The late take of reader `i`, and its wake-up of writer `w`. */
  lemma ReaderTakesOver(s: State, i: nat, w: nat)
    requires Inv(s) && LateTake(s, Run(i)) && s.nextWriter == Some(w) && w < |s.reqs|
    ensures Steps(s, Run(i), Taking(s, i, w))
    ensures Steps(Taking(s, i, w), Run(i), TakenOver(s, i, w, s.reqs[w].pc))
  {
    hide Inv;
    MailedWriterWaits(s, w);
  }

  /** The way of the woken writer to line 62. */
  lemma WriterTakesOver(s: State, i: nat, w: nat)
    requires LateTake(s, Run(i)) && w < |s.reqs| && w != i
    ensures s.reqs[w].pc.WCount? ==> Steps(TakenOver(s, i, w, WCount), Run(w), TakenOver(s, i, w, WSpin))
    ensures Steps(TakenOver(s, i, w, WSpin), Run(w), TakenOver(s, i, w, WAssert))
  {
  }

  /** After a late take the reader can wake the writer, and that writer can reach line 62, before any
      reader leaves: the assertion fails after at most four accesses, the late take included. */
  lemma LateTakeFails(run: seq<State>, acts: seq<Action>, i: nat)
    returns (run': seq<State>, acts': seq<Action>)
    requires IsRun(run, acts) && LateTake(run[|acts|], Run(i))
    ensures Continues(run, acts, Run(i), run', acts') && |acts'| <= |acts| + 4
    ensures AssertionFails(run'[|acts'|])
  {
    hide Inv, Steps;
    var s := run[|acts|];
    var w := s.nextWriter.value;
    RunInv(run, acts, |acts|);
    MailedWriterWaits(s, w);
    ReaderTakesOver(s, i, w);
    WriterTakesOver(s, i, w);
    run', acts' := ContinueWith(run, acts, Run(i), Taking(s, i, w));
    run', acts' := ContinueOn(run, acts, Run(i), run', acts', Run(i), TakenOver(s, i, w, s.reqs[w].pc));
    if s.reqs[w].pc.WCount? {
      run', acts' := ContinueOn(run, acts, Run(i), run', acts', Run(w), TakenOver(s, i, w, WSpin));
    }
    run', acts' := ContinueOn(run, acts, Run(i), run', acts', Run(w), TakenOver(s, i, w, WAssert));
    assert FailsAt(run'[|acts'|], w);
  }

  /** Without a late take before it, no state has a failing assertion or a reader inside with a writer. */
  lemma FailureNeedsLateTake(run: seq<State>, acts: seq<Action>, k: nat)
    requires IsRun(run, acts) && k < |run|
    requires forall l: nat | l < k :: !LateTake(run[l], acts[l])
    ensures !AssertionFails(run[k])
    ensures forall w: nat, r: nat | w < |run[k].reqs| && r < |run[k].reqs| && run[k].reqs[w].pc == WHeld ::
      run[k].reqs[r].pc != RHeld
  {
    NoLateTakeExclusive(run, acts, k);
    RunInv(run, acts, k);
    forall w: nat, r: nat | w < |run[k].reqs| && r < |run[k].reqs|
      ensures run[k].reqs[w].pc == WAssert ==> run[k].readerCount == 0
      ensures run[k].reqs[w].pc == WHeld ==> run[k].reqs[r].pc != RHeld
    {
      ExclusiveMeaning(run[k], w, r);
    }
  }

  /** From a run without late takes, exactly the late takes are the steps after which the assertion at
      line 62 can fail without another late take. */
  lemma FailureIff(run: seq<State>, acts: seq<Action>, a: Action)
    requires IsRun(run, acts) && forall k: nat | k < |acts| :: !LateTake(run[k], acts[k])
    ensures LateTake(run[|acts|], a) <==>
            exists run', acts' :: Continues(run, acts, a, run', acts') && AssertionFails(run'[|acts'|])
  {
    hide AssertionFails;
    if LateTake(run[|acts|], a) {
      var run', acts' := LateTakeFails(run, acts, a.i);
    } else {
      forall run', acts' | Continues(run, acts, a, run', acts')
        ensures !AssertionFails(run'[|acts'|])
      {
        forall k: nat | k < |acts'|
          ensures !LateTake(run'[k], acts'[k])
        {
          assert k <= |acts| ==> run'[k] == run[k] && acts'[k] == (acts + [a])[k];
        }
        FailureNeedsLateTake(run', acts', |acts'|);
      }
    }
  }

  // ----- Lines 131 and 133 taken as one step -----

  /** The assumption: a reader that decrements the count to zero does its swap at once. */
  ghost predicate SwapsAtOnce(run: seq<State>, acts: seq<Action>)
    requires IsRun(run, acts)
  {
    forall k: nat, i: nat :: DropsToZero(run, acts, k, i) && k + 1 < |acts| ==> acts[k + 1] == Run(i)
  }

  ghost predicate DropsToZero(run: seq<State>, acts: seq<Action>, k: nat, i: nat) {
    && k < |acts| && k < |run| && acts[k] == Run(i) && i < |run[k].reqs|
    && run[k].reqs[i].pc.RDec? && run[k].readerCount == 1
  }

  lemma ReachesTake(s: State, a: Action, s': State, i: nat)
    requires Inv(s) && Steps(s, a, s') && i < |s'.reqs| && s'.reqs[i].pc.RTake?
    ensures i < |s.reqs|
    ensures if a == Run(i) then s.reqs[i].pc.RDec? && s.readerCount == 1 && s'.readerCount == 0
            else s.reqs[i].pc.RTake?
  {
    hide Inv, Step;
    if a.Run? {
      StepChanges(s, a.i);
      StepCountAndTake(s, s', a.i);
    }
  }

  lemma {:induction false} TakesAfterDrop(run: seq<State>, acts: seq<Action>, k: nat, i: nat)
    requires IsRun(run, acts) && SwapsAtOnce(run, acts)
    requires k < |acts| && i < |run[k].reqs| && run[k].reqs[i].pc.RTake?
    ensures k > 0 && DropsToZero(run, acts, k - 1, i) && run[k].readerCount == 0
  {
    hide Inv, Steps;
    assert k > 0;
    assert Steps(run[k - 1], acts[k - 1], run[k - 1 + 1]);
    RunInv(run, acts, k - 1);
    ReachesTake(run[k - 1], acts[k - 1], run[k], i);
    if run[k - 1].reqs[i].pc.RTake? {
      TakesAfterDrop(run, acts, k - 1, i);
    }
  }

  /** With the decrement and the swap taken as one step, exclusion holds in every state of every
      run, so the assertion at line 62 never fails. */
  lemma ExclusionIfSwapsAtOnce(run: seq<State>, acts: seq<Action>, k: nat)
    requires IsRun(run, acts) && SwapsAtOnce(run, acts) && k < |run|
    ensures Exclusive(run[k])
    ensures forall w: nat | w < |run[k].reqs| && run[k].reqs[w].pc == WAssert :: run[k].readerCount == 0
    ensures forall w: nat, r: nat | w < |run[k].reqs| && r < |run[k].reqs| && run[k].reqs[w].pc == WHeld ::
      run[k].reqs[r].pc != RHeld
  {
    forall l: nat | l < |acts|
      ensures !LateTake(run[l], acts[l])
    {
      if LateTake(run[l], acts[l]) {
        TakesAfterDrop(run, acts, l, acts[l].i);
      }
    }
    ExclusionIff(run, acts);
    RunInv(run, acts, k);
    forall w: nat, r: nat | w < |run[k].reqs| && r < |run[k].reqs|
      ensures run[k].reqs[w].pc == WAssert ==> run[k].readerCount == 0
      ensures run[k].reqs[w].pc == WHeld ==> run[k].reqs[r].pc != RHeld
    {
      ExclusiveMeaning(run[k], w, r);
    }
  }
}
