/**
 A run of the code in which a writer and a reader hold the queue-based lock together, and the
 assertion at line 62 fails: the decrement and the swap of one rdunlock are far apart.
 */
module QueuedRwLockOverlap {
  import opened Wrappers
  import opened QueuedRwLock
  import opened QueuedRwLockInvariant
  import opened QueuedRwLockSteps
  import opened QueuedRwLockRuns
  import opened QueuedRwLockExclusion

  // The four requests of the run, with the fields that vary along it.

  function Zero(blocked: bool, pc: Pc): Request {
    Request(Read, None, None, None, blocked, pc)
  }

  function One(next: Option<nat>, blocked: bool, pc: Pc): Request {
    Request(Read, None, next, None, blocked, pc)
  }

  function Two(next: Option<nat>, succ: Option<Class>, blocked: bool, pc: Pc): Request {
    Request(Read, Some(1), next, succ, blocked, pc)
  }

  function Three(blocked: bool, pc: Pc): Request {
    Request(Write, Some(2), None, None, blocked, pc)
  }

  /** Reader 0 locks. */
  const ONE_IN :=
    State(Some(0), 1, None, [Zero(false, RHeld)])

  /** It goes to unlock and finds nobody behind it. */
  const ONE_UNLOCKS :=
    State(Some(0), 1, None, [Zero(false, RDetach)])

  /** It detaches and decrements the count to zero, and has yet to swap the mailbox. */
  const ONE_LEAVES :=
    State(None, 0, None, [Zero(false, RTake)])

  /** Reader 1 locks. */
  const ONE_ENTERS :=
    State(Some(1), 1, None, [Zero(false, RTake), One(None, false, RHeld)])

  /** Reader 2 finds reader 1 inside and counts itself in. */
  const TWO_COUNTED :=
    State(Some(2), 2, None, [Zero(false, RTake), One(None, false, RHeld), Two(None, None, true, RJoinLink)])

  /** Reader 2 locks. */
  const TWO_ENTER :=
    State(Some(2), 2, None, [Zero(false, RTake), One(Some(2), false, RHeld), Two(None, None, false, RHeld)])

  /** Writer 3 queues behind reader 2. */
  const WRITER_QUEUES :=
    State(Some(3), 2, None, [
      Zero(false, RTake), One(Some(2), false, RHeld),
      Two(Some(3), Some(Write), false, RHeld), Three(true, WSpin)])

  /** Reader 2 unlocks and finds a writer behind it. */
  const TWO_SEES_WRITER :=
    State(Some(3), 2, None, [
      Zero(false, RTake), One(Some(2), false, RHeld),
      Two(Some(3), Some(Write), false, RSuccWriter), Three(true, WSpin)])

  /** It posts writer 3 and decrements the count to one. */
  const TWO_LEAVES :=
    State(Some(3), 1, Some(3), [
      Zero(false, RTake), One(Some(2), false, RHeld),
      Two(Some(3), Some(Write), false, RDone), Three(true, WSpin)])

  /** Reader 0 goes on, takes writer 3 and wakes it, while reader 1 holds the lock. */
  const BOTH_INSIDE :=
    State(Some(3), 1, None, [
      Zero(false, RDone), One(Some(2), false, RHeld),
      Two(Some(3), Some(Write), false, RDone), Three(false, WAssert)])

  lemma ReachOneIn() returns (run: seq<State>, acts: seq<Action>)
    ensures IsRun(run, acts) && run[|acts|] == ONE_IN
  {
    run, acts := [INITIAL], [];
    var s1 := State(Some(0), 0, None, [Zero(true, RCount)]);
    run, acts := Extend(run, acts, Arrive(Read), s1);
    var s2 := State(Some(0), 1, None, [Zero(true, RSelf)]);
    run, acts := Extend(run, acts, Run(0), s2);
    var s3 := State(Some(0), 1, None, [Zero(false, RSucc)]);
    run, acts := Extend(run, acts, Run(0), s3);
    run, acts := Extend(run, acts, Run(0), ONE_IN);
  }

  lemma ReachOneUnlocks() returns (run: seq<State>, acts: seq<Action>)
    ensures IsRun(run, acts) && run[|acts|] == ONE_UNLOCKS
  {
    run, acts := ReachOneIn();
    var s1 := State(Some(0), 1, None, [Zero(false, RNext)]);
    run, acts := Extend(run, acts, Run(0), s1);
    run, acts := Extend(run, acts, Run(0), ONE_UNLOCKS);
  }

  lemma ReachOneLeaves() returns (run: seq<State>, acts: seq<Action>)
    ensures IsRun(run, acts) && run[|acts|] == ONE_LEAVES
  {
    run, acts := ReachOneUnlocks();
    var s1 := State(None, 1, None, [Zero(false, RDec)]);
    run, acts := Extend(run, acts, Run(0), s1);
    run, acts := Extend(run, acts, Run(0), ONE_LEAVES);
  }

  lemma ReachOneEnters() returns (run: seq<State>, acts: seq<Action>)
    ensures IsRun(run, acts) && run[|acts|] == ONE_ENTERS
  {
    run, acts := ReachOneLeaves();
    var s1 := State(Some(1), 0, None, [Zero(false, RTake), One(None, true, RCount)]);
    run, acts := Extend(run, acts, Arrive(Read), s1);
    var s2 := State(Some(1), 1, None, [Zero(false, RTake), One(None, true, RSelf)]);
    run, acts := Extend(run, acts, Run(1), s2);
    var s3 := State(Some(1), 1, None, [Zero(false, RTake), One(None, false, RSucc)]);
    run, acts := Extend(run, acts, Run(1), s3);
    run, acts := Extend(run, acts, Run(1), ONE_ENTERS);
  }

  lemma ReachTwoCounted() returns (run: seq<State>, acts: seq<Action>)
    ensures IsRun(run, acts) && run[|acts|] == TWO_COUNTED
  {
    run, acts := ReachOneEnters();
    var s1 := State(Some(2), 1, None, [
      Zero(false, RTake), One(None, false, RHeld),
      Two(None, None, true, RClass)]);
    run, acts := Extend(run, acts, Arrive(Read), s1);
    var s2 := State(Some(2), 1, None, [Zero(false, RTake), One(None, false, RHeld), Two(None, None, true, RTry)]);
    run, acts := Extend(run, acts, Run(2), s2);
    var s3 := State(Some(2), 1, None, [
      Zero(false, RTake), One(None, false, RHeld),
      Two(None, None, true, RJoinCount)]);
    run, acts := Extend(run, acts, Run(2), s3);
    run, acts := Extend(run, acts, Run(2), TWO_COUNTED);
  }

  lemma ReachTwoEnter() returns (run: seq<State>, acts: seq<Action>)
    ensures IsRun(run, acts) && run[|acts|] == TWO_ENTER
  {
    run, acts := ReachTwoCounted();
    var s1 := State(Some(2), 2, None, [
      Zero(false, RTake), One(Some(2), false, RHeld),
      Two(None, None, true, RJoinSelf)]);
    run, acts := Extend(run, acts, Run(2), s1);
    var s2 := State(Some(2), 2, None, [
      Zero(false, RTake), One(Some(2), false, RHeld),
      Two(None, None, false, RSucc)]);
    run, acts := Extend(run, acts, Run(2), s2);
    run, acts := Extend(run, acts, Run(2), TWO_ENTER);
  }

  lemma ReachWriterQueues() returns (run: seq<State>, acts: seq<Action>)
    ensures IsRun(run, acts) && run[|acts|] == WRITER_QUEUES
  {
    run, acts := ReachTwoEnter();
    var s1 := State(Some(3), 2, None, [
      Zero(false, RTake), One(Some(2), false, RHeld),
      Two(None, None, false, RHeld), Three(true, WMark)]);
    run, acts := Extend(run, acts, Arrive(Write), s1);
    var s2 := State(Some(3), 2, None, [
      Zero(false, RTake), One(Some(2), false, RHeld),
      Two(None, Some(Write), false, RHeld), Three(true, WLink)]);
    run, acts := Extend(run, acts, Run(3), s2);
    run, acts := Extend(run, acts, Run(3), WRITER_QUEUES);
  }

  lemma ReachTwoSeesWriter() returns (run: seq<State>, acts: seq<Action>)
    ensures IsRun(run, acts) && run[|acts|] == TWO_SEES_WRITER
  {
    run, acts := ReachWriterQueues();
    var s1 := State(Some(3), 2, None, [
      Zero(false, RTake), One(Some(2), false, RHeld),
      Two(Some(3), Some(Write), false, RNext), Three(true, WSpin)]);
    run, acts := Extend(run, acts, Run(2), s1);
    var s2 := State(Some(3), 2, None, [
      Zero(false, RTake), One(Some(2), false, RHeld),
      Two(Some(3), Some(Write), false, RAwait), Three(true, WSpin)]);
    run, acts := Extend(run, acts, Run(2), s2);
    run, acts := Extend(run, acts, Run(2), TWO_SEES_WRITER);
  }

  lemma ReachTwoLeaves() returns (run: seq<State>, acts: seq<Action>)
    ensures IsRun(run, acts) && run[|acts|] == TWO_LEAVES
  {
    run, acts := ReachTwoSeesWriter();
    var s1 := State(Some(3), 2, None, [
      Zero(false, RTake), One(Some(2), false, RHeld),
      Two(Some(3), Some(Write), false, RPost), Three(true, WSpin)]);
    run, acts := Extend(run, acts, Run(2), s1);
    var s2 := State(Some(3), 2, Some(3), [
      Zero(false, RTake), One(Some(2), false, RHeld),
      Two(Some(3), Some(Write), false, RDec), Three(true, WSpin)]);
    run, acts := Extend(run, acts, Run(2), s2);
    run, acts := Extend(run, acts, Run(2), TWO_LEAVES);
  }

  lemma ReachBothInside() returns (run: seq<State>, acts: seq<Action>)
    ensures IsRun(run, acts) && run[|acts|] == BOTH_INSIDE
  {
    run, acts := ReachTwoLeaves();
    var s1 := State(Some(3), 1, None, [
      Zero(false, RWake(3)), One(Some(2), false, RHeld),
      Two(Some(3), Some(Write), false, RDone), Three(true, WSpin)]);
    run, acts := Extend(run, acts, Run(0), s1);
    var s2 := State(Some(3), 1, None, [
      Zero(false, RDone), One(Some(2), false, RHeld),
      Two(Some(3), Some(Write), false, RDone), Three(false, WSpin)]);
    run, acts := Extend(run, acts, Run(0), s2);
    run, acts := Extend(run, acts, Run(3), BOTH_INSIDE);
  }

  /** Exclusion is not a property of the code: a reachable state has reader 1 inside and writer 3 at
      its assertion with a non-zero count. */
  lemma ReaderAndWriterTogether() returns (run: seq<State>, acts: seq<Action>)
    ensures IsRun(run, acts) && run[|acts|] == BOTH_INSIDE
    ensures BOTH_INSIDE.reqs[1].pc == RHeld && BOTH_INSIDE.reqs[3].pc == WAssert && BOTH_INSIDE.readerCount != 0
    ensures !Exclusive(BOTH_INSIDE)
  {
    run, acts := ReachBothInside();
    assert Given(BOTH_INSIDE, 3);
  }

  // ----- The same late take, with a good end -----

  /** After the late take of reader 0, which is at `zero`, with reader 1 at `one` and writer 3 at `three`. */
  function Late(count: nat, zero: Pc, one: Pc, blocked: bool, three: Pc): State {
    State(Some(3), count, None, [
      Zero(false, zero), One(Some(2), false, one),
      Two(Some(3), Some(Write), false, RDone), Three(blocked, three)])
  }

  /** The second run goes on from the first with the late take of reader 0, and line 62 does not fail. */
  ghost predicate GoesWell(run: seq<State>, acts: seq<Action>, run': seq<State>, acts': seq<Action>) {
    && Continues(run, acts, Run(0), run', acts')
    && forall k: nat | |acts| < k <= |acts'| :: !AssertionFails(run'[k])
  }

  lemma GoOn(run: seq<State>, acts: seq<Action>, mid: seq<State>, midActs: seq<Action>, b: Action, s: State)
    returns (run': seq<State>, acts': seq<Action>)
    requires GoesWell(run, acts, mid, midActs) && Steps(mid[|midActs|], b, s)
    requires !LateTake(mid[|midActs|], b) && !AssertionFails(s)
    ensures GoesWell(run, acts, run', acts') && run'[|acts'|] == s
  {
    hide Steps, LateTake, AssertionFails;
    run', acts' := ContinueOn(run, acts, Run(0), mid, midActs, b, s);
    forall k: nat | |acts| < k <= |acts'|
      ensures !AssertionFails(run'[k])
    {
      if k <= |midActs| {
        assert !AssertionFails(mid[k]);
      }
    }
  }

  lemma LateStart(run: seq<State>, acts: seq<Action>)
    returns (run': seq<State>, acts': seq<Action>)
    requires IsRun(run, acts) && run[|acts|] == TWO_LEAVES
    ensures GoesWell(run, acts, run', acts') && run'[|acts'|] == Late(1, RWake(3), RHeld, true, WSpin)
  {
    run', acts' := ContinueWith(run, acts, Run(0), Late(1, RWake(3), RHeld, true, WSpin));
  }

  /** Reader 1 begins to unlock. */
  lemma ReaderOneUnlocks(run: seq<State>, acts: seq<Action>)
    returns (run': seq<State>, acts': seq<Action>)
    requires IsRun(run, acts) && run[|acts|] == TWO_LEAVES
    ensures GoesWell(run, acts, run', acts') && run'[|acts'|] == Late(1, RWake(3), RAwait, true, WSpin)
  {
    hide IsRun;
    run', acts' := LateStart(run, acts);
    run', acts' := GoOn(run, acts, run', acts', Run(1), Late(1, RWake(3), RNext, true, WSpin));
    run', acts' := GoOn(run, acts, run', acts', Run(1), Late(1, RWake(3), RAwait, true, WSpin));
  }

  /** It is the last one to be counted. */
  lemma ReaderOneLeaves(run: seq<State>, acts: seq<Action>)
    returns (run': seq<State>, acts': seq<Action>)
    requires IsRun(run, acts) && run[|acts|] == TWO_LEAVES
    ensures GoesWell(run, acts, run', acts') && run'[|acts'|] == Late(0, RWake(3), RTake, true, WSpin)
  {
    hide IsRun;
    run', acts' := ReaderOneUnlocks(run, acts);
    run', acts' := GoOn(run, acts, run', acts', Run(1), Late(1, RWake(3), RSuccWriter, true, WSpin));
    run', acts' := GoOn(run, acts, run', acts', Run(1), Late(1, RWake(3), RDec, true, WSpin));
    run', acts' := GoOn(run, acts, run', acts', Run(1), Late(0, RWake(3), RTake, true, WSpin));
  }

  /** Not every late take ends in a failure: if reader 1 leaves before reader 0 wakes writer 3, that writer
      passes line 62 with a count of zero and has the lock to itself. */
  lemma LateTakeCanGoWell()
    returns (run: seq<State>, acts: seq<Action>, run': seq<State>, acts': seq<Action>)
    ensures IsRun(run, acts) && LateTake(run[|acts|], Run(0))
    ensures GoesWell(run, acts, run', acts') && run'[|acts'|] == Late(0, RDone, RDone, false, WHeld)
  {
    run, acts := ReachTwoLeaves();
    run', acts' := ReaderOneLeaves(run, acts);
    run', acts' := GoOn(run, acts, run', acts', Run(1), Late(0, RWake(3), RDone, true, WSpin));
    run', acts' := GoOn(run, acts, run', acts', Run(0), Late(0, RDone, RDone, false, WSpin));
    run', acts' := GoOn(run, acts, run', acts', Run(3), Late(0, RDone, RDone, false, WAssert));
    run', acts' := GoOn(run, acts, run', acts', Run(3), Late(0, RDone, RDone, false, WHeld));
  }
}
