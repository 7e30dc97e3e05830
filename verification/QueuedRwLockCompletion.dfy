/**
 Every request of the queue-based lock goes through its call once, from the swap over the lock to the end
 of the unlock: no access takes it back, it holds the lock on the way, and a run has no more accesses that
 change something than its requests have lines to go through.
 */
module QueuedRwLockCompletion {
  import opened Wrappers
  import opened QueuedRwLock
  import opened QueuedRwLockInvariant
  import opened QueuedRwLockSteps
  import opened QueuedRwLockRuns

  const LINES := 18

  /** How far a request has come. */
  function Rank(pc: Pc): (r: nat)
    ensures r <= LINES
  {
    match pc
    case WPost | WMark | RCount | RClass => 0
    case WCount | WLink | RSelf | RTry => 1
    case WTake | RLink | RJoinCount => 2
    case WSelf | RSpin | RJoinLink => 3
    case WSpin | RJoinSelf => 4
    case WAssert | RSucc => 5
    case WHeld | RAwaitReader => 6
    case WNext | RCountNext => 7
    case WDetach | RPass => 8
    case WAwait | RHeld => 9
    case WClass | RNext => 10
    case WCountNext | RDetach => 11
    case WPass | RAwait => 12
    case WDone | RSuccWriter => 13
    case RPost => 14
    case RDec => 15
    case RTake => 16
    case RWake(_) => 17
    case RDone => 18
  }

  /** Past the call of the unlock. */
  predicate Released(pc: Pc) {
    || pc.WNext? || pc.WDetach? || pc.WAwait? || pc.WClass? || pc.WCountNext? || pc.WPass? || pc.WDone?
    || pc.RNext? || pc.RDetach? || pc.RAwait? || pc.RSuccWriter? || pc.RPost? || pc.RDec? || pc.RTake?
    || pc.RWake? || pc.RDone?
  }

  /** From `pc` on a request goes to `to`: further, and to the unlock only from holding the lock. */
  predicate Advances(pc: Pc, to: Pc) {
    Rank(to) > Rank(pc) && (Released(to) ==> Released(pc) || Holds(pc))
  }

  lemma WriterAdvances(r: Request, r': Request, alone: bool, p: Option<Class>)
    requires Moves(r, r', alone, p) && WriterPc(r.pc)
    ensures r'.pc == r.pc || Advances(r.pc, r'.pc)
  {
  }

  predicate LetIn(pc: Pc) {
    pc.RSpin? || pc.RSucc? || LettingReaderIn(pc) || pc.RHeld?
  }

  lemma WaitingAdvances(r: Request, r': Request, alone: bool, p: Option<Class>)
    requires Moves(r, r', alone, p) && InReadlock(r.pc) && !LetIn(r.pc)
    ensures r'.pc == r.pc || Advances(r.pc, r'.pc)
  {
  }

  lemma LetInAdvances(r: Request, r': Request, alone: bool, p: Option<Class>)
    requires Moves(r, r', alone, p) && LetIn(r.pc)
    ensures r'.pc == r.pc || Advances(r.pc, r'.pc)
  {
  }

  lemma RdunlockAdvances(r: Request, r': Request, alone: bool, p: Option<Class>)
    requires Moves(r, r', alone, p) && !WriterPc(r.pc) && !InReadlock(r.pc)
    ensures r'.pc == r.pc || Advances(r.pc, r'.pc)
  {
  }

  lemma MovesAdvance(r: Request, r': Request, alone: bool, p: Option<Class>)
    requires Moves(r, r', alone, p)
    ensures r'.pc == r.pc || Advances(r.pc, r'.pc)
  {
    hide Moves, Advances;
    if WriterPc(r.pc) {
      WriterAdvances(r, r', alone, p);
    } else if InReadlock(r.pc) {
      if LetIn(r.pc) {
        LetInAdvances(r, r', alone, p);
      } else {
        WaitingAdvances(r, r', alone, p);
      }
    } else {
      RdunlockAdvances(r, r', alone, p);
    }
  }

  lemma OthersStay(s: State, s': State, i: nat)
    requires Changed(s, s', i)
    ensures |s'.reqs| == |s.reqs|
    ensures forall j: nat | j < |s.reqs| && j != i :: s'.reqs[j].pc == s.reqs[j].pc
  {
    hide Moves, MovesShared, PredClass, Joins, Passes;
    if Joined(s, s', i) {
      JoinedStay(s, s', i);
    } else if PassedOn(s, s', i) {
      PassedStay(s, s', i);
    }
  }

  lemma JoinedStay(s: State, s': State, i: nat)
    requires Joined(s, s', i)
    ensures |s'.reqs| == |s.reqs| && forall j: nat | j < |s.reqs| && j != i :: s'.reqs[j].pc == s.reqs[j].pc
  {
  }

  lemma PassedStay(s: State, s': State, i: nat)
    requires PassedOn(s, s', i)
    ensures |s'.reqs| == |s.reqs| && forall j: nat | j < |s.reqs| && j != i :: s'.reqs[j].pc == s.reqs[j].pc
  {
  }

  lemma JoinedAdvances(s: State, s': State, i: nat)
    requires Joined(s, s', i)
    ensures Advances(s.reqs[i].pc, s'.reqs[i].pc)
  {
  }

  lemma PassedAdvances(s: State, s': State, i: nat)
    requires PassedOn(s, s', i)
    ensures Advances(s.reqs[i].pc, s'.reqs[i].pc)
  {
  }

  lemma WokeAdvances(s: State, s': State, i: nat)
    requires Woke(s, s', i)
    ensures |s'.reqs| == |s.reqs| && Advances(s.reqs[i].pc, s'.reqs[i].pc)
  {
  }

  lemma ChangedAdvances(s: State, s': State, i: nat)
    requires Changed(s, s', i)
    ensures |s'.reqs| == |s.reqs|
    ensures s'.reqs[i].pc == s.reqs[i].pc || Advances(s.reqs[i].pc, s'.reqs[i].pc)
  {
    hide Moves, MovesShared, PredClass, Advances, Joins, Passes, Woken;
    if Woke(s, s', i) {
      WokeAdvances(s, s', i);
    } else if Joined(s, s', i) {
      JoinedAdvances(s, s', i);
    } else if PassedOn(s, s', i) {
      PassedAdvances(s, s', i);
    } else {
      MovesAdvance(s.reqs[i], s'.reqs[i], i + 1 == |s.reqs|, PredClass(s, i));
    }
  }

  /** An access changes nothing, or takes its own request further and leaves the others where they are; and it
      gets to the unlock only from holding the lock. */
  lemma StepAdvances(s: State, i: nat)
    requires Inv(s) && i < |s.reqs|
    ensures Safe(s, i) && |Step(s, i).reqs| == |s.reqs|
    ensures Step(s, i) == s || Advances(s.reqs[i].pc, Step(s, i).reqs[i].pc)
    ensures forall j: nat | j < |s.reqs| && j != i :: Step(s, i).reqs[j].pc == s.reqs[j].pc
  {
    hide Inv, Step, Changed, Advances;
    StepChanges(s, i);
    ChangedAdvances(s, Step(s, i), i);
    StuckMeansNoStep(s, Step(s, i), i);
    OthersStay(s, Step(s, i), i);
  }

  /** Accesses among the first `k` actions that have changed the state. */
  function Work(run: seq<State>, acts: seq<Action>, k: nat): nat {
    if k == 0 then 0
    else Work(run, acts, k - 1)
         + if k <= |acts| && k < |run| && acts[k - 1].Run? && run[k] != run[k - 1] then 1 else 0
  }

  function Total(reqs: seq<Request>): nat {
    if reqs == [] then 0 else Total(reqs[..|reqs| - 1]) + Rank(reqs[|reqs| - 1].pc)
  }

  lemma {:induction false} TotalBound(reqs: seq<Request>)
    ensures Total(reqs) <= LINES * |reqs|
  {
    if reqs != [] {
      TotalBound(reqs[..|reqs| - 1]);
    }
  }

  lemma {:induction false} TotalGrows(reqs: seq<Request>, reqs': seq<Request>, i: nat)
    requires i < |reqs| == |reqs'| && Rank(reqs'[i].pc) > Rank(reqs[i].pc)
    requires forall j: nat | j < |reqs| && j != i :: reqs'[j].pc == reqs[j].pc
    ensures Total(reqs') > Total(reqs)
  {
    hide Rank;
    var n := |reqs| - 1;
    if i < n {
      TotalGrows(reqs[..n], reqs'[..n], i);
    } else {
      SameTotal(reqs[..n], reqs'[..n]);
    }
  }

  lemma {:induction false} SameTotal(reqs: seq<Request>, reqs': seq<Request>)
    requires |reqs| == |reqs'| && forall j: nat | j < |reqs| :: reqs'[j].pc == reqs[j].pc
    ensures Total(reqs') == Total(reqs)
  {
    hide Rank;
    if reqs != [] {
      SameTotal(reqs[..|reqs| - 1], reqs'[..|reqs| - 1]);
    }
  }

  lemma {:induction false} WorkBelowTotal(run: seq<State>, acts: seq<Action>, k: nat)
    requires IsRun(run, acts) && k < |run|
    ensures Work(run, acts, k) <= Total(run[k].reqs)
  {
    hide Step, Total, Rank, Safe, Inv;
    if k > 0 {
      WorkBelowTotal(run, acts, k - 1);
      RunInv(run, acts, k - 1);
      var s, s' := run[k - 1], run[k];
      assert Steps(s, acts[k - 1], run[k - 1 + 1]);
      match acts[k - 1]
      case Arrive(cls) => ArriveTotal(s, cls);
      case Run(i) =>
        StepAdvances(s, i);
        if s' != s {
          TotalGrows(s.reqs, s'.reqs, i);
        }
    }
  }

  lemma ArriveTotal(s: State, cls: Class)
    ensures Total(ArriveStep(s, cls).reqs) >= Total(s.reqs)
  {
    assert ArriveStep(s, cls).reqs[..|s.reqs|] == s.reqs;
  }

  /** No livelock: in a run with `n` requests at most 18 n accesses change anything; the others are turns of
      waiting loops. */
  lemma BoundedWork(run: seq<State>, acts: seq<Action>, k: nat)
    requires IsRun(run, acts) && k < |run|
    ensures Work(run, acts, k) <= LINES * |run[k].reqs|
  {
    WorkBelowTotal(run, acts, k);
    TotalBound(run[k].reqs);
  }

  /** A request waits exactly while it spins blocked or has nobody linked behind it where it needs that, and once
      it is finished. */
  lemma WaitsExactly(run: seq<State>, acts: seq<Action>, k: nat, i: nat)
    requires IsRun(run, acts) && k < |run| && i < |run[k].reqs|
    ensures Safe(run[k], i)
    ensures Step(run[k], i) == run[k] <==>
      match run[k].reqs[i].pc
      case WSpin | RSpin => run[k].reqs[i].blocked
      case WAwait | RAwait | RAwaitReader => run[k].reqs[i].next.None?
      case WDone | RDone => true
      case _ => false
  {
    RunInv(run, acts, k);
    hide Inv, Step, Changed;
    StepChanges(run[k], i);
    StuckMeansNoStep(run[k], Step(run[k], i), i);
  }

  /** A request begins its call as one of its class, behind all that are there. */
  lemma ArrivalBegins(run: seq<State>, acts: seq<Action>, k: nat)
    requires IsRun(run, acts) && k < |acts| && acts[k].Arrive?
    ensures |run[k + 1].reqs| == |run[k].reqs| + 1 && run[k + 1].reqs[..|run[k].reqs|] == run[k].reqs
    ensures var r := run[k + 1].reqs[|run[k].reqs|];
      r.cls == acts[k].cls && r.blocked && Rank(r.pc) == 0 && (WriterPc(r.pc) <==> acts[k].cls == Write)
  {
    assert Steps(run[k], acts[k], run[k + 1]);
  }

  /** A request that is past the call of its unlock has held the lock. */
  lemma {:induction false} EachHolds(run: seq<State>, acts: seq<Action>, k: nat, i: nat) returns (l: nat)
    requires IsRun(run, acts) && k < |run| && i < |run[k].reqs| && Released(run[k].reqs[i].pc)
    ensures l < k && i < |run[l].reqs| && Holds(run[l].reqs[i].pc)
  {
    hide Step, Inv;
    assert k > 0;
    assert Steps(run[k - 1], acts[k - 1], run[k - 1 + 1]);
    RunInv(run, acts, k - 1);
    if acts[k - 1].Run? {
      StepAdvances(run[k - 1], acts[k - 1].i);
    }
    if Holds(run[k - 1].reqs[i].pc) {
      l := k - 1;
    } else {
      l := EachHolds(run, acts, k - 1, i);
    }
  }

  /** Readers share: behind a reader that holds the lock no reader is kept spinning. */
  lemma ReadersShare(run: seq<State>, acts: seq<Action>, k: nat, i: nat)
    requires IsRun(run, acts) && k < |run| && i + 1 < |run[k].reqs|
    requires HoldsRead(run[k].reqs[i]) && run[k].reqs[i + 1].pc == RSpin
    ensures !run[k].reqs[i + 1].blocked && Safe(run[k], i + 1)
    ensures Step(run[k], i + 1).reqs[i + 1].pc == RSucc
  {
    RunInv(run, acts, k);
    var s := run[k];
    assert NodeAt(s, i) && NodeAt(s, i + 1) && LinkAt(s, i);
  }

  // ----- What an access depends on -----

  /** The shared variables, request `i` and whatever its next access touches are the same in both states. */
  predicate Alike(s: State, t: State, i: nat)
    requires Safe(s, i)
  {
    && t.tail == s.tail && t.readerCount == s.readerCount && t.nextWriter == s.nextWriter
    && |t.reqs| == |s.reqs| && t.reqs[i] == s.reqs[i]
    && forall j: nat | j < |s.reqs| && j in Touches(s, i) :: t.reqs[j] == s.reqs[j]
  }

  /** The access does the same in both states, and nothing to requests it does not touch. */
  predicate DoesAlike(s: State, t: State, i: nat)
    requires Safe(s, i) && |t.reqs| == |s.reqs|
  {
    && Safe(t, i)
    && var s', t' := Step(s, i), Step(t, i);
    && t'.tail == s'.tail && t'.readerCount == s'.readerCount && t'.nextWriter == s'.nextWriter
    && |s'.reqs| == |t'.reqs| == |s.reqs|
    && forall j: nat | j < |s.reqs| ::
         if j == i || j in Touches(s, i) then t'.reqs[j] == s'.reqs[j]
         else s'.reqs[j] == s.reqs[j] && t'.reqs[j] == t.reqs[j]
  }

  lemma WritelockAlike(s: State, t: State, i: nat)
    requires Safe(s, i) && Alike(s, t, i) && InWritelock(s.reqs[i].pc)
    ensures DoesAlike(s, t, i)
  {
  }

  lemma WrunlockAlike(s: State, t: State, i: nat)
    requires Safe(s, i) && Alike(s, t, i) && WriterPc(s.reqs[i].pc) && !InWritelock(s.reqs[i].pc)
    ensures DoesAlike(s, t, i)
  {
  }

  lemma JoiningAlike(s: State, t: State, i: nat)
    requires Safe(s, i) && Alike(s, t, i) && InReadlock(s.reqs[i].pc) && UsesPred(s.reqs[i].pc)
    ensures DoesAlike(s, t, i)
  {
  }

  lemma CountingAlike(s: State, t: State, i: nat)
    requires Safe(s, i) && Alike(s, t, i) && InReadlock(s.reqs[i].pc) && !UsesPred(s.reqs[i].pc) && !LetIn(s.reqs[i].pc)
    ensures DoesAlike(s, t, i)
  {
  }

  lemma LettingInAlike(s: State, t: State, i: nat)
    requires Safe(s, i) && Alike(s, t, i)
    requires s.reqs[i].pc.RAwaitReader? || s.reqs[i].pc.RCountNext?
    ensures DoesAlike(s, t, i)
  {
  }

  lemma EnteringAlike(s: State, t: State, i: nat)
    requires Safe(s, i) && Alike(s, t, i)
    requires s.reqs[i].pc.RSpin? || s.reqs[i].pc.RSucc? || s.reqs[i].pc.RHeld?
    ensures DoesAlike(s, t, i)
  {
  }

  lemma PassingAlike(s: State, t: State, i: nat)
    requires Safe(s, i) && Alike(s, t, i)
    requires s.reqs[i].pc.RPass?
    ensures DoesAlike(s, t, i)
  {
  }

  lemma LeavingAlike(s: State, t: State, i: nat)
    requires Safe(s, i) && Alike(s, t, i)
    requires !WriterPc(s.reqs[i].pc) && !InReadlock(s.reqs[i].pc) && !AfterPost(s.reqs[i].pc)
    ensures DoesAlike(s, t, i)
  {
  }

  lemma DroppingAlike(s: State, t: State, i: nat)
    requires Safe(s, i) && Alike(s, t, i)
    requires s.reqs[i].pc.RDec?
    ensures DoesAlike(s, t, i)
  {
  }

  lemma DoneStays(s: State, i: nat)
    requires Safe(s, i) && s.reqs[i].pc.RDone?
    ensures Step(s, i) == s
  {
  }

  lemma DoneAlike(s: State, t: State, i: nat)
    requires Safe(s, i) && Alike(s, t, i)
    requires s.reqs[i].pc.RDone?
    ensures DoesAlike(s, t, i)
  {
    hide Step, Touches;
    DoneStays(s, i);
    DoneStays(t, i);
  }

  lemma TakingAlike(s: State, t: State, i: nat)
    requires Safe(s, i) && Alike(s, t, i)
    requires s.reqs[i].pc.RTake?
    ensures DoesAlike(s, t, i)
  {
  }

  lemma WakingAlike(s: State, t: State, i: nat)
    requires Safe(s, i) && Alike(s, t, i)
    requires s.reqs[i].pc.RWake?
    ensures DoesAlike(s, t, i)
  {
  }

  /** `Touches` leaves nothing out: what an access does depends on the shared variables, its own request and
      those that `Touches` names, and it changes no other request. */
  lemma TouchesAll(s: State, t: State, i: nat)
    requires Safe(s, i) && Alike(s, t, i)
    ensures DoesAlike(s, t, i)
  {
    hide Alike, DoesAlike, Touches;
    var pc := s.reqs[i].pc;
    if InWritelock(pc) {
      WritelockAlike(s, t, i);
    } else if WriterPc(pc) {
      WrunlockAlike(s, t, i);
    } else if pc.RPass? {
      PassingAlike(s, t, i);
    } else if LettingReaderIn(pc) {
      LettingInAlike(s, t, i);
    } else if LetIn(pc) {
      EnteringAlike(s, t, i);
    } else if pc.RWake? {
      WakingAlike(s, t, i);
    } else if pc.RTake? {
      TakingAlike(s, t, i);
    } else if pc.RDone? {
      DoneAlike(s, t, i);
    } else if AfterPost(pc) {
      DroppingAlike(s, t, i);
    } else if !InReadlock(pc) {
      LeavingAlike(s, t, i);
    } else if UsesPred(pc) {
      JoiningAlike(s, t, i);
    } else {
      CountingAlike(s, t, i);
    }
  }
}
