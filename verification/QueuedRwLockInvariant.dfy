/**
 The invariant of every state the queue-based lock can reach, with its memory accesses interleaved
 one by one, and the proof that every step keeps it.
 */
module QueuedRwLockInvariant {
  import opened Wrappers
  import opened QueuedRwLock

  // ----- The queue: what each request and each pair of neighbours look like -----

  /** `pred` is set and `pred.next` has not been written yet. */
  predicate Unlinked(pc: Pc) {
    pc.WMark? || pc.WLink? || pc.RClass? || pc.RTry? || pc.RLink? || pc.RJoinCount? || pc.RJoinLink?
  }

  /** Only requests that found the queue empty are here. */
  predicate FoundEmpty(pc: Pc) {
    pc.WPost? || pc.WCount? || pc.WTake? || pc.WSelf? || pc.RCount? || pc.RSelf?
  }

  /** A reader joining readers that are already in. */
  predicate Joining(pc: Pc) {
    pc.RJoinCount? || pc.RJoinLink? || pc.RJoinSelf?
  }

  predicate WriterPc(pc: Pc) {
    || pc.WPost? || pc.WCount? || pc.WTake? || pc.WSelf? || pc.WMark? || pc.WLink?
    || pc.WSpin? || pc.WAssert? || pc.WHeld? || pc.WNext? || pc.WDetach? || pc.WAwait?
    || pc.WClass? || pc.WCountNext? || pc.WPass? || pc.WDone?
  }

  /** Nobody else can have granted the lock to a request here. */
  predicate SurelyBlocked(pc: Pc) {
    pc.WPost? || pc.WSelf? || pc.RCount? || pc.RSelf? || pc.RJoinSelf? || Unlinked(pc)
  }

  predicate MayBeBlocked(pc: Pc) {
    SurelyBlocked(pc) || pc.WCount? || pc.WTake? || pc.WSpin? || pc.RSpin?
  }

  predicate HasNext(pc: Pc) {
    pc.WClass? || pc.WCountNext? || pc.WPass? || pc.RCountNext? || pc.RPass? || pc.RSuccWriter? || pc.RPost?
  }

  /** A reader that has to let in the next reader. */
  predicate LettingReaderIn(pc: Pc) {
    pc.RAwaitReader? || pc.RCountNext? || pc.RPass?
  }

  /** A reader that has told the next writer, if there is one, to expect the lock. */
  predicate AfterPost(pc: Pc) {
    pc.RDec? || pc.RTake? || pc.RWake? || pc.RDone?
  }

  /** A reader that has let in the next reader if it had to. */
  predicate AfterPass(pc: Pc) {
    || pc.RHeld? || pc.RNext? || pc.RDetach? || pc.RAwait? || pc.RSuccWriter? || pc.RPost?
    || AfterPost(pc)
  }

  /** The request left the queue by resetting `tail`, so its successor found the queue empty. */
  predicate Detached(r: Request) {
    r.next.None? && (r.pc.WDone? || AfterPost(r.pc))
  }

  predicate NodeOk(r: Request, i: nat) {
    && (r.cls.Write? <==> WriterPc(r.pc))
    && (r.pred.Some? ==> i > 0 && r.pred.value == i - 1)
    && (FoundEmpty(r.pc) ==> r.pred.None?)
    && (Unlinked(r.pc) || r.pc.RSpin? || r.pc.RJoinSelf? ==> r.pred.Some?)
    && (SurelyBlocked(r.pc) ==> r.blocked)
    && (r.blocked ==> MayBeBlocked(r.pc))
    && (r.next.Some? ==> r.next.value == i + 1)
    && (HasNext(r.pc) ==> r.next.Some?)
    && (LettingReaderIn(r.pc) ==> r.succ == Some(Read))
    && (r.pc.RPost? ==> r.succ == Some(Write))
  }

  /** The hand-over from a writer to `b`, which is next in the queue and waits for it. */
  predicate FromWriter(a: Request, b: Request) {
    && (a.pc.WDone? <==> !b.blocked)
    && (a.pc.WCountNext? ==> b.cls.Read?)
    && !b.pc.RTry? && !Joining(b.pc)
    && a.succ == (if b.cls.Write? && !b.pc.WMark? then Some(Write) else None)
  }

  predicate ReaderToReader(a: Request, b: Request) {
    && a.succ != Some(Write)
    && (b.pc.RClass? || b.pc.RTry? ==> a.succ.None?)
    && (b.pc.RLink? || b.pc.RSpin? ==> a.succ == Some(Read))
    && (Joining(b.pc) ==> a.succ.None?)
    && (Joining(b.pc) || !b.blocked ==> !a.blocked)
    && (a.succ == Some(Read) ==> (!b.blocked <==> AfterPass(a.pc)))
  }

  predicate ReaderToWriter(a: Request, b: Request) {
    && a.succ == (if b.pc.WMark? then None else Some(Write))
    && (!b.blocked ==> AfterPost(a.pc))
  }

  predicate HandOver(a: Request, b: Request) {
    if a.cls.Write? then FromWriter(a, b)
    else if b.cls.Read? then ReaderToReader(a, b)
    else ReaderToWriter(a, b)
  }

  predicate LinkOk(a: Request, b: Request, i: nat) {
    && b.pred == (if Detached(a) then None else Some(i))
    && a.next == (if b.pred.Some? && !Unlinked(b.pc) then Some(i + 1) else None)
    && if b.pred.Some? then HandOver(a, b) else a.succ.None?
  }

  predicate NodeAt(s: State, i: nat)
    requires i < |s.reqs|
  {
    NodeOk(s.reqs[i], i)
  }

  predicate LinkAt(s: State, i: nat)
    requires i + 1 < |s.reqs|
  {
    LinkOk(s.reqs[i], s.reqs[i + 1], i)
  }

  predicate EndOk(s: State) {
    if |s.reqs| == 0 then s.tail.None?
    else
      var last := s.reqs[|s.reqs| - 1];
      && s.tail == (if Detached(last) then None else Some(|s.reqs| - 1))
      && last.next.None? && last.succ.None? && !last.pc.WAwait? && !last.pc.RAwait?
  }

  ghost predicate Shape(s: State) {
    && (forall i: nat | i < |s.reqs| :: NodeAt(s, i))
    && (forall i: nat | i + 1 < |s.reqs| :: LinkAt(s, i))
    && EndOk(s)
  }

  /** Shape holds of `s'` if it holds around the (at most two, adjacent) changed requests. */
  lemma ShapeFrame(s: State, s': State, lo: nat, hi: nat)
    requires Shape(s) && |s'.reqs| == |s.reqs| && lo <= hi < |s.reqs|
    requires forall k: nat | k < |s.reqs| && !(lo <= k <= hi) :: s'.reqs[k] == s.reqs[k]
    requires forall k: nat | lo <= k <= hi :: NodeAt(s', k)
    requires forall k: nat | k + 1 < |s.reqs| && lo <= k + 1 && k <= hi :: LinkAt(s', k)
    requires EndOk(s')
    ensures Shape(s')
  {
    forall k: nat | k < |s'.reqs|
      ensures NodeAt(s', k)
    {
      assert NodeAt(s, k);
    }
    forall k: nat | k + 1 < |s'.reqs|
      ensures LinkAt(s', k)
    {
      assert LinkAt(s, k);
    }
  }

  /** No step dereferences null. */
  lemma ShapeGivesPointers(s: State, i: nat)
    requires Shape(s) && i < |s.reqs|
    ensures UsesPred(s.reqs[i].pc) ==> s.reqs[i].pred == Some(i - 1) && i > 0
    ensures UsesNext(s.reqs[i].pc) ==> s.reqs[i].next == Some(i + 1) && i + 1 < |s.reqs|
  {
    assert NodeAt(s, i);
    if i + 1 < |s.reqs| {
      assert LinkAt(s, i);
    }
  }

  /** The arriving request fits behind the last one. */
  lemma ArrivalOk(s: State, cls: Class)
    requires Shape(s)
    ensures NodeOk(Arrival(cls, s.tail), |s.reqs|)
    ensures |s.reqs| > 0 ==> LinkOk(s.reqs[|s.reqs| - 1], Arrival(cls, s.tail), |s.reqs| - 1)
  {
    if |s.reqs| > 0 {
      assert NodeAt(s, |s.reqs| - 1);
    }
  }

  lemma ArriveShape(s: State, cls: Class)
    requires Shape(s)
    ensures Shape(ArriveStep(s, cls))
  {
    hide NodeOk, LinkOk;
    var s' := ArriveStep(s, cls);
    ArrivalOk(s, cls);
    forall k: nat | k < |s'.reqs|
      ensures NodeAt(s', k)
    {
      if k < |s.reqs| {
        assert NodeAt(s, k);
      }
    }
    forall k: nat | k + 1 < |s'.reqs|
      ensures LinkAt(s', k)
    {
      if k + 1 < |s.reqs| {
        assert LinkAt(s, k);
      }
    }
  }

  /** The steps that write nothing in another request. */
  predicate OwnStep(pc: Pc) {
    (!UsesPred(pc) || pc.RClass?) && !pc.WPass? && !pc.RPass? && !pc.RWake?
  }

  /** What an own step may do to request `r`; `alone` says that no request is behind it, `p` is the
      class of its predecessor. */
  predicate Moves(r: Request, r': Request, alone: bool, p: Option<Class>) {
    && r' == r.(pc := r'.pc, blocked := r'.blocked)
    && r'.blocked == (r.blocked && !r.pc.WSelf? && !r.pc.RSelf? && !r.pc.RJoinSelf?)
    && var to := r'.pc;
    match r.pc
    case WPost => to.WCount?
    case WCount => to.WTake? || to.WSpin?
    case WTake => to.WSpin? || (r.blocked && to.WSelf?)
    case WSelf => to.WSpin?
    case WSpin => (r.blocked && to.WSpin?) || (!r.blocked && to.WAssert?)
    case WAssert => to.WHeld?
    case WHeld => to.WNext?
    case WNext => if r.next.Some? then to.WAwait? else to.WDetach?
    case WDetach => to.WAwait? || (alone && to.WDone?)
    case WAwait => (r.next.None? && to.WAwait?) || (r.next.Some? && to.WClass?)
    case WClass => to.WPass? || to.WCountNext?
    case WCountNext => to.WPass?
    case RCount => to.RSelf?
    case RSelf => to.RSucc?
    case RClass => if p == Some(Write) then to.RLink? else to.RTry?
    case RSpin => (r.blocked && to.RSpin?) || (!r.blocked && to.RSucc?)
    case RJoinCount => to.RJoinLink?
    case RJoinSelf => to.RSucc?
    case RSucc => if r.succ == Some(Read) then to.RAwaitReader? else to.RHeld?
    case RAwaitReader => (r.next.None? && to.RAwaitReader?) || (r.next.Some? && to.RCountNext?)
    case RCountNext => to.RPass?
    case RHeld => to.RNext?
    case RNext => if r.next.Some? then to.RAwait? else to.RDetach?
    case RDetach => to.RAwait? || (alone && to.RDec?)
    case RAwait => (r.next.None? && to.RAwait?) || (r.next.Some? && to.RSuccWriter?)
    case RSuccWriter => if r.succ == Some(Write) then to.RPost? else to.RDec?
    case RPost => to.RDec?
    case RDec => to.RTake? || to.RDone?
    case RTake => to.RWake? || to.RDone?
    case RWake(_) => to.RDone?
    case WDone => to.WDone?
    case RDone => to.RDone?
    case _ => false
  }

  lemma MovesNode(r: Request, r': Request, alone: bool, p: Option<Class>, i: nat)
    requires NodeOk(r, i) && Moves(r, r', alone, p)
    ensures NodeOk(r', i)
  {
  }

  lemma MovesLeft(a: Request, r: Request, r': Request, alone: bool, p: Option<Class>, i: nat)
    requires NodeOk(a, i) && NodeOk(r, i + 1) && LinkOk(a, r, i)
    requires Moves(r, r', alone, p) && (r.pred.Some? ==> p == Some(a.cls))
    ensures LinkOk(a, r', i)
  {
  }

  lemma MovesRight(r: Request, r': Request, b: Request, p: Option<Class>, i: nat)
    requires NodeOk(r, i) && NodeOk(b, i + 1) && LinkOk(r, b, i)
    requires Moves(r, r', false, p) && (r.pc.WClass? && r'.pc.WCountNext? ==> b.cls.Read?)
    ensures LinkOk(r', b, i)
  {
  }

  /** The class a reader at line 97 sees. */
  function PredClass(s: State, i: nat): Option<Class>
    requires i < |s.reqs|
  {
    match s.reqs[i].pred
    case None => None
    case Some(p) => if p < |s.reqs| then Some(s.reqs[p].cls) else None
  }

  /** The steps that read or write the mailbox, or wake the writer found there. */
  predicate Mailing(pc: Pc) {
    pc.WPost? || pc.WTake? || pc.WSelf? || pc.RPost? || pc.RTake? || pc.RWake?
  }

  predicate Increments(pc: Pc) {
    pc.RCount? || pc.RJoinCount? || pc.WCountNext? || pc.RCountNext?
  }

  /** What an own step of request `i` does to the three shared variables, and what it reads there. */
  predicate MovesShared(s: State, s': State, i: nat, r: Request, r': Request) {
    var to := r'.pc;
    var tries := r.pc.WDetach? || r.pc.RDetach?;
    && s'.tail == (if tries && s.tail == Some(i) then None else s.tail)
    && (tries ==> (s.tail == Some(i) <==> to.WDone? || to.RDec?))
    && s'.readerCount == (if Increments(r.pc) then s.readerCount + 1
                          else if r.pc.RDec? then s.readerCount - 1 else s.readerCount)
    && s'.nextWriter == (if r.pc.WPost? then Some(i) else if r.pc.RPost? then r.next
                         else if r.pc.WTake? || r.pc.RTake? then None else s.nextWriter)
    && (r.pc.WCount? ==> (to.WTake? <==> s.readerCount == 0))
    && (r.pc.WTake? ==> (to.WSelf? <==> s.nextWriter == Some(i)))
    && (r.pc.WClass? ==> i + 1 < |s.reqs| && (to.WCountNext? <==> s.reqs[i + 1].cls.Read?))
    && (r.pc.RDec? ==> (to.RTake? <==> s.readerCount == 1))
    && (r.pc.RTake? ==> to == if s.nextWriter.Some? then RWake(s.nextWriter.value) else RDone)
  }

  /** `s'` is `s` after an own step of request `i`. */
  predicate Moved(s: State, s': State, i: nat) {
    && i < |s.reqs| == |s'.reqs| && s'.reqs == s.reqs[i := s'.reqs[i]]
    && Moves(s.reqs[i], s'.reqs[i], i + 1 == |s.reqs|, PredClass(s, i))
    && MovesShared(s, s', i, s.reqs[i], s'.reqs[i])
  }

  predicate InWritelock(pc: Pc) {
    || pc.WPost? || pc.WCount? || pc.WTake? || pc.WSelf? || pc.WMark? || pc.WLink?
    || pc.WSpin? || pc.WAssert? || pc.WHeld?
  }

  predicate InReadlock(pc: Pc) {
    || pc.RCount? || pc.RSelf? || pc.RClass? || pc.RTry? || pc.RLink? || pc.RSpin?
    || pc.RJoinCount? || pc.RJoinLink? || pc.RJoinSelf? || pc.RSucc? || LettingReaderIn(pc) || pc.RHeld?
  }

  /** An own step whose pointers are those the queue gives it. */
  predicate Ready(s: State, i: nat) {
    && Safe(s, i) && OwnStep(s.reqs[i].pc)
    && (s.tail == Some(i) ==> i + 1 == |s.reqs|)
    && (s.reqs[i].pc.WTake? && s.nextWriter == Some(i) ==> s.reqs[i].blocked)
    && (s.reqs[i].pc.WClass? ==> s.reqs[i].next == Some(i + 1))
  }

  lemma WritelockMoves(s: State, i: nat)
    requires Ready(s, i) && InWritelock(s.reqs[i].pc)
    ensures Moved(s, Step(s, i), i)
  {
  }

  lemma WrunlockMoves(s: State, i: nat)
    requires Ready(s, i) && WriterPc(s.reqs[i].pc) && !InWritelock(s.reqs[i].pc)
    ensures Moved(s, Step(s, i), i)
  {
  }

  lemma ReadlockMoves(s: State, i: nat)
    requires Ready(s, i) && InReadlock(s.reqs[i].pc)
    ensures Moved(s, Step(s, i), i)
  {
  }

  lemma RdunlockMoves(s: State, i: nat)
    requires Ready(s, i) && !WriterPc(s.reqs[i].pc) && !InReadlock(s.reqs[i].pc)
    ensures Moved(s, Step(s, i), i)
  {
  }

  lemma OwnStepMoves(s: State, i: nat)
    requires Ready(s, i)
    ensures Moved(s, Step(s, i), i)
  {
    hide Step, Moved, OwnStep;
    if InWritelock(s.reqs[i].pc) {
      WritelockMoves(s, i);
    } else if WriterPc(s.reqs[i].pc) {
      WrunlockMoves(s, i);
    } else if InReadlock(s.reqs[i].pc) {
      ReadlockMoves(s, i);
    } else {
      RdunlockMoves(s, i);
    }
  }

  lemma MovedShape(s: State, s': State, i: nat)
    requires Shape(s) && Moved(s, s', i) && EndOk(s')
    ensures Shape(s')
  {
    hide Moves, NodeOk, LinkOk, EndOk;
    var r, r', p := s.reqs[i], s'.reqs[i], PredClass(s, i);
    var alone := i + 1 == |s.reqs|;
    assert NodeAt(s, i);
    MovesNode(r, r', alone, p, i);
    assert NodeAt(s', i);
    if i > 0 {
      assert NodeAt(s, i - 1) && LinkAt(s, i - 1);
      PredIsLeft(s, i);
      MovesLeft(s.reqs[i - 1], r, r', alone, p, i - 1);
      assert LinkAt(s', i - 1);
    }
    if i + 1 < |s.reqs| {
      assert NodeAt(s, i + 1) && LinkAt(s, i);
      MovesRight(r, r', s.reqs[i + 1], p, i);
      assert LinkAt(s', i);
    }
    ShapeFrame(s, s', i, i);
  }

  lemma PredIsLeft(s: State, i: nat)
    requires Shape(s) && 0 < i < |s.reqs|
    ensures s.reqs[i].pred.Some? ==> PredClass(s, i) == Some(s.reqs[i - 1].cls)
  {
    assert NodeAt(s, i);
  }

  lemma MovedEnd(s: State, s': State, i: nat)
    requires Shape(s) && Moved(s, s', i)
    ensures EndOk(s')
  {
    assert NodeAt(s, i);
  }

  // ----- Steps of a request that write its predecessor -----

  /** `r`, which has index `i`, writes its predecessor `a`. */
  predicate Joins(a: Request, r: Request, a': Request, r': Request, i: nat) {
    && r.pred.Some?
    && r' == r.(pc := r'.pc)
    && match r.pc
       case WMark => a' == a.(succ := Some(Write)) && r'.pc.WLink?
       case WLink => a' == a.(next := Some(i)) && r'.pc.WSpin?
       case RTry =>
         if a.blocked && a.succ.None? then a' == a.(succ := Some(Read)) && r'.pc.RLink?
         else a' == a && r'.pc.RJoinCount?
       case RLink => a' == a.(next := Some(i)) && r'.pc.RSpin?
       case RJoinLink => a' == a.(next := Some(i)) && r'.pc.RJoinSelf?
       case _ => false
  }

  /** `s'` is `s` after such a step of request `i`. */
  predicate Joined(s: State, s': State, i: nat) {
    && 0 < i < |s.reqs| == |s'.reqs|
    && s'.reqs == s.reqs[i - 1 := s'.reqs[i - 1]][i := s'.reqs[i]]
    && Joins(s.reqs[i - 1], s.reqs[i], s'.reqs[i - 1], s'.reqs[i], i)
    && s'.tail == s.tail && s'.readerCount == s.readerCount && s'.nextWriter == s.nextWriter
  }

  lemma JoinsNodes(a: Request, r: Request, a': Request, r': Request, i: nat)
    requires NodeOk(a, i) && NodeOk(r, i + 1) && LinkOk(a, r, i) && Joins(a, r, a', r', i + 1)
    ensures NodeOk(a', i) && NodeOk(r', i + 1) && LinkOk(a', r', i)
  {
  }

  lemma JoinsLeft(z: Request, a: Request, r: Request, a': Request, r': Request, i: nat)
    requires NodeOk(a, i + 1) && LinkOk(z, a, i) && LinkOk(a, r, i + 1) && Joins(a, r, a', r', i + 2)
    ensures LinkOk(z, a', i)
  {
  }

  lemma JoinsRight(a: Request, r: Request, a': Request, r': Request, b: Request, i: nat)
    requires NodeOk(r, i) && LinkOk(r, b, i) && Joins(a, r, a', r', i)
    ensures LinkOk(r', b, i)
  {
  }

  lemma JoinedShape(s: State, s': State, i: nat)
    requires Shape(s) && Joined(s, s', i)
    ensures Shape(s')
  {
    hide NodeOk, LinkOk, EndOk, Joins;
    var a, r, a', r' := s.reqs[i - 1], s.reqs[i], s'.reqs[i - 1], s'.reqs[i];
    assert NodeAt(s, i - 1) && NodeAt(s, i) && LinkAt(s, i - 1);
    JoinsNodes(a, r, a', r', i - 1);
    assert NodeAt(s', i - 1) && NodeAt(s', i) && LinkAt(s', i - 1);
    if i > 1 {
      assert LinkAt(s, i - 2);
      JoinsLeft(s.reqs[i - 2], a, r, a', r', i - 2);
      assert LinkAt(s', i - 2);
    }
    if i + 1 < |s.reqs| {
      assert LinkAt(s, i);
      JoinsRight(a, r, a', r', s.reqs[i + 1], i);
      assert LinkAt(s', i);
    }
    JoinedEnd(s, s', i);
    ShapeFrame(s, s', i - 1, i);
  }

  lemma JoinedEnd(s: State, s': State, i: nat)
    requires EndOk(s) && Joined(s, s', i)
    ensures EndOk(s')
  {
  }

  lemma JoinStep(s: State, i: nat)
    requires Safe(s, i) && UsesPred(s.reqs[i].pc) && !s.reqs[i].pc.RClass? && s.reqs[i].pred == Some(i - 1)
    ensures Joined(s, Step(s, i), i)
  {
  }

  // ----- Steps that unblock another request -----

  /** `r` lets in `b`, the request behind it. */
  predicate Passes(r: Request, b: Request, r': Request, b': Request) {
    && r.next.Some?
    && ((r.pc.WPass? && r' == r.(pc := WDone)) || (r.pc.RPass? && r' == r.(pc := RHeld)))
    && b' == b.(blocked := false)
  }

  /** `s'` is `s` after such a step of request `i`. */
  predicate PassedOn(s: State, s': State, i: nat) {
    && i + 1 < |s.reqs| == |s'.reqs|
    && s'.reqs == s.reqs[i := s'.reqs[i]][i + 1 := s'.reqs[i + 1]]
    && Passes(s.reqs[i], s.reqs[i + 1], s'.reqs[i], s'.reqs[i + 1])
    && s'.tail == s.tail && s'.readerCount == s.readerCount && s'.nextWriter == s.nextWriter
  }

  lemma PassesNodes(r: Request, b: Request, r': Request, b': Request, i: nat)
    requires NodeOk(r, i) && NodeOk(b, i + 1) && LinkOk(r, b, i) && Passes(r, b, r', b')
    ensures NodeOk(r', i) && NodeOk(b', i + 1) && LinkOk(r', b', i)
  {
  }

  lemma PassesLeft(a: Request, r: Request, b: Request, r': Request, b': Request, i: nat)
    requires NodeOk(r, i + 1) && LinkOk(a, r, i) && Passes(r, b, r', b')
    ensures LinkOk(a, r', i)
  {
  }

  lemma PassesRight(r: Request, b: Request, r': Request, b': Request, c: Request, i: nat)
    requires NodeOk(b, i) && LinkOk(b, c, i) && Passes(r, b, r', b')
    requires b.blocked && (b.pc.WSpin? || b.pc.RSpin?)
    ensures LinkOk(b', c, i)
  {
  }

  /** The request a passing request lets in spins on its own flag. */
  lemma PassTarget(s: State, i: nat)
    requires Shape(s) && i < |s.reqs| && (s.reqs[i].pc.WPass? || s.reqs[i].pc.RPass?)
    ensures s.reqs[i].next == Some(i + 1) && i + 1 < |s.reqs| && s.reqs[i + 1].blocked
    ensures if s.reqs[i + 1].cls.Read? then s.reqs[i + 1].pc.RSpin? else s.reqs[i + 1].pc.WSpin? && s.reqs[i].pc.WPass?
    ensures s.reqs[i + 1].pred == Some(i)
  {
    assert NodeAt(s, i);
    if i + 1 < |s.reqs| {
      assert NodeAt(s, i + 1) && LinkAt(s, i);
    }
  }

  lemma PassedShape(s: State, s': State, i: nat)
    requires Shape(s) && PassedOn(s, s', i)
    ensures Shape(s')
  {
    hide NodeOk, LinkOk, EndOk;
    var r, b, r', b' := s.reqs[i], s.reqs[i + 1], s'.reqs[i], s'.reqs[i + 1];
    PassTarget(s, i);
    assert NodeAt(s, i) && NodeAt(s, i + 1) && LinkAt(s, i);
    PassesNodes(r, b, r', b', i);
    assert NodeAt(s', i) && NodeAt(s', i + 1) && LinkAt(s', i);
    if i > 0 {
      assert LinkAt(s, i - 1);
      PassesLeft(s.reqs[i - 1], r, b, r', b', i - 1);
      assert LinkAt(s', i - 1);
    }
    if i + 2 < |s.reqs| {
      assert LinkAt(s, i + 1);
      PassesRight(r, b, r', b', s.reqs[i + 2], i + 1);
      assert LinkAt(s', i + 1);
    }
    PassedEnd(s, s', i);
    ShapeFrame(s, s', i, i + 1);
  }

  lemma PassedEnd(s: State, s': State, i: nat)
    requires EndOk(s) && PassedOn(s, s', i)
    ensures EndOk(s')
  {
  }

  lemma PassStep(s: State, i: nat)
    requires Safe(s, i) && (s.reqs[i].pc.WPass? || s.reqs[i].pc.RPass?) && s.reqs[i].next == Some(i + 1)
    ensures PassedOn(s, Step(s, i), i)
  {
  }

  // ----- Admission is in queue order -----

  /** If `j` has been let in, so was every earlier request, and every earlier writer is finished. */
  lemma {:induction false} Fifo(s: State, i: nat, j: nat)
    requires Shape(s) && i < j < |s.reqs| && !s.reqs[j].blocked
    ensures !s.reqs[i].blocked
    ensures s.reqs[i].cls.Write? ==> s.reqs[i].pc.WDone?
  {
    assert NodeAt(s, j - 1) && NodeAt(s, j) && LinkAt(s, j - 1);
    if i < j - 1 {
      Fifo(s, i, j - 1);
    }
  }

  /** `f` is the first request that has not been let in. */
  predicate FirstBlocked(s: State, f: nat) {
    f < |s.reqs| && s.reqs[f].blocked && (f == 0 || !s.reqs[f - 1].blocked)
  }

  lemma FirstBlockedUnique(s: State, f: nat, g: nat)
    requires Shape(s) && FirstBlocked(s, f) && FirstBlocked(s, g)
    ensures f == g
  {
    if f < g - 1 {
      Fifo(s, f, g - 1);
    } else if g < f - 1 {
      Fifo(s, g, f - 1);
    }
  }

  // ----- The mailbox of the next writer -----

  /** Every earlier request has been let in, and the writer has been put up for the readers to wake. */
  predicate Handed(s: State, w: nat) {
    && w < |s.reqs| && s.reqs[w].cls.Write?
    && if s.reqs[w].pred.None? then !s.reqs[w].pc.WPost?
       else w > 0 && s.reqs[w - 1].cls.Read? && AfterPost(s.reqs[w - 1].pc)
  }

  predicate Waiting(s: State, w: nat) {
    Handed(s, w) && s.reqs[w].blocked
  }

  predicate WakesAt(s: State, k: nat, w: nat) {
    k < |s.reqs| && s.reqs[k].pc == RWake(w)
  }

  ghost predicate Taken(s: State, w: nat) {
    exists k: nat :: WakesAt(s, k, w)
  }

  ghost predicate Mail(s: State) {
    && (s.nextWriter.Some? ==>
         && Waiting(s, s.nextWriter.value)
         && !s.reqs[s.nextWriter.value].pc.WSelf?
         && !Taken(s, s.nextWriter.value))
    && (forall w: nat | Waiting(s, w) :: s.nextWriter == Some(w) || s.reqs[w].pc.WSelf? || Taken(s, w))
    && (forall k: nat, w: nat | WakesAt(s, k, w) :: Waiting(s, w) && !s.reqs[w].pc.WSelf?)
    && (forall k: nat, w: nat, l: nat | WakesAt(s, k, w) && WakesAt(s, l, w) :: k == l)
  }

  lemma HandedIsFirst(s: State, w: nat)
    requires Shape(s) && Handed(s, w)
    ensures w == 0 || !s.reqs[w - 1].blocked
    ensures s.reqs[w].blocked ==> FirstBlocked(s, w)
  {
    assert NodeAt(s, w);
    if w > 0 {
      assert NodeAt(s, w - 1) && LinkAt(s, w - 1);
    }
  }

  lemma WaitingUnique(s: State, w: nat, f: nat)
    requires Shape(s) && Waiting(s, w) && FirstBlocked(s, f)
    ensures w == f
  {
    HandedIsFirst(s, w);
    FirstBlockedUnique(s, w, f);
  }

  /** A step that neither writes the mailbox nor hands over to a writer. */
  lemma QuietMail(s: State, s': State)
    requires Mail(s) && |s.reqs| <= |s'.reqs| && s'.nextWriter == s.nextWriter
    requires forall w: nat :: Waiting(s', w) <==> Waiting(s, w)
    requires forall k: nat, w: nat :: WakesAt(s', k, w) <==> WakesAt(s, k, w)
    requires forall k: nat | k < |s.reqs| :: s'.reqs[k].pc.WSelf? <==> s.reqs[k].pc.WSelf?
    ensures Mail(s')
  {
    forall w: nat
      ensures Taken(s', w) <==> Taken(s, w)
    {
      if Taken(s, w) {
        var k: nat :| WakesAt(s, k, w);
        assert WakesAt(s', k, w);
      }
      if Taken(s', w) {
        var k: nat :| WakesAt(s', k, w);
        assert WakesAt(s, k, w);
      }
    }
  }

  // ----- The reader count -----

  predicate CountedPc(pc: Pc) {
    || pc.RSelf? || pc.RJoinLink? || pc.RJoinSelf? || pc.RSucc? || LettingReaderIn(pc)
    || pc.RHeld? || pc.RNext? || pc.RDetach? || pc.RAwait? || pc.RSuccWriter? || pc.RPost? || pc.RDec?
  }

  /** Reader `k` has been counted, by itself or by the request before it, and has not yet left. */
  predicate Counted(s: State, k: nat) {
    && k < |s.reqs| && s.reqs[k].cls.Read?
    && (|| CountedPc(s.reqs[k].pc)
        || (s.reqs[k].pc.RSpin? && !s.reqs[k].blocked)
        || (s.reqs[k].pc.RSpin? && k > 0 && (s.reqs[k - 1].pc.WPass? || s.reqs[k - 1].pc.RPass?)))
  }

  function Inside(s: State): set<nat> {
    set k: nat | k < |s.reqs| && Counted(s, k)
  }

  lemma SameInside(s: State, s': State)
    requires forall k: nat :: Counted(s', k) <==> Counted(s, k)
    ensures Inside(s') == Inside(s)
  {
  }

  lemma EntersInside(s: State, s': State, i: nat)
    requires !Counted(s, i) && forall k: nat :: Counted(s', k) <==> Counted(s, k) || k == i
    ensures |Inside(s')| == |Inside(s)| + 1
  {
    assert Inside(s') == Inside(s) + {i};
  }

  lemma LeavesInside(s: State, s': State, i: nat)
    requires Counted(s, i) && forall k: nat :: Counted(s', k) <==> Counted(s, k) && k != i
    ensures |Inside(s')| == |Inside(s)| - 1
  {
    assert Inside(s') == Inside(s) - {i};
  }

  predicate TakesAt(s: State, k: nat) {
    k < |s.reqs| && s.reqs[k].pc.RTake?
  }

  ghost predicate Counting(s: State) {
    && s.readerCount == |Inside(s)|
    // A writer that read a zero count at line 49 is not overtaken by a reader.
    && (forall k: nat | k < |s.reqs| && (s.reqs[k].pc.WTake? || s.reqs[k].pc.WSelf?) :: s.readerCount == 0)
    // A posted writer is not forgotten when the last reader has left.
    && (s.nextWriter.Some? && s.nextWriter.value < |s.reqs| && s.readerCount == 0 ==>
         || s.reqs[s.nextWriter.value].pc.WCount? || s.reqs[s.nextWriter.value].pc.WTake?
         || exists k: nat :: TakesAt(s, k))
  }

  ghost predicate Inv(s: State) {
    Shape(s) && Mail(s) && Counting(s)
  }

  lemma InvSafe(s: State, i: nat)
    requires Inv(s) && i < |s.reqs|
    ensures Safe(s, i)
  {
    ShapeGivesPointers(s, i);
    var r := s.reqs[i];
    assert NodeAt(s, i);
    if r.pc.RWake? {
      assert WakesAt(s, i, r.pc.w);
    }
    if r.pc.RDec? {
      assert i in Inside(s);
    }
  }
}
