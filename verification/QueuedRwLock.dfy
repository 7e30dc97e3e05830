/**
 The fair queue-based reader/writer lock of Mellor-Crummey and Scott as coded in
 delete-me/queued_rw_lock.hpp, as a small-step transition system.

 A request is named by the order of its swap on `tail`: request `i` is the i-th one to swap.
 Everything a thread does before that swap touches only its own request, so the swap (with the
 initialisation before it) is one step, `Arrive`.  After it, every access to shared memory is a
 step of its own, named by the `Pc` value whose comment gives the source line.
 */
module QueuedRwLock {
  import opened Wrappers

  datatype Class = Read | Write

  datatype Pc =
    // writelock
    | WPost          // 47: next_writer = I
    | WCount         // 49: reader_count == 0?
    | WTake          // 50: swap next_writer with NULL
    | WSelf          // 51: I->blocked = false
    | WMark          // 55: predecessor->successor_class = WRITE
    | WLink          // 57: predecessor->next = I
    | WSpin          // 61: while I->blocked
    | WAssert        // 62: assert reader_count == 0
    | WHeld          // between writelock and wrunlock
    // wrunlock
    | WNext          // 67: I->next != NULL?
    | WDetach        // 67: compare-and-swap tail from I to NULL
    | WAwait         // 69: while I->next == NULL
    | WClass         // 72: I->next->lockclass == READ?
    | WCountNext     // 73: reader_count.inc()
    | WPass          // 75: I->next->blocked = false
    | WDone
    // readlock
    | RCount         // 88: reader_count.inc()
    | RSelf          // 89: I->blocked = false
    | RClass         // 97: predecessor->lockclass == WRITE?
    | RTry           // 98: compare-and-swap predecessor's state
    | RLink          // 101: predecessor->next = I
    | RSpin          // 105: while I->blocked
    | RJoinCount     // 107: reader_count.inc()
    | RJoinLink      // 108: predecessor->next = I
    | RJoinSelf      // 110: I->blocked = false
    | RSucc          // 114: I->successor_class == READ?
    | RAwaitReader   // 116: while I->next == NULL
    | RCountNext     // 117: reader_count.inc()
    | RPass          // 118: I->next->blocked = false
    | RHeld          // between readlock and rdunlock
    // rdunlock
    | RNext          // 124: I->next != NULL?
    | RDetach        // 124: compare-and-swap tail from I to NULL
    | RAwait         // 125: while I->next == NULL
    | RSuccWriter    // 126: I->successor_class == WRITE?
    | RPost          // 127: next_writer = I->next
    | RDec           // 131: reader_count.dec() == 0?
    | RTake          // 133: w = swap next_writer with NULL
    | RWake(w: nat)  // 134: w->blocked = false
    | RDone

  /** One `request`.  `pred` is the local variable `predecessor`; `succ` is `successor_class`, with
      NONE as `None`; the pair (`succ`, `blocked`) is the 32-bit state word. */
  datatype Request = Request(
    cls: Class, pred: Option<nat>, next: Option<nat>, succ: Option<Class>, blocked: bool, pc: Pc)

  datatype State = State(tail: Option<nat>, readerCount: nat, nextWriter: Option<nat>, reqs: seq<Request>)

  datatype Action = Arrive(cls: Class) | Run(i: nat)

  const INITIAL := State(None, 0, None, [])

  /** Lines 38-44 and 80-86: initialise the request, swap it into `tail`, test the predecessor. */
  function Arrival(cls: Class, pred: Option<nat>): Request {
    Request(cls, pred, None, None, true,
            if cls == Write then if pred.None? then WPost else WMark
            else if pred.None? then RCount else RClass)
  }

  function ArriveStep(s: State, cls: Class): State {
    s.(tail := Some(|s.reqs|), reqs := s.reqs + [Arrival(cls, s.tail)])
  }

  function Goto(s: State, i: nat, pc: Pc): State
    requires i < |s.reqs|
  {
    s.(reqs := s.reqs[i := s.reqs[i].(pc := pc)])
  }

  function Unblock(s: State, i: nat): State
    requires i < |s.reqs|
  {
    s.(reqs := s.reqs[i := s.reqs[i].(blocked := false)])
  }

  function SetNext(s: State, i: nat, next: nat): State
    requires i < |s.reqs|
  {
    s.(reqs := s.reqs[i := s.reqs[i].(next := Some(next))])
  }

  function SetSucc(s: State, i: nat, cls: Class): State
    requires i < |s.reqs|
  {
    s.(reqs := s.reqs[i := s.reqs[i].(succ := Some(cls))])
  }

  predicate UsesPred(pc: Pc) {
    pc == WMark || pc == WLink || pc == RClass || pc == RTry || pc == RLink || pc == RJoinLink
  }

  predicate UsesNext(pc: Pc) {
    pc == WClass || pc == WPass || pc == RPass || pc == RPost
  }

  /** The next step of request `i` follows no null or dangling pointer and does not decrement zero. */
  predicate Safe(s: State, i: nat) {
    && i < |s.reqs|
    && var r := s.reqs[i];
    && (UsesPred(r.pc) ==> r.pred.Some? && r.pred.value < |s.reqs|)
    && (UsesNext(r.pc) ==> r.next.Some? && r.next.value < |s.reqs|)
    && (r.pc.RWake? ==> r.pc.w < |s.reqs|)
    && (r.pc == RDec ==> s.readerCount > 0)
  }

  /** One atomic access by the thread of request `i`.  A spinning thread whose condition fails, and a
      finished one, leaves the state as it is. */
  function Step(s: State, i: nat): State
    requires Safe(s, i)
  {
    var r := s.reqs[i];
    match r.pc
    case WPost => Goto(s.(nextWriter := Some(i)), i, WCount)
    case WCount => Goto(s, i, if s.readerCount == 0 then WTake else WSpin)
    case WTake => Goto(s.(nextWriter := None), i, if s.nextWriter == Some(i) then WSelf else WSpin)
    case WSelf => Goto(Unblock(s, i), i, WSpin)
    case WMark => Goto(SetSucc(s, r.pred.value, Write), i, WLink)
    case WLink => Goto(SetNext(s, r.pred.value, i), i, WSpin)
    case WSpin => if r.blocked then s else Goto(s, i, WAssert)
    case WAssert => Goto(s, i, WHeld)
    case WHeld => Goto(s, i, WNext)
    case WNext => Goto(s, i, if r.next.Some? then WAwait else WDetach)
    case WDetach => if s.tail == Some(i) then Goto(s.(tail := None), i, WDone) else Goto(s, i, WAwait)
    case WAwait => if r.next.None? then s else Goto(s, i, WClass)
    case WClass => Goto(s, i, if s.reqs[r.next.value].cls == Read then WCountNext else WPass)
    case WCountNext => Goto(s.(readerCount := s.readerCount + 1), i, WPass)
    case WPass => Goto(Unblock(s, r.next.value), i, WDone)
    case WDone => s
    case RCount => Goto(s.(readerCount := s.readerCount + 1), i, RSelf)
    case RSelf => Goto(Unblock(s, i), i, RSucc)
    case RClass => Goto(s, i, if s.reqs[r.pred.value].cls == Write then RLink else RTry)
    case RTry =>
      var p := s.reqs[r.pred.value];
      if p.blocked && p.succ == None then Goto(SetSucc(s, r.pred.value, Read), i, RLink)
      else Goto(s, i, RJoinCount)
    case RLink => Goto(SetNext(s, r.pred.value, i), i, RSpin)
    case RSpin => if r.blocked then s else Goto(s, i, RSucc)
    case RJoinCount => Goto(s.(readerCount := s.readerCount + 1), i, RJoinLink)
    case RJoinLink => Goto(SetNext(s, r.pred.value, i), i, RJoinSelf)
    case RJoinSelf => Goto(Unblock(s, i), i, RSucc)
    case RSucc => Goto(s, i, if r.succ == Some(Read) then RAwaitReader else RHeld)
    case RAwaitReader => if r.next.None? then s else Goto(s, i, RCountNext)
    case RCountNext => Goto(s.(readerCount := s.readerCount + 1), i, RPass)
    case RPass => Goto(Unblock(s, r.next.value), i, RHeld)
    case RHeld => Goto(s, i, RNext)
    case RNext => Goto(s, i, if r.next.Some? then RAwait else RDetach)
    case RDetach => if s.tail == Some(i) then Goto(s.(tail := None), i, RDec) else Goto(s, i, RAwait)
    case RAwait => if r.next.None? then s else Goto(s, i, RSuccWriter)
    case RSuccWriter => Goto(s, i, if r.succ == Some(Write) then RPost else RDec)
    case RPost => Goto(s.(nextWriter := r.next), i, RDec)
    case RDec => Goto(s.(readerCount := s.readerCount - 1), i, if s.readerCount == 1 then RTake else RDone)
    case RTake => Goto(s.(nextWriter := None), i, if s.nextWriter.Some? then RWake(s.nextWriter.value) else RDone)
    case RWake(w) => Goto(Unblock(s, w), i, RDone)
    case RDone => s
  }

  predicate Enabled(s: State, a: Action) {
    a.Run? ==> Safe(s, a.i)
  }

  function Next(s: State, a: Action): State
    requires Enabled(s, a)
  {
    match a
    case Arrive(cls) => ArriveStep(s, cls)
    case Run(i) => Step(s, i)
  }
}
