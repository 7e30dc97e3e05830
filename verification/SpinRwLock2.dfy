/**
 The packed-word reader/writer lock of delete-me/spinrwlock2.hpp as a small-step transition system:
 any number of threads, each calling the lock as often as it likes, one access to the word at a time.
 */
module SpinRwLock2 {
  import opened Wrappers
  import opened Bits

  const RW_WAIT := 1
  const RW_WRITE := 2
  const RW_READ := 4
  const WORD := 0x1_0000_0000

  /** The number of values of the reader field, which has 30 bits. */
  const MAX_THREADS := 0x4000_0000

  datatype Pc =
    | Idle
    // writelock
    | WRead                // 26: state = l
    | WSwap(state: nat)    // 31: compare-and-swap l from state to RW_WRITE
    | WReread              // 34: state = l
    | WSet                 // 39: set the wait bit
    | WSpin                // 42: while l > RW_WAIT
    | WHeld                // then 48: add -RW_WRITE
    // readlock
    | RSpin                // 54: while l & (RW_WAIT | RW_WRITE)
    | RAdd                 // 58: fetch-and-add RW_READ, test what was there
    | RUndo                // 61: add -RW_READ
    | RHeld                // then 66: add -RW_READ

  /** `setter` is the thread that set the wait bit, if it is set.  The code does not have it. */
  datatype State = State(l: nat, threads: seq<Pc>, setter: Option<nat>)

  datatype Action = Call(i: nat, write: bool) | Run(i: nat)

  function Initial(n: nat): State {
    State(0, seq(n, _ => Idle), None)
  }

  /** Addition on the 32-bit word; a negative operand wraps around. */
  function Add(l: nat, v: int): nat {
    (l + v) % WORD
  }

  function Goto(s: State, i: nat, pc: Pc): State
    requires i < |s.threads|
  {
    s.(threads := s.threads[i := pc])
  }

  /** Lines 37-42 with the value last read: test the wait bit. */
  function TestWait(state: nat): Pc {
    if And(state, RW_WAIT) == 0 then WSet else WSpin
  }

  function Step(s: State, i: nat): State
    requires i < |s.threads|
  {
    match s.threads[i]
    case Idle => s
    case WRead => Goto(s, i, if s.l < RW_WRITE then WSwap(s.l) else TestWait(s.l))
    case WSwap(state) =>
      if s.l == state then Goto(s.(l := RW_WRITE, setter := None), i, WHeld) else Goto(s, i, WReread)
    case WReread => Goto(s, i, TestWait(s.l))
    case WSet =>
      var setter := if And(s.l, RW_WAIT) == 0 then Some(i) else s.setter;
      Goto(s.(l := Or(s.l, RW_WAIT), setter := setter), i, WSpin)
    case WSpin => if s.l > RW_WAIT then s else Goto(s, i, WRead)
    case WHeld => Goto(s.(l := Add(s.l, -RW_WRITE)), i, Idle)
    case RSpin => if And(s.l, RW_WAIT + RW_WRITE) != 0 then s else Goto(s, i, RAdd)
    case RAdd =>
      Goto(s.(l := Add(s.l, RW_READ)), i, if And(s.l, RW_WAIT + RW_WRITE) == 0 then RHeld else RUndo)
    case RUndo => Goto(s.(l := Add(s.l, -RW_READ)), i, RSpin)
    case RHeld => Goto(s.(l := Add(s.l, -RW_READ)), i, Idle)
  }

  predicate Enabled(s: State, a: Action) {
    match a
    case Call(i, _) => i < |s.threads| && s.threads[i] == Idle
    case Run(i) => i < |s.threads|
  }

  function Next(s: State, a: Action): State
    requires Enabled(s, a)
  {
    match a
    case Call(i, write) => Goto(s, i, if write then WRead else RSpin)
    case Run(i) => Step(s, i)
  }

  predicate Steps(s: State, a: Action, s': State) {
    Enabled(s, a) && s' == Next(s, a)
  }

  ghost predicate IsRun(run: seq<State>, acts: seq<Action>, n: nat) {
    && |run| == |acts| + 1 && run[0] == Initial(n)
    && forall k: nat | k < |acts| :: Steps(run[k], acts[k], run[k + 1])
  }
}
