/**
 Concurrent push_back of delete-me/lockfree_push_back.hpp as a small-step transition system.

 A push is named by the order of its fetch-and-add on `idx`.  Both forms of push_back are this
 program: the one for a single element is the one for a range of length one.  The container is a
 sequence of cells; how far `resize` grows it beyond what was asked for, and what it puts into the
 new cells, is left open, so the growth factor can be anything.
 */
module LockfreePushBack {
  import opened Wrappers
  import opened Bits

  const MAX_REF := 65536

  datatype Pc =
    | Load             // 21-22: curref = reference_count, test the flag
    | Cas(cur: nat)    // 23: compare-and-swap reference_count to curref + 1
    | Size             // 91, 168: does the range fit?
    | Write            // 92-96, 169: write one element, until the range is written
    | Leave            // 97, 170: dec_ref, then return
    | Retreat          // 100, 173: dec_ref
    | TryLock          // 102, 175
    | Flag             // 105, 178: flag_ref
    | WaitRefs         // 106, 179: wait_till_no_ref
    | SizeAgain        // 108, 181
    | Resize           // 109, 182
    | WriteAlone       // 111-115, 184
    | Unflag           // 116, 185: flag_ref
    | Unlock           // 117, 186
    | Done

  /** `start` is what the fetch-and-add returned, `pos` is `putpos`. */
  datatype Push<T> = Push(start: nat, data: seq<T>, pos: nat, pc: Pc) {
    function End(): nat { start + |data| }
  }

  datatype State<T> = State(container: seq<T>, idx: nat, refs: nat, lock: Option<nat>, pushes: seq<Push<T>>)

  datatype Action<T> =
    | Reserve(data: seq<T>)              // 87, 165: fetch-and-add
    | Run(i: nat)                        // a step of push i other than the resize
    | Grow(i: nat, extra: seq<T>)        // the resize of push i, which adds the cells `extra`

  function Initial<T>(container: seq<T>, startidx: nat): State<T> {
    State(container, startidx, 0, None, [])
  }

  function InFlight<T>(s: State<T>): set<nat> {
    set i: nat | i < |s.pushes| && s.pushes[i].pc != Done
  }

  function Goto<T>(s: State<T>, i: nat, pc: Pc): State<T>
    requires i < |s.pushes|
  {
    s.(pushes := s.pushes[i := s.pushes[i].(pc := pc)])
  }

  /** container[putpos] = *begin; ++putpos; ++begin, or leave the loop for `next`. */
  function WriteOne<T>(s: State<T>, i: nat, next: Pc): State<T>
    requires i < |s.pushes| && InBounds(s, i)
  {
    var p := s.pushes[i];
    if p.pos < p.End() then
      s.(container := s.container[p.pos := p.data[p.pos - p.start]],
         pushes := s.pushes[i := p.(pos := p.pos + 1)])
    else Goto(s, i, next)
  }

  /** The element that push `i` writes next is an element of its range, and its cell exists. */
  predicate InBounds<T>(s: State<T>, i: nat)
    requires i < |s.pushes|
  {
    var p := s.pushes[i];
    p.start <= p.pos && (p.pos < p.End() ==> p.pos < |s.container|)
  }

  predicate Enabled<T>(s: State<T>, a: Action<T>) {
    match a
    case Reserve(_) => true
    case Run(i) => i < |s.pushes| && s.pushes[i].pc != Resize
    case Grow(i, extra) =>
      i < |s.pushes| && s.pushes[i].pc == Resize && |s.container| + |extra| >= s.pushes[i].End()
  }

  /** A push begins only while fewer than `bound` are in flight. */
  predicate Admits<T>(s: State<T>, a: Action<T>, bound: nat) {
    a.Reserve? ==> |InFlight(s)| < bound
  }

  /** No out-of-bounds write and no decrement below zero. */
  predicate Safe<T>(s: State<T>, i: nat) {
    && i < |s.pushes|
    && (s.pushes[i].pc == Write || s.pushes[i].pc == WriteAlone ==> InBounds(s, i))
    && (s.pushes[i].pc == Leave || s.pushes[i].pc == Retreat ==> s.refs > 0)
  }

  function Step<T>(s: State<T>, i: nat): State<T>
    requires Safe(s, i)
  {
    var p := s.pushes[i];
    match p.pc
    case Load => if And(s.refs, MAX_REF) == 0 then Goto(s, i, Cas(s.refs)) else s
    case Cas(cur) => if s.refs == cur then Goto(s.(refs := cur + 1), i, Size) else Goto(s, i, Load)
    case Size => Goto(s, i, if p.End() <= |s.container| then Write else Retreat)
    case Write => WriteOne(s, i, Leave)
    case Leave => Goto(s.(refs := s.refs - 1), i, Done)
    case Retreat => Goto(s.(refs := s.refs - 1), i, TryLock)
    case TryLock => if s.lock.None? then Goto(s.(lock := Some(i)), i, Flag) else Goto(s, i, Load)
    case Flag => Goto(s.(refs := Xor(s.refs, MAX_REF)), i, WaitRefs)
    case WaitRefs => if And(s.refs, MAX_REF - 1) != 0 then s else Goto(s, i, SizeAgain)
    case SizeAgain => Goto(s, i, if p.End() > |s.container| then Resize else WriteAlone)
    case Resize => s
    case WriteAlone => WriteOne(s, i, Unflag)
    case Unflag => Goto(s.(refs := Xor(s.refs, MAX_REF)), i, Unlock)
    case Unlock => Goto(s.(lock := None), i, Done)
    case Done => s
  }

  function Next<T>(s: State<T>, a: Action<T>): State<T>
    requires Enabled(s, a) && (a.Run? ==> Safe(s, a.i))
  {
    match a
    case Reserve(data) => s.(idx := s.idx + |data|, pushes := s.pushes + [Push(s.idx, data, s.idx, Load)])
    case Run(i) => Step(s, i)
    case Grow(i, extra) => Goto(s.(container := s.container + extra), i, WriteAlone)
  }
}
