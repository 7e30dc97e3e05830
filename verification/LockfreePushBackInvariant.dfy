/** The invariant of concurrent push_back, kept by every step of every interleaving. */
module LockfreePushBackInvariant {
  import opened Wrappers
  import opened Bits
  import opened Sets
  import opened LockfreePushBack

  /** Between a successful inc_ref and the dec_ref. */
  predicate HoldsRef(pc: Pc) {
    pc.Size? || pc.Write? || pc.Leave? || pc.Retreat?
  }

  /** Between the two flag_ref calls. */
  predicate HoldsFlag(pc: Pc) {
    pc.WaitRefs? || Alone(pc)
  }

  /** After wait_till_no_ref and before the second flag_ref. */
  predicate Alone(pc: Pc) {
    pc.SizeAgain? || pc.Resize? || pc.WriteAlone? || pc.Unflag?
  }

  predicate HoldsLock(pc: Pc) {
    pc.Flag? || HoldsFlag(pc) || pc.Unlock?
  }

  function Holders<T>(s: State<T>): set<nat> {
    set i: nat | i < |s.pushes| && HoldsRef(s.pushes[i].pc)
  }

  predicate Flagged<T>(s: State<T>) {
    s.lock.Some? && s.lock.value < |s.pushes| && HoldsFlag(s.pushes[s.lock.value].pc)
  }

  /** The elements pushed so far, in reservation order: what an atomic append would have built. */
  function Log<T>(pushes: seq<Push<T>>): seq<T> {
    if pushes == [] then [] else Log(pushes[..|pushes| - 1]) + pushes[|pushes| - 1].data
  }

  /** What the program point of a push says about its range and the size of the container. */
  predicate Placed<T>(p: Push<T>, size: nat) {
    && p.start <= p.pos <= p.End()
    && (!p.pc.Write? && !p.pc.WriteAlone? && !Written(p.pc) ==> p.pos == p.start)
    && (Written(p.pc) ==> p.pos == p.End())
    && (p.pc.Write? || p.pc.WriteAlone? || Written(p.pc) ==> p.End() <= size)
    && (p.pc.Resize? ==> p.End() > size)
  }

  /** What the push has written is there. */
  ghost predicate Filled<T>(p: Push<T>, container: seq<T>)
    requires p.start <= p.pos <= p.End()
  {
    forall k: nat | p.start <= k < p.pos :: k < |container| && container[k] == p.data[k - p.start]
  }

  ghost predicate PushOk<T>(p: Push<T>, container: seq<T>) {
    Placed(p, |container|) && Filled(p, container)
  }

  predicate Written(pc: Pc) {
    pc.Leave? || pc.Unflag? || pc.Unlock? || pc.Done?
  }

  predicate StartsAt<T>(pushes: seq<Push<T>>, i: nat, startidx: nat)
    requires i < |pushes|
  {
    pushes[i].start == if i == 0 then startidx else pushes[i - 1].End()
  }

  ghost predicate Ranges<T>(s: State<T>, startidx: nat) {
    && (forall i: nat | i < |s.pushes| :: StartsAt(s.pushes, i, startidx))
    && s.idx == if |s.pushes| == 0 then startidx else s.pushes[|s.pushes| - 1].End()
  }

  /** `reference_count` is the flag bit plus the number of reference holders. */
  ghost predicate Refs<T>(s: State<T>) {
    && s.refs == (if Flagged(s) then MAX_REF else 0) + |Holders(s)|
    && |InFlight(s)| <= MAX_REF
    && (s.lock.Some? ==> s.lock.value < |s.pushes|)
    && (forall i: nat | i < |s.pushes| :: HoldsLock(s.pushes[i].pc) <==> s.lock == Some(i))
    && (forall i: nat | i < |s.pushes| && Alone(s.pushes[i].pc) :: Holders(s) == {})
    && (forall i: nat | i < |s.pushes| && s.pushes[i].pc.Cas? :: s.pushes[i].pc.cur < MAX_REF)
  }

  ghost predicate Contents<T>(s: State<T>) {
    forall i: nat | i < |s.pushes| :: PushOk(s.pushes[i], s.container)
  }

  ghost predicate Inv<T>(s: State<T>, startidx: nat) {
    Ranges(s, startidx) && Refs(s) && Contents(s)
  }

  // ----- The word -----

  lemma Pow16()
    ensures Pow2(16) == MAX_REF
  {
    assert Pow2(4) == 16;
    assert Pow2(8) == 256;
    assert Pow2(12) == 4096;
  }

  /** Whoever is in flight and holds no reference finds room for the holders below the flag. */
  lemma HoldersBound<T>(s: State<T>, i: nat)
    requires Refs(s) && i < |s.pushes| && !s.pushes[i].pc.Done? && !HoldsRef(s.pushes[i].pc)
    ensures |Holders(s)| < MAX_REF
  {
    assert |Holders(s) + {i}| == |Holders(s)| + 1;
    SubsetSize(Holders(s) + {i}, InFlight(s));
  }

  /** What the three bit operations on `reference_count` see and do, whatever its two parts are. */
  lemma RefBits<T>(s: State<T>)
    requires Refs(s) && |Holders(s)| < MAX_REF
    ensures And(s.refs, MAX_REF) == 0 <==> !Flagged(s)
    ensures And(s.refs, MAX_REF - 1) == |Holders(s)|
    ensures Xor(s.refs, MAX_REF) == (if Flagged(s) then 0 else MAX_REF) + |Holders(s)|
  {
    hide And, Xor, Pow2, Flagged, Holders;
    Pow16();
    AndTop(16, Flagged(s), |Holders(s)|);
    AndLow(16, Flagged(s), |Holders(s)|);
    XorTop(16, Flagged(s), |Holders(s)|);
  }

  // ----- Reserved ranges -----

  /** Ranges are handed out in order, so they never overlap. */
  lemma {:induction false} Disjoint<T>(s: State<T>, startidx: nat, i: nat, j: nat)
    requires Ranges(s, startidx) && i < j < |s.pushes|
    ensures startidx <= s.pushes[i].start && s.pushes[i].End() <= s.pushes[j].start
  {
    assert StartsAt(s.pushes, j, startidx);
    if i + 1 < j {
      Disjoint(s, startidx, i, j - 1);
    } else {
      StartBound(s, startidx, i);
    }
  }

  lemma {:induction false} StartBound<T>(s: State<T>, startidx: nat, i: nat)
    requires Ranges(s, startidx) && i < |s.pushes|
    ensures startidx <= s.pushes[i].start && s.pushes[i].End() <= s.idx
  {
    assert StartsAt(s.pushes, i, startidx);
    if i > 0 {
      StartBelow(s, startidx, i - 1);
    }
    EndBelow(s, startidx, i);
  }

  lemma {:induction false} StartBelow<T>(s: State<T>, startidx: nat, i: nat)
    requires Ranges(s, startidx) && i < |s.pushes|
    ensures startidx <= s.pushes[i].start
  {
    assert StartsAt(s.pushes, i, startidx);
    if i > 0 {
      StartBelow(s, startidx, i - 1);
    }
  }

  lemma {:induction false} EndBelow<T>(s: State<T>, startidx: nat, i: nat)
    requires Ranges(s, startidx) && i < |s.pushes|
    ensures s.pushes[i].End() <= s.idx
    decreases |s.pushes| - i
  {
    if i + 1 < |s.pushes| {
      assert StartsAt(s.pushes, i + 1, startidx);
      EndBelow(s, startidx, i + 1);
    }
  }

  // ----- Steps that change only the program counter and the word -----

  /** The state after push `i` has moved to `pc`, with a new word and a new lock owner. */
  function Moved<T>(s: State<T>, i: nat, pc: Pc, refs: nat, lock: Option<nat>): State<T>
    requires i < |s.pushes|
  {
    s.(pushes := s.pushes[i := s.pushes[i].(pc := pc)], refs := refs, lock := lock)
  }

  lemma MovedRanges<T>(s: State<T>, startidx: nat, i: nat, pc: Pc, refs: nat, lock: Option<nat>)
    requires Ranges(s, startidx) && i < |s.pushes|
    ensures Ranges(Moved(s, i, pc, refs, lock), startidx)
  {
    var s' := Moved(s, i, pc, refs, lock);
    forall k: nat | k < |s'.pushes|
      ensures StartsAt(s'.pushes, k, startidx)
    {
      assert StartsAt(s.pushes, k, startidx);
    }
  }

  lemma MovedContents<T>(s: State<T>, i: nat, pc: Pc, refs: nat, lock: Option<nat>)
    requires Contents(s) && i < |s.pushes|
    requires Placed(s.pushes[i].(pc := pc), |s.container|)
    ensures Contents(Moved(s, i, pc, refs, lock))
  {
    hide Placed;
    assert PushOk(s.pushes[i], s.container);
    assert PushOk(s.pushes[i].(pc := pc), s.container);
  }

  /** The number of holders after the move. */
  lemma MovedHolders<T>(s: State<T>, i: nat, pc: Pc, refs: nat, lock: Option<nat>)
    requires i < |s.pushes|
    ensures |Holders(Moved(s, i, pc, refs, lock))| ==
      |Holders(s)| + (if HoldsRef(pc) then 1 else 0) - (if HoldsRef(s.pushes[i].pc) then 1 else 0)
  {
    hide HoldsRef;
    var s' := Moved(s, i, pc, refs, lock);
    assert i in Holders(s) <==> HoldsRef(s.pushes[i].pc);
    assert i in Holders(s') <==> HoldsRef(pc);
    assert Holders(s) - {i} == Holders(s') - {i};
    OneChanged(Holders(s), Holders(s'), i);
  }

  lemma MovedInFlight<T>(s: State<T>, i: nat, pc: Pc, refs: nat, lock: Option<nat>)
    requires i < |s.pushes| && !s.pushes[i].pc.Done?
    ensures |InFlight(Moved(s, i, pc, refs, lock))| <= |InFlight(s)|
  {
    var s' := Moved(s, i, pc, refs, lock);
    assert InFlight(s') <= InFlight(s);
    SubsetSize(InFlight(s'), InFlight(s));
  }

  lemma MovedRefs<T>(s: State<T>, i: nat, pc: Pc, refs: nat, lock: Option<nat>)
    requires Refs(s) && i < |s.pushes| && !s.pushes[i].pc.Done?
    requires lock == if HoldsLock(pc) then Some(i) else if HoldsLock(s.pushes[i].pc) then None else s.lock
    requires HoldsLock(pc) && !HoldsLock(s.pushes[i].pc) ==> s.lock.None?
    requires Alone(pc) ==> Holders(s) == {} && HoldsLock(s.pushes[i].pc)
    requires HoldsRef(pc) && !HoldsRef(s.pushes[i].pc) ==> !Flagged(s)
    requires pc.Cas? ==> pc.cur < MAX_REF
    requires refs - s.refs ==
      (if HoldsFlag(pc) then MAX_REF else 0) - (if HoldsFlag(s.pushes[i].pc) then MAX_REF else 0)
      + (if HoldsRef(pc) then 1 else 0) - (if HoldsRef(s.pushes[i].pc) then 1 else 0)
    ensures Refs(Moved(s, i, pc, refs, lock))
  {
    hide Holders, InFlight;
    var s' := Moved(s, i, pc, refs, lock);
    MovedHolders(s, i, pc, refs, lock);
    MovedInFlight(s, i, pc, refs, lock);
    assert HoldsLock(s.pushes[i].pc) <==> s.lock == Some(i);
    forall k: nat | k < |s'.pushes|
      ensures HoldsLock(s'.pushes[k].pc) <==> s'.lock == Some(k)
    {
      assert HoldsLock(s.pushes[k].pc) <==> s.lock == Some(k);
    }
    forall k: nat | k < |s'.pushes| && Alone(s'.pushes[k].pc)
      ensures Holders(s') == {}
    {
      assert Holders(s) == {};
    }
  }

  /** The move keeps the push, the lock, the flag and the count consistent. */
  ghost predicate CanMove<T>(s: State<T>, i: nat, pc: Pc, refs: nat, lock: Option<nat>)
    requires i < |s.pushes|
  {
    var was := s.pushes[i].pc;
    && Placed(s.pushes[i].(pc := pc), |s.container|)
    && lock == (if HoldsLock(pc) then Some(i) else if HoldsLock(was) then None else s.lock)
    && (HoldsLock(pc) && !HoldsLock(was) ==> s.lock.None?)
    && (Alone(pc) ==> Holders(s) == {} && HoldsLock(was))
    && (HoldsRef(pc) && !HoldsRef(was) ==> !Flagged(s))
    && (pc.Cas? ==> pc.cur < MAX_REF)
    && refs - s.refs ==
         (if HoldsFlag(pc) then MAX_REF else 0) - (if HoldsFlag(was) then MAX_REF else 0)
         + (if HoldsRef(pc) then 1 else 0) - (if HoldsRef(was) then 1 else 0)
  }

  lemma MovedInv<T>(s: State<T>, startidx: nat, i: nat, pc: Pc, refs: nat, lock: Option<nat>)
    requires Inv(s, startidx) && i < |s.pushes| && !s.pushes[i].pc.Done?
    requires CanMove(s, i, pc, refs, lock)
    ensures Inv(Moved(s, i, pc, refs, lock), startidx)
  {
    MovedRanges(s, startidx, i, pc, refs, lock);
    MovedContents(s, i, pc, refs, lock);
    MovedRefs(s, i, pc, refs, lock);
  }

  // ----- Steps that write the container -----

  lemma WriteContents<T>(s: State<T>, startidx: nat, i: nat, next: Pc)
    requires Inv(s, startidx) && i < |s.pushes| && InBounds(s, i)
    requires s.pushes[i].pc.Write? || s.pushes[i].pc.WriteAlone?
    requires s.pushes[i].pos < s.pushes[i].End()
    ensures Contents(WriteOne(s, i, next))
  {
    var s' := WriteOne(s, i, next);
    var p := s.pushes[i];
    assert PushOk(p, s.container);
    forall j: nat | j < |s'.pushes|
      ensures PushOk(s'.pushes[j], s'.container)
    {
      assert PushOk(s.pushes[j], s.container);
      if j < i {
        Disjoint(s, startidx, j, i);
      } else if i < j {
        Disjoint(s, startidx, i, j);
      }
    }
  }

  lemma SameControl<T>(s: State<T>, s': State<T>, startidx: nat)
    requires Ranges(s, startidx) && Refs(s) && |s'.pushes| == |s.pushes|
    requires s'.refs == s.refs && s'.lock == s.lock && s'.idx == s.idx
    requires forall k: nat | k < |s.pushes| ::
      && s'.pushes[k].pc == s.pushes[k].pc && s'.pushes[k].start == s.pushes[k].start
      && s'.pushes[k].data == s.pushes[k].data
    ensures Ranges(s', startidx) && Refs(s')
  {
    assert Holders(s') == Holders(s);
    assert InFlight(s') == InFlight(s);
    forall k: nat | k < |s'.pushes|
      ensures StartsAt(s'.pushes, k, startidx)
    {
      assert StartsAt(s.pushes, k, startidx);
    }
  }

  lemma GrowInv<T>(s: State<T>, startidx: nat, i: nat, extra: seq<T>)
    requires Inv(s, startidx) && Enabled(s, Grow(i, extra))
    ensures Inv(Next(s, Grow(i, extra)), startidx)
  {
    var g := s.(container := s.container + extra);
    forall j: nat | j < |s.pushes| && j != i
      ensures PushOk(s.pushes[j], g.container)
    {
      assert PushOk(s.pushes[j], s.container);
      assert HoldsLock(s.pushes[j].pc) <==> s.lock == Some(j);
      assert HoldsLock(s.pushes[i].pc) <==> s.lock == Some(i);
    }
    assert PushOk(s.pushes[i], s.container);
    var s' := Goto(g, i, WriteAlone);
    assert s' == Moved(g, i, WriteAlone, s.refs, s.lock);
    assert Contents(s');
    assert HoldsLock(s.pushes[i].pc) <==> s.lock == Some(i);
    MovedRefs(s, i, WriteAlone, s.refs, s.lock);
    MovedRanges(s, startidx, i, WriteAlone, s.refs, s.lock);
    SameControl(Moved(s, i, WriteAlone, s.refs, s.lock), s', startidx);
  }

  lemma ReserveSets<T>(s: State<T>, data: seq<T>)
    ensures var s' := Next(s, Reserve(data));
      Holders(s') == Holders(s) && InFlight(s') == InFlight(s) + {|s.pushes|}
  {
  }

  lemma ReserveRefs<T>(s: State<T>, data: seq<T>)
    requires Refs(s) && |InFlight(s)| < MAX_REF
    ensures Refs(Next(s, Reserve(data)))
  {
    hide Holders, InFlight;
    ReserveSets(s, data);
  }

  lemma ReserveInv<T>(s: State<T>, startidx: nat, data: seq<T>)
    requires Inv(s, startidx) && |InFlight(s)| < MAX_REF
    ensures Inv(Next(s, Reserve(data)), startidx)
  {
    var s' := Next(s, Reserve(data));
    ReserveRefs(s, data);
    assert Contents(s') by {
      assert PushOk(Push(s.idx, data, s.idx, Load), s.container);
    }
    forall k: nat | k < |s'.pushes|
      ensures StartsAt(s'.pushes, k, startidx)
    {
      if k < |s.pushes| {
        assert StartsAt(s.pushes, k, startidx);
      }
    }
  }

  // ----- All steps -----

  lemma InvSafe<T>(s: State<T>, startidx: nat, i: nat)
    requires Inv(s, startidx) && i < |s.pushes|
    ensures Safe(s, i)
  {
    assert PushOk(s.pushes[i], s.container);
    if HoldsRef(s.pushes[i].pc) {
      assert i in Holders(s);
    }
  }

  lemma WriteInv<T>(s: State<T>, startidx: nat, i: nat)
    requires Inv(s, startidx) && Safe(s, i) && (s.pushes[i].pc.Write? || s.pushes[i].pc.WriteAlone?)
    requires s.pushes[i].pos < s.pushes[i].End()
    ensures Inv(Step(s, i), startidx)
  {
    hide And, Xor, Filled;
    WriteContents(s, startidx, i, if s.pushes[i].pc.Write? then Leave else Unflag);
    SameControl(s, Step(s, i), startidx);
  }

  /** Where push `i` goes by a step that writes nothing into the container, and what it makes of the
      word, in terms of the flag and the holders instead of bits. */
  datatype Goal = Goal(pc: Pc, refs: int, lock: Option<nat>)

  ghost function GoalOf<T>(s: State<T>, i: nat): Goal
    requires i < |s.pushes|
  {
    var p, size := s.pushes[i], |s.container|;
    match p.pc
    case Load => Goal(if Flagged(s) then Load else Cas(s.refs), s.refs, s.lock)
    case Cas(cur) => if s.refs == cur then Goal(Size, s.refs + 1, s.lock) else Goal(Load, s.refs, s.lock)
    case Size => Goal(if p.End() <= size then Write else Retreat, s.refs, s.lock)
    case Write => Goal(Leave, s.refs, s.lock)
    case Leave => Goal(Done, s.refs - 1, s.lock)
    case Retreat => Goal(TryLock, s.refs - 1, s.lock)
    case TryLock => if s.lock.None? then Goal(Flag, s.refs, Some(i)) else Goal(Load, s.refs, s.lock)
    case Flag => Goal(WaitRefs, s.refs + MAX_REF, s.lock)
    case WaitRefs => Goal(if Holders(s) == {} then SizeAgain else WaitRefs, s.refs, s.lock)
    case SizeAgain => Goal(if p.End() > size then Resize else WriteAlone, s.refs, s.lock)
    case WriteAlone => Goal(Unflag, s.refs, s.lock)
    case Unflag => Goal(Unlock, s.refs - MAX_REF, s.lock)
    case Unlock => Goal(Done, s.refs, None)
    case Resize | Done => Goal(p.pc, s.refs, s.lock)
  }

  /** The bits do what they are meant to do. */
  lemma GoalIsStep<T>(s: State<T>, i: nat)
    requires Safe(s, i) && Refs(s) && (s.pushes[i].pc.Flag? ==> !Flagged(s)) && (s.pushes[i].pc.Unflag? ==> Flagged(s))
    requires s.pushes[i].pc.Write? || s.pushes[i].pc.WriteAlone? ==> s.pushes[i].pos >= s.pushes[i].End()
    ensures var g := GoalOf(s, i); g.refs >= 0 && Step(s, i) == Moved(s, i, g.pc, g.refs, g.lock)
  {
    hide And, Xor, Flagged, Holders;
    if !HoldsRef(s.pushes[i].pc) && !s.pushes[i].pc.Done? {
      HoldersBound(s, i);
      RefBits(s);
    }
    assert s.pushes[i := s.pushes[i]] == s.pushes;
  }

  lemma GoalCanMove<T>(s: State<T>, i: nat)
    requires Refs(s) && Contents(s) && i < |s.pushes| && GoalOf(s, i).refs >= 0
    requires !s.pushes[i].pc.Resize? && !s.pushes[i].pc.Done?
    requires s.pushes[i].pc.Write? || s.pushes[i].pc.WriteAlone? ==> s.pushes[i].pos >= s.pushes[i].End()
    ensures var g := GoalOf(s, i); CanMove(s, i, g.pc, g.refs, g.lock)
  {
    hide Filled, Holders;
    assert PushOk(s.pushes[i], s.container);
    assert HoldsLock(s.pushes[i].pc) <==> s.lock == Some(i);
    if s.pushes[i].pc.Load? {
      HoldersBound(s, i);
    }
  }

  lemma FlagOwner<T>(s: State<T>, i: nat)
    requires Refs(s) && i < |s.pushes|
    ensures s.pushes[i].pc.Flag? ==> !Flagged(s)
    ensures s.pushes[i].pc.Unflag? ==> Flagged(s)
  {
    assert HoldsLock(s.pushes[i].pc) <==> s.lock == Some(i);
  }

  lemma StepInv<T>(s: State<T>, startidx: nat, i: nat)
    requires Inv(s, startidx) && i < |s.pushes|
    ensures Safe(s, i) && Inv(Step(s, i), startidx)
  {
    hide Step, Ranges, Refs, Contents, GoalOf, CanMove;
    InvSafe(s, startidx, i);
    var p := s.pushes[i];
    if p.pc.Resize? || p.pc.Done? {
      StepOfNone(s, i);
    } else if (p.pc.Write? || p.pc.WriteAlone?) && p.pos < p.End() {
      WriteInv(s, startidx, i);
    } else {
      FlagOwner(s, i);
      GoalIsStep(s, i);
      GoalCanMove(s, i);
      var g := GoalOf(s, i);
      MovedInv(s, startidx, i, g.pc, g.refs, g.lock);
    }
  }

  lemma StepOfNone<T>(s: State<T>, i: nat)
    requires Safe(s, i) && (s.pushes[i].pc.Resize? || s.pushes[i].pc.Done?)
    ensures Step(s, i) == s
  {
  }

  lemma NextInv<T>(s: State<T>, startidx: nat, a: Action<T>)
    requires Inv(s, startidx) && Enabled(s, a) && Admits(s, a, MAX_REF)
    ensures a.Run? ==> Safe(s, a.i)
    ensures Inv(Next(s, a), startidx)
  {
    hide Inv, Step;
    match a
    case Reserve(data) => ReserveInv(s, startidx, data);
    case Run(i) => StepInv(s, startidx, i);
    case Grow(i, extra) => GrowInv(s, startidx, i, extra);
  }
}
