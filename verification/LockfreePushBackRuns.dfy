/** What holds over whole runs of concurrent push_back: it refines an atomic append. */
module LockfreePushBackRuns {
  import opened Wrappers
  import opened Bits
  import opened Sets
  import opened LockfreePushBack
  import opened LockfreePushBackInvariant

  ghost predicate Steps<T>(s: State<T>, a: Action<T>, s': State<T>, bound: nat) {
    Enabled(s, a) && Admits(s, a, bound) && (a.Run? ==> Safe(s, a.i)) && s' == Next(s, a)
  }

  /** A run over a container whose elements from `startidx` on are to be pushed, with at most `bound` pushes
      in flight. */
  ghost predicate IsRun<T>(run: seq<State<T>>, acts: seq<Action<T>>, startidx: nat, bound: nat) {
    && |run| == |acts| + 1
    && run[0] == Initial(run[0].container, startidx)
    && forall k: nat | k < |acts| :: Steps(run[k], acts[k], run[k + 1], bound)
  }

  lemma Extend<T>(run: seq<State<T>>, acts: seq<Action<T>>, startidx: nat, bound: nat, a: Action<T>, s: State<T>)
    returns (run': seq<State<T>>, acts': seq<Action<T>>)
    requires IsRun(run, acts, startidx, bound) && Steps(run[|acts|], a, s, bound)
    ensures IsRun(run', acts', startidx, bound) && run'[|acts'|] == s
    ensures run <= run' && acts' == acts + [a]
  {
    hide Steps;
    run', acts' := run + [s], acts + [a];
    forall k: nat | k < |acts'|
      ensures Steps(run'[k], acts'[k], run'[k + 1], bound)
    {
      if k < |acts| {
        assert Steps(run[k], acts[k], run[k + 1], bound);
      }
    }
  }

  lemma {:induction false} RunInv<T>(run: seq<State<T>>, acts: seq<Action<T>>, startidx: nat, bound: nat, k: nat)
    requires IsRun(run, acts, startidx, bound) && bound <= MAX_REF && k < |run|
    ensures Inv(run[k], startidx)
  {
    if k == 0 {
      assert Holders(run[0]) == {} && InFlight(run[0]) == {};
    } else {
      RunInv(run, acts, startidx, bound, k - 1);
      assert Steps(run[k - 1], acts[k - 1], run[k - 1 + 1], bound);
      NextInv(run[k - 1], startidx, acts[k - 1]);
    }
  }

  /** Every write of every run is in bounds, and dec_ref never goes below zero. */
  lemma NoCrash<T>(run: seq<State<T>>, acts: seq<Action<T>>, startidx: nat, bound: nat, k: nat, i: nat)
    requires IsRun(run, acts, startidx, bound) && bound <= MAX_REF && k < |run| && i < |run[k].pushes|
    ensures Safe(run[k], i)
  {
    RunInv(run, acts, startidx, bound, k);
    InvSafe(run[k], startidx, i);
  }

  /** `reference_count` is 65536 times the flag plus the number of reference holders, the flag belongs
      to the mutex owner, and while a push is past wait_till_no_ref nobody holds a reference. */
  lemma WordIsExact<T>(run: seq<State<T>>, acts: seq<Action<T>>, startidx: nat, bound: nat, k: nat)
    requires IsRun(run, acts, startidx, bound) && bound <= MAX_REF && k < |run|
    ensures run[k].refs == (if Flagged(run[k]) then MAX_REF else 0) + |Holders(run[k])|
    ensures |Holders(run[k])| <= MAX_REF
    ensures forall i: nat | i < |run[k].pushes| && HoldsFlag(run[k].pushes[i].pc) :: run[k].lock == Some(i)
    ensures forall i: nat, j: nat | i < |run[k].pushes| && j < |run[k].pushes| && Alone(run[k].pushes[i].pc) ::
      !HoldsRef(run[k].pushes[j].pc) && (Alone(run[k].pushes[j].pc) ==> i == j)
  {
    RunInv(run, acts, startidx, bound, k);
    var s := run[k];
    SubsetSize(Holders(s), InFlight(s));
    forall i: nat, j: nat | i < |s.pushes| && j < |s.pushes| && Alone(s.pushes[i].pc)
      ensures !HoldsRef(s.pushes[j].pc) && (Alone(s.pushes[j].pc) ==> i == j)
    {
      assert HoldsLock(s.pushes[i].pc) <==> s.lock == Some(i);
      assert HoldsLock(s.pushes[j].pc) <==> s.lock == Some(j);
      assert j !in Holders(s);
    }
  }

  // ----- Who writes where -----

  predicate Owns<T>(s: State<T>, i: nat, c: nat) {
    i < |s.pushes| && s.pushes[i].start <= c < s.pushes[i].End()
  }

  /** No cell belongs to two pushes, and none below `startidx` to any. */
  lemma RangesDisjoint<T>(run: seq<State<T>>, acts: seq<Action<T>>, startidx: nat, bound: nat,
                k: nat, i: nat, j: nat, c: nat)
    requires IsRun(run, acts, startidx, bound) && bound <= MAX_REF && k < |run|
    requires Owns(run[k], i, c) && Owns(run[k], j, c)
    ensures i == j && startidx <= c < run[k].idx
  {
    RunInv(run, acts, startidx, bound, k);
    StartBound(run[k], startidx, i);
    if i < j {
      Disjoint(run[k], startidx, i, j);
    } else if j < i {
      Disjoint(run[k], startidx, j, i);
    }
  }

  lemma StepFrame<T>(s: State<T>, i: nat)
    requires Safe(s, i)
    ensures |Step(s, i).pushes| == |s.pushes| && |Step(s, i).container| == |s.container|
    ensures forall k: nat | k < |s.pushes| :: Step(s, i).pushes[k].data == s.pushes[k].data
    ensures forall c: nat | c < |s.container| && Step(s, i).container[c] != s.container[c] :: Owns(s, i, c)
  {
  }

  /** A step never shrinks the container, and changes at most a cell of its own push's range. */
  lemma WritesOwnRange<T>(s: State<T>, startidx: nat, a: Action<T>, c: nat)
    requires Inv(s, startidx) && Enabled(s, a) && c < |s.container|
    ensures a.Run? ==> Safe(s, a.i)
    ensures c < |Next(s, a).container|
    ensures Next(s, a).container[c] != s.container[c] ==> a.Run? && Owns(s, a.i, c)
  {
    if a.Run? {
      InvSafe(s, startidx, a.i);
      StepFrame(s, a.i);
    }
  }

  /** The size asked for is larger than the old one, so that a resize strictly grows the container.  That
      it makes room for the push and keeps what is in the container is what `Grow` says of a resize. */
  lemma ResizeKeeps<T>(s: State<T>, startidx: nat, i: nat, extra: seq<T>)
    requires Inv(s, startidx) && Enabled(s, Grow(i, extra))
    ensures var c := Next(s, Grow(i, extra)).container;
      |s.container| < |c| && s.pushes[i].End() <= |c| && c[..|s.container|] == s.container
  {
    assert PushOk(s.pushes[i], s.container);
  }

  // ----- Refinement of an atomic append -----

  /** The fetch-and-add appends the whole range to the log; no other step changes the log. */
  lemma Linearises<T>(s: State<T>, startidx: nat, a: Action<T>)
    requires Inv(s, startidx) && Enabled(s, a)
    ensures a.Run? ==> Safe(s, a.i)
    ensures Log(Next(s, a).pushes) == Log(s.pushes) + (if a.Reserve? then a.data else [])
  {
    match a
    case Reserve(data) =>
      assert Next(s, a).pushes[..|s.pushes|] == s.pushes;
    case Run(i) =>
      InvSafe(s, startidx, i);
      StepFrame(s, i);
      SameLog(s.pushes, Step(s, i).pushes);
    case Grow(i, extra) =>
      SameLog(s.pushes, Next(s, a).pushes);
  }

  lemma {:induction false} SameLog<T>(ps: seq<Push<T>>, qs: seq<Push<T>>)
    requires |ps| == |qs| && forall i: nat | i < |ps| :: ps[i].data == qs[i].data
    ensures Log(ps) == Log(qs)
  {
    if ps != [] {
      SameLog(ps[..|ps| - 1], qs[..|qs| - 1]);
    }
  }

  /** In the log the elements of push `i` stand where its reserved range says. */
  lemma {:induction false} LogAt<T>(pushes: seq<Push<T>>, startidx: nat, i: nat)
    requires forall k: nat | k < |pushes| :: StartsAt(pushes, k, startidx)
    requires i < |pushes|
    ensures startidx <= pushes[i].start
    ensures startidx + |Log(pushes)| == pushes[|pushes| - 1].End() && pushes[i].End() <= startidx + |Log(pushes)|
    ensures Log(pushes)[pushes[i].start - startidx..pushes[i].End() - startidx] == pushes[i].data
  {
    var n := |pushes| - 1;
    var front := pushes[..n];
    assert StartsAt(pushes, n, startidx);
    forall k: nat | k < n
      ensures StartsAt(front, k, startidx)
    {
      assert StartsAt(pushes, k, startidx);
    }
    if n == 0 {
      assert front == [];
    } else {
      LogAt(front, startidx, if i < n then i else n - 1);
      assert Log(pushes) == Log(front) + pushes[n].data;
    }
  }

  /** Every cell of the log belongs to a push. */
  lemma {:induction false} Owner<T>(s: State<T>, startidx: nat, c: nat, n: nat) returns (i: nat)
    requires Ranges(s, startidx) && n <= |s.pushes| && startidx <= c
    requires c < if n == 0 then startidx else s.pushes[n - 1].End()
    ensures i < n && Owns(s, i, c)
  {
    assert n > 0 && StartsAt(s.pushes, n - 1, startidx);
    if s.pushes[n - 1].start <= c {
      i := n - 1;
    } else {
      i := Owner(s, startidx, c, n - 1);
    }
  }

  /** A push that has returned has its elements in the container, in every later state too. */
  lemma PushedStays<T>(run: seq<State<T>>, acts: seq<Action<T>>, startidx: nat, bound: nat, k: nat, i: nat)
    requires IsRun(run, acts, startidx, bound) && bound <= MAX_REF && k < |run|
    requires i < |run[k].pushes| && run[k].pushes[i].pc == Done
    ensures var p := run[k].pushes[i];
      p.End() <= |run[k].container| && run[k].container[p.start..p.End()] == p.data
  {
    RunInv(run, acts, startidx, bound, k);
    assert PushOk(run[k].pushes[i], run[k].container);
  }

  /** The cell of a push that is done, in the container and in the log. */
  lemma CellOf<T>(s: State<T>, startidx: nat, i: nat, c: nat)
    requires Ranges(s, startidx) && Owns(s, i, c) && PushOk(s.pushes[i], s.container) && s.pushes[i].pc == Done
    ensures startidx <= c < |s.container| && c - startidx < |Log(s.pushes)|
    ensures s.container[c] == Log(s.pushes)[c - startidx]
  {
    var p := s.pushes[i];
    LogAt(s.pushes, startidx, i);
    var range := Log(s.pushes)[p.start - startidx..p.End() - startidx];
    assert range[c - p.start] == Log(s.pushes)[c - startidx];
  }

  lemma CellAt<T>(s: State<T>, startidx: nat, c: nat)
    requires Inv(s, startidx) && InFlight(s) == {} && startidx <= c < s.idx
    ensures c < |s.container| && c - startidx < |Log(s.pushes)| && s.container[c] == Log(s.pushes)[c - startidx]
  {
    hide Log, PushOk, Refs;
    var i := Owner(s, startidx, c, |s.pushes|);
    assert PushOk(s.pushes[i], s.container);
    assert s.pushes[i].pc == Done by {
      assert i !in InFlight(s);
    }
    CellOf(s, startidx, i, c);
  }

  lemma LogLength<T>(s: State<T>, startidx: nat)
    requires Ranges(s, startidx)
    ensures s.idx == startidx + |Log(s.pushes)|
  {
    if |s.pushes| > 0 {
      LogAt(s.pushes, startidx, 0);
    }
  }

  lemma QuietContainer<T>(s: State<T>, startidx: nat)
    requires Inv(s, startidx) && InFlight(s) == {} && Log(s.pushes) != []
    ensures s.idx == startidx + |Log(s.pushes)| <= |s.container|
    ensures s.container[startidx..s.idx] == Log(s.pushes)
  {
    LogLength(s, startidx);
    hide Inv, Log, InFlight;
    CellAt(s, startidx, s.idx - 1);
    var cells := s.container[startidx..s.idx];
    forall d: nat | d < |cells|
      ensures cells[d] == Log(s.pushes)[d]
    {
      CellAt(s, startidx, startidx + d);
    }
  }

  /** When no push is in flight, the container from `startidx` to `idx` is the concatenation of all
      pushed ranges in reservation order. */
  lemma RefinesAppend<T>(run: seq<State<T>>, acts: seq<Action<T>>, startidx: nat, bound: nat, k: nat)
    requires IsRun(run, acts, startidx, bound) && bound <= MAX_REF && k < |run| && InFlight(run[k]) == {}
    ensures run[k].idx == startidx + |Log(run[k].pushes)|
    ensures var log := Log(run[k].pushes);
      log != [] ==> run[k].idx <= |run[k].container| && run[k].container[startidx..run[k].idx] == log
  {
    hide IsRun, InFlight;
    RunInv(run, acts, startidx, bound, k);
    LogLength(run[k], startidx);
    if Log(run[k].pushes) != [] {
      QuietContainer(run[k], startidx);
    }
  }

  /** What was in the container before `startidx` stays as it was. */
  lemma {:induction false} PrefixStays<T>(run: seq<State<T>>, acts: seq<Action<T>>, startidx: nat, bound: nat,
                k: nat, c: nat)
    requires IsRun(run, acts, startidx, bound) && bound <= MAX_REF && k < |run|
    requires c < startidx && c < |run[0].container|
    ensures c < |run[k].container| && run[k].container[c] == run[0].container[c]
  {
    hide Next, Safe, Enabled, Inv;
    if k > 0 {
      PrefixStays(run, acts, startidx, bound, k - 1, c);
      RunInv(run, acts, startidx, bound, k - 1);
      assert Steps(run[k - 1], acts[k - 1], run[k - 1 + 1], bound);
      WritesOwnRange(run[k - 1], startidx, acts[k - 1], c);
      if acts[k - 1].Run? && Owns(run[k - 1], acts[k - 1].i, c) {
        RangesDisjoint(run, acts, startidx, bound, k - 1, acts[k - 1].i, acts[k - 1].i, c);
      }
    }
  }

  /** The value the call returns: `putpos`, which only the single-element form leaves unadvanced. */
  function Returned<T>(p: Push<T>, single: bool): nat {
    if single then p.start else p.pos
  }

  /** The range form returns the end of its range, not its start; the single-element form returns
      the index of its element. */
  lemma ReturnValue<T>(run: seq<State<T>>, acts: seq<Action<T>>, startidx: nat, bound: nat,
                k: nat, i: nat, single: bool)
    requires IsRun(run, acts, startidx, bound) && bound <= MAX_REF && k < |run|
    requires i < |run[k].pushes| && run[k].pushes[i].pc == Done
    requires single ==> |run[k].pushes[i].data| == 1
    ensures var p := run[k].pushes[i];
      if single then Returned(p, single) < |run[k].container| && [run[k].container[Returned(p, single)]] == p.data
      else Returned(p, single) == p.start + |p.data|
  {
    RunInv(run, acts, startidx, bound, k);
    assert PushOk(run[k].pushes[i], run[k].container);
  }

  // ----- Nobody spins for ever on a flag nobody will clear -----

  /** Push `i` has an access that changes the state, or a resize to make. */
  predicate CanGo<T(==)>(s: State<T>, i: nat)
    requires Safe(s, i)
  {
    s.pushes[i].pc == Resize || Step(s, i) != s
  }

  lemma GoesUnlessWaiting<T>(s: State<T>, startidx: nat, i: nat)
    requires Inv(s, startidx) && i in InFlight(s)
    requires s.pushes[i].pc == Load ==> And(s.refs, MAX_REF) == 0
    requires s.pushes[i].pc == WaitRefs ==> And(s.refs, MAX_REF - 1) == 0
    ensures Safe(s, i) && CanGo(s, i)
  {
    InvSafe(s, startidx, i);
    hide And, Xor, Inv;
    assert s.pushes[i].pc == Resize || Step(s, i).pushes[i] != s.pushes[i];
  }

  /** A push waits exactly at line 22 for the flag to be cleared, and at line 30 for the references to go. */
  lemma WaitsExactly<T>(run: seq<State<T>>, acts: seq<Action<T>>, startidx: nat, bound: nat, k: nat, i: nat)
    requires IsRun(run, acts, startidx, bound) && bound <= MAX_REF && k < |run| && i in InFlight(run[k])
    ensures Safe(run[k], i)
    ensures !CanGo(run[k], i) <==>
      || (run[k].pushes[i].pc == Load && Flagged(run[k]))
      || (run[k].pushes[i].pc == WaitRefs && Holders(run[k]) != {})
  {
    RunInv(run, acts, startidx, bound, k);
    var s := run[k];
    InvSafe(s, startidx, i);
    if s.pushes[i].pc.Load? || s.pushes[i].pc.WaitRefs? {
      HoldersBound(s, i);
      RefBits(s);
    }
    hide And, Xor, Inv;
    assert CanGo(s, i) ==> s.pushes[i].pc == Resize || Step(s, i).pushes[i] != s.pushes[i];
    if !CanGo(s, i) || Step(s, i) == s {
      assert Step(s, i).pushes[i] == s.pushes[i];
    }
  }

  /** While a push is in flight, some push in flight has an access that changes the state, or a resize. */
  lemma Progress<T>(run: seq<State<T>>, acts: seq<Action<T>>, startidx: nat, bound: nat,
                    k: nat, i: nat) returns (j: nat)
    requires IsRun(run, acts, startidx, bound) && bound <= MAX_REF && k < |run| && i in InFlight(run[k])
    ensures j in InFlight(run[k]) && Safe(run[k], j) && CanGo(run[k], j)
  {
    RunInv(run, acts, startidx, bound, k);
    var s := run[k];
    j := i;
    if s.pushes[i].pc.Load? || s.pushes[i].pc.WaitRefs? {
      HoldersBound(s, i);
      RefBits(s);
    }
    if s.pushes[j].pc.Load? && Flagged(s) {
      j := s.lock.value;
    }
    if s.pushes[j].pc.WaitRefs? && Holders(s) != {} {
      j :| j in Holders(s);
    }
    hide And, Xor;
    GoesUnlessWaiting(s, startidx, j);
  }

  // ----- The exact bound on pushes in flight -----

  /** Push `i` is past wait_till_no_ref, and push `j` holds a reference. */
  predicate Intrudes<T>(s: State<T>, i: nat, j: nat) {
    i < |s.pushes| && j < |s.pushes| && Alone(s.pushes[i].pc) && HoldsRef(s.pushes[j].pc)
  }

  ghost predicate NeverIntrudes<T(!new)>(bound: nat) {
    forall run: seq<State<T>>, acts, startidx: nat, k: nat, i: nat, j: nat |
      IsRun(run, acts, startidx, bound) && k < |run| :: !Intrudes(run[k], i, j)
  }

  /** On a container of 65536 cells, `m` pushes of one element have begun. */
  function Begun<T>(t: T, m: nat): State<T> {
    State(seq(MAX_REF, _ => t), m, 0, None, seq(m, k requires 0 <= k < m => Push(k, [t], k, Load)))
  }

  /** The push behind 65536 others, for which there is no room, is at `pc`; of the others the first `m` hold a
      reference and are about to write, and the rest have just begun. */
  function Crowded<T>(t: T, m: nat, pc: Pc, refs: nat, lock: Option<nat>): State<T> {
    State(seq(MAX_REF, _ => t), MAX_REF + 1, refs, lock,
          seq(MAX_REF + 1, k requires 0 <= k <= MAX_REF =>
            Push(k, [t], k, if k < m then Write else if k == MAX_REF then pc else Load)))
  }

  lemma PushBegins<T>(t: T, m: nat, bound: nat)
    requires m < bound
    ensures Steps(Begun(t, m), Reserve([t]), Begun(t, m + 1), bound)
  {
    SubsetSize(InFlight(Begun(t, m)), Below(m));
    assert Next(Begun(t, m), Reserve([t])).pushes == Begun(t, m + 1).pushes;
  }

  lemma {:induction false} ReachBegun<T>(t: T, m: nat, bound: nat)
    returns (run: seq<State<T>>, acts: seq<Action<T>>)
    requires m <= bound
    ensures IsRun(run, acts, 0, bound) && run[|acts|] == Begun(t, m)
  {
    if m == 0 {
      run, acts := [Begun(t, 0)], [];
    } else {
      run, acts := ReachBegun(t, m - 1, bound);
      PushBegins(t, m - 1, bound);
      run, acts := Extend(run, acts, 0, bound, Reserve([t]), Begun(t, m));
    }
  }

  /** A step of the last push. */
  lemma LastSteps<T>(t: T, m: nat, pc: Pc, refs: nat, lock: Option<nat>, bound: nat)
    requires m <= MAX_REF && !pc.Resize? && !pc.Done? && !pc.Write? && !pc.WriteAlone?
    requires pc.Leave? || pc.Retreat? ==> refs > 0
    ensures var s := Crowded(t, m, pc, refs, lock);
      Safe(s, MAX_REF) &&
      var s' := Step(s, MAX_REF);
      s' == Crowded(t, m, s'.pushes[MAX_REF].pc, s'.refs, s'.lock) && Steps(s, Run(MAX_REF), s', bound)
  {
    hide And, Xor;
    var s := Crowded(t, m, pc, refs, lock);
    var s' := Step(s, MAX_REF);
    assert s'.pushes == Crowded(t, m, s'.pushes[MAX_REF].pc, s'.refs, s'.lock).pushes;
  }

  /** The last push finds no room. */
  lemma ReachRetreat<T>(t: T, bound: nat) returns (run: seq<State<T>>, acts: seq<Action<T>>)
    requires bound > MAX_REF
    ensures IsRun(run, acts, 0, bound) && run[|acts|] == Crowded(t, 0, Retreat, 1, None)
  {
    run, acts := ReachBegun(t, MAX_REF + 1, bound);
    assert Begun(t, MAX_REF + 1) == Crowded(t, 0, Load, 0, None);
    LastSteps(t, 0, Load, 0, None, bound);
    LastSteps(t, 0, Cas(0), 0, None, bound);
    LastSteps(t, 0, Size, 1, None, bound);
    hide Steps, IsRun;
    run, acts := Extend(run, acts, 0, bound, Run(MAX_REF), Crowded(t, 0, Cas(0), 0, None));
    run, acts := Extend(run, acts, 0, bound, Run(MAX_REF), Crowded(t, 0, Size, 1, None));
    run, acts := Extend(run, acts, 0, bound, Run(MAX_REF), Crowded(t, 0, Retreat, 1, None));
  }

  /** And takes the mutex. */
  lemma ReachMutex<T>(t: T, bound: nat) returns (run: seq<State<T>>, acts: seq<Action<T>>)
    requires bound > MAX_REF
    ensures IsRun(run, acts, 0, bound) && run[|acts|] == Crowded(t, 0, Flag, 0, Some(MAX_REF))
  {
    run, acts := ReachRetreat(t, bound);
    LastSteps(t, 0, Retreat, 1, None, bound);
    LastSteps(t, 0, TryLock, 0, None, bound);
    hide Steps, IsRun, And, Xor;
    run, acts := Extend(run, acts, 0, bound, Run(MAX_REF), Crowded(t, 0, TryLock, 0, None));
    run, acts := Extend(run, acts, 0, bound, Run(MAX_REF), Crowded(t, 0, Flag, 0, Some(MAX_REF)));
  }

  /** The state in which `m` of the others have a reference and the next one is at `pc`. */
  function Entering<T>(t: T, m: nat, pc: Pc, refs: nat): State<T>
    requires m < MAX_REF
  {
    Goto(Crowded(t, m, Flag, refs, Some(MAX_REF)), m, pc)
  }

  lemma BelowFlag(m: nat)
    requires m < MAX_REF
    ensures And(m, MAX_REF) == 0
  {
    hide And;
    Pow16();
    AndTop(16, false, m);
  }

  lemma OneLoads<T>(t: T, m: nat, bound: nat)
    requires m < MAX_REF
    ensures Steps(Crowded(t, m, Flag, m, Some(MAX_REF)), Run(m), Entering(t, m, Cas(m), m), bound)
  {
    BelowFlag(m);
    hide And, Xor;
    assert Step(Crowded(t, m, Flag, m, Some(MAX_REF)), m).pushes == Entering(t, m, Cas(m), m).pushes;
  }

  lemma OneSwaps<T>(t: T, m: nat, bound: nat)
    requires m < MAX_REF
    ensures Steps(Entering(t, m, Cas(m), m), Run(m), Entering(t, m, Size, m + 1), bound)
  {
    hide And, Xor;
    assert Step(Entering(t, m, Cas(m), m), m).pushes == Entering(t, m, Size, m + 1).pushes;
  }

  lemma OneFits<T>(t: T, m: nat, bound: nat)
    requires m < MAX_REF
    ensures Steps(Entering(t, m, Size, m + 1), Run(m), Crowded(t, m + 1, Flag, m + 1, Some(MAX_REF)), bound)
  {
    hide And, Xor;
    assert Step(Entering(t, m, Size, m + 1), m).pushes == Crowded(t, m + 1, Flag, m + 1, Some(MAX_REF)).pushes;
  }

  /** One after the other, the others take a reference and find room. */
  lemma {:induction false} ReachCrowded<T>(t: T, m: nat, bound: nat)
    returns (run: seq<State<T>>, acts: seq<Action<T>>)
    requires m <= MAX_REF < bound
    ensures IsRun(run, acts, 0, bound) && run[|acts|] == Crowded(t, m, Flag, m, Some(MAX_REF))
  {
    if m == 0 {
      run, acts := ReachMutex(t, bound);
    } else {
      run, acts := ReachCrowded(t, m - 1, bound);
      OneLoads(t, m - 1, bound);
      OneSwaps(t, m - 1, bound);
      OneFits(t, m - 1, bound);
      hide Steps, IsRun, Entering, Crowded;
      run, acts := Extend(run, acts, 0, bound, Run(m - 1), Entering(t, m - 1, Cas(m - 1), m - 1));
      run, acts := Extend(run, acts, 0, bound, Run(m - 1), Entering(t, m - 1, Size, m));
      run, acts := Extend(run, acts, 0, bound, Run(m - 1), Crowded(t, m, Flag, m, Some(MAX_REF)));
    }
  }

  /** 65536 references look like the flag. */
  lemma FullWord()
    ensures Xor(MAX_REF, MAX_REF) == 0 && And(0, MAX_REF - 1) == 0
  {
    Pow16();
    XorTop(16, true, 0);
  }

  lemma LastIntrudes<T>(t: T, bound: nat)
    ensures Steps(Crowded(t, MAX_REF, Flag, MAX_REF, Some(MAX_REF)), Run(MAX_REF),
                  Crowded(t, MAX_REF, WaitRefs, 0, Some(MAX_REF)), bound)
    ensures Steps(Crowded(t, MAX_REF, WaitRefs, 0, Some(MAX_REF)), Run(MAX_REF),
                  Crowded(t, MAX_REF, SizeAgain, 0, Some(MAX_REF)), bound)
  {
    FullWord();
    hide And, Xor, Steps;
    LastSteps(t, MAX_REF, Flag, MAX_REF, Some(MAX_REF), bound);
    LastSteps(t, MAX_REF, WaitRefs, 0, Some(MAX_REF), bound);
  }

  lemma LastResizes<T>(t: T, bound: nat)
    ensures Steps(Crowded(t, MAX_REF, SizeAgain, 0, Some(MAX_REF)), Run(MAX_REF),
                  Crowded(t, MAX_REF, Resize, 0, Some(MAX_REF)), bound)
  {
    hide And, Xor, Steps;
    LastSteps(t, MAX_REF, SizeAgain, 0, Some(MAX_REF), bound);
  }

  /** With more than 65536 pushes in flight one can come to resize while 65536 others write: their references
      set the bit of the flag, flag_ref clears it, and wait_till_no_ref sees none. */
  lemma FlagOverflows<T>(t: T, bound: nat) returns (run: seq<State<T>>, acts: seq<Action<T>>)
    requires bound > MAX_REF
    ensures IsRun(run, acts, 0, bound)
    ensures var s := run[|acts|];
      && |s.pushes| == MAX_REF + 1 && s.pushes[MAX_REF].pc == Resize
      && forall j: nat | j < MAX_REF :: s.pushes[j].pc == Write
  {
    run, acts := ReachCrowded(t, MAX_REF, bound);
    LastIntrudes(t, bound);
    LastResizes(t, bound);
    hide Steps, IsRun, And, Xor;
    run, acts := Extend(run, acts, 0, bound, Run(MAX_REF), Crowded(t, MAX_REF, WaitRefs, 0, Some(MAX_REF)));
    run, acts := Extend(run, acts, 0, bound, Run(MAX_REF), Crowded(t, MAX_REF, SizeAgain, 0, Some(MAX_REF)));
    run, acts := Extend(run, acts, 0, bound, Run(MAX_REF), Crowded(t, MAX_REF, Resize, 0, Some(MAX_REF)));
  }

  /** Whoever is past wait_till_no_ref is alone in all runs if and only if at most 65536 pushes may be in
      flight. */
  lemma NeverIntrudesIff<T(!new)>(t: T, bound: nat)
    ensures NeverIntrudes<T>(bound) <==> bound <= MAX_REF
  {
    if bound <= MAX_REF {
      forall run: seq<State<T>>, acts, startidx: nat, k: nat, i: nat, j: nat |
        IsRun(run, acts, startidx, bound) && k < |run|
        ensures !Intrudes(run[k], i, j)
      {
        WordIsExact(run, acts, startidx, bound, k);
      }
    } else {
      var run, acts := FlagOverflows(t, bound);
      assert Intrudes(run[|acts|], MAX_REF, 0);
    }
  }
}
