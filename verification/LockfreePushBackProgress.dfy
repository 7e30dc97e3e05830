/** A push that is not disturbed finishes by its own accesses. */
module LockfreePushBackProgress {
  import opened Wrappers
  import opened Bits
  import opened LockfreePushBack
  import opened LockfreePushBackInvariant
  import opened LockfreePushBackRuns

  /** No push but `i` holds a reference or the mutex. */
  predicate Undisturbed<T>(s: State<T>, i: nat) {
    forall j: nat | j < |s.pushes| && j != i :: !HoldsRef(s.pushes[j].pc) && !HoldsLock(s.pushes[j].pc)
  }

  /** How far an undisturbed push is from its return, elements to write apart. */
  function Stage<T>(s: State<T>, i: nat): nat
    requires i < |s.pushes|
  {
    match s.pushes[i].pc
    case Cas(cur) => if cur == s.refs then 12 else 14
    case Load => 13
    case Size => 11
    case Retreat => 10
    case TryLock => 9
    case Flag => 8
    case WaitRefs => 7
    case SizeAgain => 6
    case Resize => 5
    case WriteAlone => 4
    case Unflag => 3
    case Unlock => 1
    case Write => 2
    case Leave => 1
    case Done => 0
  }

  function ToWrite<T>(s: State<T>, i: nat): nat
    requires i < |s.pushes|
  {
    var p := s.pushes[i];
    if p.End() < p.pos then 0 else p.End() - p.pos
  }

  predicate Nearer<T>(s: State<T>, s': State<T>, i: nat)
    requires i < |s.pushes| && i < |s'.pushes|
  {
    || Stage(s', i) < Stage(s, i)
    || (Stage(s', i) == Stage(s, i) && ToWrite(s', i) < ToWrite(s, i))
  }

  /** What the goal of an undisturbed push is. */
  lemma GoalNearer<T>(s: State<T>, i: nat)
    requires Refs(s) && i < |s.pushes| && Undisturbed(s, i)
    requires !s.pushes[i].pc.Resize? && !s.pushes[i].pc.Done?
    ensures var g := GoalOf(s, i); g.refs >= 0 ==> Nearer(s, Moved(s, i, g.pc, g.refs, g.lock), i)
  {
    var pc := s.pushes[i].pc;
    assert HoldsLock(pc) <==> s.lock == Some(i);
    if pc.WaitRefs? {
      assert Holders(s) == {};
    }
  }

  lemma StepNearer<T>(s: State<T>, startidx: nat, i: nat)
    requires Inv(s, startidx) && i < |s.pushes| && Undisturbed(s, i)
    requires !s.pushes[i].pc.Resize? && !s.pushes[i].pc.Done?
    ensures Safe(s, i) && |Step(s, i).pushes| == |s.pushes|
    ensures Undisturbed(Step(s, i), i) && Nearer(s, Step(s, i), i)
  {
    InvSafe(s, startidx, i);
    var p := s.pushes[i];
    if (p.pc.Write? || p.pc.WriteAlone?) && p.pos < p.End() {
      hide Inv;
    } else {
      FlagOwner(s, i);
      GoalIsStep(s, i);
      GoalNearer(s, i);
      hide Step, GoalOf, Inv, Nearer;
    }
  }

  lemma GrowNearer<T>(s: State<T>, i: nat, extra: seq<T>)
    requires Enabled(s, Grow(i, extra)) && Undisturbed(s, i)
    ensures var s' := Next(s, Grow(i, extra));
      |s'.pushes| == |s.pushes| && Undisturbed(s', i) && Nearer(s, s', i)
  {
  }

  /** Actions of push `i` alone. */
  predicate Own<T>(a: Action<T>, i: nat) {
    !a.Reserve? && a.i == i
  }

  /** The second run goes on from the first with actions of push `i`. */
  ghost predicate GoesOn<T>(run: seq<State<T>>, acts: seq<Action<T>>, startidx: nat, bound: nat, i: nat,
                            run': seq<State<T>>, acts': seq<Action<T>>) {
    && IsRun(run', acts', startidx, bound) && run <= run' && acts <= acts'
    && forall k: nat | |acts| <= k < |acts'| :: Own(acts'[k], i)
  }

  /** Obstruction-freedom: from any state of any run in which no other push holds a reference or the mutex, a
      push in flight returns by its own actions alone, whatever it has to fill new cells with. */
  lemma {:induction false} FinishesAlone<T>(run: seq<State<T>>, acts: seq<Action<T>>, startidx: nat, bound: nat,
                                            i: nat, filler: T)
    returns (run': seq<State<T>>, acts': seq<Action<T>>)
    requires IsRun(run, acts, startidx, bound) && bound <= MAX_REF
    requires i < |run[|acts|].pushes| && Undisturbed(run[|acts|], i)
    ensures GoesOn(run, acts, startidx, bound, i, run', acts')
    ensures i < |run'[|acts'|].pushes| && run'[|acts'|].pushes[i].pc == Done
    decreases Stage(run[|acts|], i), ToWrite(run[|acts|], i)
  {
    hide Inv, Step, Stage, ToWrite, Undisturbed, Safe;
    var s := run[|acts|];
    if s.pushes[i].pc == Done {
      run', acts' := run, acts;
    } else {
      RunInv(run, acts, startidx, bound, |acts|);
      var a := Run(i);
      if s.pushes[i].pc == Resize {
        a := Grow(i, seq(s.pushes[i].End(), _ => filler));
        GrowNearer(s, i, a.extra);
      } else {
        StepNearer(s, startidx, i);
      }
      var s' := Next(s, a);
      var mid, midActs := Extend(run, acts, startidx, bound, a, s');
      run', acts' := FinishesAlone(mid, midActs, startidx, bound, i, filler);
      forall k: nat | |acts| <= k < |acts'|
        ensures Own(acts'[k], i)
      {
        assert k == |acts| ==> acts'[k] == midActs[k];
      }
    }
  }

  // ----- The mutex is only for pushes that did not fit -----

  /** On the way to the mutex, or with it. */
  predicate Resizing(pc: Pc) {
    pc.Retreat? || pc.TryLock? || HoldsLock(pc)
  }

  /** Action `l` finds no room for push `i`. */
  ghost predicate FoundFull<T>(run: seq<State<T>>, acts: seq<Action<T>>, l: nat, i: nat) {
    && l < |acts| && l < |run| && acts[l] == Run(i) && i < |run[l].pushes| && run[l].pushes[i].pc == Size
    && |run[l].container| < run[l].pushes[i].End()
  }

  /** A push goes for the mutex only when it has found, with a reference, that its range does not fit; a range
      that fits is written under the reference. */
  lemma {:induction false} OnlyForRoom<T>(run: seq<State<T>>, acts: seq<Action<T>>, startidx: nat, bound: nat,
                                          k: nat, i: nat)
    returns (l: nat)
    requires IsRun(run, acts, startidx, bound) && k < |run| && i < |run[k].pushes| && Resizing(run[k].pushes[i].pc)
    ensures l < k && FoundFull(run, acts, l, i)
  {
    assert k > 0;
    assert Steps(run[k - 1], acts[k - 1], run[k - 1 + 1], bound);
    hide And, Xor;
    if i < |run[k - 1].pushes| && Resizing(run[k - 1].pushes[i].pc) {
      l := OnlyForRoom(run, acts, startidx, bound, k - 1, i);
    } else {
      l := k - 1;
    }
  }
}
