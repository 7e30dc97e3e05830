/** Concurrent push_back as an object whose fields are updated in place, one shared access at a time. */
module LockfreePushBackCode {
  import opened Wrappers
  import opened Bits
  import opened LockfreePushBack
  import opened LockfreePushBackInvariant
  import opened LockfreePushBackRuns

  /** The state that a schedule leads to, when what is not possible is left out. */
  function Play<T>(container: seq<T>, startidx: nat, acts: seq<Action<T>>, bound: nat): State<T> {
    if acts == [] then Initial(container, startidx)
    else
      var n := |acts| - 1;
      var s := Play(container, startidx, acts[..n], bound);
      if Enabled(s, acts[n]) && Admits(s, acts[n], bound) && (acts[n].Run? ==> Safe(s, acts[n].i))
      then Next(s, acts[n]) else s
  }

  class PushBack<T> {
    var container: seq<T>
    var idx: nat
    var referenceCount: nat
    var mut: Option<nat>
    var pushes: seq<Push<T>>

    function Snapshot(): State<T>
      reads this
    {
      State(container, idx, referenceCount, mut, pushes)
    }

    constructor (container: seq<T>, startidx: nat)
      ensures Snapshot() == Initial(container, startidx)
    {
      this.container, idx, referenceCount, mut, pushes := container, startidx, 0, None, [];
    }

    method At(i: nat, pc: Pc)
      requires i < |pushes|
      modifies this`pushes
      ensures pushes == old(pushes)[i := old(pushes)[i].(pc := pc)]
    {
      pushes := pushes[i := pushes[i].(pc := pc)];
    }

    /** Lines 86-88 and 165. */
    method IncIdx(data: seq<T>)
      requires Enabled(Snapshot(), Reserve(data))
      modifies this
      ensures Snapshot() == Next(old(Snapshot()), Reserve(data))
    {
      var putpos := idx;
      idx := idx + |data|;
      pushes := pushes + [Push(putpos, data, putpos, Load)];
    }

    /** inc_ref, one access. */
    method IncRef(i: nat)
      requires Safe(Snapshot(), i) && (pushes[i].pc.Load? || pushes[i].pc.Cas?)
      modifies this
      ensures Snapshot() == Step(old(Snapshot()), i)
    {
      match pushes[i].pc {
        case Load =>
          var curref := referenceCount;
          if And(curref, MAX_REF) == 0 { At(i, Cas(curref)); }
        case Cas(curref) =>
          if referenceCount == curref {
            referenceCount := curref + 1;
            At(i, Size);
          } else {
            At(i, Load);
          }
      }
    }

    /** One turn of the copying loop, or its end. */
    method PutOne(i: nat, next: Pc)
      requires i < |pushes| && InBounds(Snapshot(), i)
      modifies this
      ensures Snapshot() == WriteOne(old(Snapshot()), i, next)
    {
      var p := pushes[i];
      if p.pos < p.End() {
        container := container[p.pos := p.data[p.pos - p.start]];
        pushes := pushes[i := p.(pos := p.pos + 1)];
      } else {
        At(i, next);
      }
    }

    /** Lines 91-100, one access, by a push that holds a reference. */
    method Shared(i: nat)
      requires Safe(Snapshot(), i) && HoldsRef(pushes[i].pc)
      modifies this
      ensures Snapshot() == Step(old(Snapshot()), i)
    {
      match pushes[i].pc {
        case Size => At(i, if pushes[i].End() <= |container| then Write else Retreat);
        case Write => PutOne(i, Leave);
        case Leave =>
          referenceCount := referenceCount - 1;
          At(i, Done);
        case Retreat =>
          referenceCount := referenceCount - 1;
          At(i, TryLock);
      }
    }

    /** Lines 102-118, one access, other than the resize. */
    method Exclusive(i: nat)
      requires Safe(Snapshot(), i) && (pushes[i].pc.TryLock? || HoldsLock(pushes[i].pc)) && !pushes[i].pc.Resize?
      modifies this
      ensures Snapshot() == Step(old(Snapshot()), i)
    {
      match pushes[i].pc {
        case TryLock =>
          if mut.None? {
            mut := Some(i);
            At(i, Flag);
          } else {
            At(i, Load);
          }
        case Flag =>
          referenceCount := Xor(referenceCount, MAX_REF);
          At(i, WaitRefs);
        case WaitRefs => if And(referenceCount, MAX_REF - 1) == 0 { At(i, SizeAgain); }
        case SizeAgain => At(i, if pushes[i].End() > |container| then Resize else WriteAlone);
        case WriteAlone => PutOne(i, Unflag);
        case Unflag =>
          referenceCount := Xor(referenceCount, MAX_REF);
          At(i, Unlock);
        case Unlock =>
          mut := None;
          At(i, Done);
      }
    }

    /** Line 109: the container grows by `extra`. */
    method Enlarge(i: nat, extra: seq<T>)
      requires Enabled(Snapshot(), Grow(i, extra))
      modifies this
      ensures Snapshot() == Next(old(Snapshot()), Grow(i, extra))
    {
      container := container + extra;
      At(i, WriteAlone);
    }

    method Access(a: Action<T>)
      requires Enabled(Snapshot(), a) && (a.Run? ==> Safe(Snapshot(), a.i))
      modifies this
      ensures Snapshot() == Next(old(Snapshot()), a)
    {
      hide And, Xor, InFlight;
      match a {
        case Reserve(data) => IncIdx(data);
        case Grow(i, extra) => Enlarge(i, extra);
        case Run(i) =>
          if HoldsRef(pushes[i].pc) {
            Shared(i);
          } else if pushes[i].pc.Load? || pushes[i].pc.Cas? {
            IncRef(i);
          } else if !pushes[i].pc.Done? {
            Exclusive(i);
          }
      }
    }

    /** Any schedule can be carried out from the initial state, with at most `bound` pushes in flight; no
        access of a push that is there is unsafe, and what is carried out is a run. */
    method Execute(acts: seq<Action<T>>, startidx: nat, bound: nat)
      returns (ghost run: seq<State<T>>, ghost performed: seq<Action<T>>)
      requires Snapshot() == Initial(container, startidx) && bound <= MAX_REF
      modifies this
      ensures Snapshot() == Play(old(container), startidx, acts, bound)
      ensures IsRun(run, performed, startidx, bound) && run[|performed|] == Snapshot()
    {
      hide Inv, Safe, Enabled, Next;
      run, performed := [Snapshot()], [];
      RunInv(run, performed, startidx, bound, 0);
      var k := 0;
      while k < |acts|
        invariant k <= |acts| && IsRun(run, performed, startidx, bound) && run[|performed|] == Snapshot()
        invariant Inv(Snapshot(), startidx) && Snapshot() == Play(old(container), startidx, acts[..k], bound)
      {
        assert acts[..k + 1][..k] == acts[..k];
        if Enabled(Snapshot(), acts[k]) && Admits(Snapshot(), acts[k], bound) {
          NextInv(Snapshot(), startidx, acts[k]);
          run, performed := Extend(run, performed, startidx, bound, acts[k], Next(Snapshot(), acts[k]));
          Access(acts[k]);
        }
        k := k + 1;
      }
      assert acts[..k] == acts;
    }
  }
}
