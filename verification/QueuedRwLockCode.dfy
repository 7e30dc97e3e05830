/**
 The queue-based lock as an object whose fields are updated in place, one shared access at a time.  The
 methods are the accesses of the four operations; each is proved to do what `Step` says.
 */
module QueuedRwLockCode {
  import opened Wrappers
  import opened QueuedRwLock
  import opened QueuedRwLockInvariant
  import opened QueuedRwLockSteps
  import opened QueuedRwLockRuns

  /** A reader that has been let in and is still in readlock, or has just left it. */
  predicate Admitted(pc: Pc) {
    pc.RSucc? || LettingReaderIn(pc) || pc.RHeld?
  }

  /** A reader that has yet to be let in. */
  predicate NotYetIn(pc: Pc) {
    || pc.RCount? || pc.RSelf? || pc.RClass? || pc.RTry? || pc.RLink? || pc.RSpin?
    || pc.RJoinCount? || pc.RJoinLink? || pc.RJoinSelf?
  }

  predicate Leaving(pc: Pc) {
    !WriterPc(pc) && !NotYetIn(pc) && !Admitted(pc)
  }

  /** The state that a schedule leads to, when a step of a request that is not there is left out. */
  function Play(acts: seq<Action>): State {
    if acts == [] then INITIAL
    else
      var n := |acts| - 1;
      var s := Play(acts[..n]);
      if (acts[n].Run? ==> acts[n].i < |s.reqs|) && Enabled(s, acts[n]) then Next(s, acts[n]) else s
  }

  class Lock {
    var tail: Option<nat>
    var readerCount: nat
    var nextWriter: Option<nat>
    var reqs: seq<Request>

    function Snapshot(): State
      reads this
    {
      State(tail, readerCount, nextWriter, reqs)
    }

    constructor ()
      ensures Snapshot() == INITIAL
    {
      tail, readerCount, nextWriter, reqs := None, 0, None, [];
    }

    /** Lines 38-44 and 80-86. */
    method Swap(cls: Class)
      modifies this
      ensures Snapshot() == ArriveStep(old(Snapshot()), cls)
    {
      var predecessor := tail;
      tail := Some(|reqs|);
      reqs := reqs + [Arrival(cls, predecessor)];
    }

    method At(i: nat, pc: Pc)
      requires i < |reqs|
      modifies this`reqs
      ensures reqs == old(reqs)[i := old(reqs)[i].(pc := pc)]
    {
      reqs := reqs[i := reqs[i].(pc := pc)];
    }

    /** Lines 47-62, one access. */
    method Writelock(i: nat)
      requires Safe(Snapshot(), i) && InWritelock(reqs[i].pc)
      modifies this
      ensures Snapshot() == Step(old(Snapshot()), i)
    {
      var r := reqs[i];
      match r.pc {
        case WPost =>
          nextWriter := Some(i);
          At(i, WCount);
        case WCount => At(i, if readerCount == 0 then WTake else WSpin);
        case WTake =>
          var w := nextWriter;
          nextWriter := None;
          At(i, if w == Some(i) then WSelf else WSpin);
        case WSelf =>
          reqs := reqs[i := r.(blocked := false)];
          At(i, WSpin);
        case WMark =>
          var p := r.pred.value;
          reqs := reqs[p := reqs[p].(succ := Some(Write))];
          At(i, WLink);
        case WLink =>
          var p := r.pred.value;
          reqs := reqs[p := reqs[p].(next := Some(i))];
          At(i, WSpin);
        case WSpin => if !r.blocked { At(i, WAssert); }
        case WAssert => At(i, WHeld);
        case WHeld => At(i, WNext);
      }
    }

    /** Lines 67-75, one access. */
    method Wrunlock(i: nat)
      requires Safe(Snapshot(), i) && WriterPc(reqs[i].pc) && !InWritelock(reqs[i].pc)
      modifies this
      ensures Snapshot() == Step(old(Snapshot()), i)
    {
      var r := reqs[i];
      match r.pc {
        case WNext => At(i, if r.next.Some? then WAwait else WDetach);
        case WDetach =>
          if tail == Some(i) {
            tail := None;
            At(i, WDone);
          } else {
            At(i, WAwait);
          }
        case WAwait => if r.next.Some? { At(i, WClass); }
        case WClass => At(i, if reqs[r.next.value].cls == Read then WCountNext else WPass);
        case WCountNext =>
          readerCount := readerCount + 1;
          At(i, WPass);
        case WPass =>
          var n := r.next.value;
          reqs := reqs[n := reqs[n].(blocked := false)];
          At(i, WDone);
        case WDone =>
      }
    }

    /** Lines 87-111, one access. */
    method Readlock(i: nat)
      requires Safe(Snapshot(), i) && NotYetIn(reqs[i].pc)
      modifies this
      ensures Snapshot() == Step(old(Snapshot()), i)
    {
      var r := reqs[i];
      match r.pc {
        case RCount =>
          readerCount := readerCount + 1;
          At(i, RSelf);
        case RSelf =>
          reqs := reqs[i := r.(blocked := false)];
          At(i, RSucc);
        case RClass => At(i, if reqs[r.pred.value].cls == Write then RLink else RTry);
        case RTry =>
          var p := r.pred.value;
          if reqs[p].blocked && reqs[p].succ == None {
            reqs := reqs[p := reqs[p].(succ := Some(Read))];
            At(i, RLink);
          } else {
            At(i, RJoinCount);
          }
        case RLink =>
          var p := r.pred.value;
          reqs := reqs[p := reqs[p].(next := Some(i))];
          At(i, RSpin);
        case RSpin => if !r.blocked { At(i, RSucc); }
        case RJoinCount =>
          readerCount := readerCount + 1;
          At(i, RJoinLink);
        case RJoinLink =>
          var p := r.pred.value;
          reqs := reqs[p := reqs[p].(next := Some(i))];
          At(i, RJoinSelf);
        case RJoinSelf =>
          reqs := reqs[i := r.(blocked := false)];
          At(i, RSucc);
      }
    }

    /** Lines 114-119, one access. */
    method LetReaderIn(i: nat)
      requires Safe(Snapshot(), i) && Admitted(reqs[i].pc)
      modifies this
      ensures Snapshot() == Step(old(Snapshot()), i)
    {
      var r := reqs[i];
      match r.pc {
        case RSucc => At(i, if r.succ == Some(Read) then RAwaitReader else RHeld);
        case RAwaitReader => if r.next.Some? { At(i, RCountNext); }
        case RCountNext =>
          readerCount := readerCount + 1;
          At(i, RPass);
        case RPass =>
          var n := r.next.value;
          reqs := reqs[n := reqs[n].(blocked := false)];
          At(i, RHeld);
        case RHeld => At(i, RNext);
      }
    }

    /** Lines 124-138, one access. */
    method Rdunlock(i: nat)
      requires Safe(Snapshot(), i) && Leaving(reqs[i].pc)
      modifies this
      ensures Snapshot() == Step(old(Snapshot()), i)
    {
      var r := reqs[i];
      match r.pc {
        case RNext => At(i, if r.next.Some? then RAwait else RDetach);
        case RDetach =>
          if tail == Some(i) {
            tail := None;
            At(i, RDec);
          } else {
            At(i, RAwait);
          }
        case RAwait => if r.next.Some? { At(i, RSuccWriter); }
        case RSuccWriter => At(i, if r.succ == Some(Write) then RPost else RDec);
        case RPost =>
          nextWriter := r.next;
          At(i, RDec);
        case RDec =>
          readerCount := readerCount - 1;
          At(i, if readerCount == 0 then RTake else RDone);
        case RTake =>
          var w := nextWriter;
          nextWriter := None;
          At(i, if w.Some? then RWake(w.value) else RDone);
        case RWake(w) =>
          reqs := reqs[w := reqs[w].(blocked := false)];
          At(i, RDone);
        case RDone =>
      }
    }

    method Access(i: nat)
      requires Safe(Snapshot(), i)
      modifies this
      ensures Snapshot() == Step(old(Snapshot()), i)
    {
      hide Step;
      if InWritelock(reqs[i].pc) {
        Writelock(i);
      } else if WriterPc(reqs[i].pc) {
        Wrunlock(i);
      } else if Admitted(reqs[i].pc) {
        LetReaderIn(i);
      } else if NotYetIn(reqs[i].pc) {
        Readlock(i);
      } else {
        Rdunlock(i);
      }
    }

    /** Any schedule of arrivals and accesses can be carried out from the initial state; no access of a
        request that is there is unsafe, and what is carried out is a run. */
    method Execute(acts: seq<Action>) returns (ghost run: seq<State>, ghost performed: seq<Action>)
      requires Snapshot() == INITIAL
      modifies this
      ensures Snapshot() == Play(acts)
      ensures IsRun(run, performed) && run[|performed|] == Snapshot()
    {
      hide Inv, Step, Safe;
      run, performed := [INITIAL], [];
      InitialInv();
      var k := 0;
      while k < |acts|
        invariant k <= |acts| && IsRun(run, performed) && run[|performed|] == Snapshot() && Inv(Snapshot())
        invariant Snapshot() == Play(acts[..k])
      {
        var a := acts[k];
        assert acts[..k + 1][..k] == acts[..k];
        if a.Arrive? || a.i < |reqs| {
          NextInv(Snapshot(), a);
          ghost var s := Next(Snapshot(), a);
          match a {
            case Arrive(cls) => Swap(cls);
            case Run(i) => Access(i);
          }
          run, performed := Extend(run, performed, a, s);
        }
        k := k + 1;
      }
      assert acts[..k] == acts;
    }
  }
}
