/** The packed-word lock as an object whose word is updated in place, one shared access at a time. */
module SpinRwLock2Code {
  import opened Wrappers
  import opened Bits
  import opened SpinRwLock2
  import opened SpinRwLock2Runs

  /** The state that a schedule leads to with `n` threads, when what is not possible is left out. */
  function Play(acts: seq<Action>, n: nat): State {
    if acts == [] then Initial(n)
    else
      var s := Play(acts[..|acts| - 1], n);
      if Enabled(s, acts[|acts| - 1]) then Next(s, acts[|acts| - 1]) else s
  }

  class PackedWord {
    var l: nat
    var threads: seq<Pc>
    ghost var setter: Option<nat>

    ghost function Snapshot(): State
      reads this
    {
      State(l, threads, setter)
    }

    constructor (n: nat)
      ensures Snapshot() == Initial(n)
    {
      l, threads, setter := 0, seq(n, _ => Idle), None;
    }

    method Begin(i: nat, write: bool)
      requires Enabled(Snapshot(), Call(i, write))
      modifies this
      ensures Snapshot() == Next(old(Snapshot()), Call(i, write))
    {
      threads := threads[i := if write then WRead else RSpin];
    }

    /** Lines 26-43 and 48, one access. */
    method Write(i: nat)
      requires i < |threads| && (InWritelock(threads[i]) || threads[i].WHeld?)
      modifies this
      ensures Snapshot() == Step(old(Snapshot()), i)
    {
      match threads[i] {
        case WRead =>
          var state := l;
          threads := threads[i := if state < RW_WRITE then WSwap(state) else TestWait(state)];
        case WSwap(state) =>
          if l == state {
            l, setter := RW_WRITE, None;
            threads := threads[i := WHeld];
          } else {
            threads := threads[i := WReread];
          }
        case WReread =>
          var state := l;
          threads := threads[i := TestWait(state)];
        case WSet =>
          setter := if And(l, RW_WAIT) == 0 then Some(i) else setter;
          l := Or(l, RW_WAIT);
          threads := threads[i := WSpin];
        case WSpin => if l <= RW_WAIT { threads := threads[i := WRead]; }
        case WHeld =>
          l := Add(l, -RW_WRITE);
          threads := threads[i := Idle];
      }
    }

    /** Lines 54-61 and 66, one access. */
    method Read(i: nat)
      requires i < |threads| && !InWritelock(threads[i]) && !threads[i].WHeld?
      modifies this
      ensures Snapshot() == Step(old(Snapshot()), i)
    {
      match threads[i] {
        case Idle =>
        case RSpin => if And(l, RW_WAIT + RW_WRITE) == 0 { threads := threads[i := RAdd]; }
        case RAdd =>
          var was := l;
          l := Add(l, RW_READ);
          threads := threads[i := if And(was, RW_WAIT + RW_WRITE) == 0 then RHeld else RUndo];
        case RUndo =>
          l := Add(l, -RW_READ);
          threads := threads[i := RSpin];
        case RHeld =>
          l := Add(l, -RW_READ);
          threads := threads[i := Idle];
      }
    }

    /** Any schedule can be carried out from the initial state and is a run. */
    method Execute(acts: seq<Action>) returns (ghost run: seq<State>, ghost performed: seq<Action>)
      requires Snapshot() == Initial(|threads|)
      modifies this
      ensures |threads| == old(|threads|) && Snapshot() == Play(acts, |threads|)
      ensures IsRun(run, performed, |threads|) && run[|performed|] == Snapshot()
    {
      hide Step;
      run, performed := [Initial(|threads|)], [];
      var k, n := 0, |threads|;
      while k < |acts|
        invariant 0 <= k <= |acts| && |threads| == n
        invariant Snapshot() == Play(acts[..k], n)
        invariant IsRun(run, performed, n) && run[|performed|] == Snapshot()
      {
        var a := acts[k];
        assert acts[..k + 1][..k] == acts[..k];
        if a.i < |threads| && (a.Call? ==> threads[a.i].Idle?) {
          run, performed := Extend(run, performed, n, a, Next(Snapshot(), a));
          if a.Call? {
            Begin(a.i, a.write);
          } else if InWritelock(threads[a.i]) || threads[a.i].WHeld? {
            Write(a.i);
          } else {
            Read(a.i);
          }
          SameThreads(run, performed, n, |performed|);
        }
        k := k + 1;
      }
      assert acts[..k] == acts;
    }
  }
}
