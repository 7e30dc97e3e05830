/** The ticket lock as an object whose word is updated in place, one shared access at a time. */
module SpinRwLockCode {
  import opened SpinRwLock
  import opened SpinRwLockRuns

  /** The state that a schedule leads to, when what is not possible is left out. */
  function Play(acts: seq<Action>, bound: nat): State {
    if acts == [] then INITIAL
    else
      var n := |acts| - 1;
      var s := Play(acts[..n], bound);
      if Enabled(s, acts[n], bound) then Next(s, acts[n], bound) else s
  }

  class TicketWord {
    var l: Word
    var reqs: seq<Pc>
    ghost var c: Counters

    ghost function Snapshot(): State
      reads this
    {
      State(l, reqs, c)
    }

    constructor ()
      ensures Snapshot() == INITIAL
    {
      l, reqs, c := Word(0, 0, 0), [], Counters(0, 0, 0);
    }

    /** Lines 45-46 and 64-65. */
    method TakeTicket(write: bool)
      modifies this
      ensures Snapshot() == IssueStep(old(Snapshot()), write)
    {
      var me := l.high;
      l := l.(high := (me + 1) % HALF);
      var val := me % BYTE;
      reqs := reqs + [if write then WWait(val) else RWait(val)];
      c := c.(issued := c.issued + 1);
    }

    /** Lines 48 and 53-58, one access. */
    method Write(i: nat)
      requires i < |reqs| && (reqs[i].WWait? || reqs[i].WHeld? || reqs[i].WLoad? || reqs[i].WStore? || reqs[i].WDone?)
      modifies this
      ensures Snapshot() == Step(old(Snapshot()), i)
    {
      match reqs[i] {
        case WWait(val) => if val == l.write { reqs := reqs[i := WHeld]; }
        case WHeld => reqs := reqs[i := WLoad];
        case WLoad => reqs := reqs[i := WStore(l.write, l.read)];
        case WStore(w, r) =>
          l := l.(write := Inc(w), read := Inc(r));
          c := c.(passed := c.passed + 1, completed := c.completed + 1);
          reqs := reqs[i := WDone];
        case WDone =>
      }
    }

    /** Lines 67-68 and 72, one access. */
    method Read(i: nat)
      requires i < |reqs| && (reqs[i].RWait? || reqs[i].RLoad? || reqs[i].RStore? || reqs[i].RHeld? || reqs[i].RDone?)
      modifies this
      ensures Snapshot() == Step(old(Snapshot()), i)
    {
      match reqs[i] {
        case RWait(val) => if val == l.read { reqs := reqs[i := RLoad]; }
        case RLoad => reqs := reqs[i := RStore(l.read)];
        case RStore(r) =>
          l := l.(read := Inc(r));
          c := c.(passed := c.passed + 1);
          reqs := reqs[i := RHeld];
        case RHeld =>
          l := l.(write := Inc(l.write));
          c := c.(completed := c.completed + 1);
          reqs := reqs[i := RDone];
        case RDone =>
      }
    }

    /** Any schedule can be carried out from the initial state and is a run, as long as it keeps to the
        bound on outstanding requests, which `outstanding` counts. */
    method Execute(acts: seq<Action>, bound: nat) returns (ghost run: seq<State>, ghost performed: seq<Action>)
      requires Snapshot() == INITIAL
      modifies this
      ensures Snapshot() == Play(acts, bound)
      ensures IsRun(run, performed, bound) && run[|performed|] == Snapshot()
    {
      hide Step;
      run, performed := [INITIAL], [];
      var k, outstanding: int := 0, 0;
      while k < |acts|
        invariant 0 <= k <= |acts| && IsRun(run, performed, bound) && run[|performed|] == Snapshot()
        invariant Snapshot() == Play(acts[..k], bound)
        invariant outstanding == c.issued - c.completed
      {
        var a := acts[k];
        assert acts[..k + 1][..k] == acts[..k];
        if a.Issue? {
          if outstanding < bound {
            run, performed := Extend(run, performed, bound, a, Next(Snapshot(), a, bound));
            TakeTicket(a.write);
            outstanding := outstanding + 1;
          }
        } else if a.i < |reqs| {
          run, performed := Extend(run, performed, bound, a, Next(Snapshot(), a, bound));
          StepCounters(Snapshot(), a.i);
          if reqs[a.i].WStore? || reqs[a.i].RHeld? {
            outstanding := outstanding - 1;
          }
          if reqs[a.i].WWait? || reqs[a.i].WHeld? || reqs[a.i].WLoad? || reqs[a.i].WStore? || reqs[a.i].WDone? {
            Write(a.i);
          } else {
            Read(a.i);
          }
        }
        k := k + 1;
      }
      assert acts[..k] == acts;
    }
  }

  lemma StepCounters(s: State, i: nat)
    requires i < |s.reqs|
    ensures Step(s, i).c.issued == s.c.issued
    ensures Step(s, i).c.completed == s.c.completed + if s.reqs[i].WStore? || s.reqs[i].RHeld? then 1 else 0
  {
  }
}
