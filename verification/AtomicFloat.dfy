/**
 The retry loops of the float class of akl/atomic.hpp and of akl_sync_lock_test_and_set_float in
 sync.c, as a small-step transition system: any number of calls in flight on one 32-bit word.  The bits
 of a float are a number below 2^32; addition is the one of akl/float.h, on the bits.
 */
module AtomicFloat {
  const WORD := 0x1_0000_0000

  /** `last` says that the call returns the old value. */
  datatype Op =
    | Inc(val: nat, last: bool)   // akl/atomic.hpp:259, 311
    | Dec(val: nat, last: bool)   // akl/atomic.hpp:270, 322
    | Exchange(val: nat)          // akl/atomic.hpp:333

  datatype Pc =
    | Load                        // read the value
    | Swap(prev: nat)             // compare-and-swap the value from `prev`
    | Done(result: nat)

  datatype Call = Call(op: Op, pc: Pc)

  /** `log` lists the calls whose compare-and-swap has succeeded, in that order; the code does not have
      it. */
  datatype State = State(value: nat, calls: seq<Call>, log: seq<nat>)

  datatype Action = Begin(op: Op) | Run(i: nat)

  /** The new value that an operation writes over `prev`. */
  function Apply(op: Op, prev: nat): (v: nat)
    ensures op.val < WORD ==> v < WORD
  {
    match op
    case Inc(val, _) => (prev + val) % WORD
    case Dec(val, _) => (prev - val) % WORD
    case Exchange(val) => val
  }

  function Result(op: Op, prev: nat): nat {
    if op.Exchange? || op.last then prev else Apply(op, prev)
  }

  function Initial(value: nat): State {
    State(value, [], [])
  }

  function Goto(s: State, i: nat, pc: Pc): State
    requires i < |s.calls|
  {
    s.(calls := s.calls[i := s.calls[i].(pc := pc)])
  }

  /** A failed compare-and-swap: inc and dec load again, exchange goes on with the value it has found. */
  function Retry(op: Op, found: nat): Pc {
    if op.Exchange? then Swap(found) else Load
  }

  function Step(s: State, i: nat): State
    requires i < |s.calls|
  {
    var c := s.calls[i];
    match c.pc
    case Load => Goto(s, i, Swap(s.value))
    case Swap(prev) =>
      if s.value == prev then
        Goto(s.(value := Apply(c.op, prev), log := s.log + [i]), i, Done(Result(c.op, prev)))
      else Goto(s, i, Retry(c.op, s.value))
    case Done(_) => s
  }

  predicate Enabled(s: State, a: Action) {
    match a
    case Begin(op) => op.val < WORD
    case Run(i) => i < |s.calls|
  }

  function Next(s: State, a: Action): State
    requires Enabled(s, a)
  {
    match a
    case Begin(op) => s.(calls := s.calls + [Call(op, Load)])
    case Run(i) => Step(s, i)
  }

  predicate Steps(s: State, a: Action, s': State) {
    Enabled(s, a) && s' == Next(s, a)
  }

  ghost predicate IsRun(run: seq<State>, acts: seq<Action>, value: nat) {
    && |run| == |acts| + 1 && run[0] == Initial(value) && value < WORD
    && forall k: nat | k < |acts| :: Steps(run[k], acts[k], run[k + 1])
  }

  // ----- The atomic object that the code implements -----

  /** The value after the operations of `log`, one after the other. */
  function Replay(value: nat, calls: seq<Call>, log: seq<nat>): nat
    requires forall k: nat | k < |log| :: log[k] < |calls|
  {
    if log == [] then value
    else
      var n := |log| - 1;
      Apply(calls[log[n]].op, Replay(value, calls, log[..n]))
  }

  /** What a call has returned, when the value was `before` its operation and is `after` it: inc and dec
      return the new value, inc_ret_last, dec_ret_last and exchange the old one. */
  predicate Returned(c: Call, before: nat, after: nat) {
    && c.pc.Done?
    && match c.op
       case Inc(_, last) => c.pc.result == if last then before else after
       case Dec(_, last) => c.pc.result == if last then before else after
       case Exchange(_) => c.pc.result == before
  }

  /** Entry `k` of the log has returned what it would have returned if the operations of the log had been
      performed one after the other. */
  predicate EntryOk(value: nat, calls: seq<Call>, log: seq<nat>, k: nat)
    requires forall j: nat | j < |log| :: log[j] < |calls|
    requires k < |log|
  {
    Returned(calls[log[k]], Replay(value, calls, log[..k]), Replay(value, calls, log[..k + 1]))
  }

  ghost predicate Inv(s: State, value: nat) {
    && (forall k: nat | k < |s.log| :: s.log[k] < |s.calls|)
    && (forall k: nat, l: nat | k < l < |s.log| :: s.log[k] != s.log[l])
    && (forall i: nat | i < |s.calls| :: s.calls[i].pc.Done? <==> i in s.log)
    && (forall i: nat | i < |s.calls| :: s.calls[i].op.val < WORD)
    && (forall k: nat | k < |s.log| :: EntryOk(value, s.calls, s.log, k))
    && s.value == Replay(value, s.calls, s.log) < WORD
  }

  /** Only the operations matter. */
  lemma {:induction false} SameReplay(value: nat, calls: seq<Call>, calls': seq<Call>, log: seq<nat>)
    requires forall k: nat | k < |log| :: log[k] < |calls| && log[k] < |calls'|
    requires forall k: nat | k < |log| :: calls'[log[k]].op == calls[log[k]].op
    ensures Replay(value, calls', log) == Replay(value, calls, log)
  {
    if log != [] {
      SameReplay(value, calls, calls', log[..|log| - 1]);
    }
  }

  /** The state after a step that commits nothing. */
  lemma QuietInv(s: State, s': State, value: nat)
    requires Inv(s, value) && s'.value == s.value && s'.log == s.log && |s.calls| <= |s'.calls|
    requires forall i: nat | i < |s.calls| :: s'.calls[i].op == s.calls[i].op
    requires forall i: nat | i < |s.calls| ::
      s'.calls[i] == s.calls[i] || (!s.calls[i].pc.Done? && !s'.calls[i].pc.Done?)
    requires forall i: nat | |s.calls| <= i < |s'.calls| :: s'.calls[i].pc.Load? && s'.calls[i].op.val < WORD
    ensures Inv(s', value)
  {
    hide Replay, Returned;
    SameReplay(value, s.calls, s'.calls, s.log);
    forall k: nat | k < |s'.log|
      ensures EntryOk(value, s'.calls, s'.log, k)
    {
      assert EntryOk(value, s.calls, s.log, k);
      SameReplay(value, s.calls, s'.calls, s.log[..k]);
      SameReplay(value, s.calls, s'.calls, s.log[..k + 1]);
    }
    forall i: nat | i < |s'.calls|
      ensures s'.calls[i].pc.Done? <==> i in s'.log
    {
    }
  }

  /** The operations of the log as it was keep their meaning when a call is added to it. */
  lemma CommitEntry(s: State, s': State, value: nat, i: nat, k: nat)
    requires Inv(s, value) && i < |s.calls| == |s'.calls| && k < |s.log| && s'.log == s.log + [i]
    requires i !in s.log && s'.calls == s.calls[i := s'.calls[i]] && s'.calls[i].op == s.calls[i].op
    ensures (forall j: nat | j < |s'.log| :: s'.log[j] < |s'.calls|) && EntryOk(value, s'.calls, s'.log, k)
  {
    assert EntryOk(value, s.calls, s.log, k);
    assert s'.log[..k] == s.log[..k] && s'.log[..k + 1] == s.log[..k + 1];
    hide Replay, Returned;
    SameReplay(value, s.calls, s'.calls, s.log[..k]);
    SameReplay(value, s.calls, s'.calls, s.log[..k + 1]);
  }

  lemma CommitLast(s: State, s': State, value: nat, i: nat)
    requires Inv(s, value) && i < |s.calls| == |s'.calls| && s'.log == s.log + [i]
    requires s'.calls == s.calls[i := s'.calls[i]] && s'.calls[i].op == s.calls[i].op
    ensures forall j: nat | j < |s'.log| :: s'.log[j] < |s'.calls|
    ensures Replay(value, s'.calls, s'.log[..|s.log|]) == s.value
    ensures Replay(value, s'.calls, s'.log) == Apply(s.calls[i].op, s.value)
  {
    assert s'.log[..|s.log|] == s.log;
    SameReplay(value, s.calls, s'.calls, s.log);
  }

  lemma CommitInv(s: State, value: nat, i: nat)
    requires Inv(s, value) && i < |s.calls| && s.calls[i].pc == Swap(s.value)
    ensures Inv(Step(s, i), value)
  {
    hide Replay, Apply;
    var s' := Step(s, i);
    CommitLast(s, s', value, i);
    assert s'.log[..|s.log| + 1] == s'.log;
    forall k: nat | k < |s'.log|
      ensures EntryOk(value, s'.calls, s'.log, k)
    {
      if k < |s.log| {
        CommitEntry(s, s', value, i, k);
      }
    }
    forall j: nat | j < |s'.calls|
      ensures s'.calls[j].pc.Done? <==> j in s'.log
    {
      assert j in s.log ==> j in s'.log;
    }
  }

  lemma NextInv(s: State, a: Action, value: nat)
    requires Inv(s, value) && Enabled(s, a)
    ensures Inv(Next(s, a), value)
  {
    if a.Run? && s.calls[a.i].pc == Swap(s.value) {
      CommitInv(s, value, a.i);
    } else {
      hide Inv;
      QuietInv(s, Next(s, a), value);
    }
  }

  lemma {:induction false} RunInv(run: seq<State>, acts: seq<Action>, value: nat, k: nat)
    requires IsRun(run, acts, value) && k < |run|
    ensures Inv(run[k], value)
  {
    if k > 0 {
      RunInv(run, acts, value, k - 1);
      assert Steps(run[k - 1], acts[k - 1], run[k - 1 + 1]);
      NextInv(run[k - 1], acts[k - 1], value);
    }
  }

  // ----- What holds in every run -----

  /** Every call takes effect at its one successful compare-and-swap: the value is what the operations
      of the log make of the initial value one after the other, the calls in the log are exactly those
      that are done, each once, and each has returned what it would have returned in that order. */
  lemma Linearises(run: seq<State>, acts: seq<Action>, value: nat, k: nat)
    requires IsRun(run, acts, value) && k < |run|
    ensures var s := run[k];
      && (forall j: nat | j < |s.log| :: s.log[j] < |s.calls|)
      && s.value == Replay(value, s.calls, s.log)
      && (forall i: nat | i < |s.calls| :: s.calls[i].pc.Done? <==> i in s.log)
      && (forall j: nat, l: nat | j < l < |s.log| :: s.log[j] != s.log[l])
      && (forall j: nat | j < |s.log| :: EntryOk(value, s.calls, s.log, j))
  {
    RunInv(run, acts, value, k);
  }

  /** The log only grows, and calls are added behind those there are. */
  lemma {:induction false} LogGrows(run: seq<State>, acts: seq<Action>, value: nat, k: nat, l: nat)
    requires IsRun(run, acts, value) && k <= l < |run|
    ensures run[k].log <= run[l].log && |run[k].calls| <= |run[l].calls|
  {
    if k < l {
      LogGrows(run, acts, value, k, l - 1);
      assert Steps(run[l - 1], acts[l - 1], run[l - 1 + 1]);
    }
  }

  /** The order of the log respects real time: a call that was done before another one began comes
      before it. */
  lemma RealTimeOrder(run: seq<State>, acts: seq<Action>, value: nat, k: nat, l: nat, a: nat, b: nat)
    requires IsRun(run, acts, value) && k <= l < |run|
    requires a < |run[l].log| && b < |run[l].log|
    requires run[l].log[a] in run[k].log && run[l].log[b] >= |run[k].calls|
    ensures a < b
  {
    RunInv(run, acts, value, k);
    RunInv(run, acts, value, l);
    LogGrows(run, acts, value, k, l);
  }

  /** Increments less decrements of the calls that are done. */
  function Net(calls: seq<Call>): int {
    if calls == [] then 0
    else
      var last := calls[|calls| - 1];
      Net(calls[..|calls| - 1]) + if last.pc.Done? then Delta(last.op) else 0
  }

  function Delta(op: Op): int {
    match op
    case Inc(val, _) => val
    case Dec(val, _) => 0 - val
    case Exchange(_) => 0
  }

  lemma {:induction false} NetUpdate(calls: seq<Call>, i: nat, pc: Pc)
    requires i < |calls| && !calls[i].pc.Done?
    ensures Net(calls[i := calls[i].(pc := pc)]) == Net(calls) + if pc.Done? then Delta(calls[i].op) else 0
  {
    var n := |calls| - 1;
    var calls' := calls[i := calls[i].(pc := pc)];
    if i < n {
      NetUpdate(calls[..n], i, pc);
      assert calls'[..n] == calls[..n][i := calls[i].(pc := pc)];
    } else {
      assert calls'[..n] == calls[..n];
    }
  }

  lemma ApplyDelta(op: Op, prev: nat, base: int)
    requires !op.Exchange? && prev == base % WORD
    ensures Apply(op, prev) == (base + Delta(op)) % WORD
  {
    assert base == WORD * (base / WORD) + prev;
  }

  lemma NetStep(s: State, a: Action, value: nat)
    requires Enabled(s, a) && s.value == (value + Net(s.calls)) % WORD
    requires a.Run? ==> !s.calls[a.i].op.Exchange?
    ensures Next(s, a).value == (value + Net(Next(s, a).calls)) % WORD
  {
    match a
    case Begin(op) =>
      assert Next(s, a).calls[..|s.calls|] == s.calls;
    case Run(i) =>
      var c := s.calls[i];
      if !c.pc.Done? {
        hide Net, Apply, Delta;
        NetUpdate(s.calls, i, Step(s, i).calls[i].pc);
        ApplyDelta(c.op, s.value, value + Net(s.calls));
      }
  }

  /** Without exchanges nothing is lost: the word is the initial value plus all increments less all
      decrements of the calls that are done, modulo 2^32. */
  lemma {:induction false} Conservation(run: seq<State>, acts: seq<Action>, value: nat, k: nat)
    requires IsRun(run, acts, value) && k < |run|
    requires forall i: nat | i < |run[k].calls| :: !run[k].calls[i].op.Exchange?
    ensures run[k].value == (value + Net(run[k].calls)) % WORD
  {
    if k > 0 {
      var s, a := run[k - 1], acts[k - 1];
      assert Steps(s, a, run[k - 1 + 1]);
      assert forall i: nat | i < |s.calls| :: s.calls[i].op == run[k].calls[i].op;
      Conservation(run, acts, value, k - 1);
      NetStep(s, a, value);
    }
  }

  /** Increments less decrements of the entries `e` to `n` - 1 of the log. */
  function NetOf(calls: seq<Call>, log: seq<nat>, e: nat, n: nat): int
    requires e <= n <= |log| && forall j: nat | j < |log| :: log[j] < |calls|
  {
    if n == e then 0 else NetOf(calls, log, e, n - 1) + Delta(calls[log[n - 1]].op)
  }

  /** No exchange stands in the log from position `e` on. */
  predicate NoExchange(calls: seq<Call>, log: seq<nat>, e: nat)
    requires forall j: nat | j < |log| :: log[j] < |calls|
  {
    forall j: nat | e <= j < |log| :: !calls[log[j]].op.Exchange?
  }

  lemma {:induction false} ReplaySince(value: nat, calls: seq<Call>, log: seq<nat>, e: nat, n: nat)
    requires e <= n <= |log| && (forall j: nat | j < |log| :: log[j] < |calls|) && NoExchange(calls, log, e)
    requires Replay(value, calls, log[..e]) < WORD
    ensures Replay(value, calls, log[..n]) == (Replay(value, calls, log[..e]) + NetOf(calls, log, e, n)) % WORD
  {
    if n > e {
      ReplaySince(value, calls, log, e, n - 1);
      assert log[..n][..n - 1] == log[..n - 1] && log[..n][n - 1] == log[n - 1];
      ApplyDelta(calls[log[n - 1]].op, Replay(value, calls, log[..n - 1]),
                 Replay(value, calls, log[..e]) + NetOf(calls, log, e, n - 1));
    }
  }

  /** The value of the exchange at the end of the first `e` entries, or the initial value. */
  function Start(value: nat, calls: seq<Call>, log: seq<nat>, e: nat): nat
    requires e <= |log| && forall j: nat | j < |log| :: log[j] < |calls|
  {
    if e == 0 then value else calls[log[e - 1]].op.val
  }

  /** With exchanges: the word is what the last exchange has stored, plus all increments less all
      decrements that took effect after it, modulo 2^32. */
  lemma ValueSinceExchange(run: seq<State>, acts: seq<Action>, value: nat, k: nat, e: nat)
    requires IsRun(run, acts, value) && k < |run| && e <= |run[k].log|
    requires forall j: nat | j < |run[k].log| :: run[k].log[j] < |run[k].calls|
    requires e > 0 ==> run[k].calls[run[k].log[e - 1]].op.Exchange?
    requires NoExchange(run[k].calls, run[k].log, e)
    ensures var s := run[k];
      s.value == (Start(value, s.calls, s.log, e) + NetOf(s.calls, s.log, e, |s.log|)) % WORD
  {
    RunInv(run, acts, value, k);
    var s := run[k];
    if e > 0 {
      assert s.log[..e][e - 1] == s.log[e - 1];
    }
    assert s.log[..|s.log|] == s.log;
    ReplaySince(value, s.calls, s.log, e, |s.log|);
  }

  /** The operations begun by the first `k` actions, in order. */
  function Begun(acts: seq<Action>, k: nat): seq<Op>
    requires k <= |acts|
  {
    if k == 0 then [] else Begun(acts, k - 1) + if acts[k - 1].Begin? then [acts[k - 1].op] else []
  }

  /** The calls are those begun, and each keeps its operation. */
  lemma {:induction false} CallsAreBegun(run: seq<State>, acts: seq<Action>, value: nat, k: nat)
    requires IsRun(run, acts, value) && k < |run|
    ensures |run[k].calls| == |Begun(acts, k)|
    ensures forall i: nat | i < |run[k].calls| :: run[k].calls[i].op == Begun(acts, k)[i]
  {
    if k > 0 {
      CallsAreBegun(run, acts, value, k - 1);
      assert Steps(run[k - 1], acts[k - 1], run[k - 1 + 1]);
    }
  }

  // ----- Nobody is held up but by a success -----

  /** The state after `n` accesses of call `i` and none of any other. */
  function Alone(s: State, i: nat, n: nat): (s': State)
    requires i < |s.calls|
    ensures |s'.calls| == |s.calls|
  {
    if n == 0 then s else Step(Alone(s, i, n - 1), i)
  }

  /** The old value that call `i` is about to swap is no longer in the word. */
  predicate Stale(s: State, i: nat)
    requires i < |s.calls|
  {
    s.calls[i].pc.Swap? && s.calls[i].pc.prev != s.value
  }

  /** Left alone, a call is done after at most three of its accesses.  It needs all three only for inc and dec
      after a failed swap, as these load again; exchange swaps the value that the failed swap has found. */
  lemma FinishesAlone(s: State, i: nat)
    requires i < |s.calls|
    ensures Alone(s, i, 3).calls[i].pc.Done?
    ensures Alone(s, i, 2).calls[i].pc.Done? <==> !Stale(s, i) || s.calls[i].op.Exchange?
  {
    assert Alone(s, i, 1) == Step(s, i);
    assert Alone(s, i, 2) == Step(Step(s, i), i);
  }

  /** Action `l` makes call `i` ready to swap, with the value that the word has then. */
  ghost predicate ReadAt(run: seq<State>, acts: seq<Action>, l: nat, i: nat, prev: nat) {
    l < |acts| && l < |run| && acts[l] == Run(i) && i < |run[l].calls| && run[l].value == prev
  }

  /** A call that is ready to swap has read its old value by its own last access. */
  lemma {:induction false} WasRead(run: seq<State>, acts: seq<Action>, value: nat, k: nat, i: nat)
    returns (l: nat)
    requires IsRun(run, acts, value) && k < |run| && i < |run[k].calls| && run[k].calls[i].pc.Swap?
    ensures l < k && ReadAt(run, acts, l, i, run[k].calls[i].pc.prev)
    ensures forall m: nat | l < m < k :: acts[m] != Run(i)
  {
    assert k > 0;
    assert Steps(run[k - 1], acts[k - 1], run[k - 1 + 1]);
    if acts[k - 1] == Run(i) {
      l := k - 1;
    } else {
      l := WasRead(run, acts, value, k - 1, i);
    }
  }

  lemma {:induction false} SameLogSameValue(run: seq<State>, acts: seq<Action>, value: nat, k: nat, l: nat)
    requires IsRun(run, acts, value) && l <= k < |run| && |run[l].log| == |run[k].log|
    ensures run[l].value == run[k].value
  {
    if l < k {
      LogGrows(run, acts, value, l, k - 1);
      LogGrows(run, acts, value, k - 1, k);
      SameLogSameValue(run, acts, value, k - 1, l);
      assert Steps(run[k - 1], acts[k - 1], run[k - 1 + 1]);
    }
  }

  /** Lock-freedom: a call is made to try again only if another call has taken effect since it read the
      value. */
  lemma RetryMeansProgress(run: seq<State>, acts: seq<Action>, value: nat, k: nat, i: nat) returns (l: nat)
    requires IsRun(run, acts, value) && k < |acts| && acts[k] == Run(i) && i < |run[k].calls|
    requires run[k].calls[i].pc.Swap? && i < |run[k + 1].calls| && !run[k + 1].calls[i].pc.Done?
    ensures l < k && acts[l] == Run(i) && (forall m: nat | l < m < k :: acts[m] != Run(i))
    ensures |run[l].log| < |run[k].log|
  {
    l := WasRead(run, acts, value, k, i);
    assert Steps(run[k], acts[k], run[k + 1]);
    LogGrows(run, acts, value, l, k);
    if |run[l].log| == |run[k].log| {
      SameLogSameValue(run, acts, value, k, l);
    }
  }

  // ----- The code -----

  class Word {
    var value: nat

    constructor (value: nat)
      ensures this.value == value
    {
      this.value := value;
    }

    /** The value when other threads have stored the first `n` of `others`. */
    static function Seen(first: nat, others: seq<nat>, n: nat): nat
      requires n <= |others|
    {
      if n == 0 then first else others[n - 1]
    }

    method CompareAndSwap(prev: nat, next: nat) returns (found: nat)
      modifies this
      ensures found == old(value) && value == if found == prev then next else found
    {
      found := value;
      if found == prev {
        value := next;
      }
    }

    /** inc, dec, inc_ret_last and dec_ret_last: `others[k]` is what the word holds after the other
        threads' stores between the k-th load and its compare-and-swap; after those they leave it
        alone.  The call takes effect once, on the value that is there when it does. */
    method Update(op: Op, others: seq<nat>) returns (result: nat, n: nat)
      requires !op.Exchange?
      modifies this
      ensures n <= |others|
      ensures op.Inc? ==> value == (Seen(old(value), others, n) + op.val) % WORD
      ensures op.Dec? ==> value == (Seen(old(value), others, n) - op.val) % WORD
      ensures result == if op.last then Seen(old(value), others, n) else value
    {
      n := 0;
      var prev, next := 0, 0;
      var swapped := false;
      while !swapped
        invariant n <= |others|
        invariant !swapped ==> value == Seen(old(value), others, n)
        invariant swapped ==> prev == Seen(old(value), others, n) && value == next == Apply(op, prev)
        decreases |others| - n + if swapped then 0 else 1
      {
        prev := value;
        next := Apply(op, prev);
        if n < |others| {
          value, n := others[n], n + 1;
        }
        var found := CompareAndSwap(prev, next);
        swapped := found == prev;
      }
      result := if op.last then prev else next;
    }

    /** akl_sync_lock_test_and_set_float: after a failure the loop goes on with the value it has found. */
    method SwapIn(val: nat, others: seq<nat>) returns (result: nat, n: nat)
      modifies this
      ensures n <= |others|
      ensures value == val && result == Seen(old(value), others, n)
    {
      n := 0;
      var found, prev := value, 0;
      var swapped := false;
      while !swapped
        invariant n <= |others|
        invariant !swapped ==> value == found == Seen(old(value), others, n)
        invariant swapped ==> prev == Seen(old(value), others, n) && value == val
        decreases |others| - n + if swapped then 0 else 1
      {
        prev := found;
        if n < |others| {
          value, n := others[n], n + 1;
        }
        found := CompareAndSwap(prev, val);
        swapped := found == prev;
      }
      result := prev;
    }
  }
}
