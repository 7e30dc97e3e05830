/**
 The 8-bit ticket lock refines the lock with unbounded tickets as long as at most 256 requests are
 outstanding, and not beyond.
 */
module SpinRwLockRuns {
  import opened Sets
  import opened SpinRwLock

  // ----- The lock with unbounded tickets -----

  datatype Phase = Waiting(write: bool) | Writing | Reading | Finished

  datatype TicketLock = TicketLock(c: Counters, phases: seq<Phase>)

  /** Ticket `i` is due when it is the next one to be let in, for a writer with nobody left inside. */
  predicate Due(t: TicketLock, i: nat)
    requires i < |t.phases|
  {
    match t.phases[i]
    case Waiting(write) => if write then i == t.c.completed else i == t.c.passed
    case _ => true
  }

  /** The next transition of ticket `i`, which must be due. */
  function Advance(t: TicketLock, i: nat): TicketLock
    requires i < |t.phases|
  {
    var c := t.c;
    match t.phases[i]
    case Waiting(true) => t.(phases := t.phases[i := Writing])
    case Waiting(false) => TicketLock(c.(passed := c.passed + 1), t.phases[i := Reading])
    case Writing => TicketLock(c.(passed := c.passed + 1, completed := c.completed + 1), t.phases[i := Finished])
    case Reading => TicketLock(c.(completed := c.completed + 1), t.phases[i := Finished])
    case Finished => t
  }

  function PhaseOf(pc: Pc): Phase {
    match pc
    case WWait(_) => Waiting(true)
    case WHeld | WLoad | WStore(_, _) => Writing
    case RWait(_) | RLoad | RStore(_) => Waiting(false)
    case RHeld => Reading
    case WDone | RDone => Finished
  }

  function Abstract(s: State): TicketLock {
    TicketLock(s.c, seq(|s.reqs|, i requires 0 <= i < |s.reqs| => PhaseOf(s.reqs[i])))
  }

  // ----- The invariant -----

  predicate Passed(pc: Pc) {
    pc.RHeld? || pc.RDone? || pc.WDone?
  }

  predicate Completed(pc: Pc) {
    pc.RDone? || pc.WDone?
  }

  function CompletedSet(s: State): set<nat> {
    set i: nat | i < |s.reqs| && Completed(s.reqs[i])
  }

  /** The bytes are the counters modulo 256, and the upper half is the issue counter modulo 65536. */
  predicate Represents(l: Word, c: Counters) {
    l.write == c.completed % BYTE && l.read == c.passed % BYTE && l.high == c.issued % HALF
  }

  /** Request `i` is where the counters allow it to be, and what it has loaded is still current. */
  predicate RequestOk(pc: Pc, i: nat, l: Word, c: Counters) {
    && (Passed(pc) <==> i < c.passed)
    && match pc
       case WWait(val) => val == i % BYTE
       case RWait(val) => val == i % BYTE
       case WHeld => i == c.passed == c.completed
       case WLoad => i == c.passed == c.completed
       case WStore(w, r) => i == c.passed == c.completed && w == l.write && r == l.read
       case RLoad => i == c.passed
       case RStore(r) => i == c.passed && r == l.read
       case _ => true
  }

  ghost predicate Requests(s: State) {
    forall i: nat | i < |s.reqs| :: RequestOk(s.reqs[i], i, s.l, s.c)
  }

  ghost predicate Inv(s: State) {
    && Represents(s.l, s.c) && Requests(s)
    && s.c.issued == |s.reqs| && s.c.completed == |CompletedSet(s)|
    && s.c.completed <= s.c.passed <= s.c.issued <= s.c.completed + BYTE
  }

  /** The comparisons of bytes hold exactly when the unbounded ticket is due. */
  lemma GuardsExact(s: State, i: nat)
    requires Inv(s) && i < |s.reqs|
    ensures s.reqs[i].RWait? ==> (s.reqs[i].val == s.l.read <==> i == s.c.passed)
    ensures s.reqs[i].WWait? ==> (s.reqs[i].val == s.l.write <==> i == s.c.completed == s.c.passed)
  {
    assert RequestOk(s.reqs[i], i, s.l, s.c);
    if s.reqs[i].RWait? {
      ByteEqual(s.c.passed, i);
    } else if s.reqs[i].WWait? {
      ByteEqual(s.c.completed, i);
    }
  }

  /** A reader inside has been passed and not completed. */
  lemma ReaderInside(s: State, i: nat)
    requires Inv(s) && i < |s.reqs| && s.reqs[i].RHeld?
    ensures s.c.completed < s.c.passed
  {
    forall k: nat | k in CompletedSet(s) + {i}
      ensures k in Below(s.c.passed)
    {
      assert RequestOk(s.reqs[k], k, s.l, s.c);
    }
    SubsetSize(CompletedSet(s) + {i}, Below(s.c.passed));
  }

  /** And a request passed and not completed is a reader inside. */
  lemma SomeReaderInside(s: State) returns (i: nat)
    requires Inv(s) && s.c.completed < s.c.passed
    ensures i < |s.reqs| && s.reqs[i].RHeld?
  {
    if Below(s.c.passed) <= CompletedSet(s) {
      SubsetSize(Below(s.c.passed), CompletedSet(s));
    }
    i :| i in Below(s.c.passed) && i !in CompletedSet(s);
    assert RequestOk(s.reqs[i], i, s.l, s.c);
  }

  // ----- Every step keeps it -----

  /** The counters after request `i` has moved from `pc` to `pc'`. */
  lemma CompletedAfter(s: State, s': State, i: nat)
    requires i < |s.reqs| == |s'.reqs| && s'.reqs == s.reqs[i := s'.reqs[i]] && !Completed(s.reqs[i])
    ensures |CompletedSet(s')| == |CompletedSet(s)| + if Completed(s'.reqs[i]) then 1 else 0
  {
    if Completed(s'.reqs[i]) {
      assert CompletedSet(s') == CompletedSet(s) + {i};
    } else {
      assert CompletedSet(s') == CompletedSet(s);
    }
  }

  /** No other request minds: only the request due next may touch the bytes it touches. */
  lemma OthersKeep(s: State, s': State, i: nat, k: nat)
    requires Inv(s) && i < |s.reqs| && k < |s.reqs| && k != i && s' == Step(s, i)
    ensures RequestOk(s.reqs[k], k, s'.l, s'.c)
  {
    hide Represents, CompletedSet, Inc;
    assert RequestOk(s.reqs[k], k, s.l, s.c) && RequestOk(s.reqs[i], i, s.l, s.c);
    if s.reqs[i].RHeld? {
      ReaderInside(s, i);
    }
  }

  lemma SelfKeeps(s: State, s': State, i: nat)
    requires Inv(s) && i < |s.reqs| && s' == Step(s, i)
    ensures |s'.reqs| == |s.reqs| && RequestOk(s'.reqs[i], i, s'.l, s'.c)
  {
    hide Represents, CompletedSet, Inc;
    assert RequestOk(s.reqs[i], i, s.l, s.c);
    GuardsExact(s, i);
  }

  lemma BytesKeep(s: State, s': State, i: nat)
    requires Inv(s) && i < |s.reqs| && s' == Step(s, i)
    ensures Represents(s'.l, s'.c)
  {
    hide CompletedSet, Inc;
    assert RequestOk(s.reqs[i], i, s.l, s.c);
    ByteNext(s.c.completed);
    ByteNext(s.c.passed);
  }

  lemma StepInv(s: State, i: nat)
    requires Inv(s) && i < |s.reqs|
    ensures Inv(Step(s, i))
  {
    var s' := Step(s, i);
    SelfKeeps(s, s', i);
    BytesKeep(s, s', i);
    forall k: nat | k < |s'.reqs|
      ensures RequestOk(s'.reqs[k], k, s'.l, s'.c)
    {
      if k != i { OthersKeep(s, s', i, k); }
    }
    assert RequestOk(s.reqs[i], i, s.l, s.c);
    hide RequestOk, CompletedSet, Represents;
    if !Completed(s.reqs[i]) {
      CompletedAfter(s, s', i);
      if s.reqs[i].RHeld? { ReaderInside(s, i); }
    }
  }

  lemma IssueInv(s: State, write: bool)
    requires Inv(s) && s.c.issued < s.c.completed + BYTE
    ensures Inv(IssueStep(s, write))
  {
    var s' := IssueStep(s, write);
    HighNext(s.c.issued);
    UsersByte(s.c.issued);
    assert CompletedSet(s') == CompletedSet(s);
    forall k: nat | k < |s'.reqs|
      ensures RequestOk(s'.reqs[k], k, s'.l, s'.c)
    {
      if k < |s.reqs| { assert RequestOk(s.reqs[k], k, s.l, s.c); }
    }
  }

  lemma {:induction false} RunInv(run: seq<State>, acts: seq<Action>, bound: nat, k: nat)
    requires IsRun(run, acts, bound) && bound <= BYTE && k < |run|
    ensures Inv(run[k])
  {
    if k > 0 {
      RunInv(run, acts, bound, k - 1);
      assert Steps(run[k - 1], acts[k - 1], run[k - 1 + 1], bound);
      match acts[k - 1]
      case Issue(write) => IssueInv(run[k - 1], write);
      case Run(i) => StepInv(run[k - 1], i);
    }
  }

  // ----- What holds in every run -----

  /** The steps at which the lock with unbounded tickets moves. */
  predicate Commits(s: State, i: nat)
    requires i < |s.reqs|
  {
    match s.reqs[i]
    case WWait(val) => val == s.l.write
    case WStore(_, _) | RStore(_) | RHeld => true
    case _ => false
  }

  /** Every step of the code is a step of the unbounded lock that is due there, or changes nothing
      there; an issue takes the next unbounded ticket. */
  lemma Refines(run: seq<State>, acts: seq<Action>, bound: nat, k: nat)
    requires IsRun(run, acts, bound) && bound <= BYTE && k < |acts|
    ensures var t, t' := Abstract(run[k]), Abstract(run[k + 1]);
      match acts[k]
      case Issue(write) => t' == TicketLock(t.c.(issued := t.c.issued + 1), t.phases + [Waiting(write)])
      case Run(i) =>
        && i < |run[k].reqs|
        && if Commits(run[k], i) then Due(t, i) && t' == Advance(t, i) else t' == t
  {
    RunInv(run, acts, bound, k);
    var s := run[k];
    assert Steps(s, acts[k], run[k + 1], bound);
    match acts[k]
    case Issue(write) =>
    case Run(i) =>
      StepRefines(s, i);
  }

  lemma StepRefines(s: State, i: nat)
    requires Inv(s) && i < |s.reqs|
    ensures if Commits(s, i) then Due(Abstract(s), i) && Abstract(Step(s, i)) == Advance(Abstract(s), i)
            else Abstract(Step(s, i)) == Abstract(s)
  {
    assert RequestOk(s.reqs[i], i, s.l, s.c);
    GuardsExact(s, i);
  }

  /** A spinning request leaves its loop exactly when its unbounded ticket is due. */
  lemma SpinsUntilDue(run: seq<State>, acts: seq<Action>, bound: nat, k: nat, i: nat)
    requires IsRun(run, acts, bound) && bound <= BYTE && k < |run| && i < |run[k].reqs|
    requires run[k].reqs[i].WWait? || run[k].reqs[i].RWait?
    ensures Step(run[k], i) != run[k] <==> Due(Abstract(run[k]), i)
  {
    RunInv(run, acts, bound, k);
    GuardsExact(run[k], i);
    assert RequestOk(run[k].reqs[i], i, run[k].l, run[k].c);
    assert Abstract(run[k]).phases[i] == PhaseOf(run[k].reqs[i]);
    if Due(Abstract(run[k]), i) {
      assert Step(run[k], i).reqs[i] != run[k].reqs[i];
    }
  }

  /** And waits nowhere else. */
  lemma WaitsExactly(run: seq<State>, acts: seq<Action>, bound: nat, k: nat, i: nat)
    requires IsRun(run, acts, bound) && bound <= BYTE && k < |run| && i < |run[k].reqs|
    ensures Step(run[k], i) == run[k] <==>
      Completed(run[k].reqs[i]) || ((run[k].reqs[i].WWait? || run[k].reqs[i].RWait?) && !Due(Abstract(run[k]), i))
  {
    if run[k].reqs[i].WWait? || run[k].reqs[i].RWait? {
      SpinsUntilDue(run, acts, bound, k, i);
    } else if !Completed(run[k].reqs[i]) {
      assert Step(run[k], i).reqs[i] != run[k].reqs[i];
    }
  }

  predicate Inside(pc: Pc) {
    pc.WHeld? || pc.WLoad? || pc.WStore? || pc.RLoad? || pc.RStore? || pc.RHeld?
  }

  /** A writer that is inside is alone. */
  lemma WriterExcludes(run: seq<State>, acts: seq<Action>, bound: nat, k: nat, w: nat, j: nat)
    requires IsRun(run, acts, bound) && bound <= BYTE && k < |run| && w < |run[k].reqs| && j < |run[k].reqs|
    requires PhaseOf(run[k].reqs[w]).Writing? && Inside(run[k].reqs[j])
    ensures j == w
  {
    RunInv(run, acts, bound, k);
    var s := run[k];
    assert RequestOk(s.reqs[w], w, s.l, s.c) && RequestOk(s.reqs[j], j, s.l, s.c);
    if s.reqs[j].RHeld? {
      ReaderInside(s, j);
    }
  }

  /** Admission is in ticket order: when request `j` has left its loop, every earlier reader has been
      let in and every earlier writer is finished. */
  lemma TicketOrder(run: seq<State>, acts: seq<Action>, bound: nat, k: nat, i: nat, j: nat)
    requires IsRun(run, acts, bound) && bound <= BYTE && k < |run| && i < j < |run[k].reqs|
    requires !run[k].reqs[j].WWait? && !run[k].reqs[j].RWait?
    ensures Passed(run[k].reqs[i])
  {
    RunInv(run, acts, bound, k);
    assert RequestOk(run[k].reqs[i], i, run[k].l, run[k].c) && RequestOk(run[k].reqs[j], j, run[k].l, run[k].c);
  }

  /** The two non-atomic updates lose nothing: what was loaded is still there when it is stored. */
  lemma NoLostUpdate(run: seq<State>, acts: seq<Action>, bound: nat, k: nat, i: nat)
    requires IsRun(run, acts, bound) && bound <= BYTE && k < |run| && i < |run[k].reqs|
    ensures run[k].reqs[i].RStore? ==> Step(run[k], i).l == run[k].l.(read := Inc(run[k].l.read))
    ensures run[k].reqs[i].WStore? ==>
      Step(run[k], i).l == run[k].l.(write := Inc(run[k].l.write), read := Inc(run[k].l.read))
  {
    RunInv(run, acts, bound, k);
    assert RequestOk(run[k].reqs[i], i, run[k].l, run[k].c);
  }

  /** On the 32-bit word `u` an issue is an addition of 1 << 16 modulo 2^32, the ticket is the low byte
      of the old word shifted right by 16, and the store of wrunlock replaces the low 16 bits. */
  lemma WordArithmetic(run: seq<State>, acts: seq<Action>, bound: nat, k: nat)
    requires IsRun(run, acts, bound) && bound <= BYTE && k < |acts|
    ensures WordOk(run[k].l)
    ensures acts[k].Issue? ==>
      && Pack(run[k + 1].l) == (Pack(run[k].l) + HALF) % (HALF * HALF)
      && run[k + 1].reqs == run[k].reqs + [var val := Pack(run[k].l) / HALF % BYTE;
                                           if acts[k].write then WWait(val) else RWait(val)]
    ensures acts[k].Run? && acts[k].i < |run[k].reqs| && run[k].reqs[acts[k].i].WStore? ==>
      var t := run[k].reqs[acts[k].i];
      Pack(run[k + 1].l) == Pack(run[k].l) - Pack(run[k].l) % HALF + (Inc(t.w) + BYTE * Inc(t.r))
  {
    RunInv(run, acts, bound, k);
    assert Steps(run[k], acts[k], run[k + 1], bound);
    AddHigh(run[k].l);
    if acts[k].Run? && run[k].reqs[acts[k].i].WStore? {
      var t := run[k].reqs[acts[k].i];
      StoreLow(run[k].l, Inc(t.w), Inc(t.r));
    }
  }

  /** The `write` byte counts the requests completed, the `read` byte those that let the next one go,
      and the upper half those issued, each modulo its width. */
  lemma BytesCount(run: seq<State>, acts: seq<Action>, bound: nat, k: nat)
    requires IsRun(run, acts, bound) && bound <= BYTE && k < |run|
    ensures run[k].l.write == |CompletedSet(run[k])| % BYTE
    ensures run[k].l.read == |set i: nat | i < |run[k].reqs| && Passed(run[k].reqs[i])| % BYTE
    ensures run[k].l.high == |run[k].reqs| % HALF
  {
    RunInv(run, acts, bound, k);
    var s := run[k];
    var passed := set i: nat | i < |s.reqs| && Passed(s.reqs[i]);
    forall i: nat
      ensures i in passed <==> i in Below(s.c.passed)
    {
      if i < |s.reqs| { assert RequestOk(s.reqs[i], i, s.l, s.c); }
    }
    assert passed == Below(s.c.passed);
  }

  /** Between the return of a lock call and the unlock. */
  predicate Holds(pc: Pc) {
    pc.WHeld? || pc.RHeld?
  }

  /** Nobody waits for nothing: while a request is unfinished, some request holds the lock or has an access
      that changes the state. */
  lemma Progress(run: seq<State>, acts: seq<Action>, bound: nat, k: nat, i: nat) returns (j: nat)
    requires IsRun(run, acts, bound) && bound <= BYTE && k < |run| && i < |run[k].reqs| && !Completed(run[k].reqs[i])
    ensures j < |run[k].reqs| && (Holds(run[k].reqs[j]) || Step(run[k], j) != run[k])
  {
    RunInv(run, acts, bound, k);
    var s := run[k];
    assert RequestOk(s.reqs[i], i, s.l, s.c);
    if Passed(s.reqs[i]) {
      j := i;
    } else if s.c.completed < s.c.passed {
      j := SomeReaderInside(s);
    } else {
      j := s.c.passed;
      assert RequestOk(s.reqs[j], j, s.l, s.c);
      GuardsExact(s, j);
      assert Step(s, j).reqs[j] != s.reqs[j];
    }
  }

  /** The state after `n` accesses of request `i` and none of any other. */
  function Alone(s: State, i: nat, n: nat): (s': State)
    requires i < |s.reqs|
    ensures |s'.reqs| == |s.reqs|
    decreases n
  {
    if n == 0 then s else Alone(Step(s, i), i, n - 1)
  }

  lemma AloneIs(s: State, i: nat)
    requires i < |s.reqs|
    ensures Alone(s, i, 1) == Step(s, i)
    ensures Alone(s, i, 2) == Step(Step(s, i), i)
    ensures Alone(s, i, 3) == Step(Step(Step(s, i), i), i)
  {
    var s1 := Step(s, i);
    var s2 := Step(s1, i);
    assert Alone(s, i, 1) == Alone(s1, i, 0);
    assert Alone(s1, i, 1) == Alone(s2, i, 0);
    assert Alone(s2, i, 1) == Alone(Step(s2, i), i, 0);
    assert Alone(s, i, 2) == Alone(s1, i, 1);
    assert Alone(s1, i, 2) == Alone(s2, i, 1);
    assert Alone(s, i, 3) == Alone(s1, i, 2);
  }

  /** A request whose unbounded ticket is due gets the lock by its own accesses, a writer with one and a reader
      with at most three. */
  lemma GetsIn(run: seq<State>, acts: seq<Action>, bound: nat, k: nat, i: nat)
    requires IsRun(run, acts, bound) && bound <= BYTE && k < |run| && i < |run[k].reqs|
    requires Due(Abstract(run[k]), i)
    ensures run[k].reqs[i].WWait? ==> Alone(run[k], i, 1).reqs[i] == WHeld
    ensures run[k].reqs[i].RWait? ==> Alone(run[k], i, 3).reqs[i] == RHeld
    ensures run[k].reqs[i].RLoad? ==> Alone(run[k], i, 2).reqs[i] == RHeld
    ensures run[k].reqs[i].RStore? ==> Alone(run[k], i, 1).reqs[i] == RHeld
  {
    RunInv(run, acts, bound, k);
    GuardsExact(run[k], i);
    AloneIs(run[k], i);
    assert RequestOk(run[k].reqs[i], i, run[k].l, run[k].c);
    assert Abstract(run[k]).phases[i] == PhaseOf(run[k].reqs[i]);
  }

  /** Who holds the lock gives it up by its own accesses, a writer with three and a reader with one, and no
      request is completed otherwise. */
  lemma Unlocks(s: State, i: nat)
    requires i < |s.reqs|
    ensures s.reqs[i].WHeld? ==> Alone(s, i, 3).reqs[i] == WDone && !Completed(Alone(s, i, 2).reqs[i])
    ensures s.reqs[i].RHeld? ==> Alone(s, i, 1).reqs[i] == RDone
    ensures !Completed(s.reqs[i]) && Completed(Step(s, i).reqs[i]) ==> s.reqs[i].WStore? || s.reqs[i].RHeld?
  {
    AloneIs(s, i);
  }

  // ----- The bound is tight -----

  /** `n` writers have taken a ticket and nobody has moved since. */
  function Queue(n: nat): State {
    State(Word(0, 0, n % HALF), seq(n, i requires 0 <= i < n => WWait(i % BYTE)), Counters(n, 0, 0))
  }

  lemma QueueGrows(n: nat)
    ensures IssueStep(Queue(n), true) == Queue(n + 1)
  {
    HighNext(n);
    UsersByte(n);
    assert IssueStep(Queue(n), true).reqs == Queue(n + 1).reqs;
  }

  lemma {:induction false} ReachQueue(n: nat, bound: nat) returns (run: seq<State>, acts: seq<Action>)
    requires n <= BYTE + 1 <= bound
    ensures IsRun(run, acts, bound) && run[|acts|] == Queue(n)
  {
    if n == 0 {
      run, acts := [INITIAL], [];
    } else {
      run, acts := ReachQueue(n - 1, bound);
      QueueGrows(n - 1);
      run, acts := Extend(run, acts, bound, Issue(true), Queue(n));
    }
  }

  lemma Extend(run: seq<State>, acts: seq<Action>, bound: nat, a: Action, s: State)
    returns (run': seq<State>, acts': seq<Action>)
    requires IsRun(run, acts, bound) && Steps(run[|acts|], a, s, bound)
    ensures IsRun(run', acts', bound) && run'[|acts'|] == s
  {
    hide Steps;
    run', acts' := run + [s], acts + [a];
    forall k: nat | k < |acts'|
      ensures Steps(run'[k], acts'[k], run'[k + 1], bound)
    {
      if k < |acts| {
        assert Steps(run[k], acts[k], run[k + 1], bound);
      }
    }
  }

  /** With one outstanding request more, two writers can be inside together. */
  lemma BoundIsTight(bound: nat) returns (run: seq<State>, acts: seq<Action>)
    requires bound > BYTE
    ensures IsRun(run, acts, bound)
    ensures |run[|acts|].reqs| == BYTE + 1 && run[|acts|].reqs[0] == WHeld && run[|acts|].reqs[BYTE] == WHeld
  {
    run, acts := ReachQueue(BYTE + 1, bound);
    var s1 := Step(Queue(BYTE + 1), 0);
    run, acts := Extend(run, acts, bound, Run(0), s1);
    var s2 := Step(s1, BYTE);
    run, acts := Extend(run, acts, bound, Run(BYTE), s2);
  }

  /** Request `w` is inside as a writer and request `j` is inside too. */
  predicate Overlap(s: State, w: nat, j: nat) {
    w < |s.reqs| && j < |s.reqs| && w != j && PhaseOf(s.reqs[w]).Writing? && Inside(s.reqs[j])
  }

  ghost predicate NeverOverlap(bound: nat) {
    forall run, acts, k: nat, w: nat, j: nat | IsRun(run, acts, bound) && k < |run| :: !Overlap(run[k], w, j)
  }

  /** 256 is the exact bound: a writer is alone in all runs if and only if no more requests than that
      may be outstanding. */
  lemma NeverOverlapIff(bound: nat)
    ensures NeverOverlap(bound) <==> bound <= BYTE
  {
    if bound <= BYTE {
      forall run, acts, k: nat, w: nat, j: nat | IsRun(run, acts, bound) && k < |run|
        ensures !Overlap(run[k], w, j)
      {
        if Overlap(run[k], w, j) {
          WriterExcludes(run, acts, bound, k, w, j);
        }
      }
    } else {
      var run, acts := BoundIsTight(bound);
      assert Overlap(run[|acts|], 0, BYTE);
    }
  }
}
