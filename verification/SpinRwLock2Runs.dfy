/** What holds in every run of the packed-word lock. */
module SpinRwLock2Runs {
  import opened Wrappers
  import opened Bits
  import opened Sets
  import opened SpinRwLock2

  // ----- The invariant -----

  predicate InWritelock(pc: Pc) {
    pc.WRead? || pc.WSwap? || pc.WReread? || pc.WSet? || pc.WSpin?
  }

  /** A reader that holds the lock, or has added itself and is about to undo that. */
  predicate AddedReader(pc: Pc) {
    pc.RHeld? || pc.RUndo?
  }

  function Readers(s: State): set<nat> {
    set i: nat | i < |s.threads| && AddedReader(s.threads[i])
  }

  function Writers(s: State): set<nat> {
    set i: nat | i < |s.threads| && s.threads[i].WHeld?
  }

  predicate ThreadOk(s: State, i: nat)
    requires i < |s.threads|
  {
    && (s.threads[i].WSwap? ==> s.threads[i].state < RW_WRITE)
    && (s.threads[i].RHeld? ==> Writers(s) == {})
  }

  /** The word with `r` added readers, of which the reader field keeps 30 bits, `w` writers and wait bit `b`. */
  function Word(r: nat, w: nat, b: nat): nat {
    4 * (r % MAX_THREADS) + 2 * w + b
  }

  function WaitBit(setter: Option<nat>): nat {
    if setter.Some? then 1 else 0
  }

  ghost predicate WordOk(s: State) {
    |Writers(s)| <= 1 && s.l == Word(|Readers(s)|, |Writers(s)|, WaitBit(s.setter))
  }

  ghost predicate Inv(s: State) {
    && |s.threads| <= MAX_THREADS && WordOk(s)
    && (forall i: nat | i < |s.threads| :: ThreadOk(s, i))
    && (s.setter.Some? ==> s.setter.value < |s.threads| && InWritelock(s.threads[s.setter.value]))
  }

  /** Only when every thread is an added reader does the reader field spill over; a thread that is none
      finds all readers in the word. */
  lemma ReadersFit(s: State, i: nat)
    requires |s.threads| <= MAX_THREADS && i < |s.threads| && !AddedReader(s.threads[i])
    ensures |Readers(s)| < MAX_THREADS
  {
    assert |Readers(s) + {i}| == |Readers(s)| + 1;
    SubsetSize(Readers(s) + {i}, Below(|s.threads|));
  }

  /** What the bit tests see, and what setting the wait bit does. */
  lemma WordBits(s: State)
    requires WordOk(s)
    ensures And(s.l, RW_WAIT) == WaitBit(s.setter)
    ensures And(s.l, RW_WAIT + RW_WRITE) == 2 * |Writers(s)| + WaitBit(s.setter)
    ensures Or(s.l, RW_WAIT) == Word(|Readers(s)|, |Writers(s)|, 1)
  {
    hide And, Or, Readers, Writers;
    var r, w, b := |Readers(s)| % MAX_THREADS, |Writers(s)|, WaitBit(s.setter);
    AndOne(2 * r + w, b);
    AndThree(r, w, b);
    OrOne(2 * r + w, b);
  }

  // ----- Every step keeps it -----

  /** `s'` is `s` with thread `i` moved to `pc`. */
  predicate Moved(s: State, s': State, i: nat, pc: Pc) {
    i < |s.threads| && s'.threads == s.threads[i := pc]
  }

  lemma MovedReaders(s: State, s': State, i: nat, pc: Pc)
    requires Moved(s, s', i, pc)
    ensures |Readers(s')| ==
      |Readers(s)| + (if AddedReader(pc) then 1 else 0) - (if AddedReader(s.threads[i]) then 1 else 0)
  {
    assert i in Readers(s) <==> AddedReader(s.threads[i]);
    assert i in Readers(s') <==> AddedReader(pc);
    assert Readers(s) - {i} == Readers(s') - {i};
    OneChanged(Readers(s), Readers(s'), i);
  }

  lemma MovedWriters(s: State, s': State, i: nat, pc: Pc)
    requires Moved(s, s', i, pc)
    ensures |Writers(s')| == |Writers(s)| + (if pc.WHeld? then 1 else 0) - (if s.threads[i].WHeld? then 1 else 0)
  {
    assert i in Writers(s) <==> s.threads[i].WHeld?;
    assert i in Writers(s') <==> pc.WHeld?;
    assert Writers(s) - {i} == Writers(s') - {i};
    OneChanged(Writers(s), Writers(s'), i);
  }

  /** What the step of thread `i` to `pc` must do to the word and the setter. */
  predicate Fits(s: State, s': State, i: nat, pc: Pc)
    requires i < |s.threads|
  {
    var was := s.threads[i];
    && (pc.WHeld? ==> |Writers(s)| == |Readers(s)| == 0 && s'.setter.None?)
    && (pc.WSwap? ==> pc.state < RW_WRITE)
    && (pc.RHeld? ==> |Writers(s)| == 0)
    && (s'.setter == s.setter || s'.setter == None || s'.setter == Some(i))
    && (s'.setter == Some(i) ==> InWritelock(pc))
    && var r := |Readers(s)| + (if AddedReader(pc) then 1 else 0) - (if AddedReader(was) then 1 else 0);
    && var w := |Writers(s)| + (if pc.WHeld? then 1 else 0) - (if was.WHeld? then 1 else 0);
    && 0 <= r && 0 <= w
    && s'.l == Word(r, w, WaitBit(s'.setter))
  }

  lemma MovedInv(s: State, s': State, i: nat, pc: Pc)
    requires Inv(s) && Moved(s, s', i, pc) && Fits(s, s', i, pc)
    ensures Inv(s')
  {
    MovedReaders(s, s', i, pc);
    MovedWriters(s, s', i, pc);
    forall k: nat | k < |s'.threads|
      ensures ThreadOk(s', k)
    {
      MovedThread(s, s', i, pc, k);
    }
  }

  lemma MovedThread(s: State, s': State, i: nat, pc: Pc, k: nat)
    requires Inv(s) && Moved(s, s', i, pc) && Fits(s, s', i, pc) && k < |s.threads|
    ensures ThreadOk(s', k)
  {
    assert ThreadOk(s, k);
    assert pc.WHeld? ==> k !in Readers(s);
    if !pc.WHeld? {
      assert Writers(s') <= Writers(s);
    }
  }

  /** The atomic adds change the reader field modulo 2^30 and no other part of the word. */
  lemma AddsToWord(l: nat, r: nat, w: nat, b: nat)
    requires l == Word(r, w, b) && w <= 1 && b <= 1
    ensures Add(l, RW_READ) == Word(r + 1, w, b)
    ensures r > 0 ==> Add(l, -RW_READ) == Word(r - 1, w, b)
    ensures w > 0 ==> Add(l, -RW_WRITE) == Word(r, w - 1, b)
  {
    if r % MAX_THREADS == MAX_THREADS - 1 {
      assert (r + 1) % MAX_THREADS == 0;
    } else {
      assert (r + 1) % MAX_THREADS == r % MAX_THREADS + 1;
    }
    if r > 0 && r % MAX_THREADS == 0 {
      assert (r - 1) % MAX_THREADS == MAX_THREADS - 1;
    } else if r > 0 {
      assert (r - 1) % MAX_THREADS == r % MAX_THREADS - 1;
    }
  }

  lemma StepFits(s: State, i: nat)
    requires Inv(s) && i < |s.threads| && !s.threads[i].Idle?
    ensures Fits(s, Step(s, i), i, Step(s, i).threads[i])
  {
    hide And, Or, Add, Readers, Writers, Word;
    assert ThreadOk(s, i);
    WordBits(s);
    AddsToWord(s.l, |Readers(s)|, |Writers(s)|, WaitBit(s.setter));
    InItsSet(s, i);
    if s.threads[i].WSwap? {
      SwapFits(s, i);
    }
  }

  lemma InItsSet(s: State, i: nat)
    requires i < |s.threads|
    ensures AddedReader(s.threads[i]) ==> |Readers(s)| > 0
    ensures s.threads[i].WHeld? ==> |Writers(s)| > 0
  {
    assert AddedReader(s.threads[i]) ==> i in Readers(s);
    assert s.threads[i].WHeld? ==> i in Writers(s);
  }

  /** A swap from a word below RW_WRITE finds nobody inside. */
  lemma SwapFits(s: State, i: nat)
    requires Inv(s) && i < |s.threads| && s.threads[i].WSwap?
    ensures s.threads[i].state == s.l ==> |Readers(s)| == |Writers(s)| == 0
    ensures RW_WRITE == Word(0, 1, 0)
  {
    assert ThreadOk(s, i);
    ReadersFit(s, i);
  }

  lemma StepInv(s: State, i: nat)
    requires Inv(s) && i < |s.threads|
    ensures Inv(Step(s, i))
  {
    hide Inv, And, Or, Add, Fits;
    var s' := Step(s, i);
    if !s.threads[i].Idle? {
      StepFits(s, i);
      MovedInv(s, s', i, s'.threads[i]);
    }
  }

  lemma CallInv(s: State, i: nat, write: bool)
    requires Inv(s) && Enabled(s, Call(i, write))
    ensures Inv(Next(s, Call(i, write)))
  {
    var s' := Next(s, Call(i, write));
    MovedInv(s, s', i, s'.threads[i]);
  }

  lemma {:induction false} RunInv(run: seq<State>, acts: seq<Action>, n: nat, k: nat)
    requires IsRun(run, acts, n) && n <= MAX_THREADS && k < |run|
    ensures Inv(run[k])
  {
    if k == 0 {
      assert Readers(run[0]) == {} && Writers(run[0]) == {};
    } else {
      RunInv(run, acts, n, k - 1);
      assert Steps(run[k - 1], acts[k - 1], run[k - 1 + 1]);
      match acts[k - 1]
      case Call(i, write) => CallInv(run[k - 1], i, write);
      case Run(i) => StepInv(run[k - 1], i);
    }
  }

  // ----- What holds in every run -----

  predicate Holds(pc: Pc) {
    pc.WHeld? || pc.RHeld?
  }

  lemma ReadersMost(s: State)
    requires |s.threads| <= MAX_THREADS
    ensures |Readers(s)| <= MAX_THREADS
    ensures |Readers(s)| == MAX_THREADS ==> forall i: nat | i < |s.threads| :: AddedReader(s.threads[i])
  {
    if i: nat :| i < |s.threads| && !AddedReader(s.threads[i]) {
      ReadersFit(s, i);
    } else {
      SubsetSize(Readers(s), Below(|s.threads|));
    }
  }

  lemma FieldSpills(r: nat, w: nat, b: nat)
    requires r <= MAX_THREADS && w <= 1 && b <= 1
    ensures Word(r, w, b) == 4 * r % WORD + 2 * w + b < WORD
  {
    if r == MAX_THREADS {
      assert r % MAX_THREADS == 0 && 4 * r == WORD;
    } else {
      assert r % MAX_THREADS == r;
    }
  }

  /** The word is 4 times the readers that hold the lock or have added themselves, modulo 2^32, plus 2 for
      a writer, plus the wait bit, and there is at most one writer. */
  lemma WordIsExact(run: seq<State>, acts: seq<Action>, n: nat, k: nat)
    requires IsRun(run, acts, n) && n <= MAX_THREADS && k < |run|
    ensures run[k].l == 4 * |Readers(run[k])| % WORD + 2 * |Writers(run[k])| + (if run[k].setter.Some? then 1 else 0)
    ensures |Writers(run[k])| <= 1 && run[k].l < WORD
    ensures |Readers(run[k])| == MAX_THREADS ==> forall i: nat | i < |run[k].threads| :: AddedReader(run[k].threads[i])
  {
    RunInv(run, acts, n, k);
    var s := run[k];
    hide Word;
    ReadersMost(s);
    FieldSpills(|Readers(s)|, |Writers(s)|, WaitBit(s.setter));
  }

  /** A writer excludes all other holders. */
  lemma WriterExcludes(run: seq<State>, acts: seq<Action>, n: nat, k: nat, w: nat, j: nat)
    requires IsRun(run, acts, n) && n <= MAX_THREADS && k < |run|
    requires w < |run[k].threads| && j < |run[k].threads|
    requires run[k].threads[w] == WHeld && Holds(run[k].threads[j])
    ensures j == w
  {
    RunInv(run, acts, n, k);
    var s := run[k];
    assert ThreadOk(s, j) && w in Writers(s);
    if j != w && s.threads[j].WHeld? {
      SubsetSize({j, w}, Writers(s));
    }
  }

  /** The wait bit is never stale: while it is set, the thread that set it is still in writelock; so
      with no writer waiting or holding the low two bits are zero. */
  lemma WaitNotStale(run: seq<State>, acts: seq<Action>, n: nat, k: nat)
    requires IsRun(run, acts, n) && n <= MAX_THREADS && k < |run|
    ensures And(run[k].l, RW_WAIT) != 0 <==> run[k].setter.Some?
    ensures run[k].setter.Some? ==>
      run[k].setter.value < n == |run[k].threads| && InWritelock(run[k].threads[run[k].setter.value])
    ensures (forall i: nat | i < |run[k].threads| :: !InWritelock(run[k].threads[i]) && run[k].threads[i] != WHeld) ==>
      And(run[k].l, RW_WAIT + RW_WRITE) == 0
  {
    RunInv(run, acts, n, k);
    SameThreads(run, acts, n, k);
    WordBits(run[k]);
    if forall i: nat | i < |run[k].threads| :: run[k].threads[i] != WHeld {
      assert Writers(run[k]) == {};
    }
  }

  lemma {:induction false} SameThreads(run: seq<State>, acts: seq<Action>, n: nat, k: nat)
    requires IsRun(run, acts, n) && k < |run|
    ensures |run[k].threads| == n
  {
    if k > 0 {
      SameThreads(run, acts, n, k - 1);
      assert Steps(run[k - 1], acts[k - 1], run[k - 1 + 1]);
    }
  }

  /** A call of thread `i` is on its way and its next access changes nothing. */
  predicate Spins(s: State, i: nat)
    requires i < |s.threads|
  {
    s.threads[i] != Idle && Step(s, i) == s
  }

  lemma MovesAtOnce(s: State, i: nat)
    requires i < |s.threads| && s.threads[i] != Idle
    ensures Spins(s, i) ==> s.threads[i].WSpin? || s.threads[i].RSpin?
    ensures Spins(s, i) && s.threads[i].WSpin? ==> s.l > RW_WAIT
    ensures Spins(s, i) && s.threads[i].RSpin? ==> And(s.l, RW_WAIT + RW_WRITE) != 0
  {
    hide And, Or, Add;
    assert Step(s, i).threads[i] != s.threads[i] || Step(s, i) == s;
  }

  /** Nobody spins for ever on a free lock: while a thread spins, some thread holds the lock or has an access
      that changes the state. */
  lemma Progress(run: seq<State>, acts: seq<Action>, n: nat, k: nat, i: nat) returns (j: nat)
    requires IsRun(run, acts, n) && n <= MAX_THREADS && k < |run| && i < |run[k].threads| && Spins(run[k], i)
    ensures j < |run[k].threads|
    ensures Holds(run[k].threads[j]) || Step(run[k], j) != run[k]
  {
    RunInv(run, acts, n, k);
    var s := run[k];
    hide And, Word, Step;
    WordBits(s);
    FieldSpills(0, 0, WaitBit(s.setter));
    MovesAtOnce(s, i);
    if Writers(s) != {} {
      j :| j in Writers(s);
    } else if Readers(s) != {} {
      j :| j in Readers(s);
      MovesAtOnce(s, j);
    } else {
      j := s.setter.value;
      MovesAtOnce(s, j);
    }
  }

  /** Nobody is inside, and no reader is about to undo its addition. */
  predicate Free(s: State) {
    forall i: nat | i < |s.threads| :: s.threads[i] != WHeld && !AddedReader(s.threads[i])
  }

  /** The state after `n` accesses of thread `i` and none of any other. */
  function Alone(s: State, i: nat, n: nat): (s': State)
    requires i < |s.threads|
    ensures |s'.threads| == |s.threads|
    decreases n
  {
    if n == 0 then s else Alone(Step(s, i), i, n - 1)
  }

  /** How far thread `i` is from the lock when that is free. */
  function Distance(s: State, i: nat): nat
    requires i < |s.threads|
  {
    match s.threads[i]
    case WSwap(state) => if state == s.l then 1 else 6
    case WRead => 2
    case WSpin => 3
    case WSet => 4
    case WReread => 5
    case _ => 0
  }

  lemma FreeWord(s: State)
    requires Inv(s) && Free(s)
    ensures s.l == WaitBit(s.setter) && And(s.l, RW_WAIT) == WaitBit(s.setter)
  {
    hide And;
    WordBits(s);
    assert Readers(s) == {} && Writers(s) == {};
  }

  /** Each access of a waiting writer brings it nearer to a free lock. */
  lemma Nearer(s: State, i: nat)
    requires Inv(s) && Free(s) && i < |s.threads| && InWritelock(s.threads[i])
    ensures i < |Step(s, i).threads|
    ensures var s' := Step(s, i);
      if Distance(s, i) == 1 then s'.threads[i] == WHeld
      else Inv(s') && Free(s') && InWritelock(s'.threads[i]) && Distance(s', i) < Distance(s, i)
  {
    StepInv(s, i);
    FreeWord(s);
    hide Inv, And, Or, Add;
    var s' := Step(s, i);
    if s'.threads[i] != WHeld {
      assert Free(s');
      FreeWord(s');
    }
  }

  lemma {:induction false} GetsInFrom(s: State, i: nat) returns (m: nat)
    requires Inv(s) && Free(s) && i < |s.threads| && InWritelock(s.threads[i])
    ensures m <= Distance(s, i) && Alone(s, i, m).threads[i] == WHeld
    decreases Distance(s, i)
  {
    hide Inv, Step, Free;
    Nearer(s, i);
    var s' := Step(s, i);
    if Distance(s, i) == 1 {
      m := 1;
      assert Alone(s, i, 1) == Alone(s', i, 0);
    } else {
      m := GetsInFrom(s', i);
      m := m + 1;
    }
  }

  /** A writer that waits for a free lock gets it by its own accesses, at most six, when no other thread
      makes one. */
  lemma WriterGetsIn(run: seq<State>, acts: seq<Action>, n: nat, k: nat, i: nat) returns (m: nat)
    requires IsRun(run, acts, n) && n <= MAX_THREADS && k < |run| && Free(run[k])
    requires i < |run[k].threads| && InWritelock(run[k].threads[i])
    ensures m <= 6 && Alone(run[k], i, m).threads[i] == WHeld
  {
    RunInv(run, acts, n, k);
    m := GetsInFrom(run[k], i);
  }

  predicate InReadlock(pc: Pc) {
    pc.RSpin? || pc.RAdd? || pc.RUndo?
  }

  /** A reader gets in by its own accesses, at most three, while no writer is inside or has set the wait bit,
      whatever other readers are inside. */
  lemma ReaderGetsIn(run: seq<State>, acts: seq<Action>, n: nat, k: nat, i: nat) returns (m: nat)
    requires IsRun(run, acts, n) && n <= MAX_THREADS && k < |run|
    requires Writers(run[k]) == {} && run[k].setter.None?
    requires i < |run[k].threads| && InReadlock(run[k].threads[i])
    ensures m <= 3 && Alone(run[k], i, m).threads[i] == RHeld
  {
    RunInv(run, acts, n, k);
    var s := run[k];
    var s1 := Step(s, i);
    var s2 := Step(s1, i);
    var s3 := Step(s2, i);
    assert Alone(s, i, 1) == Alone(s1, i, 0) == s1;
    assert Alone(s, i, 2) == Alone(s1, i, 1) == Alone(s2, i, 0) == s2;
    assert Alone(s, i, 3) == Alone(s1, i, 2) == Alone(s2, i, 1) == Alone(s3, i, 0) == s3;
    StepInv(s, i);
    NoBits(s);
    m := if s.threads[i].RAdd? then 1 else if s.threads[i].RSpin? then 2 else 3;
    hide Inv, And, Add;
    if s.threads[i].RUndo? {
      assert Writers(s1) == {};
      NoBits(s1);
    }
  }

  lemma NoBits(s: State)
    requires Inv(s) && Writers(s) == {} && s.setter.None?
    ensures And(s.l, RW_WAIT + RW_WRITE) == 0
  {
    hide And;
    WordBits(s);
  }

  /** A writer spins exactly while somebody is inside or retreating, and a reader exactly while a writer is
      inside or the wait bit is set, without touching the word. */
  lemma SpinsExactly(run: seq<State>, acts: seq<Action>, n: nat, k: nat, i: nat)
    requires IsRun(run, acts, n) && n <= MAX_THREADS && k < |run| && i < |run[k].threads|
    requires run[k].threads[i].WSpin? || run[k].threads[i].RSpin?
    ensures Spins(run[k], i) <==>
      if run[k].threads[i].WSpin? then Readers(run[k]) != {} || Writers(run[k]) != {}
      else Writers(run[k]) != {} || run[k].setter.Some?
    ensures Step(run[k], i).l == run[k].l
  {
    RunInv(run, acts, n, k);
    var s := run[k];
    ReadersFit(s, i);
    hide And, Or, Add;
    WordBits(s);
    assert !Spins(s, i) ==> Step(s, i).threads[i] != s.threads[i];
  }

  /** A writer that finds the lock taken, or loses its swap, has the wait bit set before it spins. */
  lemma Announces(s: State, i: nat) returns (m: nat)
    requires Inv(s) && i < |s.threads|
    requires s.threads[i].WReread? || (s.threads[i].WRead? && s.l >= RW_WRITE)
             || (s.threads[i].WSwap? && s.threads[i].state != s.l)
    ensures m <= 3 && Alone(s, i, m).threads[i] == WSpin && And(Alone(s, i, m).l, RW_WAIT) == 1
  {
    if s.threads[i].WSwap? {
      StepInv(s, i);
      m := AnnouncesFrom(Step(s, i), i);
      m := m + 1;
    } else {
      m := AnnouncesFrom(s, i);
    }
  }

  lemma AnnouncesFrom(s: State, i: nat) returns (m: nat)
    requires Inv(s) && i < |s.threads|
    requires s.threads[i].WReread? || (s.threads[i].WRead? && s.l >= RW_WRITE)
    ensures m <= 2 && Alone(s, i, m).threads[i] == WSpin && And(Alone(s, i, m).l, RW_WAIT) == 1
  {
    var s1 := Step(s, i);
    assert Alone(s, i, 1) == Alone(s1, i, 0) == s1;
    var s2 := Step(s1, i);
    assert Alone(s, i, 2) == Alone(s1, i, 1) == Alone(s2, i, 0) == s2;
    StepInv(s, i);
    StepInv(s1, i);
    WordBits(s);
    WordBits(s1);
    WordBits(s2);
    hide Inv, And, Or, Add;
    m := if s1.threads[i].WSpin? then 1 else 2;
  }

  /** A call begins in the loop of its kind. */
  lemma CallBegins(run: seq<State>, acts: seq<Action>, n: nat, k: nat)
    requires IsRun(run, acts, n) && k < |acts| && acts[k].Call?
    ensures acts[k].i < |run[k + 1].threads| && run[k + 1].l == run[k].l
    ensures if acts[k].write then InWritelock(run[k + 1].threads[acts[k].i])
            else InReadlock(run[k + 1].threads[acts[k].i])
  {
    assert Steps(run[k], acts[k], run[k + 1]);
  }

  /** A call ends with the release of the lock, by one access, and never without having held it. */
  lemma EndsByRelease(s: State, i: nat)
    requires i < |s.threads| && s.threads[i] != Idle
    ensures Step(s, i).threads[i] == Idle <==> Holds(s.threads[i])
  {
    hide And, Or, Add;
  }

  /** With its next access thread `i` has the lock. */
  predicate Takes(s: State, i: nat)
    requires i < |s.threads|
  {
    !Holds(s.threads[i]) && Holds(Step(s, i).threads[i])
  }

  /** A reader that does not get in leaves no trace: by its undo the word is back to what the other
      threads have made of it. */
  lemma UndoRestores(s: State, i: nat)
    requires Inv(s) && i < |s.threads| && s.threads[i].RAdd? && !Takes(s, i)
    ensures Step(s, i).threads[i] == RUndo
    ensures Step(Step(s, i), i) == Goto(s, i, RSpin)
  {
    ReadersMost(s);
    FieldSpills(|Readers(s)|, |Writers(s)|, WaitBit(s.setter));
    AddUndo(s.l);
    hide Inv, And, Add;
    assert Step(Step(s, i), i).threads == Goto(s, i, RSpin).threads;
  }

  lemma AddUndo(l: nat)
    requires l < WORD
    ensures Add(Add(l, RW_READ), -RW_READ) == l
  {
  }

  /** A thread takes the lock exactly when it is free for it: a writer when nobody else is inside or
      on its way out of a failed attempt, a reader when no writer is inside or has announced itself. */
  lemma TakesWhenFree(run: seq<State>, acts: seq<Action>, n: nat, k: nat, i: nat)
    requires IsRun(run, acts, n) && n <= MAX_THREADS && k < |run| && i < |run[k].threads|
    ensures Takes(run[k], i) && run[k].threads[i].WSwap? ==> Readers(run[k]) == {} && Writers(run[k]) == {}
    ensures run[k].threads[i].RAdd? ==> (Takes(run[k], i) <==> Writers(run[k]) == {} && run[k].setter.None?)
  {
    RunInv(run, acts, n, k);
    assert ThreadOk(run[k], i);
    hide And;
    WordBits(run[k]);
    if run[k].threads[i].WSwap? {
      SwapFits(run[k], i);
    }
  }

  // ----- With more threads the reader field spills over -----

  lemma Extend(run: seq<State>, acts: seq<Action>, n: nat, a: Action, s: State)
    returns (run': seq<State>, acts': seq<Action>)
    requires IsRun(run, acts, n) && Steps(run[|acts|], a, s)
    ensures IsRun(run', acts', n) && run'[|acts'|] == s
  {
    hide Steps;
    run', acts' := run + [s], acts + [a];
    forall k: nat | k < |acts'|
      ensures Steps(run'[k], acts'[k], run'[k + 1])
    {
      if k < |acts| {
        assert Steps(run[k], acts[k], run[k + 1]);
      }
    }
  }

  /** Of `n` threads the first `m` hold the lock as readers, and the next one is at `pc`. */
  function ReadersInside(n: nat, m: nat, pc: Pc): State {
    State(Add(RW_READ * m, 0), seq(n, i => if i < m then RHeld else if i == m then pc else Idle), None)
  }

  lemma ReaderEnters(n: nat, m: nat)
    requires m < n && m < MAX_THREADS
    ensures Steps(ReadersInside(n, m, Idle), Call(m, false), ReadersInside(n, m, RSpin))
    ensures Steps(ReadersInside(n, m, RSpin), Run(m), ReadersInside(n, m, RAdd))
    ensures Steps(ReadersInside(n, m, RAdd), Run(m), ReadersInside(n, m + 1, Idle))
  {
    hide And;
    AndThree(m, 0, 0);
    assert ReadersInside(n, m, RSpin).threads == ReadersInside(n, m, Idle).threads[m := RSpin];
    assert ReadersInside(n, m, RAdd).threads == ReadersInside(n, m, RSpin).threads[m := RAdd];
    assert ReadersInside(n, m + 1, Idle).threads == ReadersInside(n, m, RAdd).threads[m := RHeld];
  }

  lemma {:induction false} ReachReaders(n: nat, m: nat) returns (run: seq<State>, acts: seq<Action>)
    requires m <= n && m <= MAX_THREADS
    ensures IsRun(run, acts, n) && run[|acts|] == ReadersInside(n, m, Idle)
  {
    if m == 0 {
      run, acts := [Initial(n)], [];
      assert ReadersInside(n, 0, Idle).threads == Initial(n).threads;
    } else {
      run, acts := ReachReaders(n, m - 1);
      ReaderEnters(n, m - 1);
      hide Steps, ReadersInside, IsRun;
      run, acts := Extend(run, acts, n, Call(m - 1, false), ReadersInside(n, m - 1, RSpin));
      run, acts := Extend(run, acts, n, Run(m - 1), ReadersInside(n, m - 1, RAdd));
      run, acts := Extend(run, acts, n, Run(m - 1), ReadersInside(n, m, Idle));
    }
  }

  lemma WriterSlipsIn(n: nat, s: State)
    requires n > MAX_THREADS && s == ReadersInside(n, MAX_THREADS, Idle)
    ensures var s1 := Goto(s, MAX_THREADS, WRead);
      var s2, s3 := Goto(s1, MAX_THREADS, WSwap(0)), Goto(s1.(l := RW_WRITE), MAX_THREADS, WHeld);
      Steps(s, Call(MAX_THREADS, true), s1) && Steps(s1, Run(MAX_THREADS), s2) && Steps(s2, Run(MAX_THREADS), s3)
  {
    assert s.l == 0;
  }

  /** With more than 2^30 threads a writer gets in beside 2^30 readers. */
  lemma TooManyThreads(n: nat) returns (run: seq<State>, acts: seq<Action>)
    requires n > MAX_THREADS
    ensures IsRun(run, acts, n)
    ensures var s := run[|acts|];
      && |s.threads| == n && s.threads[MAX_THREADS] == WHeld
      && forall i: nat | i < MAX_THREADS :: s.threads[i] == RHeld
  {
    run, acts := ReachReaders(n, MAX_THREADS);
    var s := run[|acts|];
    WriterSlipsIn(n, s);
    var s1 := Goto(s, MAX_THREADS, WRead);
    var s2, s3 := Goto(s1, MAX_THREADS, WSwap(0)), Goto(s1.(l := RW_WRITE), MAX_THREADS, WHeld);
    hide Steps, IsRun;
    run, acts := Extend(run, acts, n, Call(MAX_THREADS, true), s1);
    run, acts := Extend(run, acts, n, Run(MAX_THREADS), s2);
    run, acts := Extend(run, acts, n, Run(MAX_THREADS), s3);
  }

  /** Thread `w` is inside as a writer and thread `j` is inside too. */
  predicate Overlap(s: State, w: nat, j: nat) {
    w < |s.threads| && j < |s.threads| && w != j && s.threads[w] == WHeld && Holds(s.threads[j])
  }

  ghost predicate NeverOverlap(n: nat) {
    forall run, acts, k: nat, w: nat, j: nat | IsRun(run, acts, n) && k < |run| :: !Overlap(run[k], w, j)
  }

  /** A writer is alone in all runs of `n` threads if and only if there are no more threads than the
      reader field has values. */
  lemma NeverOverlapIff(n: nat)
    ensures NeverOverlap(n) <==> n <= MAX_THREADS
  {
    if n <= MAX_THREADS {
      forall run, acts, k: nat, w: nat, j: nat | IsRun(run, acts, n) && k < |run|
        ensures !Overlap(run[k], w, j)
      {
        if Overlap(run[k], w, j) {
          WriterExcludes(run, acts, n, k, w, j);
        }
      }
    } else {
      var run, acts := TooManyThreads(n);
      assert Overlap(run[|acts|], MAX_THREADS, 0);
    }
  }
}
