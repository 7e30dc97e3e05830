/**
 The ticket reader/writer lock of delete-me/spinrwlock.hpp, byte for byte, as a small-step transition
 system.

 A request is named by the order of its fetch-and-add, which is the ticket it would have if tickets
 did not wrap around.  The loads and stores of the non-atomic updates are steps of their own.
 */
module SpinRwLock {
  const BYTE := 256
  const HALF := 65536

  /** The union: bytes `write` and `read`, and the upper half, whose low byte is `users`. */
  datatype Word = Word(write: nat, read: nat, high: nat)

  /** The same word as the 32-bit integer `u`. */
  function Pack(w: Word): nat {
    w.write + BYTE * w.read + HALF * w.high
  }

  predicate WordOk(w: Word) {
    w.write < BYTE && w.read < BYTE && w.high < HALF
  }

  datatype Pc =
    // writelock, wrunlock
    | WWait(val: nat)          // 48: while val != write
    | WHeld
    | WLoad                    // 53: t = l
    | WStore(w: nat, r: nat)   // 58: store the low half of t, both bytes incremented
    | WDone
    // readlock, rdunlock
    | RWait(val: nat)          // 67: while val != read
    | RLoad                    // 68: read++, the load
    | RStore(r: nat)           // 68: read++, the store
    | RHeld
    | RDone                    // 72: atomic_inc write

  /** How many requests were issued, how many were passed on to the next ticket (a reader that was let
      in, a writer that has finished), and how many are completed.  The code does not have these
      counters, and no guard of the code below looks at them. */
  datatype Counters = Counters(issued: nat, passed: nat, completed: nat)

  datatype State = State(l: Word, reqs: seq<Pc>, c: Counters)

  datatype Action = Issue(write: bool) | Run(i: nat)

  const INITIAL := State(Word(0, 0, 0), [], Counters(0, 0, 0))

  /** Lines 45-46 and 64-65: add 1 << 16 and keep the old `users` byte. */
  function IssueStep(s: State, write: bool): State {
    var val := s.l.high % BYTE;
    State(s.l.(high := (s.l.high + 1) % HALF), s.reqs + [if write then WWait(val) else RWait(val)],
          s.c.(issued := s.c.issued + 1))
  }

  /** ++ on a byte. */
  function Inc(b: nat): nat {
    (b + 1) % BYTE
  }

  function Goto(s: State, i: nat, pc: Pc): State
    requires i < |s.reqs|
  {
    s.(reqs := s.reqs[i := pc])
  }

  function Step(s: State, i: nat): State
    requires i < |s.reqs|
  {
    var l, c := s.l, s.c;
    match s.reqs[i]
    case WWait(val) => if val == l.write then Goto(s, i, WHeld) else s
    case WHeld => Goto(s, i, WLoad)
    case WLoad => Goto(s, i, WStore(l.write, l.read))
    case WStore(w, r) =>
      Goto(s.(l := l.(write := Inc(w), read := Inc(r)),
              c := c.(passed := c.passed + 1, completed := c.completed + 1)), i, WDone)
    case RWait(val) => if val == l.read then Goto(s, i, RLoad) else s
    case RLoad => Goto(s, i, RStore(l.read))
    case RStore(r) => Goto(s.(l := l.(read := Inc(r)), c := c.(passed := c.passed + 1)), i, RHeld)
    case RHeld => Goto(s.(l := l.(write := Inc(l.write)), c := c.(completed := c.completed + 1)), i, RDone)
    case WDone | RDone => s
  }

  /** At most `bound` requests are outstanding. */
  predicate Enabled(s: State, a: Action, bound: nat) {
    match a
    case Issue(_) => s.c.issued < s.c.completed + bound
    case Run(i) => i < |s.reqs|
  }

  function Next(s: State, a: Action, bound: nat): State
    requires Enabled(s, a, bound)
  {
    match a
    case Issue(write) => IssueStep(s, write)
    case Run(i) => Step(s, i)
  }

  predicate Steps(s: State, a: Action, s': State, bound: nat) {
    Enabled(s, a, bound) && s' == Next(s, a, bound)
  }

  ghost predicate IsRun(run: seq<State>, acts: seq<Action>, bound: nat) {
    && |run| == |acts| + 1 && run[0] == INITIAL
    && forall k: nat | k < |acts| :: Steps(run[k], acts[k], run[k + 1], bound)
  }

  // ----- The word -----

  /** The fetch-and-add on the 32-bit word touches neither byte, and its result shifted right by 16 is
      the old upper half. */
  lemma AddHigh(w: Word)
    requires WordOk(w)
    ensures WordOk(w.(high := (w.high + 1) % HALF))
    ensures (Pack(w) + HALF) % (HALF * HALF) == Pack(w.(high := (w.high + 1) % HALF))
    ensures Pack(w) / HALF == w.high
  {
    if w.high + 1 == HALF {
      assert Pack(w) + HALF == HALF * HALF + (w.write + BYTE * w.read);
    }
  }

  /** A store of 16 bits changes the two bytes and nothing else. */
  lemma StoreLow(w: Word, write: nat, read: nat)
    requires WordOk(w) && write < BYTE && read < BYTE
    ensures Pack(w) - Pack(w) % HALF + (write + BYTE * read) == Pack(w.(write := write, read := read))
  {
    assert Pack(w) == HALF * w.high + (w.write + BYTE * w.read);
  }

  /** Two numbers less than 256 apart are equal if their low bytes are. */
  lemma ByteEqual(a: nat, b: nat)
    requires a <= b < a + BYTE
    ensures a % BYTE == b % BYTE <==> a == b
  {
    assert a == BYTE * (a / BYTE) + a % BYTE && b == BYTE * (b / BYTE) + b % BYTE;
  }

  lemma ByteNext(a: nat)
    ensures Inc(a % BYTE) == (a + 1) % BYTE
  {
    assert a + 1 == BYTE * (a / BYTE) + (a % BYTE + 1);
  }

  lemma HighNext(a: nat)
    ensures (a % HALF + 1) % HALF == (a + 1) % HALF
  {
    assert a + 1 == HALF * (a / HALF) + (a % HALF + 1);
  }

  lemma SameRemainder(q: nat, r: nat)
    ensures (BYTE * q + r) % BYTE == r % BYTE
  {
    assert BYTE * q + r == BYTE * (q + r / BYTE) + r % BYTE;
  }

  /** The `users` byte is the low byte of the upper half. */
  lemma UsersByte(a: nat)
    ensures a % HALF % BYTE == a % BYTE
  {
    var q, r := a / HALF, a % HALF;
    assert a == BYTE * (BYTE * q) + r;
    SameRemainder(BYTE * q, r);
  }
}
