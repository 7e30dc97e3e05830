/**
 Whole runs of the deferred reader/writer lock: any sequence of calls by callers that use a fresh
 request for each lock call and unlock what they hold.
 */
module DeferredRwLockRuns {
  import opened Sets
  import opened Spec = DeferredRwLockSpec

  /** The lock with the requests issued so far, those that hold it, those that are finished, and the
      sequence in which requests were let in. */
  datatype System = System(
    lock: Lock, issued: set<Request>, active: set<Request>, finished: set<Request>, grants: seq<Request>)

  datatype Action =
    | Acquire(r: Request, first: bool)
    | Release(r: Request)

  const INITIAL := System(Lock([], 0, false), {}, {}, {}, [])

  function ReadersIn(active: set<Request>): set<Request> {
    set r: Request | r in active && r.cls == Read
  }

  /** The readers that are queued or hold the lock. */
  function ReadersAbout(s: System): set<Request> {
    ReadersIn(s.issued - s.finished)
  }

  /** Callers use fresh requests, of which at most `bound` readers at a time, and unlock only what they hold. */
  predicate Allowed(s: System, a: Action, bound: nat) {
    match a
    case Acquire(r, _) =>
      (forall x: Request | x in s.issued :: x.id != r.id) && (r.cls == Read ==> |ReadersAbout(s)| < bound)
    case Release(r) => r in s.active
  }

  function Call(s: System, a: Action): Outcome {
    match a
    case Acquire(r, first) => if r.cls == Write then WriteLock(s.lock, r, first) else ReadLock(s.lock, r, first)
    case Release(r) => if r.cls == Write then WrUnlock(s.lock) else RdUnlock(s.lock)
  }

  function SetOf(q: seq<Request>): set<Request> {
    set r: Request | r in q
  }

  /** The request an unlock releases. */
  function Leaving(a: Action): set<Request> {
    if a.Release? then {a.r} else {}
  }

  function After(s: System, a: Action, o: Outcome): System
    requires o.Done?
  {
    System(o.lock, if a.Acquire? then s.issued + {a.r} else s.issued,
           s.active - Leaving(a) + SetOf(o.granted), s.finished + Leaving(a), s.grants + o.granted)
  }

  /** A call whose `complete_rdlock`, if it makes one, meets its condition. */
  predicate Steps(s: System, a: Action, s': System, bound: nat) {
    Allowed(s, a, bound) && Call(s, a).Done? && s' == After(s, a, Call(s, a))
  }

  ghost predicate IsRun(run: seq<System>, acts: seq<Action>, bound: nat) {
    && |run| == |acts| + 1 && run[0] == INITIAL
    && forall k: nat | k < |acts| :: Steps(run[k], acts[k], run[k + 1], bound)
  }

  // ----- The invariant -----

  /** The lock's fields say who holds it, and nobody holds it beside a writer. */
  ghost predicate Holders(l: Lock, active: set<Request>) {
    && l.readers == |ReadersIn(active)|
    && (l.writer <==> exists w: Request :: w in active && w.cls == Write)
    && (forall w: Request | w in active && w.cls == Write :: active == {w})
  }

  /** A queue stands behind a writer that holds the lock, or behind readers and starts with a writer. */
  predicate Queued(l: Lock) {
    l.queue != [] && !l.writer ==> l.readers > 0 && l.queue[0].cls == Write
  }

  /** Every issued request is queued, active or finished, once, and was let in once unless queued. */
  ghost predicate Conserved(s: System) {
    && multiset(s.lock.queue) + multiset(s.active) + multiset(s.finished) == multiset(s.issued)
    && multiset(s.grants) == multiset(s.active) + multiset(s.finished)
  }

  ghost predicate Inv(s: System) {
    && Holders(s.lock, s.active) && Queued(s.lock) && Conserved(s)
    && |ReadersAbout(s)| < COUNT_RANGE
  }

  // ----- Selection conserves the queue -----

  lemma SelectSnoc(front: seq<Request>, last: Request, c: Class)
    ensures Select(front + [last], c) == Select(front, c) + if last.cls == c then [last] else []
  {
    assert (front + [last])[..|front|] == front;
  }

  lemma Snoc(q: seq<Request>, r: Request)
    ensures multiset(q + [r]) == multiset(q) + multiset{r}
  {
  }

  lemma SelectMultiset(front: seq<Request>, last: Request, c: Class)
    ensures multiset(Select(front + [last], c))
      == multiset(Select(front, c)) + if last.cls == c then multiset{last} else multiset{}
  {
    SelectSnoc(front, last, c);
    hide Select;
    if last.cls == c {
      Snoc(Select(front, c), last);
    } else {
      assert Select(front, c) + [] == Select(front, c);
    }
  }

  /** Two multisets that make up a third still do when an element is added to one of them. */
  lemma AddOne(rs: multiset<Request>, ws: multiset<Request>, all: multiset<Request>, one: multiset<Request>,
               rs': multiset<Request>, ws': multiset<Request>, left: bool)
    requires rs + ws == all
    requires rs' == rs + if left then one else multiset{}
    requires ws' == ws + if left then multiset{} else one
    ensures rs' + ws' == all + one
  {
  }

  /** `q` holds as many readers and writers as it holds requests, each as often. */
  ghost predicate Conserves(q: seq<Request>) {
    multiset(Select(q, Read)) + multiset(Select(q, Write)) == multiset(q)
  }

  lemma ConservesSnoc(front: seq<Request>, last: Request)
    requires Conserves(front)
    ensures Conserves(front + [last])
  {
    hide Select;
    SelectMultiset(front, last, Read);
    SelectMultiset(front, last, Write);
    Snoc(front, last);
    AddOne(multiset(Select(front, Read)), multiset(Select(front, Write)), multiset(front), multiset{last},
           multiset(Select(front + [last], Read)), multiset(Select(front + [last], Write)), last.cls == Read);
  }

  lemma {:induction false} AllConserve(q: seq<Request>)
    ensures Conserves(q)
  {
    if q != [] {
      hide Conserves;
      var front, last := q[..|q| - 1], q[|q| - 1];
      AllConserve(front);
      ConservesSnoc(front, last);
      assert q == front + [last];
    }
  }

  lemma SelectConserves(q: seq<Request>)
    ensures multiset(Select(q, Read)) + multiset(Select(q, Write)) == multiset(q)
  {
    AllConserve(q);
  }

  lemma {:induction false} SelectSize(q: seq<Request>)
    ensures |Select(q, Read)| + |Select(q, Write)| == |q|
  {
    if q != [] {
      SelectSize(q[..|q| - 1]);
    }
  }

  lemma {:induction false} SelectClass(q: seq<Request>, c: Class)
    ensures forall r: Request | r in Select(q, c) :: r in q && r.cls == c
    ensures forall r: Request | r in q && r.cls == c :: r in Select(q, c)
  {
    if q != [] {
      SelectClass(q[..|q| - 1], c);
      assert q == q[..|q| - 1] + [q[|q| - 1]];
    }
  }

  /** What a call does with the requests: those it lets in and those it leaves queued were queued or new. */
  ghost predicate Moves(before: multiset<Request>, o: Outcome)
    requires o.Done?
  {
    multiset(o.lock.queue) + multiset(o.granted) == before && |o.lock.queue| + |o.granted| == |before|
  }

  /** Requests let in once and not active before add up. */
  lemma LetIn(granted: seq<Request>, active: set<Request>, rest: multiset<Request>, issued: set<Request>)
    requires multiset(granted) + multiset(active) + rest == multiset(issued)
    ensures multiset(active + SetOf(granted)) == multiset(active) + multiset(granted)
    ensures active !! SetOf(granted) && |SetOf(granted)| == |granted|
  {
    forall r: Request
      ensures multiset(granted)[r] + multiset(active)[r] <= 1
    {
      assert (multiset(granted) + multiset(active) + rest)[r] <= 1;
    }
    forall r: Request | r in active
      ensures r !in SetOf(granted)
    {
      assert multiset(active)[r] == 1;
    }
    assert multiset(SetOf(granted)) == multiset(granted);
    assert |multiset(SetOf(granted))| == |SetOf(granted)|;
  }

  // ----- Every allowed call keeps the invariant -----

  lemma ReadersAdd(active: set<Request>, granted: seq<Request>)
    requires active !! SetOf(granted) && |SetOf(granted)| == |granted|
    requires forall r: Request | r in granted :: r.cls == Read
    ensures |ReadersIn(active + SetOf(granted))| == |ReadersIn(active)| + |granted|
  {
    assert ReadersIn(active + SetOf(granted)) == ReadersIn(active) + SetOf(granted);
  }

  lemma {:induction false} SelectCons(r: Request, q: seq<Request>, c: Class)
    ensures Select([r] + q, c) == (if r.cls == c then [r] else []) + Select(q, c)
  {
    if q == [] {
      assert ([r] + q)[..0] == [];
    } else {
      SelectCons(r, q[..|q| - 1], c);
      assert ([r] + q)[..|q|] == [r] + q[..|q| - 1];
    }
  }

  lemma SelectEnqueue(l: Lock, r: Request, first: bool)
    ensures |Select(Enqueue(l, r, first).queue, r.cls)| == |Select(l.queue, r.cls)| + 1
  {
    SelectCons(r, l.queue, r.cls);
    SelectSnoc(l.queue, r, r.cls);
  }

  lemma NoDuplicates(q: seq<Request>, rest: multiset<Request>, all: set<Request>)
    requires multiset(q) + rest == multiset(all)
    ensures |SetOf(q)| == |q|
  {
    forall r: Request
      ensures multiset(q)[r] <= 1
    {
      assert (multiset(q) + rest)[r] <= 1;
    }
    assert multiset(SetOf(q)) == multiset(q);
    assert |multiset(SetOf(q))| == |SetOf(q)|;
  }

  /** The readers that are queued, `rs`, and those inside are different and all among the readers about. */
  lemma ReadersApart(s: System, rs: seq<Request>)
    requires Conserved(s) && forall r: Request | r in rs :: r in s.lock.queue && r.cls == Read
    ensures SetOf(rs) !! ReadersIn(s.active) && SetOf(rs) + ReadersIn(s.active) <= ReadersAbout(s)
  {
    forall r: Request | r in rs || r in s.active
      ensures r in s.issued && r !in s.finished && !(r in rs && r in s.active)
    {
      assert (multiset(s.lock.queue) + multiset(s.active) + multiset(s.finished))[r] == multiset(s.issued)[r];
    }
  }

  /** The count has room for every reader that may be let in. */
  lemma ReadersBound(s: System)
    requires Conserved(s)
    ensures |Select(s.lock.queue, Read)| + |ReadersIn(s.active)| <= |ReadersAbout(s)|
  {
    hide Select;
    var rs, ws := Select(s.lock.queue, Read), Select(s.lock.queue, Write);
    SelectClass(s.lock.queue, Read);
    SelectConserves(s.lock.queue);
    ReadersApart(s, rs);
    assert multiset(rs) + (multiset(ws) + multiset(s.active) + multiset(s.finished)) == multiset(s.issued);
    NoDuplicates(rs, multiset(ws) + multiset(s.active) + multiset(s.finished), s.issued);
    SubsetSize(SetOf(rs) + ReadersIn(s.active), ReadersAbout(s));
  }

  /** The holders after `granted` have been let in beside `active`. */
  ghost predicate LetsIn(active: set<Request>, o: Outcome)
    requires o.Done?
  {
    active !! SetOf(o.granted) && |SetOf(o.granted)| == |o.granted| ==>
      Holders(o.lock, active + SetOf(o.granted)) && Queued(o.lock)
  }

  lemma CompleteMoves(l: Lock)
    requires Splits(l.queue)
    ensures Moves(multiset(l.queue), Complete(l))
  {
    hide Select, AddCount, Splits;
    SelectConserves(l.queue);
    SelectSize(l.queue);
  }

  lemma CompleteLetsIn(l: Lock, active: set<Request>)
    requires Holders(l, active) && !l.writer && l.queue != [] && l.queue[0].cls == Read && Splits(l.queue)
    requires |Select(l.queue, Read)| + |ReadersIn(active)| < COUNT_RANGE
    ensures LetsIn(active, Complete(l))
  {
    hide Select, AddCount, Splits;
    var granted := Select(l.queue, Read);
    SelectClass(l.queue, Read);
    SelectClass(l.queue, Write);
    if active !! SetOf(granted) && |SetOf(granted)| == |granted| {
      ReadersAdd(active, granted);
      AddCountIs(l.readers, |granted|);
      assert l.queue[0] in granted;
    }
  }

  /** With nobody inside, the head of the queue is let in. */
  lemma GrantLetsIn(l: Lock)
    requires Holders(l, {}) && !l.writer && Grant(l).Done? && |Select(l.queue, Read)| < COUNT_RANGE
    ensures Moves(multiset(l.queue), Grant(l)) && LetsIn({}, Grant(l))
  {
    assert ReadersIn({}) == {};
    if l.queue == [] {
    } else if l.queue[0].cls == Read {
      CompleteMoves(l);
      CompleteLetsIn(l, {});
    } else {
      assert l.queue == [l.queue[0]] + l.queue[1..];
      assert ReadersIn({l.queue[0]}) == {};
      assert {} + SetOf([l.queue[0]]) == {l.queue[0]};
    }
  }

  lemma NobodyInside(l: Lock, active: set<Request>)
    requires Holders(l, active) && l.readers == 0 && !l.writer
    ensures active == {}
  {
    assert ReadersIn(active) == {} && active == ReadersIn(active);
  }

  lemma EnqueueMoves(l: Lock, r: Request, first: bool)
    ensures multiset(Enqueue(l, r, first).queue) == multiset(l.queue) + multiset{r}
  {
    assert multiset([r] + l.queue) == multiset{r} + multiset(l.queue);
  }

  lemma AcquireWriteLetsIn(s: System, r: Request, first: bool)
    requires Inv(s) && r.cls == Write
    ensures var o := WriteLock(s.lock, r, first);
      Moves(multiset(s.lock.queue) + multiset{r}, o) && LetsIn(s.active, o)
  {
    var l := s.lock;
    EnqueueMoves(l, r, first);
    assert SetOf([]) == {} && s.active + {} == s.active && SetOf([r]) == {r};
    if l.readers == 0 && !l.writer {
      NobodyInside(l, s.active);
      assert ReadersIn({r}) == {};
      assert {} + {r} == {r};
    }
  }

  /** A reader that finds neither a queue nor a writer joins those inside. */
  lemma JoinLetsIn(s: System, r: Request)
    requires Inv(s) && r.cls == Read && s.lock.queue == [] && !s.lock.writer && |ReadersAbout(s)| + 1 < COUNT_RANGE
    ensures LetsIn(s.active, Done(s.lock.(readers := Bump(s.lock.readers)), [r]))
  {
    ReadersBound(s);
    if r !in s.active {
      assert SetOf([r]) == {r};
      ReadersAdd(s.active, [r]);
    }
  }

  lemma NobodyLetsIn(active: set<Request>, l': Lock)
    requires Holders(l', active) && Queued(l')
    ensures LetsIn(active, Done(l', []))
  {
    assert SetOf([]) == {} && active + {} == active;
  }

  lemma AcquireReadMoves(s: System, r: Request, first: bool)
    requires ReadLock(s.lock, r, first).Done?
    ensures Moves(multiset(s.lock.queue) + multiset{r}, ReadLock(s.lock, r, first))
  {
    hide Splits, Select, AddCount;
    var l' := Enqueue(s.lock, r, first);
    EnqueueMoves(s.lock, r, first);
    if l'.queue[0].cls == Read && !l'.writer && Splits(l'.queue) {
      CompleteMoves(l');
    }
  }

  lemma AcquireReadLetsIn(s: System, r: Request, first: bool)
    requires Inv(s) && r.cls == Read && |ReadersAbout(s)| + 1 < COUNT_RANGE
    requires ReadLock(s.lock, r, first).Done?
    ensures var o := ReadLock(s.lock, r, first);
      Moves(multiset(s.lock.queue) + multiset{r}, o) && LetsIn(s.active, o)
  {
    AcquireReadMoves(s, r, first);
    ReadersBound(s);
    hide Splits, Select, AddCount, Moves, Conserved, LetsIn;
    var l := s.lock;
    if l.queue == [] && !l.writer {
      JoinLetsIn(s, r);
    } else {
      var l' := Enqueue(l, r, first);
      assert Holders(l', s.active);
      if l'.queue[0].cls == Read && !l'.writer {
        SelectEnqueue(l, r, first);
        CompleteLetsIn(l', s.active);
      } else {
        NobodyLetsIn(s.active, l');
      }
    }
  }

  lemma ReleaseLetsIn(s: System, r: Request)
    requires Inv(s) && r in s.active && Call(s, Release(r)).Done?
    ensures var o := Call(s, Release(r));
      Moves(multiset(s.lock.queue), o) && LetsIn(s.active - {r}, o)
  {
    ReadersBound(s);
    hide Splits, Select, AddCount;
    var l, active := s.lock, s.active - {r};
    if r.cls == Write {
      assert active == {} && ReadersIn({r}) == {} && ReadersIn({}) == {};
      GrantLetsIn(l.(writer := false));
    } else {
      assert r in ReadersIn(s.active);
      assert ReadersIn(active) == ReadersIn(s.active) - {r};
      var l' := l.(readers := Drop(l.readers));
      assert Holders(l', active);
      if l'.readers == 0 {
        NobodyInside(l', active);
        GrantLetsIn(l');
      } else {
        assert SetOf([]) == {} && active + {} == active;
      }
    }
  }

  lemma Rearranged(q: multiset<Request>, q': multiset<Request>, g: multiset<Request>, a: multiset<Request>,
                   a': multiset<Request>, f: multiset<Request>, left: multiset<Request>,
                   added: multiset<Request>, all: multiset<Request>)
    requires q + a + f == all && q' + g == q + added && a == a' + left
    ensures g + a' + (q' + (f + left)) == all + added
  {
    forall r: Request
      ensures (g + a' + (q' + (f + left)))[r] == (all + added)[r]
    {
      assert (q + a + f)[r] == all[r] && (q' + g)[r] == (q + added)[r] && a[r] == (a' + left)[r];
    }
  }

  /** The request a lock call brings. */
  function Arriving(a: Action): multiset<Request> {
    if a.Acquire? then multiset{a.r} else multiset{}
  }

  /** How the three sets change. */
  lemma SetsAfter(s: System, a: Action, o: Outcome, bound: nat)
    requires Conserved(s) && Allowed(s, a, bound) && o.Done?
    ensures multiset(After(s, a, o).issued) == multiset(s.issued) + Arriving(a)
    ensures multiset(s.active) == multiset(s.active - Leaving(a)) + multiset(Leaving(a))
    ensures multiset(After(s, a, o).finished) == multiset(s.finished) + multiset(Leaving(a))
  {
    if a.Release? {
      assert (multiset(s.lock.queue) + multiset(s.active) + multiset(s.finished))[a.r] == multiset(s.issued)[a.r];
    }
  }

  lemma StepConserves(s: System, a: Action, o: Outcome, bound: nat)
    requires Conserved(s) && Allowed(s, a, bound) && o.Done?
    requires Moves(multiset(s.lock.queue) + Arriving(a), o)
    ensures Conserved(After(s, a, o))
    ensures (s.active - Leaving(a)) !! SetOf(o.granted) && |SetOf(o.granted)| == |o.granted|
  {
    hide Arriving, Allowed, SetOf;
    var s' := After(s, a, o);
    SetsAfter(s, a, o, bound);
    Rearranged(multiset(s.lock.queue), multiset(o.lock.queue), multiset(o.granted), multiset(s.active),
               multiset(s.active - Leaving(a)), multiset(s.finished), multiset(Leaving(a)), Arriving(a),
               multiset(s.issued));
    LetIn(o.granted, s.active - Leaving(a), multiset(o.lock.queue) + multiset(s'.finished), s'.issued);
  }

  lemma ReadersAfter(s: System, a: Action, o: Outcome)
    requires o.Done?
    ensures |ReadersAbout(After(s, a, o))| <= |ReadersAbout(s)| + if a.Acquire? && a.r.cls == Read then 1 else 0
  {
    var s' := After(s, a, o);
    if a.Acquire? && a.r.cls == Read {
      SubsetSize(ReadersAbout(s'), ReadersAbout(s) + {a.r});
    } else {
      SubsetSize(ReadersAbout(s'), ReadersAbout(s));
    }
  }

  lemma AcquireInv(s: System, a: Action, o: Outcome, bound: nat)
    requires Inv(s) && Allowed(s, a, bound) && bound < COUNT_RANGE && a.Acquire? && o.Done?
    requires Moves(multiset(s.lock.queue) + multiset{a.r}, o) && LetsIn(s.active, o)
    ensures Inv(After(s, a, o))
  {
    StepConserves(s, a, o, bound);
    ReadersAfter(s, a, o);
    assert s.active - {} == s.active;
  }

  lemma ReleaseInv(s: System, a: Action, o: Outcome, bound: nat)
    requires Inv(s) && Allowed(s, a, bound) && a.Release? && o.Done?
    requires Moves(multiset(s.lock.queue), o) && LetsIn(s.active - {a.r}, o)
    ensures Inv(After(s, a, o))
  {
    StepConserves(s, a, o, bound);
    ReadersAfter(s, a, o);
  }

  /** Every call that a caller may make, and that does not go wrong, keeps the invariant, as long as the
      count can hold the readers. */
  lemma StepInv(s: System, a: Action, bound: nat)
    requires Inv(s) && Allowed(s, a, bound) && bound < COUNT_RANGE && Call(s, a).Done?
    ensures Inv(After(s, a, Call(s, a)))
  {
    hide Inv, ReadLock, WriteLock, WrUnlock, RdUnlock;
    match a
    case Acquire(r, first) =>
      if r.cls == Write { AcquireWriteLetsIn(s, r, first); } else { AcquireReadLetsIn(s, r, first); }
      AcquireInv(s, a, Call(s, a), bound);
    case Release(r) =>
      ReleaseLetsIn(s, r);
      ReleaseInv(s, a, Call(s, a), bound);
  }

  lemma {:induction false} RunInv(run: seq<System>, acts: seq<Action>, bound: nat, k: nat)
    requires IsRun(run, acts, bound) && bound < COUNT_RANGE && k < |run|
    ensures Inv(run[k])
  {
    if k == 0 {
      assert ReadersIn({}) == {} && ReadersAbout(INITIAL) == {};
    } else {
      RunInv(run, acts, bound, k - 1);
      assert Steps(run[k - 1], acts[k - 1], run[k - 1 + 1], bound);
      StepInv(run[k - 1], acts[k - 1], bound);
    }
  }

  // ----- What holds in every run -----

  /** A writer holds the lock alone, and `writer` and `reader_count` say who holds it. */
  lemma Exclusion(run: seq<System>, acts: seq<Action>, bound: nat, k: nat)
    requires IsRun(run, acts, bound) && bound < COUNT_RANGE && k < |run|
    ensures forall w: Request, r: Request | w in run[k].active && r in run[k].active && w.cls == Write :: r == w
    ensures run[k].lock.readers == |ReadersIn(run[k].active)|
    ensures run[k].lock.writer <==> exists w: Request :: w in run[k].active && w.cls == Write
    ensures run[k].lock.writer ==> run[k].lock.readers == 0
  {
    RunInv(run, acts, bound, k);
    if run[k].lock.writer {
      var w: Request :| w in run[k].active && w.cls == Write;
      assert ReadersIn({w}) == {};
    }
  }

  /** Every issued request is in exactly one of queued, active and finished, and has been let in once
      if it is no longer queued, and not at all otherwise. */
  lemma EachOnce(run: seq<System>, acts: seq<Action>, bound: nat, k: nat, r: Request)
    requires IsRun(run, acts, bound) && bound < COUNT_RANGE && k < |run|
    ensures var s := run[k];
      multiset(s.lock.queue)[r] + multiset(s.active)[r] + multiset(s.finished)[r] == (if r in s.issued then 1 else 0)
    ensures var s := run[k];
      multiset(s.grants)[r] == (if r in s.active || r in s.finished then 1 else 0)
  {
    RunInv(run, acts, bound, k);
    var s := run[k];
    assert (multiset(s.lock.queue) + multiset(s.active) + multiset(s.finished))[r] == multiset(s.issued)[r];
    assert (multiset(s.active) + multiset(s.finished))[r] == multiset(s.grants)[r];
  }

  /** Nobody waits for a lock that is free: a queue stands behind a writer that holds the lock, or
      behind readers that hold it and begins with a writer. */
  lemma QueueHasHolders(run: seq<System>, acts: seq<Action>, bound: nat, k: nat)
    requires IsRun(run, acts, bound) && bound < COUNT_RANGE && k < |run| && run[k].lock.queue != []
    ensures run[k].active != {}
    ensures !run[k].lock.writer ==> run[k].lock.readers > 0 && run[k].lock.queue[0].cls == Write
  {
    RunInv(run, acts, bound, k);
    assert ReadersIn({}) == {};
  }

  /** Lines 174-176 and 213-214 are never reached: readlock never finds a reader it may let in at the
      head of the queue it has joined at the tail, and rdunlock never finds one at the head. */
  lemma DeadBranches(run: seq<System>, acts: seq<Action>, bound: nat, k: nat, r: Request)
    requires IsRun(run, acts, bound) && bound < COUNT_RANGE && k < |run|
    ensures var l := run[k].lock;
      !(l.queue == [] && !l.writer) ==> l.writer || Enqueue(l, r, false).queue[0].cls == Write
    ensures var l := run[k].lock;
      r in run[k].active && r.cls == Read && l.queue != [] ==> l.queue[0].cls == Write
  {
    RunInv(run, acts, bound, k);
  }

  lemma ReadLockBreaks(l: Lock, r: Request, first: bool)
    requires r.cls == Read && (l.queue != [] && !l.writer ==> l.queue[0].cls == Write)
    ensures ReadLock(l, r, first).Broken? <==>
      first && !l.writer && l.queue != [] && (|l.queue| == 1 || l.queue[|l.queue| - 1].cls == Read)
  {
    hide Select, AddCount;
    if first && !l.writer && l.queue != [] {
      var q := [r] + l.queue;
      assert ReadersEnd(q, 1) == 1;
      assert ReadersEnd(q, 0) == 1;
    }
  }

  /** Exactly which calls of a run go wrong: readlock_priority when the queue is a single request or
      ends in a reader while readers hold the lock, and wrunlock when the queue begins with a reader
      and what follows its leading readers is a single request or ends in a reader. */
  lemma BreaksExactly(run: seq<System>, acts: seq<Action>, bound: nat, k: nat, a: Action)
    requires IsRun(run, acts, bound) && bound < COUNT_RANGE && k < |run| && Allowed(run[k], a, bound)
    ensures var q := run[k].lock.queue;
      Call(run[k], a).Broken? <==>
        if a.Acquire? then
          a.r.cls == Read && a.first && !run[k].lock.writer && q != [] && (|q| == 1 || q[|q| - 1].cls == Read)
        else
          a.r.cls == Write && q != [] && q[0].cls == Read && !Splits(q)
  {
    RunInv(run, acts, bound, k);
    hide Splits, Select, IsRun, Conserved, Holders;
    if a.Release? {
      if a.r.cls == Read {
        DeadBranches(run, acts, bound, k, a.r);
      }
    } else if a.r.cls == Read {
      hide ReadLock;
      ReadLockBreaks(run[k].lock, a.r, a.first);
    }
  }

  // ----- Who is let in, and where the others wait -----

  /** Nobody else is let in, and `r` waits at the front or at the end, with the old queue behind or before it. */
  predicate Waits(s: System, s': System, r: Request, first: bool) {
    && s'.active == s.active && s'.grants == s.grants
    && s'.lock.queue == if first then [r] + s.lock.queue else s.lock.queue + [r]
  }

  /** All readers of `q`, in order, are let in beside `inside`, and its writers go on waiting, in order. */
  predicate ReadersLetIn(s: System, s': System, q: seq<Request>, inside: set<Request>) {
    && s'.lock.queue == Select(q, Write) && s'.grants == s.grants + Select(q, Read)
    && s'.active == inside + SetOf(Select(q, Read))
  }

  ghost predicate NoWriter(active: set<Request>) {
    forall w: Request | w in active :: w.cls == Read
  }

  /** A lock call, by who is inside and who waits.  A writer is let in if nobody is inside, and waits
      otherwise.  A reader is let in if no writer is inside and nobody waits; with priority it is let in past
      waiting writers too, and every waiting reader with it; otherwise it waits. */
  ghost predicate AcquireLaw(s: System, s': System, r: Request, first: bool) {
    var q := s.lock.queue;
    && s'.issued == s.issued + {r} && s'.finished == s.finished
    && if if r.cls == Write then s.active == {} else NoWriter(s.active) && q == [] then
         s'.active == s.active + {r} && s'.grants == s.grants + [r] && s'.lock.queue == q
       else if r.cls == Read && NoWriter(s.active) && first then ReadersLetIn(s, s', [r] + q, s.active)
       else Waits(s, s', r, first)
  }

  /** An unlock call.  While somebody is still inside nobody is let in; after that it is the first of the queue,
      with all other readers if it is one. */
  predicate ReleaseLaw(s: System, s': System, r: Request) {
    var q, rest := s.lock.queue, s.active - {r};
    && s'.issued == s.issued && s'.finished == s.finished + {r}
    && if rest != {} || q == [] then s'.active == rest && s'.lock.queue == q && s'.grants == s.grants
       else if q[0].cls == Read then ReadersLetIn(s, s', q, {})
       else s'.active == {q[0]} && s'.lock.queue == q[1..] && s'.grants == s.grants + [q[0]]
  }

  lemma NoWriterField(l: Lock, active: set<Request>)
    requires Holders(l, active)
    ensures l.writer <==> !NoWriter(active)
    ensures l.readers == 0 && !l.writer <==> active == {}
  {
    if l.readers == 0 && !l.writer {
      NobodyInside(l, active);
    }
    assert ReadersIn({}) == {};
  }

  lemma SetOfNone()
    ensures SetOf([]) == {}
    ensures forall a: set<Request> :: a + {} == a && a - {} == a && {} + a == a
    ensures forall g: seq<Request> :: g + [] == g
  {
  }

  lemma SetOfOne(r: Request)
    ensures SetOf([r]) == {r}
  {
  }

  lemma WriterAcquires(s: System, r: Request, first: bool)
    requires Inv(s) && r.cls == Write
    ensures AcquireLaw(s, After(s, Acquire(r, first), Call(s, Acquire(r, first))), r, first)
  {
    hide Inv, NoWriter, SetOf;
    assert Holders(s.lock, s.active) by { HoldersOf(s); }
    NoWriterField(s.lock, s.active);
    SetOfNone();
    SetOfOne(r);
  }

  lemma HoldersOf(s: System)
    requires Inv(s)
    ensures Holders(s.lock, s.active) && Queued(s.lock)
  {
  }

  lemma ReaderAcquires(s: System, r: Request, first: bool)
    requires Inv(s) && r.cls == Read && Call(s, Acquire(r, first)).Done?
    ensures AcquireLaw(s, After(s, Acquire(r, first), Call(s, Acquire(r, first))), r, first)
  {
    HoldersOf(s);
    hide Inv, NoWriter, SetOf, Holders, Select, AddCount, Splits;
    NoWriterField(s.lock, s.active);
    SetOfNone();
    SetOfOne(r);
  }

  lemma WriterReleases(s: System, r: Request)
    requires Inv(s) && r in s.active && r.cls == Write && Call(s, Release(r)).Done?
    ensures ReleaseLaw(s, After(s, Release(r), Call(s, Release(r))), r)
  {
    assert s.active - {r} == {};
    hide Inv, SetOf, Holders, Select, AddCount, Splits;
    SetOfNone();
    if s.lock.queue != [] {
      SetOfOne(s.lock.queue[0]);
    }
  }

  lemma ReaderReleases(s: System, r: Request)
    requires Inv(s) && r in s.active && r.cls == Read && Call(s, Release(r)).Done?
    ensures ReleaseLaw(s, After(s, Release(r), Call(s, Release(r))), r)
  {
    HoldersOf(s);
    LastReader(s, r);
    hide Inv, SetOf, Holders, Select, AddCount, Splits;
    SetOfNone();
    if s.lock.queue != [] {
      SetOfOne(s.lock.queue[0]);
    }
  }

  /** The count drops to zero with the last reader. */
  lemma LastReader(s: System, r: Request)
    requires Inv(s) && r in s.active && r.cls == Read
    ensures Drop(s.lock.readers) == 0 <==> s.active - {r} == {}
  {
    assert ReadersIn(s.active) == s.active;
    assert |s.active - {r}| == |s.active| - 1;
  }

  /** Every call of every run does what its law says. */
  lemma CallsObeyLaws(run: seq<System>, acts: seq<Action>, bound: nat, k: nat)
    requires IsRun(run, acts, bound) && bound < COUNT_RANGE && k < |acts|
    ensures acts[k].Acquire? ==> AcquireLaw(run[k], run[k + 1], acts[k].r, acts[k].first)
    ensures acts[k].Release? ==> ReleaseLaw(run[k], run[k + 1], acts[k].r)
  {
    RunInv(run, acts, bound, k);
    assert Steps(run[k], acts[k], run[k + 1], bound);
    hide Inv, Call, After, AcquireLaw, ReleaseLaw;
    match acts[k]
    case Acquire(r, first) =>
      if r.cls == Write { WriterAcquires(run[k], r, first); } else { ReaderAcquires(run[k], r, first); }
    case Release(r) =>
      if r.cls == Write { WriterReleases(run[k], r); } else { ReaderReleases(run[k], r); }
  }

  // ----- Runs in which calls go wrong -----

  lemma Extend(run: seq<System>, acts: seq<Action>, bound: nat, a: Action, s: System)
    returns (run': seq<System>, acts': seq<Action>)
    requires IsRun(run, acts, bound) && Steps(run[|acts|], a, s, bound)
    ensures IsRun(run', acts', bound) && run'[|acts'|] == s
  {
    hide Steps;
    run', acts' := run + [s], acts + [a];
    forall k: nat | k < |acts'|
      ensures Steps(run'[k], acts'[k], run'[k + 1], bound)
    {
      if k < |acts| {
        assert Steps(run[k], acts[k], run[k + 1], bound);
      }
    }
  }

  const FIRST_WRITER := Request(0, Write)
  const READER := Request(1, Read)
  const LAST_WRITER := Request(2, Write)
  const LAST_READER := Request(3, Read)

  /** The state in which the first writer holds the lock and `q` waits. */
  function Behind(q: seq<Request>): System {
    System(Lock(q, 0, true), {FIRST_WRITER} + SetOf(q), {FIRST_WRITER}, {}, [FIRST_WRITER])
  }

  lemma ReachBehind(bound: nat)
    ensures Steps(INITIAL, Acquire(FIRST_WRITER, false), Behind([]), bound)
  {
    assert SetOf([]) == {} && SetOf([FIRST_WRITER]) == {FIRST_WRITER};
  }

  lemma BehindGrows(q: seq<Request>, r: Request, bound: nat)
    requires Allowed(Behind(q), Acquire(r, false), bound)
    ensures Steps(Behind(q), Acquire(r, false), Behind(q + [r]), bound)
  {
    hide Allowed;
    var s := Behind(q);
    assert SetOf([]) == {} && s.active + {} == s.active && s.active - {} == s.active && s.finished + {} == s.finished;
    assert SetOf(q + [r]) == SetOf(q) + {r};
    assert s.grants + [] == s.grants;
  }

  lemma BehindAllows(bound: nat)
    requires bound > 0
    ensures Allowed(Behind([]), Acquire(READER, false), bound)
    ensures Allowed(Behind([READER]), Acquire(LAST_WRITER, false), bound)
  {
    assert SetOf([]) == {};
    assert ReadersAbout(Behind([])) == {};
  }

  /** A writer holds the lock, and a reader and a writer wait. */
  lemma WriterThenTwo(bound: nat) returns (run: seq<System>, acts: seq<Action>)
    requires bound > 0
    ensures IsRun(run, acts, bound) && run[|acts|] == Behind([READER, LAST_WRITER])
  {
    BehindAllows(bound);
    hide Steps, Behind, Allowed;
    ReachBehind(bound);
    BehindGrows([], READER, bound);
    BehindGrows([READER], LAST_WRITER, bound);
    assert [] + [READER] == [READER] && [READER] + [LAST_WRITER] == [READER, LAST_WRITER];
    run, acts := Extend([INITIAL], [], bound, Acquire(FIRST_WRITER, false), Behind([]));
    run, acts := Extend(run, acts, bound, Acquire(READER, false), Behind([READER]));
    run, acts := Extend(run, acts, bound, Acquire(LAST_WRITER, false), Behind([READER, LAST_WRITER]));
  }

  /** Then the first writer's wrunlock dereferences null. */
  lemma UnlockCanCrash(bound: nat) returns (run: seq<System>, acts: seq<Action>, a: Action)
    requires bound > 0
    ensures IsRun(run, acts, bound) && Allowed(run[|acts|], a, bound) && a.Release? && a.r.cls == Write
    ensures Call(run[|acts|], a) == Broken && !NoNullDereference(run[|acts|].lock.queue)
  {
    run, acts := WriterThenTwo(bound);
    a := Release(FIRST_WRITER);
    assert ReadersEnd(run[|acts|].lock.queue, 1) == 1;
  }

  /** With one more reader waiting, it leaves `tail` on a request that is no longer queued. */
  lemma UnlockCanLoseTail(bound: nat) returns (run: seq<System>, acts: seq<Action>, a: Action)
    requires bound > 1
    ensures IsRun(run, acts, bound) && Allowed(run[|acts|], a, bound) && a.Release? && a.r.cls == Write
    ensures var q := run[|acts|].lock.queue;
      Call(run[|acts|], a) == Broken && NoNullDereference(q) && !TailStays(q)
  {
    run, acts := WriterThenTwo(bound);
    var q := [READER, LAST_WRITER, LAST_READER];
    assert ReadersAbout(Behind([READER, LAST_WRITER])) == {READER};
    BehindGrows([READER, LAST_WRITER], LAST_READER, bound);
    assert [READER, LAST_WRITER] + [LAST_READER] == q;
    run, acts := Extend(run, acts, bound, Acquire(LAST_READER, false), Behind(q));
    a := Release(FIRST_WRITER);
    assert ReadersEnd(q, 1) == 1;
  }

  // ----- The exact bound on readers -----

  function FirstReaders(m: nat): (rs: seq<Request>)
    ensures |rs| == m && forall k: nat | k < m :: rs[k] == Request(k, Read)
  {
    seq(m, k requires 0 <= k < m => Request(k, Read))
  }

  /** `m` readers hold the lock and nobody waits. */
  function Crowd(m: nat): System {
    System(Lock([], m % COUNT_RANGE, false), SetOf(FirstReaders(m)), SetOf(FirstReaders(m)), {}, FirstReaders(m))
  }

  lemma {:induction false} CrowdSize(m: nat)
    ensures |SetOf(FirstReaders(m))| == m
  {
    if m == 0 {
      assert SetOf([]) == {};
    } else {
      CrowdSize(m - 1);
      assert FirstReaders(m) == FirstReaders(m - 1) + [Request(m - 1, Read)];
      assert SetOf(FirstReaders(m)) == SetOf(FirstReaders(m - 1)) + {Request(m - 1, Read)};
    }
  }

  lemma CrowdAllows(m: nat, bound: nat)
    requires m < bound
    ensures Allowed(Crowd(m), Acquire(Request(m, Read), false), bound)
  {
    CrowdSize(m);
    assert ReadersAbout(Crowd(m)) == SetOf(FirstReaders(m));
  }

  lemma SetOfSnoc(q: seq<Request>, r: Request)
    ensures SetOf(q + [r]) == SetOf(q) + {r}
  {
  }

  /** A reader joins, with nobody queued or leaving. */
  lemma Joined(s: System, r: Request)
    requires r.cls == Read && s.lock.queue == [] && !s.lock.writer
    ensures var o := Call(s, Acquire(r, false));
      o.Done? && After(s, Acquire(r, false), o)
        == System(s.lock.(readers := Bump(s.lock.readers)), s.issued + {r}, s.active + {r}, s.finished, s.grants + [r])
  {
    assert SetOf([r]) == {r} && s.active - {} == s.active && s.finished + {} == s.finished;
  }

  lemma CrowdGrows(m: nat, bound: nat)
    requires m < bound
    ensures Steps(Crowd(m), Acquire(Request(m, Read), false), Crowd(m + 1), bound)
  {
    CrowdAllows(m, bound);
    BumpIs(m);
    Joined(Crowd(m), Request(m, Read));
    SetOfSnoc(FirstReaders(m), Request(m, Read));
    hide Bump, SetOf, Allowed, Call, After;
    assert FirstReaders(m + 1) == FirstReaders(m) + [Request(m, Read)];
  }

  lemma {:induction false} ReachCrowd(m: nat, bound: nat) returns (run: seq<System>, acts: seq<Action>)
    requires m <= bound
    ensures IsRun(run, acts, bound) && run[|acts|] == Crowd(m)
  {
    if m == 0 {
      run, acts := [INITIAL], [];
      assert SetOf([]) == {};
    } else {
      run, acts := ReachCrowd(m - 1, bound);
      CrowdGrows(m - 1, bound);
      run, acts := Extend(run, acts, bound, Acquire(Request(m - 1, Read), false), Crowd(m));
    }
  }

  /** A writer holds the lock and somebody else does too. */
  predicate Shared(s: System, w: Request, r: Request) {
    w in s.active && r in s.active && w.cls == Write && r != w
  }

  /** With 2^16 readers inside the count is zero again, and a writer gets in. */
  lemma CountWraps(bound: nat) returns (run: seq<System>, acts: seq<Action>, w: Request)
    requires bound >= COUNT_RANGE
    ensures IsRun(run, acts, bound)
    ensures forall k: nat | k < COUNT_RANGE :: Shared(run[|acts|], w, Request(k, Read))
  {
    run, acts := ReachCrowd(COUNT_RANGE, bound);
    w := Request(COUNT_RANGE, Write);
    var s := run[|acts|];
    assert s.lock == Lock([], 0, false);
    var s' := After(s, Acquire(w, false), WriteLock(s.lock, w, false));
    forall k: nat | k < COUNT_RANGE
      ensures Shared(s', w, Request(k, Read))
    {
      assert FirstReaders(COUNT_RANGE)[k] == Request(k, Read);
    }
    run, acts := Extend(run, acts, bound, Acquire(w, false), s');
  }

  ghost predicate NeverShared(bound: nat) {
    forall run, acts, k: nat, w: Request, r: Request | IsRun(run, acts, bound) && k < |run| :: !Shared(run[k], w, r)
  }

  /** A writer is alone in all runs if and only if the count can hold all readers there may be. */
  lemma NeverSharedIff(bound: nat)
    ensures NeverShared(bound) <==> bound < COUNT_RANGE
  {
    if bound < COUNT_RANGE {
      forall run, acts, k: nat, w: Request, r: Request | IsRun(run, acts, bound) && k < |run|
        ensures !Shared(run[k], w, r)
      {
        Exclusion(run, acts, bound, k);
      }
    } else {
      var run, acts, w := CountWraps(bound);
      assert Shared(run[|acts|], w, Request(0, Read));
    }
  }
}
