/** Whole runs of the deferred lock carried out on the heap object. */
module DeferredRwLockCode {
  import opened Wrappers
  import opened Spec = DeferredRwLockSpec
  import opened Heap = DeferredRwLock
  import opened Runs = DeferredRwLockRuns

  /** The system that a schedule leads to, when what callers may not do is left out, unless a call of it
      goes wrong. */
  function Play(acts: seq<Action>, bound: nat): Option<System> {
    if acts == [] then Some(INITIAL)
    else
      var n := |acts| - 1;
      match Play(acts[..n], bound)
      case None => None
      case Some(s) =>
        if !Allowed(s, acts[n], bound) then Some(s)
        else
          var o := Call(s, acts[n]);
          if o.Done? then Some(After(s, acts[n], o)) else None
  }

  lemma {:induction false} PlayPrefix(acts: seq<Action>, bound: nat, k: nat)
    requires k <= |acts| && Play(acts, bound).Some?
    ensures Play(acts[..k], bound).Some?
  {
    if k == |acts| {
      assert acts[..k] == acts;
    } else {
      PlayPrefix(acts[..|acts| - 1], bound, k);
      assert acts[..|acts| - 1][..k] == acts[..k];
    }
  }

  /** The caller of an unlock reads the requests let in off the list it gets. */
  method Walk(released: Node?, ret: nat, ghost granted: seq<Node>) returns (rs: seq<Request>)
    requires DeferredRwLock.Lists(released, ret, granted)
    ensures rs == View(granted)
  {
    var cur, i := released, 0;
    rs := [];
    while i < ret
      invariant i <= ret && rs == View(granted)[..i]
      invariant i < ret ==> cur == granted[i]
    {
      rs := rs + [Request(cur.id, cur.cls)];
      i := i + 1;
      if i < ret {
        cur := cur.next;
      }
    }
  }

  /** A lock call by a writer, with a node of its own. */
  method LockWriter(lock: DeferredRwLock, r: Request, first: bool) returns (rs: seq<Request>)
    requires lock.Valid() && r.cls == Write
    modifies lock, lock.queue`next
    ensures lock.Valid() && Done(lock.State(), rs) == WriteLock(old(lock.State()), r, first)
    ensures forall n: Node | n in lock.queue :: n in old(lock.queue) || fresh(n)
  {
    hide View, Enqueue, Linked, Distinct;
    var node := new Node(r.id, r.cls);
    var taken := lock.Writelock(node, first);
    rs := if taken then [r] else [];
  }

  /** And by a reader. */
  method LockReader(lock: DeferredRwLock, r: Request, first: bool) returns (rs: seq<Request>)
    requires lock.Valid() && r.cls == Read && ReadLock(lock.State(), r, first).Done?
    modifies lock, lock.queue`next
    ensures lock.Valid() && Done(lock.State(), rs) == ReadLock(old(lock.State()), r, first)
    ensures forall n: Node | n in lock.queue :: n in old(lock.queue) || fresh(n)
  {
    hide ReadLock, View, Select, ReadersEnd;
    var node := new Node(r.id, r.cls);
    var ok, released, ret;
    ghost var granted;
    ok, released, ret, granted := lock.Readlock(node, first);
    rs := Walk(released, ret, granted);
  }

  method UnlockCall(lock: DeferredRwLock, cls: Class) returns (rs: seq<Request>)
    requires lock.Valid()
    requires if cls == Write then WrUnlock(lock.State()).Done? else RdUnlock(lock.State()).Done?
    modifies lock, lock.queue`next
    ensures lock.Valid()
    ensures var l := old(lock.State());
      Done(lock.State(), rs) == if cls == Write then WrUnlock(l) else RdUnlock(l)
    ensures forall n: Node | n in lock.queue :: n in old(lock.queue)
  {
    hide RdUnlock, WrUnlock, View, Select, ReadersEnd;
    var ok, released, ret;
    ghost var granted;
    if cls == Write {
      ok, released, ret, granted := lock.Wrunlock();
    } else {
      ok, released, ret, granted := lock.Rdunlock();
    }
    rs := Walk(released, ret, granted);
  }

  method Perform(lock: DeferredRwLock, ghost s: System, a: Action) returns (rs: seq<Request>)
    requires lock.Valid() && lock.State() == s.lock && Call(s, a).Done?
    modifies lock, lock.queue`next
    ensures lock.Valid() && Done(lock.State(), rs) == Call(s, a)
    ensures forall n: Node | n in lock.queue :: n in old(lock.queue) || fresh(n)
  {
    hide ReadLock, WriteLock, RdUnlock, WrUnlock, View, Select, ReadersEnd;
    match a {
      case Acquire(r, first) =>
        if r.cls == Write {
          rs := LockWriter(lock, r, first);
        } else {
          rs := LockReader(lock, r, first);
        }
      case Release(r) => rs := UnlockCall(lock, r.cls);
    }
  }

  /** What callers may do, from the requests alone. */
  predicate MayCall(issued: set<Request>, active: set<Request>, finished: set<Request>, a: Action, bound: nat) {
    match a
    case Acquire(r, _) =>
      (forall x: Request | x in issued :: x.id != r.id) && (r.cls == Read ==> |ReadersIn(issued - finished)| < bound)
    case Release(r) => r in active
  }

  lemma Admits(s: System, a: Action, bound: nat)
    ensures MayCall(s.issued, s.active, s.finished, a, bound) <==> Allowed(s, a, bound)
  {
  }

  /** Any schedule none of whose calls goes wrong can be carried out on a new lock and is a run, whose last
      state is that of the linked queue and the fields, and of what the released lists have let in. */
  method Execute(lock: DeferredRwLock, acts: seq<Action>, bound: nat)
    returns (active: set<Request>, ghost run: seq<System>, ghost performed: seq<Action>)
    requires lock.Valid() && lock.queue == [] && lock.State() == INITIAL.lock
    requires Play(acts, bound).Some?
    modifies lock
    ensures IsRun(run, performed, bound) && Some(run[|performed|]) == Play(acts, bound)
    ensures lock.Valid() && lock.State() == run[|performed|].lock && active == run[|performed|].active
  {
    hide Call, Allowed, MayCall;
    var issued: set<Request>, finished: set<Request> := {}, {};
    active, run, performed := {}, [INITIAL], [];
    ghost var s := INITIAL;
    var k := 0;
    while k < |acts|
      invariant 0 <= k <= |acts| && Play(acts[..k], bound) == Some(s)
      invariant IsRun(run, performed, bound) && run[|performed|] == s
      invariant lock.Valid() && lock.State() == s.lock && fresh(lock.queue)
      invariant issued == s.issued && active == s.active && finished == s.finished
    {
      var a := acts[k];
      assert acts[..k + 1][..k] == acts[..k];
      PlayPrefix(acts, bound, k + 1);
      Admits(s, a, bound);
      if MayCall(issued, active, finished, a, bound) {
        run, performed := Extend(run, performed, bound, a, After(s, a, Call(s, a)));
        ghost var queue := lock.queue;
        var granted := Perform(lock, s, a);
        assert forall k: nat | k < |lock.queue| :: lock.queue[k] in queue || fresh(lock.queue[k]);
        s := After(s, a, Call(s, a));
        issued := if a.Acquire? then issued + {a.r} else issued;
        active, finished := active - Leaving(a) + SetOf(granted), finished + Leaving(a);
      }
      k := k + 1;
    }
    assert acts[..k] == acts;
  }
}
