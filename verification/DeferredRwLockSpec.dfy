/** What each call of delete-me/deferred_rwlock.hpp does to the lock, as functions on a queue of values. */
module DeferredRwLockSpec {
  datatype Class = Read | Write

  datatype Request = Request(id: nat, cls: Class)

  /** `readers` is the 16-bit `reader_count`. */
  datatype Lock = Lock(queue: seq<Request>, readers: nat, writer: bool)

  const COUNT_RANGE := 65536

  /** `Broken` stands for the two ways `complete_rdlock` can go wrong; see `Splits`. */
  datatype Outcome = Done(lock: Lock, granted: seq<Request>) | Broken

  /** The requests of class `c`, in order. */
  function Select(q: seq<Request>, c: Class): seq<Request> {
    if q == [] then []
    else
      var last := q[|q| - 1];
      Select(q[..|q| - 1], c) + if last.cls == c then [last] else []
  }

  /** The first position from `i` on that does not hold a reader. */
  function ReadersEnd(q: seq<Request>, i: nat): (n: nat)
    requires i <= |q|
    ensures i <= n <= |q|
    ensures forall k: nat | i <= k < n :: q[k].cls == Read
    ensures n < |q| ==> q[n].cls == Write
    decreases |q| - i
  {
    if i < |q| && q[i].cls.Read? then ReadersEnd(q, i + 1) else i
  }

  /** How many readers the queue begins with. */
  function Leading(q: seq<Request>): nat {
    ReadersEnd(q, 0)
  }

  /** After the leading readers at least one request is left at line 118 and the loop at lines 121-133
      finds its end, that is, the second request left exists. */
  predicate NoNullDereference(q: seq<Request>) {
    |q| - Leading(q) != 1
  }

  /** `tail`, which the code does not move, is still the last request of the queue. */
  predicate TailStays(q: seq<Request>) {
    Leading(q) == |q| || q[|q| - 1].cls == Write
  }

  /** Exactly when `complete_rdlock` leaves a proper queue. */
  predicate Splits(q: seq<Request>) {
    NoNullDereference(q) && TailStays(q)
  }

  /** ++ on the 16-bit counter. */
  function Bump(readers: nat): nat {
    if readers + 1 == COUNT_RANGE then 0 else readers + 1
  }

  /** -- on the 16-bit counter. */
  function Drop(readers: nat): nat {
    if readers == 0 then COUNT_RANGE - 1 else readers - 1
  }

  /** += n on the 16-bit counter. */
  function AddCount(readers: nat, n: nat): nat {
    if n == 0 then readers else Bump(AddCount(readers, n - 1))
  }

  lemma {:induction false} AddCountTwice(readers: nat, m: nat, n: nat)
    ensures AddCount(AddCount(readers, m), n) == AddCount(readers, m + n)
  {
    if n > 0 {
      AddCountTwice(readers, m, n - 1);
    }
  }

  lemma BumpIs(n: nat)
    ensures Bump(n % COUNT_RANGE) == (n + 1) % COUNT_RANGE
  {
    assert n + 1 == COUNT_RANGE * (n / COUNT_RANGE) + (n % COUNT_RANGE + 1);
  }

  /** The counter counts modulo 2^16. */
  lemma {:induction false} AddCountIs(readers: nat, n: nat)
    requires readers < COUNT_RANGE
    ensures AddCount(readers, n) == (readers + n) % COUNT_RANGE
  {
    hide Bump;
    if n > 0 {
      AddCountIs(readers, n - 1);
      BumpIs(readers + n - 1);
    }
  }

  function Complete(l: Lock): Outcome {
    if !Splits(l.queue) then Broken
    else
      var granted := Select(l.queue, Read);
      Done(Lock(Select(l.queue, Write), AddCount(l.readers, |granted|), l.writer), granted)
  }

  /** Lines 143-153 and 212-221: let in the head of the queue, and every reader if it is one. */
  function Grant(l: Lock): Outcome {
    if l.queue == [] then Done(l, [])
    else if l.queue[0].cls == Read then Complete(l)
    else Done(Lock(l.queue[1..], l.readers, true), [l.queue[0]])
  }

  function Enqueue(l: Lock, r: Request, first: bool): Lock {
    l.(queue := if first then [r] + l.queue else l.queue + [r])
  }

  function WriteLock(l: Lock, r: Request, first: bool): Outcome {
    if l.readers == 0 && !l.writer then Done(l.(writer := true), [r])
    else Done(Enqueue(l, r, first), [])
  }

  function ReadLock(l: Lock, r: Request, first: bool): Outcome {
    if l.queue == [] && !l.writer then Done(l.(readers := Bump(l.readers)), [r])
    else
      var l' := Enqueue(l, r, first);
      if l'.queue[0].cls == Read && !l'.writer then Complete(l') else Done(l', [])
  }

  function WrUnlock(l: Lock): Outcome {
    Grant(l.(writer := false))
  }

  function RdUnlock(l: Lock): Outcome {
    var l' := l.(readers := Drop(l.readers));
    if l'.readers == 0 then Grant(l') else Done(l', [])
  }

  // ----- Select by positions -----

  /** The positions below `j` that hold class `c`, in order. */
  function Positions(cs: seq<Class>, j: nat, c: Class): (ps: seq<nat>)
    requires j <= |cs|
    ensures forall k: nat | k < |ps| :: ps[k] < j && cs[ps[k]] == c
  {
    if j == 0 then []
    else Positions(cs, j - 1, c) + if cs[j - 1] == c then [j - 1] else []
  }

  lemma {:induction false} PositionsIncrease(cs: seq<Class>, j: nat, c: Class)
    requires j <= |cs|
    ensures forall k: nat, l: nat | k < l < |Positions(cs, j, c)| :: Positions(cs, j, c)[k] < Positions(cs, j, c)[l]
  {
    if j > 0 {
      PositionsIncrease(cs, j - 1, c);
    }
  }

  function At<T>(q: seq<T>, ps: seq<nat>): (r: seq<T>)
    requires forall k: nat | k < |ps| :: ps[k] < |q|
    ensures |r| == |ps| && forall k: nat | k < |ps| :: r[k] == q[ps[k]]
  {
    seq(|ps|, k requires 0 <= k < |ps| => q[ps[k]])
  }

  function Classes(q: seq<Request>): (cs: seq<Class>)
    ensures |cs| == |q| && forall k: nat | k < |q| :: cs[k] == q[k].cls
  {
    if q == [] then [] else Classes(q[..|q| - 1]) + [q[|q| - 1].cls]
  }

  lemma {:induction false} SelectAt(q: seq<Request>, cs: seq<Class>, j: nat, c: Class)
    requires |cs| == |q| && j <= |q| && forall k: nat | k < |q| :: cs[k] == q[k].cls
    ensures Select(q[..j], c) == At(q, Positions(cs, j, c))
  {
    if j > 0 {
      SelectAt(q, cs, j - 1, c);
      assert q[..j][..j - 1] == q[..j - 1];
      var l := q[j - 1];
      assert q[..j][j - 1] == l && |q[..j]| == j;
      assert Select(q[..j], c) == Select(q[..j - 1], c) + if l.cls == c then [l] else [];
    }
  }
}
