/**
 The deferred reader/writer lock of delete-me/deferred_rwlock.hpp: an intrusive linked queue, every
 call under one spinlock.  Each method is the code, and is proved to do what its function in
 `DeferredRwLockSpec` says.
 */
module DeferredRwLock {
  import opened Spec = DeferredRwLockSpec

  class Node {
    const id: nat
    var cls: Class
    var next: Node?

    constructor (id: nat, cls: Class)
      ensures this.id == id && this.cls == cls && next == null
    {
      this.id, this.cls, this.next := id, cls, null;
    }
  }

  /** The requests that a sequence of nodes stands for. */
  function View(nodes: seq<Node>): (q: seq<Request>)
    reads nodes`cls
    ensures |q| == |nodes|
    ensures forall k: nat | k < |nodes| :: q[k] == Request(nodes[k].id, nodes[k].cls)
  {
    if nodes == [] then []
    else
      var last := nodes[|nodes| - 1];
      View(nodes[..|nodes| - 1]) + [Request(last.id, last.cls)]
  }

  /** Each node from position `from` on points to the one after it. */
  ghost predicate LinkedFrom(nodes: seq<Node>, from: nat)
    reads nodes`next
  {
    forall k: nat {:trigger nodes[k].next} | from <= k && k + 1 < |nodes| :: nodes[k].next == nodes[k + 1]
  }

  ghost predicate Linked(nodes: seq<Node>)
    reads nodes`next
  {
    LinkedFrom(nodes, 0)
  }

  ghost predicate Distinct(nodes: seq<Node>) {
    forall i: nat, j: nat | i < j < |nodes| :: nodes[i] != nodes[j]
  }

  /** Following `next` from one position to the one after it in `ps`. */
  ghost predicate Threaded(q: seq<Node>, ps: seq<nat>)
    requires forall k: nat | k < |ps| :: ps[k] < |q|
    reads q`next
  {
    forall k: nat {:trigger q[ps[k]].next} | k + 1 < |ps| :: q[ps[k]].next == q[ps[k + 1]]
  }

  /** `pos` gives the position of each node, which is another way to say that they are distinct. */
  ghost predicate Indexed(q: seq<Node>, pos: map<Node, nat>) {
    forall k: nat | k < |q| :: q[k] in pos && pos[q[k]] == k
  }

  /** `node` is the node at the last of the positions. */
  predicate LastAt(q: seq<Node>, ps: seq<nat>, node: Node)
    requires forall k: nat | k < |ps| :: ps[k] < |q|
  {
    ps != [] && q[ps[|ps| - 1]] == node
  }

  /** The first `j` nodes of `q` have been split into a list of readers, which ends at `readertail`,
      and a list of writers, which ends at `latestwriter`; the rest of `q` hangs behind the latter. */
  ghost predicate SplitAt(q: seq<Node>, cs: seq<Class>, j: nat, readertail: Node, latestwriter: Node)
    requires j <= |q| == |cs|
    reads q`next, latestwriter`next
  {
    && Threaded(q, Positions(cs, j, Read)) && LastAt(q, Positions(cs, j, Read), readertail)
    && Threaded(q, Positions(cs, j, Write)) && LastAt(q, Positions(cs, j, Write), latestwriter)
    && latestwriter.next == (if j < |q| then q[j] else null)
    && LinkedFrom(q, j)
    && (j < |q| ==> q[|q| - 1].next == null)
  }

  lemma {:induction false} PositionsOfReaders(cs: seq<Class>, m: nat)
    requires m <= |cs| && forall k: nat | k < m :: cs[k] == Read
    ensures Positions(cs, m, Write) == []
    ensures |Positions(cs, m, Read)| == m && forall k: nat | k < m :: Positions(cs, m, Read)[k] == k
  {
    if m > 0 {
      PositionsOfReaders(cs, m - 1);
    }
  }

  lemma SplitStart(q: seq<Node>, cs: seq<Class>, m: nat)
    requires 0 < m < |q| == |cs| && Linked(q) && q[|q| - 1].next == null
    requires cs[m] == Write && forall k: nat | k < m :: cs[k] == Read
    ensures SplitAt(q, cs, m + 1, q[m - 1], q[m])
    ensures |Positions(cs, m + 1, Read)| == m && Positions(cs, m + 1, Read)[0] == 0
    ensures Positions(cs, m + 1, Write) == [m]
  {
    PositionsOfReaders(cs, m);
  }

  lemma GrowPositions(cs: seq<Class>, j: nat)
    requires j < |cs|
    ensures |Positions(cs, j + 1, Read)| == |Positions(cs, j, Read)| + if cs[j] == Read then 1 else 0
  {
  }

  lemma SkipWriter(q: seq<Node>, cs: seq<Class>, j: nat, readertail: Node, latestwriter: Node)
    requires j < |q| == |cs| && cs[j] == Write && SplitAt(q, cs, j, readertail, latestwriter)
    ensures SplitAt(q, cs, j + 1, readertail, q[j])
  {
  }

  /** The nodes at the positions of class `c` are the requests of that class. */
  lemma ViewSelected(q: seq<Node>, view: seq<Request>, cs: seq<Class>, c: Class)
    requires |view| == |cs| == |q|
    requires forall k: nat | k < |q| :: view[k] == Request(q[k].id, q[k].cls) && q[k].cls == cs[k]
    ensures View(At(q, Positions(cs, |q|, c))) == Select(view, c)
  {
    hide View, Positions, Select;
    SelectAt(view, cs, |q|, c);
    assert view[..|q|] == view;
    assert View(At(q, Positions(cs, |q|, c))) == At(view, Positions(cs, |q|, c));
  }

  lemma {:induction false} IndexMap(q: seq<Node>, n: nat) returns (pos: map<Node, nat>)
    requires Distinct(q) && n <= |q|
    ensures forall k: nat | k < n :: q[k] in pos && pos[q[k]] == k
  {
    pos := map[];
    if n > 0 {
      pos := IndexMap(q, n - 1);
      pos := pos[q[n - 1] := n - 1];
    }
  }

  /** `q` has been split into the list of its readers and the null-terminated list of its writers. */
  ghost predicate SplitUp(q: seq<Node>, cs: seq<Class>)
    requires |cs| == |q|
    reads q`next
  {
    var granted, writers := At(q, Positions(cs, |q|, Read)), At(q, Positions(cs, |q|, Write));
    && Linked(granted)
    && Linked(writers) && Distinct(writers) && (writers != [] ==> writers[|writers| - 1].next == null)
  }

  lemma SplitEnd(q: seq<Node>, cs: seq<Class>, readertail: Node, latestwriter: Node)
    requires |cs| == |q| && Distinct(q) && SplitAt(q, cs, |q|, readertail, latestwriter)
    ensures SplitUp(q, cs)
  {
    PositionsIncrease(cs, |q|, Write);
  }

  lemma AllReaders(q: seq<Node>, cs: seq<Class>)
    requires |cs| == |q| && Linked(q) && forall k: nat | k < |q| :: cs[k] == Read
    ensures SplitUp(q, cs) && |Positions(cs, |q|, Read)| == |q|
  {
    PositionsOfReaders(cs, |q|);
  }

  lemma {:induction false} FirstPosition(cs: seq<Class>, j: nat, m: nat)
    requires m < j <= |cs| && cs[m] == Write && (m > 0 ==> cs[0] == Read) && forall k: nat | k < m :: cs[k] == Read
    ensures Positions(cs, j, Write) != [] && Positions(cs, j, Write)[0] == m
    ensures m > 0 ==> Positions(cs, j, Read) != [] && Positions(cs, j, Read)[0] == 0
  {
    if j == m + 1 {
      PositionsOfReaders(cs, m);
    } else {
      FirstPosition(cs, j - 1, m);
    }
  }

  /** The last writer is the last node of the queue only if the last node is a writer. */
  lemma LastWriter(q: seq<Node>, cs: seq<Class>)
    requires |cs| == |q| > 0 && Distinct(q) && Positions(cs, |q|, Write) != []
    ensures var ws := At(q, Positions(cs, |q|, Write)); ws[|ws| - 1] == q[|q| - 1] <==> cs[|q| - 1] == Write
  {
    var ps := Positions(cs, |q|, Write);
    if cs[|q| - 1] == Write {
      assert ps == Positions(cs, |q| - 1, Write) + [|q| - 1];
    } else {
      assert cs[ps[|ps| - 1]] == Write;
    }
  }

  /** The requests `view` of the queue `q`, with their classes. */
  ghost predicate Shows(q: seq<Node>, view: seq<Request>, cs: seq<Class>)
    reads q`cls
  {
    |view| == |cs| == |q| && forall k: nat | k < |q| :: view[k] == Request(q[k].id, q[k].cls) && q[k].cls == cs[k]
  }

  lemma ViewShows(q: seq<Node>)
    ensures Shows(q, View(q), Classes(View(q)))
  {
  }

  /** What the two lists are, for the caller. */
  lemma SplitMeans(q: seq<Node>, view: seq<Request>, cs: seq<Class>, m: nat, granted: seq<Node>, writers: seq<Node>)
    requires Shows(q, view, cs) && Distinct(q) && SplitUp(q, cs)
    requires 0 < m <= |q| && (forall k: nat | k < m :: cs[k] == Read) && (m < |q| ==> cs[m] == Write)
    requires granted == At(q, Positions(cs, |q|, Read)) && writers == At(q, Positions(cs, |q|, Write))
    ensures View(granted) == Select(view, Read) && View(writers) == Select(view, Write)
    ensures |granted| == |Positions(cs, |q|, Read)| > 0
    ensures Linked(granted) && granted[0] == q[0]
    ensures Linked(writers) && Distinct(writers)
    ensures if m == |q| then writers == []
            else writers != [] && writers[0] == q[m] && writers[|writers| - 1].next == null
    ensures m < |q| ==> (writers[|writers| - 1] == q[|q| - 1] <==> view[|q| - 1].cls == Write)
    ensures forall n: Node | n in writers || n in granted :: n in q
  {
    hide Positions, Select, View;
    ViewSelected(q, view, cs, Read);
    ViewSelected(q, view, cs, Write);
    if m < |q| {
      FirstPosition(cs, |q|, m);
      LastWriter(q, cs);
    } else {
      PositionsOfReaders(cs, m);
    }
  }

  lemma {:induction false} EndIs(q: seq<Request>, i: nat, m: nat)
    requires i <= m <= |q| && (forall k: nat | i <= k < m :: q[k].cls == Read) && (m < |q| ==> q[m].cls == Write)
    ensures ReadersEnd(q, i) == m
    decreases m - i
  {
    if i < m {
      EndIs(q, i + 1, m);
    }
  }

  lemma Prepended(node: Node, nodes: seq<Node>)
    requires Linked(nodes) && Distinct(nodes) && node !in nodes
    requires nodes != [] ==> node.next == nodes[0]
    ensures Linked([node] + nodes) && Distinct([node] + nodes)
    ensures View([node] + nodes) == [Request(node.id, node.cls)] + View(nodes)
  {
    hide View;
    var all := [node] + nodes;
    forall k: nat | k + 1 < |all|
      ensures all[k].next == all[k + 1]
    {
      if k > 0 {
        assert nodes[k - 1].next == nodes[k - 1 + 1];
      }
    }
  }

  class DeferredRwLock {
    var head: Node?
    var tail: Node?
    var readerCount: nat
    var writer: bool
    ghost var queue: seq<Node>

    /** From `head` the `next` pointers run through `queue` to null. */
    ghost predicate Chained()
      reads this, queue`next
    {
      && Distinct(queue) && Linked(queue)
      && (if queue == [] then head == null else head == queue[0] && queue[|queue| - 1].next == null)
    }

    ghost predicate Valid()
      reads this, queue`next
    {
      && Chained()
      && (if queue == [] then tail == null else tail == queue[|queue| - 1])
      && readerCount < COUNT_RANGE
    }

    ghost function State(): Lock
      reads this, queue`cls
    {
      Lock(View(queue), readerCount, writer)
    }

    constructor ()
      ensures Valid() && State() == Lock([], 0, false)
    {
      head, tail, readerCount, writer, queue := null, null, 0, false, [];
    }

    method InsertQueue(node: Node)
      requires Valid() && node !in queue && node.next == null
      modifies this`head, this`tail, this`queue, queue`next
      ensures Valid() && queue == old(queue) + [node]
      ensures State() == Enqueue(old(State()), Request(node.id, node.cls), false)
    {
      hide View;
      if head == null {
        head := node;
        tail := node;
      } else {
        tail.next := node;
        tail := node;
      }
      queue := queue + [node];
    }

    method InsertQueueHead(node: Node)
      requires Valid() && node !in queue && node.next == null
      modifies this`head, this`tail, this`queue, node`next
      ensures Valid() && queue == [node] + old(queue)
      ensures State() == Enqueue(old(State()), Request(node.id, node.cls), true)
    {
      hide View, Linked, Distinct;
      if head == null {
        head := node;
        tail := node;
      } else {
        node.next := head;
        head := node;
      }
      Prepended(node, queue);
      queue := [node] + queue;
    }

    method CompleteWrlock()
      requires Valid() && head != null
      modifies this
      ensures Valid() && queue == old(queue)[1..] && writer
      ensures State() == Lock(old(View(queue))[1..], old(readerCount), true)
    {
      head := head.next;
      queue := queue[1..];
      if head == null {
        tail := null;
      }
      writer := true;
    }

    /** The reader at `q[j]` is taken out of the writers' list and put at the end of the readers'. */
    method MoveReader(cur: Node, readertail: Node, latestwriter: Node,
                      ghost q: seq<Node>, ghost pos: map<Node, nat>, ghost cs: seq<Class>, ghost j: nat)
      requires Indexed(q, pos) && j < |q| == |cs| && cur == q[j] && cs[j] == Read
      requires SplitAt(q, cs, j, readertail, latestwriter)
      modifies readertail`next, latestwriter`next
      ensures SplitAt(q, cs, j + 1, cur, latestwriter)
      ensures cur.next == if j + 1 < |q| then q[j + 1] else null
    {
      PositionsIncrease(cs, j, Read);
      PositionsIncrease(cs, j, Write);
      readertail.next := cur;
      latestwriter.next := cur.next;
    }

    /** Lines 122-130: `n` says how much `numcompleted` grows. */
    method ExtractOne(cur: Node, readertail: Node, latestwriter: Node,
                      ghost q: seq<Node>, ghost pos: map<Node, nat>, ghost cs: seq<Class>, ghost j: nat)
      returns (readertail': Node, latestwriter': Node, n: nat)
      requires Indexed(q, pos) && j < |q| == |cs| && cur == q[j] && cs[j] == cur.cls
      requires SplitAt(q, cs, j, readertail, latestwriter)
      modifies this`readerCount, q`next
      ensures SplitAt(q, cs, j + 1, readertail', latestwriter')
      ensures cur.next == if j + 1 < |q| then q[j + 1] else null
      ensures n == (if cs[j] == Read then 1 else 0) && readerCount == AddCount(old(readerCount), n)
    {
      assert readertail in q && latestwriter in q;
      if cur.cls == Write {
        SkipWriter(q, cs, j, readertail, latestwriter);
        readertail', latestwriter', n := readertail, cur, 0;
      } else {
        MoveReader(cur, readertail, latestwriter, q, pos, cs, j);
        readertail', latestwriter', n := cur, latestwriter, 1;
        readerCount := Bump(readerCount);
      }
    }

    /** Lines 118-134: `head` is the writer at position `m` of the old queue `q`. */
    method ExtractReaders(last: Node, ghost q: seq<Node>, ghost pos: map<Node, nat>, ghost cs: seq<Class>, ghost m: nat)
      returns (numcompleted: nat, tails: (Node, Node))
      requires Indexed(q, pos) && |cs| == |q| && forall k: nat | k < |q| :: q[k].cls == cs[k]
      requires 0 < m && m + 1 < |q| && head == q[m] && head.next == q[m + 1] && tail == q[|q| - 1]
      requires SplitAt(q, cs, m + 1, last, q[m]) && |Positions(cs, m + 1, Read)| == m
      modifies this`readerCount, q`next
      ensures SplitAt(q, cs, |q|, tails.0, tails.1)
      ensures m + numcompleted == |Positions(cs, |q|, Read)|
      ensures readerCount == AddCount(old(readerCount), numcompleted)
    {
      hide SplitAt, Positions;
      numcompleted := 0;
      var readertail: Node, latestwriter: Node := last, head;
      var cur: Node? := head.next;
      ghost var j, count := m + 1, readerCount;
      var more := true;
      while more
        invariant j <= |q| && (more <==> j < |q|) && (more ==> cur == q[j])
        invariant SplitAt(q, cs, j, readertail, latestwriter)
        invariant |Positions(cs, j, Read)| == m + numcompleted
        invariant readerCount == AddCount(count, numcompleted)
        decreases |q| - j
      {
        GrowPositions(cs, j);
        var n;
        readertail, latestwriter, n := ExtractOne(cur, readertail, latestwriter, q, pos, cs, j);
        AddCountTwice(count, numcompleted, n);
        numcompleted := numcompleted + n;
        j := j + 1;
        if cur == tail {
          more := false;
        } else {
          cur := cur.next;
        }
      }
      tails := (readertail, latestwriter);
    }

    /** Lines 99-109: released is the list of leading readers. */
    method TakeLeading(ghost view: seq<Request>, ghost cs: seq<Class>)
      returns (released: Node, numcompleted: nat, readertail: Node, ghost m: nat)
      requires Valid() && queue != [] && Shows(queue, view, cs) && cs[0] == Read
      modifies this`head, this`tail, this`readerCount
      ensures Shows(queue, view, cs)
      ensures 0 < m <= |queue| && numcompleted == m && forall k: nat | k < m :: cs[k] == Read
      ensures released == queue[0] && readertail == queue[m - 1]
      ensures readerCount == AddCount(old(readerCount), m)
      ensures if m < |queue| then head == queue[m] && cs[m] == Write && tail == old(tail)
              else head == null && tail == null
    {
      released := head;
      numcompleted := 1;
      head := head.next;
      readertail := released;
      m := 1;
      while head != null && head.cls == Read
        invariant 0 < m <= |queue| && numcompleted == m && forall k: nat | k < m :: cs[k] == Read
        invariant head == if m < |queue| then queue[m] else null
        invariant readertail == queue[m - 1]
        invariant readerCount == old(readerCount) && tail == old(tail)
        decreases |queue| - m
      {
        readertail := head;
        head := head.next;
        numcompleted := numcompleted + 1;
        m := m + 1;
      }
      readerCount := AddCount(readerCount, numcompleted);
      if head == null {
        tail := null;
      }
    }

    /** Lines 111-134 when a writer, at position `m`, is left behind the leading readers. */
    method ExtractAll(readertail: Node, ghost q: seq<Node>, ghost view: seq<Request>,
                      ghost cs: seq<Class>, ghost m: nat)
      returns (ok: bool, numcompleted: nat)
      requires Distinct(q) && Shows(q, view, cs)
      requires 0 < m < |q| && head == q[m] && readertail == q[m - 1] && tail == q[|q| - 1]
      requires cs[m] == Write && forall k: nat | k < m :: cs[k] == Read
      requires Linked(q) && q[|q| - 1].next == null
      modifies this`readerCount, q`next
      ensures Shows(q, view, cs)
      ensures ok <==> m + 1 < |q|
      ensures ok ==> SplitUp(q, cs) && m + numcompleted == |Positions(cs, |q|, Read)|
      ensures ok ==> readerCount == AddCount(old(readerCount), numcompleted)
    {
      hide Positions;
      ok, numcompleted := head.next != null, 0;
      if ok {
        SplitStart(q, cs, m);
        ghost var pos := IndexMap(q, |q|);
        var tails: (Node, Node);
        numcompleted, tails := ExtractReaders(readertail, q, pos, cs, m);
        SplitEnd(q, cs, tails.0, tails.1);
      }
    }

    /** Line 98, for every queue that begins with a reader.  `ok` is false if the code dereferences null
        at line 122. */
    method CompleteRdlock() returns (ok: bool, released: Node, numcompleted: nat, ghost granted: seq<Node>)
      requires Valid() && queue != [] && queue[0].cls == Read
      modifies this`head, this`tail, this`readerCount, this`queue, queue`next
      ensures ok <==> NoNullDereference(old(View(queue)))
      // The released list: its first `numcompleted` nodes are the readers of the queue, in order.
      ensures ok ==> View(granted) == Select(old(View(queue)), Read) && numcompleted == |granted| > 0
      ensures ok ==> released == granted[0] && Linked(granted)
      ensures ok ==> readerCount == AddCount(old(readerCount), |granted|)
      // The queue that is left: from `head` on it is the writers, in order.
      ensures ok ==> View(queue) == Select(old(View(queue)), Write) && Chained()
      ensures ok ==> (Valid() <==> TailStays(old(View(queue))))
      ensures ok ==> forall n: Node | n in queue || n in granted :: n in old(queue)
    {
      hide Positions, ReadersEnd, Select, View, SplitUp, Shows, Linked, At, AddCount;
      ghost var q, view := queue, View(queue);
      ghost var cs := Classes(view);
      var readertail: Node;
      ghost var m: nat;
      ViewShows(q);
      released, numcompleted, readertail, m := TakeLeading(view, cs);
      EndIs(view, 0, m);
      ok := true;
      if head != null {
        var n: nat;
        ok, n := ExtractAll(readertail, q, view, cs, m);
        if !ok {
          granted := [];
          return;
        }
        AddCountTwice(old(readerCount), numcompleted, n);
        numcompleted := numcompleted + n;
      } else {
        AllReaders(q, cs);
      }
      granted, queue := At(q, Positions(cs, |q|, Read)), At(q, Positions(cs, |q|, Write));
      AddCountIs(old(readerCount), numcompleted);
      SplitMeans(q, view, cs, m, granted, queue);
    }

    /** The call did what `o` says: it fails exactly when `o` is `Broken`, and otherwise leaves the lock
        and lets in the requests of `o`. */
    ghost predicate Matches(o: Outcome, ok: bool, granted: seq<Node>)
      reads this, queue`next, queue`cls, granted`cls
    {
      && (o.Done? <==> ok && Valid())
      && (o.Done? ==> State() == o.lock && View(granted) == o.granted)
    }

    /** `released` and `ret` give the caller the list of the requests let in. */
    static ghost predicate Lists(released: Node?, ret: nat, granted: seq<Node>)
      reads granted`next
    {
      ret == |granted| && Linked(granted) && released == (if granted == [] then null else granted[0])
    }

    /** Lines 143-153 and 212-221. */
    method GrantHead() returns (ok: bool, released: Node?, ret: nat, ghost granted: seq<Node>)
      requires Valid()
      modifies this, queue`next
      ensures Matches(Grant(old(State())), ok, granted) && (ok ==> Lists(released, ret, granted))
      ensures ok ==> forall n: Node | n in queue :: n in old(queue)
    {
      hide Select, ReadersEnd, View;
      ok, released, ret, granted := true, null, 0, [];
      if head != null {
        if head.cls == Read {
          ok, released, ret, granted := CompleteRdlock();
        } else {
          writer := true;
          released := head;
          granted := [queue[0]];
          CompleteWrlock();
          ret := 1;
        }
      }
    }

    method Wrunlock() returns (ok: bool, released: Node?, ret: nat, ghost granted: seq<Node>)
      requires Valid()
      modifies this, queue`next
      ensures Matches(WrUnlock(old(State())), ok, granted) && (ok ==> Lists(released, ret, granted))
      ensures ok ==> forall n: Node | n in queue :: n in old(queue)
      // The assertion at line 146.
      ensures ok && ret == 2 ==> released != null && released.next != null
    {
      hide View, Select, ReadersEnd;
      writer := false;
      ok, released, ret, granted := GrantHead();
    }

    method Rdunlock() returns (ok: bool, released: Node?, ret: nat, ghost granted: seq<Node>)
      requires Valid()
      modifies this, queue`next
      ensures Matches(RdUnlock(old(State())), ok, granted) && (ok ==> Lists(released, ret, granted))
      ensures ok ==> forall n: Node | n in queue :: n in old(queue)
    {
      hide View, Select, ReadersEnd;
      readerCount := Drop(readerCount);
      ok, released, ret, granted := true, null, 0, [];
      if readerCount == 0 {
        ok, released, ret, granted := GrantHead();
      }
    }

    /** Lines 56-57, 72-73, 161-162 and 185-186. */
    method Prepare(node: Node, cls: Class)
      requires Valid() && node !in queue
      modifies node`next, node`cls
      ensures Valid() && State() == old(State()) && queue == old(queue)
      ensures node.next == null && View([node]) == [Request(node.id, cls)]
    {
      hide View;
      node.next := null;
      node.cls := cls;
    }

    /** Lines 55 and 71; `first` is true for `writelock_priority`.  The result says whether the lock is taken. */
    method Writelock(node: Node, first: bool) returns (taken: bool)
      requires Valid() && node !in queue
      modifies this, queue`next, node`next, node`cls
      ensures Matches(WriteLock(old(State()), Request(node.id, Write), first), true, if taken then [node] else [])
      ensures taken <==> old(readerCount) == 0 && !old(writer)
      ensures queue == if taken then old(queue) else if first then [node] + old(queue) else old(queue) + [node]
      ensures forall n: Node | n in queue :: n in old(queue) || n == node
    {
      hide View, Select, ReadersEnd;
      Prepare(node, Write);
      taken := readerCount == 0 && !writer;
      if taken {
        writer := true;
      } else if first {
        InsertQueueHead(node);
      } else {
        InsertQueue(node);
      }
    }

    /** Lines 174 and 198: the head of a queue that is not empty may be let in. */
    method CompleteIfReader() returns (ok: bool, released: Node?, ret: nat, ghost granted: seq<Node>)
      requires Valid() && queue != []
      modifies this, queue`next
      ensures var l := old(State());
        Matches(if l.queue[0].cls == Read && !l.writer then Complete(l) else Done(l, []), ok, granted)
      ensures ok ==> Lists(released, ret, granted)
      ensures ok ==> forall n: Node | n in queue :: n in old(queue)
    {
      hide View, Select, ReadersEnd;
      ok, released, ret, granted := true, null, 0, [];
      if head.cls == Read && !writer {
        ok, released, ret, granted := CompleteRdlock();
      }
    }

    /** Lines 158 and 182; `first` is true for `readlock_priority`. */
    method Readlock(node: Node, first: bool) returns (ok: bool, released: Node?, ret: nat, ghost granted: seq<Node>)
      requires Valid() && node !in queue
      modifies this, queue`next, node`next, node`cls
      ensures Matches(ReadLock(old(State()), Request(node.id, Read), first), ok, granted)
      ensures ok ==> Lists(released, ret, granted)
      ensures ok ==> forall n: Node | n in queue :: n in old(queue) || n == node
    {
      hide View, Select, ReadersEnd;
      Prepare(node, Read);
      if head == null && !writer {
        readerCount := Bump(readerCount);
        ok, released, ret, granted := true, node, 1, [node];
      } else {
        if first {
          InsertQueueHead(node);
        } else {
          InsertQueue(node);
        }
        ok, released, ret, granted := CompleteIfReader();
      }
    }
  }
}
