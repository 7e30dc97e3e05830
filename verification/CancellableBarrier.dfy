/**
 The sense-reversing barrier of delete-me/cancellable_barrier.hpp, with no cancel and no resize, as a
 monitor: what runs under the mutex without waiting is one step.
 */
module CancellableBarrier {
  import opened Sets

  /** Where a thread is in `wait`, with its local `listening_on`. */
  datatype Place =
    | Outside
    | Asleep(listening: bool)   // 86: in conditional.wait
    | Woken(listening: bool)    // 86: woken, and yet to get the mutex back

  /** `entered` and `returned` count the thread's calls of wait, and `round` is the number of the round
      that the last of them was for; the code does not have them. */
  datatype Thread = Thread(place: Place, entered: nat, returned: nat, round: nat)

  /** `rounds` counts the times the barrier has fallen; the code does not have it. */
  datatype State = State(
    needed: nat, called: nat, sense: bool, release: bool, threads: seq<Thread>, rounds: nat)

  datatype Action =
    | Enter(i: nat)    // thread i calls wait
    | Stir(i: nat)     // thread i wakes up of itself
    | Resume(i: nat)   // woken thread i gets the mutex

  /** `n` threads at a barrier for `needed`. */
  function Initial(needed: nat, n: nat): State {
    State(needed, 0, false, true, seq(n, _ => Thread(Outside, 0, 0, 0)), 0)
  }

  predicate Enabled(s: State, a: Action) {
    && a.i < |s.threads|
    && match a
       case Enter(i) => s.threads[i].place.Outside?
       case Stir(i) => s.threads[i].place.Asleep?
       case Resume(i) => s.threads[i].place.Woken?
  }

  function Wake(t: Thread): Thread {
    if t.place.Asleep? then t.(place := Woken(t.place.listening)) else t
  }

  function Broadcast(threads: seq<Thread>): (r: seq<Thread>)
    ensures |r| == |threads| && forall k: nat | k < |r| :: r[k] == Wake(threads[k])
  {
    seq(|threads|, k requires 0 <= k < |threads| => Wake(threads[k]))
  }

  /** Line 86: go on sleeping or return. */
  function Listen(s: State, i: nat, listening: bool): State
    requires i < |s.threads|
  {
    var t := s.threads[i];
    s.(threads := s.threads[i := if s.release != listening then t.(place := Asleep(listening))
                                 else t.(place := Outside, returned := t.returned + 1)])
  }

  /** Lines 74-88 up to the return or the first sleep. */
  function EnterStep(s: State, i: nat): State
    requires i < |s.threads|
  {
    var t := s.threads[i].(entered := s.threads[i].entered + 1, round := s.rounds + 1);
    if s.called + 1 == s.needed then
      s.(called := 0, release := s.sense, sense := !s.sense, rounds := s.rounds + 1,
         threads := Broadcast(s.threads)[i := t.(returned := t.returned + 1)])
    else
      Listen(s.(called := s.called + 1, threads := s.threads[i := t]), i, s.sense)
  }

  function Next(s: State, a: Action): State
    requires Enabled(s, a)
  {
    match a
    case Enter(i) => EnterStep(s, i)
    case Stir(i) => s.(threads := s.threads[i := Wake(s.threads[i])])
    case Resume(i) => Listen(s, i, s.threads[i].place.listening)
  }

  predicate Steps(s: State, a: Action, s': State) {
    Enabled(s, a) && s' == Next(s, a)
  }

  ghost predicate IsRun(run: seq<State>, acts: seq<Action>, needed: nat, n: nat) {
    && |run| == |acts| + 1 && run[0] == Initial(needed, n)
    && forall k: nat | k < |acts| :: Steps(run[k], acts[k], run[k + 1])
  }

  // ----- Rounds, entries and returns, read off the actions -----

  /** How many calls of wait there are among the first `k` actions. */
  function Entries(acts: seq<Action>, k: nat): nat
    requires k <= |acts|
  {
    if k == 0 then 0 else Entries(acts, k - 1) + if acts[k - 1].Enter? then 1 else 0
  }

  /** How many of them are by thread `i`. */
  function EntriesOf(acts: seq<Action>, k: nat, i: nat): nat
    requires k <= |acts|
  {
    if k == 0 then 0 else EntriesOf(acts, k - 1, i) + if acts[k - 1] == Enter(i) then 1 else 0
  }

  /** How many rounds are complete: every `needed` calls of wait make one. */
  function RoundsBy(acts: seq<Action>, needed: nat, k: nat): nat
    requires k <= |acts|
  {
    if needed == 0 then 0 else Entries(acts, k) / needed
  }

  /** The round that the last call of thread `i` is for, counted from 1, or 0 before its first. */
  function RoundOf(acts: seq<Action>, needed: nat, k: nat, i: nat): nat
    requires k <= |acts|
  {
    if k == 0 then 0
    else if acts[k - 1] == Enter(i) then RoundsBy(acts, needed, k - 1) + 1
    else RoundOf(acts, needed, k - 1, i)
  }

  /** With action `k` thread `i` returns from wait. */
  predicate ReturnsAt(run: seq<State>, acts: seq<Action>, k: nat, i: nat) {
    && k < |acts| && k + 1 < |run| && (acts[k] == Enter(i) || acts[k] == Resume(i))
    && i < |run[k + 1].threads| && run[k + 1].threads[i].place == Outside
  }

  /** How often thread `i` has returned. */
  function ReturnsOf(run: seq<State>, acts: seq<Action>, k: nat, i: nat): nat {
    if k == 0 then 0 else ReturnsOf(run, acts, k - 1, i) + if ReturnsAt(run, acts, k - 1, i) then 1 else 0
  }

  lemma DivStep(e: nat, n: nat)
    requires n > 0
    ensures if e % n + 1 == n then (e + 1) / n == e / n + 1 && (e + 1) % n == 0
            else (e + 1) / n == e / n && (e + 1) % n == e % n + 1
  {
    var q, r := e / n, e % n;
    assert e == q * n + r;
    if r + 1 == n {
      assert e + 1 == (q + 1) * n;
      DivIs(e + 1, n, q + 1, 0);
    } else {
      DivIs(e + 1, n, q, r + 1);
    }
  }

  lemma AtLeast(d: nat, n: nat)
    requires d > 0
    ensures d * n >= n
  {
  }

  lemma DivIs(e: nat, n: nat, q: nat, r: nat)
    requires e == q * n + r && r < n
    ensures e / n == q && e % n == r
  {
    var q', r' := e / n, e % n;
    assert e == q' * n + r';
    assert (q' - q) * n == r - r';
    if q' > q {
      AtLeast(q' - q, n);
    } else if q > q' {
      assert (q - q') * n == r' - r;
      AtLeast(q - q', n);
    }
  }

  /** How a step changes the counters. */
  lemma StepCounters(s: State, a: Action, s': State)
    requires Steps(s, a, s')
    ensures s'.needed == s.needed && |s'.threads| == |s.threads|
    ensures if !a.Enter? then s'.rounds == s.rounds && s'.called == s.called
            else if s.called + 1 == s.needed then s'.rounds == s.rounds + 1 && s'.called == 0
            else s'.rounds == s.rounds && s'.called == s.called + 1
  {
  }

  /** And what the code does not have of thread `i`. */
  lemma StepThread(s: State, a: Action, s': State, i: nat)
    requires Steps(s, a, s') && i < |s.threads|
    ensures |s'.threads| == |s.threads|
    ensures var t, t' := s.threads[i], s'.threads[i];
      && t'.entered == t.entered + (if a == Enter(i) then 1 else 0)
      && t'.returned == t.returned + (if (a == Enter(i) || a == Resume(i)) && t'.place == Outside then 1 else 0)
      && t'.round == if a == Enter(i) then s.rounds + 1 else t.round
  {
  }

  /** Whatever the number of threads, `called` counts the calls of the current round, of which every
      `needed` make one. */
  lemma {:induction false} CalledIsExact(run: seq<State>, acts: seq<Action>, needed: nat, n: nat, k: nat)
    requires IsRun(run, acts, needed, n) && k < |run|
    ensures run[k].needed == needed && |run[k].threads| == n
    ensures run[k].rounds == RoundsBy(acts, needed, k)
    ensures needed > 0 ==> run[k].called == Entries(acts, k) % needed
  {
    hide Steps;
    if k > 0 {
      CalledIsExact(run, acts, needed, n, k - 1);
      assert Steps(run[k - 1], acts[k - 1], run[k - 1 + 1]);
      StepCounters(run[k - 1], acts[k - 1], run[k]);
      if needed > 0 {
        DivStep(Entries(acts, k - 1), needed);
      }
    }
  }

  lemma {:induction false} EnteredIsExact(run: seq<State>, acts: seq<Action>, needed: nat, n: nat, k: nat, i: nat)
    requires IsRun(run, acts, needed, n) && k < |run| && i < n
    ensures i < |run[k].threads| && run[k].threads[i].entered == EntriesOf(acts, k, i)
  {
    hide Steps, RoundsBy, Entries;
    CalledIsExact(run, acts, needed, n, k);
    if k > 0 {
      EnteredIsExact(run, acts, needed, n, k - 1, i);
      assert Steps(run[k - 1], acts[k - 1], run[k - 1 + 1]);
      StepThread(run[k - 1], acts[k - 1], run[k], i);
    }
  }

  lemma {:induction false} ReturnedIsExact(run: seq<State>, acts: seq<Action>, needed: nat, n: nat, k: nat, i: nat)
    requires IsRun(run, acts, needed, n) && k < |run| && i < n
    ensures i < |run[k].threads| && run[k].threads[i].returned == ReturnsOf(run, acts, k, i)
  {
    hide Steps, RoundsBy, Entries;
    CalledIsExact(run, acts, needed, n, k);
    if k > 0 {
      ReturnedIsExact(run, acts, needed, n, k - 1, i);
      assert Steps(run[k - 1], acts[k - 1], run[k - 1 + 1]);
      StepThread(run[k - 1], acts[k - 1], run[k], i);
    }
  }

  lemma {:induction false} RoundIsExact(run: seq<State>, acts: seq<Action>, needed: nat, n: nat, k: nat, i: nat)
    requires IsRun(run, acts, needed, n) && k < |run| && i < n
    ensures i < |run[k].threads| && run[k].threads[i].round == RoundOf(acts, needed, k, i)
  {
    hide Steps, RoundsBy, Entries;
    CalledIsExact(run, acts, needed, n, k);
    if k > 0 {
      RoundIsExact(run, acts, needed, n, k - 1, i);
      CalledIsExact(run, acts, needed, n, k - 1);
      assert Steps(run[k - 1], acts[k - 1], run[k - 1 + 1]);
      StepThread(run[k - 1], acts[k - 1], run[k], i);
    }
  }

  /** The counters that the code does not have are what the actions say. */
  lemma ThreadIsExact(run: seq<State>, acts: seq<Action>, needed: nat, n: nat, k: nat, i: nat)
    requires IsRun(run, acts, needed, n) && k < |run| && i < n
    ensures i < |run[k].threads|
    ensures run[k].threads[i].entered == EntriesOf(acts, k, i)
    ensures run[k].threads[i].returned == ReturnsOf(run, acts, k, i)
    ensures run[k].threads[i].round == RoundOf(acts, needed, k, i)
  {
    EnteredIsExact(run, acts, needed, n, k, i);
    ReturnedIsExact(run, acts, needed, n, k, i);
    RoundIsExact(run, acts, needed, n, k, i);
  }

  // ----- What holds for any number of threads -----

  predicate Odd(n: nat) {
    n % 2 == 1
  }

  /** A thread inside listens for the parity of its round. */
  predicate ListensOk(t: Thread, rounds: nat) {
    match t.place
    case Outside => t.round <= rounds + 1
    case Asleep(listening) => 0 < t.round <= rounds + 1 && listening == Odd(t.round - 1)
    case Woken(listening) => 0 < t.round <= rounds + 1 && listening == Odd(t.round - 1)
  }

  ghost predicate BitsInv(s: State) {
    && s.sense == Odd(s.rounds) && s.release == !s.sense
    && forall i: nat | i < |s.threads| :: ListensOk(s.threads[i], s.rounds)
  }

  lemma BitsStep(s: State, a: Action)
    requires BitsInv(s) && Enabled(s, a)
    ensures BitsInv(Next(s, a))
  {
    var s' := Next(s, a);
    forall k: nat | k < |s'.threads|
      ensures ListensOk(s'.threads[k], s'.rounds)
    {
      assert ListensOk(s.threads[k], s.rounds);
    }
  }

  lemma {:induction false} RunBits(run: seq<State>, acts: seq<Action>, needed: nat, n: nat, k: nat)
    requires IsRun(run, acts, needed, n) && k < |run|
    ensures BitsInv(run[k])
  {
    if k > 0 {
      RunBits(run, acts, needed, n, k - 1);
      assert Steps(run[k - 1], acts[k - 1], run[k - 1 + 1]);
      BitsStep(run[k - 1], acts[k - 1]);
    }
  }

  /** The two bits give the parity of the round. */
  lemma BitsGiveRound(run: seq<State>, acts: seq<Action>, needed: nat, n: nat, k: nat)
    requires IsRun(run, acts, needed, n) && k < |run|
    ensures run[k].sense == Odd(RoundsBy(acts, needed, k)) && run[k].release == !run[k].sense
  {
    RunBits(run, acts, needed, n, k);
    CalledIsExact(run, acts, needed, n, k);
  }

  predicate NobodyAsleep(s: State) {
    forall j: nat | j < |s.threads| :: !s.threads[j].place.Asleep?
  }

  /** A thread that calls wait returns at once if and only if its call completes the round, and then nobody
      is left asleep; otherwise it sleeps. */
  lemma LastCallReturns(run: seq<State>, acts: seq<Action>, needed: nat, n: nat, k: nat, i: nat)
    requires IsRun(run, acts, needed, n) && k < |acts| && acts[k] == Enter(i)
    ensures i < |run[k + 1].threads|
    ensures ReturnsAt(run, acts, k, i) <==> RoundsBy(acts, needed, k + 1) == RoundsBy(acts, needed, k) + 1
    ensures !ReturnsAt(run, acts, k, i) <==> run[k + 1].threads[i].place.Asleep?
    ensures ReturnsAt(run, acts, k, i) ==> NobodyAsleep(run[k + 1])
  {
    RunBits(run, acts, needed, n, k);
    CalledIsExact(run, acts, needed, n, k);
    CalledIsExact(run, acts, needed, n, k + 1);
    assert Steps(run[k], acts[k], run[k + 1]);
    hide RoundsBy;
  }

  /** A sleeper is woken by the call that completes a round or stirs of itself, and sleeps on otherwise; a
      thread that is woken stays so until it gets the mutex. */
  lemma WakesOnly(run: seq<State>, acts: seq<Action>, needed: nat, n: nat, k: nat, i: nat)
    requires IsRun(run, acts, needed, n) && k < |acts| && i < n
    requires i < |run[k].threads| && !run[k].threads[i].place.Outside? && acts[k] != Resume(i)
    ensures i < |run[k + 1].threads|
    ensures run[k + 1].threads[i].place.Woken? <==>
      || run[k].threads[i].place.Woken? || acts[k] == Stir(i)
      || RoundsBy(acts, needed, k + 1) == RoundsBy(acts, needed, k) + 1
    ensures run[k + 1].threads[i].place.Asleep? <==> !run[k + 1].threads[i].place.Woken?
  {
    CalledIsExact(run, acts, needed, n, k);
    CalledIsExact(run, acts, needed, n, k + 1);
    assert Steps(run[k], acts[k], run[k + 1]);
    hide RoundsBy;
  }

  /** Whatever the number of threads, a thread that gets the mutex back returns if and only if its round
      is complete and an even number of rounds after it; otherwise it sleeps again. */
  lemma ReturnsExactly(run: seq<State>, acts: seq<Action>, needed: nat, n: nat, k: nat, i: nat)
    requires IsRun(run, acts, needed, n) && k < |acts| && acts[k] == Resume(i)
    ensures i < |run[k + 1].threads|
    ensures var round, rounds := RoundOf(acts, needed, k, i), RoundsBy(acts, needed, k);
      ReturnsAt(run, acts, k, i) <==> round <= rounds && (rounds - round) % 2 == 0
    ensures !ReturnsAt(run, acts, k, i) <==> run[k + 1].threads[i].place.Asleep?
  {
    assert Steps(run[k], acts[k], run[k + 1]);
    CalledIsExact(run, acts, needed, n, k);
    ThreadIsExact(run, acts, needed, n, k, i);
    ResumeReturns(run, acts, needed, n, k, i);
    hide RoundsBy, RoundOf;
  }

  lemma ResumeReturns(run: seq<State>, acts: seq<Action>, needed: nat, n: nat, k: nat, i: nat)
    requires IsRun(run, acts, needed, n) && k < |run| && Enabled(run[k], Resume(i))
    ensures var t := run[k].threads[i];
      Next(run[k], Resume(i)).threads[i].place == Outside
      <==> t.round <= run[k].rounds && (run[k].rounds - t.round) % 2 == 0
  {
    RunBits(run, acts, needed, n, k);
    assert ListensOk(run[k].threads[i], run[k].rounds);
  }

  // ----- The invariant, for at most `needed` threads -----

  /** A thread waits in round `rounds + 1`, or has been released from the round before and is awake, or
      is outside and up to date. */
  predicate ThreadOk(t: Thread, rounds: nat) {
    && t.round == t.entered
    && match t.place
       case Outside => t.entered == t.returned == rounds
       case Asleep(_) => t.entered == rounds + 1 && t.returned == rounds
       case Woken(_) => t.entered == t.returned + 1 && rounds <= t.entered <= rounds + 1
  }

  /** The threads that wait in the current round. */
  function Waiters(s: State): set<nat> {
    set i: nat | i < |s.threads| && s.threads[i].round == s.rounds + 1
  }

  ghost predicate Inv(s: State) {
    && |s.threads| <= s.needed && 0 < s.needed
    && BitsInv(s)
    && s.called == |Waiters(s)| < s.needed
    && forall i: nat | i < |s.threads| :: ThreadOk(s.threads[i], s.rounds)
  }

  /** When the last thread enters, everybody else waits in this round. */
  lemma AllWait(s: State, i: nat, k: nat)
    requires Inv(s) && i < |s.threads| && k < |s.threads| && k != i
    requires s.called + 1 == s.needed && s.threads[i].place.Outside?
    ensures s.threads[k].entered == s.rounds + 1
  {
    assert ThreadOk(s.threads[i], s.rounds) && ThreadOk(s.threads[k], s.rounds);
    if k !in Waiters(s) {
      assert |Waiters(s) + {i, k}| == |Waiters(s)| + 2;
      SubsetSize(Waiters(s) + {i, k}, Below(|s.threads|));
    }
  }

  lemma FallInv(s: State, i: nat)
    requires Inv(s) && Enabled(s, Enter(i)) && s.called + 1 == s.needed
    ensures Inv(Next(s, Enter(i)))
  {
    var s' := Next(s, Enter(i));
    BitsStep(s, Enter(i));
    forall k: nat | k < |s'.threads|
      ensures ThreadOk(s'.threads[k], s'.rounds) && s'.threads[k].round == s'.rounds
    {
      assert ThreadOk(s.threads[k], s.rounds);
      if k != i {
        AllWait(s, i, k);
      }
    }
    assert Waiters(s') == {};
  }

  lemma WaitInv(s: State, i: nat)
    requires Inv(s) && Enabled(s, Enter(i)) && s.called + 1 != s.needed
    ensures Inv(Next(s, Enter(i)))
  {
    var s' := Next(s, Enter(i));
    BitsStep(s, Enter(i));
    assert ThreadOk(s.threads[i], s.rounds) && ListensOk(s.threads[i], s.rounds);
    assert Waiters(s') == Waiters(s) + {i};
  }

  /** A step that lets nobody in changes no round, and wakes or returns thread `a.i` at most. */
  lemma SameRound(s: State, a: Action)
    requires Inv(s) && Enabled(s, a) && !a.Enter?
    ensures var s' := Next(s, a);
      && s' == s.(threads := s'.threads) && |s'.threads| == |s.threads|
      && forall k: nat | k < |s.threads| ::
           s'.threads[k].round == s.threads[k].round && ThreadOk(s'.threads[k], s.rounds)
  {
    assert ThreadOk(s.threads[a.i], s.rounds) && ListensOk(s.threads[a.i], s.rounds);
    forall k: nat | k < |s.threads|
      ensures ThreadOk(Next(s, a).threads[k], s.rounds)
    {
      assert ThreadOk(s.threads[k], s.rounds);
    }
  }

  lemma SameRoundInv(s: State, a: Action)
    requires Inv(s) && Enabled(s, a) && !a.Enter?
    ensures Inv(Next(s, a))
  {
    SameRound(s, a);
    BitsStep(s, a);
    hide BitsInv, Next, ThreadOk;
    assert Waiters(Next(s, a)) == Waiters(s);
  }

  lemma {:induction false} RunInv(run: seq<State>, acts: seq<Action>, needed: nat, n: nat, k: nat)
    requires n <= needed && 0 < needed && IsRun(run, acts, needed, n) && k < |run|
    ensures Inv(run[k]) && run[k].needed == needed && |run[k].threads| == n
  {
    if k == 0 {
      assert Waiters(run[0]) == {};
    } else {
      RunInv(run, acts, needed, n, k - 1);
      var s, a := run[k - 1], acts[k - 1];
      assert Steps(s, a, run[k - 1 + 1]);
      if !a.Enter? {
        SameRoundInv(s, a);
      } else if s.called + 1 == s.needed {
        FallInv(s, a.i);
      } else {
        WaitInv(s, a.i);
      }
    }
  }

  // ----- What holds in every run of at most `needed` threads -----

  /** No thread returns from its k-th wait before every thread has entered its k-th wait. */
  lemma NoEarlyReturn(run: seq<State>, acts: seq<Action>, needed: nat, n: nat, k: nat, i: nat, j: nat)
    requires n <= needed && IsRun(run, acts, needed, n) && k < |run| && i < n && j < n
    ensures ReturnsOf(run, acts, k, i) <= EntriesOf(acts, k, j)
  {
    RunInv(run, acts, needed, n, k);
    var s := run[k];
    assert ThreadOk(s.threads[i], s.rounds) && ThreadOk(s.threads[j], s.rounds);
    ThreadIsExact(run, acts, needed, n, k, i);
    ThreadIsExact(run, acts, needed, n, k, j);
  }

  /** `called` is the number of threads whose last call is for the current round. */
  lemma CalledCountsWaiters(run: seq<State>, acts: seq<Action>, needed: nat, n: nat, k: nat)
    requires n <= needed && 0 < needed && IsRun(run, acts, needed, n) && k < |run|
    ensures run[k].called == |Waiters(run[k])| < needed
    ensures forall i: nat ::
      i in Waiters(run[k]) <==> i < n && RoundOf(acts, needed, k, i) == RoundsBy(acts, needed, k) + 1
  {
    hide RoundsBy, RoundOf;
    RunInv(run, acts, needed, n, k);
    CalledIsExact(run, acts, needed, n, k);
    forall i: nat | i < n
      ensures i in Waiters(run[k]) <==> RoundOf(acts, needed, k, i) == RoundsBy(acts, needed, k) + 1
    {
      ThreadIsExact(run, acts, needed, n, k, i);
    }
  }

  /** A thread that is inside although its round is complete is awake, and returns when it gets the mutex,
      however late. */
  lemma ReleaseIsNotMissed(run: seq<State>, acts: seq<Action>, needed: nat, n: nat, k: nat, i: nat)
    requires n <= needed && IsRun(run, acts, needed, n) && k < |run| && i < n == |run[k].threads|
    requires !run[k].threads[i].place.Outside? && RoundOf(acts, needed, k, i) <= RoundsBy(acts, needed, k)
    ensures run[k].threads[i].place.Woken?
    ensures k < |acts| && acts[k] == Resume(i) ==> ReturnsAt(run, acts, k, i)
  {
    RunInv(run, acts, needed, n, k);
    CalledIsExact(run, acts, needed, n, k);
    ThreadIsExact(run, acts, needed, n, k, i);
    assert ThreadOk(run[k].threads[i], run[k].rounds);
    if k < |acts| && acts[k] == Resume(i) {
      ReturnsExactly(run, acts, needed, n, k, i);
    }
  }

  /** And no thread returns whose round is not complete. */
  lemma OnlyReleasedReturn(run: seq<State>, acts: seq<Action>, needed: nat, n: nat, k: nat, i: nat)
    requires n <= needed && IsRun(run, acts, needed, n) && k < |acts| && i < n && acts[k] == Resume(i)
    ensures ReturnsAt(run, acts, k, i) <==> RoundOf(acts, needed, k, i) <= RoundsBy(acts, needed, k)
  {
    hide RoundsBy, RoundOf, EntriesOf, ReturnsOf, ReturnsAt, IsRun, BitsInv;
    ResumedIsWoken(run, acts, needed, n, k, i);
    RunInv(run, acts, needed, n, k);
    CalledIsExact(run, acts, needed, n, k);
    ThreadIsExact(run, acts, needed, n, k, i);
    assert ThreadOk(run[k].threads[i], run[k].rounds);
    ReturnsExactly(run, acts, needed, n, k, i);
  }

  lemma ResumedIsWoken(run: seq<State>, acts: seq<Action>, needed: nat, n: nat, k: nat, i: nat)
    requires IsRun(run, acts, needed, n) && k < |acts| && acts[k] == Resume(i)
    ensures |run| == |acts| + 1 && i < |run[k].threads| && run[k].threads[i].place.Woken?
  {
    assert Steps(run[k], acts[k], run[k + 1]);
  }

  /** With `needed` threads they are never all asleep. */
  lemma SomebodyIsAwake(run: seq<State>, acts: seq<Action>, n: nat, k: nat) returns (i: nat)
    requires n > 0 && IsRun(run, acts, n, n) && k < |run|
    ensures i < n == |run[k].threads| && !run[k].threads[i].place.Asleep?
  {
    RunInv(run, acts, n, n, k);
    var s := run[k];
    if Below(n) <= Waiters(s) {
      SubsetSize(Below(n), Waiters(s));
    }
    i :| i in Below(n) && i !in Waiters(s);
    assert ThreadOk(s.threads[i], s.rounds);
  }

  // ----- Exactly when a release can be missed -----

  /** Thread `i` sleeps although its round is complete. */
  predicate Missed(run: seq<State>, acts: seq<Action>, needed: nat, k: nat, i: nat) {
    && k <= |acts| && k < |run| && i < |run[k].threads| && run[k].threads[i].place.Asleep?
    && RoundOf(acts, needed, k, i) <= RoundsBy(acts, needed, k)
  }

  ghost predicate NeverMissed(needed: nat, n: nat) {
    forall run, acts, k: nat, i: nat | IsRun(run, acts, needed, n) :: !Missed(run, acts, needed, k, i)
  }

  /** With a barrier for one every wait returns at once, with a barrier for nobody none does. */
  predicate Degenerate(s: State) {
    && s.needed <= 1 && (s.needed == 1 ==> s.called == 0)
    && forall i: nat | i < |s.threads| && !s.threads[i].place.Outside? ::
         s.needed == 0 && s.threads[i].round == s.rounds + 1
  }

  lemma {:induction false} RunDegenerate(run: seq<State>, acts: seq<Action>, needed: nat, n: nat, k: nat)
    requires needed <= 1 && IsRun(run, acts, needed, n) && k < |run|
    ensures Degenerate(run[k])
  {
    if k > 0 {
      RunDegenerate(run, acts, needed, n, k - 1);
      assert Steps(run[k - 1], acts[k - 1], run[k - 1 + 1]);
    }
  }

  lemma NotMissed(run: seq<State>, acts: seq<Action>, needed: nat, n: nat, k: nat, i: nat)
    requires (needed <= 1 || n <= needed) && IsRun(run, acts, needed, n)
    ensures !Missed(run, acts, needed, k, i)
  {
    if k < |run| {
      CalledIsExact(run, acts, needed, n, k);
      if i < n {
        ThreadIsExact(run, acts, needed, n, k, i);
        hide RoundsBy, RoundOf;
        if needed <= 1 {
          RunDegenerate(run, acts, needed, n, k);
        } else {
          RunInv(run, acts, needed, n, k);
          assert ThreadOk(run[k].threads[i], run[k].rounds);
        }
      }
    }
  }

  lemma Extend(run: seq<State>, acts: seq<Action>, needed: nat, n: nat, a: Action, s: State)
    requires IsRun(run, acts, needed, n) && Steps(run[|acts|], a, s)
    ensures IsRun(run + [s], acts + [a], needed, n)
  {
  }

  const FRESH := Thread(Outside, 0, 0, 0)

  /** `j` threads wait in the first round. */
  function FirstRound(m: nat, n: nat, j: nat): State {
    State(m, j, false, true, seq(n, x => if x < j then Thread(Asleep(false), 1, 0, 1) else FRESH), 0)
  }

  /** The first round has fallen, and of its sleepers the threads 1 to `j` have returned. */
  function FirstFallen(m: nat, n: nat, j: nat): State {
    State(m, 0, true, false,
          seq(n, x => if x < m - 1 && (x == 0 || x > j) then Thread(Woken(false), 1, 0, 1)
                      else if x < m then Thread(Outside, 1, 1, 1) else FRESH), 1)
  }

  /** The threads 1 to `j` wait in the second round, and thread 0 has yet to get the mutex back. */
  function SecondRound(m: nat, n: nat, j: nat): State {
    State(m, j, true, false,
          seq(n, x => if x == 0 then Thread(Woken(false), 1, 0, 1)
                      else if x <= j then Thread(Asleep(true), 2, 1, 2)
                      else if x < m then Thread(Outside, 1, 1, 1) else FRESH), 1)
  }

  /** The second round has fallen. */
  function SecondFallen(m: nat, n: nat, first: Place): State {
    State(m, 0, false, true,
          seq(n, x => if x == 0 then Thread(first, 1, 0, 1)
                      else if x < m then Thread(Woken(true), 2, 1, 2)
                      else if x == m then Thread(Outside, 1, 1, 2) else FRESH), 2)
  }

  lemma {:induction false} ReachFirstRound(m: nat, n: nat, j: nat) returns (run: seq<State>, acts: seq<Action>)
    requires j < m < n
    ensures IsRun(run, acts, m, n) && run[|acts|] == FirstRound(m, n, j)
  {
    if j == 0 {
      run, acts := [Initial(m, n)], [];
    } else {
      run, acts := ReachFirstRound(m, n, j - 1);
      assert Steps(FirstRound(m, n, j - 1), Enter(j - 1), FirstRound(m, n, j));
      Extend(run, acts, m, n, Enter(j - 1), FirstRound(m, n, j));
      run, acts := run + [FirstRound(m, n, j)], acts + [Enter(j - 1)];
    }
  }

  lemma {:induction false} ReachFirstFallen(m: nat, n: nat, j: nat) returns (run: seq<State>, acts: seq<Action>)
    requires j + 1 < m < n
    ensures IsRun(run, acts, m, n) && run[|acts|] == FirstFallen(m, n, j)
  {
    var a;
    if j == 0 {
      run, acts := ReachFirstRound(m, n, m - 1);
      a := Enter(m - 1);
    } else {
      run, acts := ReachFirstFallen(m, n, j - 1);
      a := Resume(j);
    }
    assert Steps(run[|acts|], a, FirstFallen(m, n, j));
    Extend(run, acts, m, n, a, FirstFallen(m, n, j));
    run, acts := run + [FirstFallen(m, n, j)], acts + [a];
  }

  lemma {:induction false} ReachSecondRound(m: nat, n: nat, j: nat) returns (run: seq<State>, acts: seq<Action>)
    requires j < m < n && 2 <= m
    ensures IsRun(run, acts, m, n) && run[|acts|] == SecondRound(m, n, j)
  {
    if j == 0 {
      run, acts := ReachFirstFallen(m, n, m - 2);
      assert FirstFallen(m, n, m - 2) == SecondRound(m, n, 0);
    } else {
      run, acts := ReachSecondRound(m, n, j - 1);
      assert Steps(SecondRound(m, n, j - 1), Enter(j), SecondRound(m, n, j));
      Extend(run, acts, m, n, Enter(j), SecondRound(m, n, j));
      run, acts := run + [SecondRound(m, n, j)], acts + [Enter(j)];
    }
  }

  /** Threads 0 to needed - 1 complete the first round, threads 1 to `needed` complete the second before
      thread 0 has got the mutex back, and thread 0 goes to sleep again. */
  lemma ExtraThreadMissesRelease(needed: nat, n: nat) returns (run: seq<State>, acts: seq<Action>)
    requires 2 <= needed < n
    ensures IsRun(run, acts, needed, n) && Missed(run, acts, needed, |acts|, 0)
  {
    run, acts := ReachSecondRound(needed, n, needed - 1);
    var s, s' := SecondFallen(needed, n, Woken(false)), SecondFallen(needed, n, Asleep(false));
    assert Steps(run[|acts|], Enter(needed), s);
    Extend(run, acts, needed, n, Enter(needed), s);
    run, acts := run + [s], acts + [Enter(needed)];
    assert Steps(s, Resume(0), s');
    Extend(run, acts, needed, n, Resume(0), s');
    run, acts := run + [s'], acts + [Resume(0)];
    CalledIsExact(run, acts, needed, n, |acts|);
    ThreadIsExact(run, acts, needed, n, |acts|, 0);
    hide RoundsBy, RoundOf;
  }

  /** The barrier never leaves a released thread asleep if and only if no more than `needed` threads use
      it, or it does not make anybody wait for another. */
  lemma NeverMissedIff(needed: nat, n: nat)
    ensures NeverMissed(needed, n) <==> needed <= 1 || n <= needed
  {
    if needed <= 1 || n <= needed {
      forall run, acts, k: nat, i: nat | IsRun(run, acts, needed, n)
        ensures !Missed(run, acts, needed, k, i)
      {
        NotMissed(run, acts, needed, n, k, i);
      }
    } else {
      var run, acts := ExtraThreadMissesRelease(needed, n);
    }
  }

  // ----- The code -----

  class Barrier {
    const needed: nat
    var called: nat
    var barrierSense: bool
    var barrierRelease: bool
    ghost var threads: seq<Thread>
    ghost var rounds: nat

    ghost function Snapshot(): State
      reads this
    {
      State(needed, called, barrierSense, barrierRelease, threads, rounds)
    }

    constructor (numthreads: nat, ghost n: nat)
      ensures Snapshot() == Initial(numthreads, n)
    {
      needed, called, barrierSense, barrierRelease := numthreads, 0, false, true;
      threads, rounds := seq(n, _ => Thread(Outside, 0, 0, 0)), 0;
    }

    /** wait by thread `i`, up to its return or its first sleep. */
    method Wait(i: nat) returns (returned: bool, listeningOn: bool)
      requires Enabled(Snapshot(), Enter(i))
      modifies this
      ensures Snapshot() == Next(old(Snapshot()), Enter(i))
      ensures |threads| == |old(threads)| && (returned <==> threads[i].place.Outside?)
      ensures !returned ==> threads[i].place == Asleep(listeningOn)
    {
      called := called + 1;
      listeningOn := barrierSense;
      ghost var t := threads[i].(entered := threads[i].entered + 1, round := rounds + 1);
      if called == needed {
        called := 0;
        barrierRelease := barrierSense;
        barrierSense := !barrierSense;
        returned := true;
        rounds := rounds + 1;
        threads := Broadcast(threads)[i := t.(returned := t.returned + 1)];
      } else {
        threads := threads[i := t];
        returned := ListenAgain(i, listeningOn);
      }
    }

    /** The loop of thread `i` when it has got the mutex back. */
    method Resume(i: nat, listeningOn: bool) returns (returned: bool)
      requires i < |threads| && threads[i].place == Woken(listeningOn)
      modifies this
      ensures Snapshot() == Next(old(Snapshot()), Action.Resume(i))
      ensures |threads| == |old(threads)| && (returned <==> threads[i].place.Outside?)
    {
      returned := ListenAgain(i, listeningOn);
    }

    method ListenAgain(i: nat, listeningOn: bool) returns (returned: bool)
      requires i < |threads|
      modifies this
      ensures Snapshot() == Listen(old(Snapshot()), i, listeningOn)
      ensures returned <==> threads[i].place.Outside?
      ensures !returned ==> threads[i].place == Asleep(listeningOn)
    {
      returned := barrierRelease == listeningOn;
      ghost var t := threads[i];
      if returned {
        threads := threads[i := t.(place := Outside, returned := t.returned + 1)];
      } else {
        threads := threads[i := t.(place := Asleep(listeningOn))];
      }
    }
  }
}
