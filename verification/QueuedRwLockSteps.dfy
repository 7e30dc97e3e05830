/** Every step of the queue-based lock keeps its invariant. */
module QueuedRwLockSteps {
  import opened Wrappers
  import opened QueuedRwLock
  import opened QueuedRwLockInvariant

  // ----- Steps that neither use the mailbox nor change the count -----

  lemma MovedWaiting(s: State, s': State, i: nat, w: nat)
    requires Shape(s) && Moved(s, s', i) && !Mailing(s.reqs[i].pc)
    ensures Waiting(s', w) <==> Waiting(s, w)
  {
    hide MovesShared, EndOk;
    assert NodeAt(s, i);
    if w == i + 1 && w < |s.reqs| {
      assert NodeAt(s, w) && LinkAt(s, i);
    }
  }

  lemma MovedCounted(s: State, s': State, i: nat, k: nat)
    requires Shape(s) && Moved(s, s', i)
    requires !Increments(s.reqs[i].pc) && !s.reqs[i].pc.RDec?
    ensures Counted(s', k) <==> Counted(s, k)
  {
    assert NodeAt(s, i);
  }

  lemma MovedCounting(s: State, s': State, i: nat)
    requires Shape(s) && Counting(s) && Moved(s, s', i) && !Mailing(s.reqs[i].pc)
    requires !Increments(s.reqs[i].pc) && !s.reqs[i].pc.RDec?
    ensures Counting(s')
  {
    hide Shape, Counted;
    forall k: nat
      ensures Counted(s', k) <==> Counted(s, k)
    {
      MovedCounted(s, s', i, k);
    }
    SameInside(s, s');
    assert forall k: nat :: TakesAt(s, k) ==> TakesAt(s', k);
  }

  // ----- Steps that change the count -----

  /** While a reader is first in line, no writer is between its zero count and the lock. */
  lemma NoWriterClaims(s: State, f: nat, w: nat)
    requires Shape(s) && FirstBlocked(s, f) && s.reqs[f].cls.Read?
    requires f > 0 && s.reqs[f - 1].cls.Write? ==> !s.reqs[f - 1].pc.WTake?
    requires w < |s.reqs|
    ensures !s.reqs[w].pc.WTake? && !s.reqs[w].pc.WSelf?
  {
    assert NodeAt(s, w);
    if !s.reqs[w].pc.WTake? && !s.reqs[w].pc.WSelf? {
    } else if s.reqs[w].blocked {
      WaitingUnique(s, w, f);
    } else if f < w {
      Fifo(s, f, w);
    } else {
      Fifo(s, w, f - 1);
    }
  }

  /** The reader an increment is for. */
  function Entering(s: State, i: nat): nat
    requires i < |s.reqs|
  {
    if s.reqs[i].pc.WCountNext? || s.reqs[i].pc.RCountNext? then i + 1 else i
  }

  predicate EntersFirst(s: State, f: nat) {
    && FirstBlocked(s, f) && s.reqs[f].cls.Read? && !Counted(s, f)
    && (f > 0 && s.reqs[f - 1].cls.Write? ==> !s.reqs[f - 1].pc.WTake?)
  }

  lemma EntersItself(s: State, i: nat)
    requires Shape(s) && i < |s.reqs| && (s.reqs[i].pc.RCount? || s.reqs[i].pc.RJoinCount?)
    ensures EntersFirst(s, i)
  {
    assert NodeAt(s, i);
    if i > 0 {
      assert NodeAt(s, i - 1) && LinkAt(s, i - 1);
    }
  }

  lemma EntersNext(s: State, i: nat)
    requires Shape(s) && i < |s.reqs| && (s.reqs[i].pc.WCountNext? || s.reqs[i].pc.RCountNext?)
    ensures EntersFirst(s, i + 1) && s.reqs[i + 1].pc.RSpin?
  {
    assert NodeAt(s, i);
    if i + 1 < |s.reqs| {
      assert NodeAt(s, i + 1) && LinkAt(s, i);
    }
  }

  lemma EnteringIsFirst(s: State, i: nat)
    requires Shape(s) && i < |s.reqs| && Increments(s.reqs[i].pc)
    ensures EntersFirst(s, Entering(s, i))
    ensures Entering(s, i) == i + 1 ==> s.reqs[i + 1].pc.RSpin?
  {
    hide Shape, EntersFirst;
    if Entering(s, i) == i {
      EntersItself(s, i);
    } else {
      EntersNext(s, i);
    }
  }

  lemma MovedEnters(s: State, s': State, i: nat, k: nat)
    requires Shape(s) && Moved(s, s', i) && Increments(s.reqs[i].pc)
    ensures Counted(s', k) <==> Counted(s, k) || k == Entering(s, i)
  {
    hide MovesShared;
    EnteringIsFirst(s, i);
    assert NodeAt(s, i);
  }

  lemma IncrementCounting(s: State, s': State, i: nat)
    requires Inv(s) && Moved(s, s', i) && Increments(s.reqs[i].pc)
    ensures Counting(s')
  {
    hide Shape, Counted, Entering, FirstBlocked, Mail;
    var f := Entering(s, i);
    EnteringIsFirst(s, i);
    forall w: nat | w < |s'.reqs|
      ensures !s'.reqs[w].pc.WTake? && !s'.reqs[w].pc.WSelf?
    {
      NoWriterClaims(s, f, w);
    }
    forall k: nat
      ensures Counted(s', k) <==> Counted(s, k) || k == f
    {
      MovedEnters(s, s', i, k);
    }
    EntersInside(s, s', f);
  }

  lemma MovedLeaves(s: State, s': State, i: nat, k: nat)
    requires Shape(s) && Moved(s, s', i) && s.reqs[i].pc.RDec?
    ensures Counted(s, i) && (Counted(s', k) <==> Counted(s, k) && k != i)
  {
    hide MovesShared;
    assert NodeAt(s, i);
  }

  lemma DecrementCounting(s: State, s': State, i: nat)
    requires Inv(s) && Moved(s, s', i) && s.reqs[i].pc.RDec?
    ensures Counting(s')
  {
    hide Shape, Mail, Counted;
    forall k: nat
      ensures Counted(s', k) <==> Counted(s, k) && k != i
    {
      MovedLeaves(s, s', i, k);
    }
    MovedLeaves(s, s', i, i);
    LeavesInside(s, s', i);
    assert forall k: nat :: TakesAt(s, k) ==> TakesAt(s', k);
    assert s.readerCount == 1 ==> TakesAt(s', i);
  }

  // ----- Steps that write a neighbour -----

  lemma JoinedWaiting(s: State, s': State, i: nat, w: nat)
    requires Shape(s) && Joined(s, s', i)
    ensures Waiting(s', w) <==> Waiting(s, w)
  {
    hide EndOk;
    assert NodeAt(s, i) && NodeAt(s, i - 1) && LinkAt(s, i - 1);
  }

  lemma JoinedCounted(s: State, s': State, i: nat, w: nat)
    requires Shape(s) && Joined(s, s', i)
    ensures Counted(s', w) <==> Counted(s, w)
  {
    hide EndOk;
    assert NodeAt(s, i) && NodeAt(s, i - 1) && LinkAt(s, i - 1);
  }

  lemma PassedKeeps(s: State, s': State, i: nat, w: nat)
    requires Shape(s) && PassedOn(s, s', i)
    ensures Waiting(s', w) <==> Waiting(s, w)
    ensures Counted(s', w) <==> Counted(s, w)
  {
    hide EndOk;
    PassTarget(s, i);
    assert NodeAt(s, i) && NodeAt(s, i + 1) && LinkAt(s, i);
  }

  /** The program points the invariant of the mailbox mentions. */
  predicate Special(pc: Pc) {
    pc.WCount? || pc.WTake? || pc.WSelf? || pc.RTake? || pc.RWake?
  }

  lemma NeighbourPcs(s: State, s': State, i: nat, k: nat)
    requires (Joined(s, s', i) || PassedOn(s, s', i)) && k < |s.reqs|
    ensures |s'.reqs| == |s.reqs| && s'.nextWriter == s.nextWriter && s'.readerCount == s.readerCount
    ensures s'.reqs[k].pc == s.reqs[k].pc || (!Special(s.reqs[k].pc) && !Special(s'.reqs[k].pc))
  {
  }

  /** A step that writes a neighbour changes neither the mailbox, nor who waits, nor who is counted. */
  lemma NeighbourInv(s: State, s': State, i: nat)
    requires Inv(s) && Shape(s') && (Joined(s, s', i) || PassedOn(s, s', i))
    ensures Inv(s')
  {
    NeighbourPcs(s, s', i, 0);
    hide Shape, Mail, Counted, Waiting, Joined, PassedOn, Special;
    forall w: nat
      ensures Waiting(s', w) <==> Waiting(s, w)
      ensures Counted(s', w) <==> Counted(s, w)
    {
      if Joined(s, s', i) {
        JoinedWaiting(s, s', i, w);
        JoinedCounted(s, s', i, w);
      } else {
        PassedKeeps(s, s', i, w);
      }
    }
    forall k: nat | k < |s.reqs|
      ensures s'.reqs[k].pc == s.reqs[k].pc || (!Special(s.reqs[k].pc) && !Special(s'.reqs[k].pc))
    {
      NeighbourPcs(s, s', i, k);
    }
    QuietMail(s, s');
    SameInside(s, s');
    assert forall k: nat :: TakesAt(s, k) ==> TakesAt(s', k);
  }

  // ----- Steps on the mailbox -----

  /** Before the first request in line is handed the lock nobody waits on the mailbox. */
  lemma NotYetHanded(s: State, f: nat)
    requires Shape(s) && Mail(s) && FirstBlocked(s, f) && !Handed(s, f)
    ensures forall w: nat :: !Waiting(s, w)
    ensures s.nextWriter.None? && forall k: nat, w: nat :: !WakesAt(s, k, w)
  {
    forall w: nat
      ensures !Waiting(s, w)
    {
      if Waiting(s, w) {
        WaitingUnique(s, w, f);
      }
    }
  }

  /** Request `i` moves to `pc` and the mailbox is set to `mail`. */
  function Mailed(s: State, i: nat, pc: Pc, mail: Option<nat>): State
    requires i < |s.reqs|
  {
    s.(nextWriter := mail, reqs := s.reqs[i := s.reqs[i].(pc := pc)])
  }

  lemma MailedCounting(s: State, i: nat, pc: Pc, mail: Option<nat>)
    requires Counting(s) && i < |s.reqs|
    requires Mailing(s.reqs[i].pc) && CountedPc(pc) == CountedPc(s.reqs[i].pc) && !pc.RSpin? && !pc.WPass? && !pc.RPass?
    requires pc.WTake? || pc.WSelf? ==> s.readerCount == 0
    requires mail.Some? ==> s.readerCount > 0 || (mail.value == i && pc.WCount?)
    ensures Counting(Mailed(s, i, pc, mail))
  {
    var s' := Mailed(s, i, pc, mail);
    forall k: nat
      ensures Counted(s', k) <==> Counted(s, k)
    {
    }
    SameInside(s, s');
  }

  lemma WriterPosts(s: State, i: nat)
    requires Inv(s) && i < |s.reqs| && s.reqs[i].pc.WPost?
    ensures Mail(Mailed(s, i, WCount, Some(i)))
  {
    hide EndOk, Counting;
    var s' := Mailed(s, i, WCount, Some(i));
    assert NodeAt(s, i);
    if i > 0 {
      assert NodeAt(s, i - 1) && LinkAt(s, i - 1);
    }
    NotYetHanded(s, i);
    assert forall k: nat, w: nat :: WakesAt(s', k, w) ==> WakesAt(s, k, w);
    assert forall w: nat :: Waiting(s', w) ==> Waiting(s, w) || w == i;
  }

  /** The request behind a reader at line 127 is a writer that nobody has been told of. */
  lemma PostTarget(s: State, i: nat)
    requires Shape(s) && i < |s.reqs| && s.reqs[i].pc.RPost?
    ensures s.reqs[i].next == Some(i + 1) && i + 1 < |s.reqs| && s.reqs[i + 1].cls.Write?
    ensures s.reqs[i + 1].pred == Some(i)
    ensures FirstBlocked(s, i + 1) && !Handed(s, i + 1)
  {
    assert NodeAt(s, i);
    if i + 1 < |s.reqs| {
      assert NodeAt(s, i + 1) && LinkAt(s, i);
    }
  }

  lemma ReaderPosts(s: State, i: nat)
    requires Inv(s) && i < |s.reqs| && s.reqs[i].pc.RPost?
    ensures Mail(Mailed(s, i, RDec, s.reqs[i].next)) && s.readerCount > 0
  {
    hide EndOk, LinkOk;
    var s' := Mailed(s, i, RDec, s.reqs[i].next);
    PostTarget(s, i);
    assert NodeAt(s, i + 1) && NodeAt(s, i);
    NotYetHanded(s, i + 1);
    assert forall k: nat, w: nat :: WakesAt(s', k, w) ==> WakesAt(s, k, w);
    assert forall w: nat :: Waiting(s', w) ==> Waiting(s, w) || w == i + 1;
    assert i in Inside(s);
  }

  /** When a writer has been handed the mailbox, every writer before it is finished. */
  lemma EarlierWritersDone(s: State, w: nat, i: nat)
    requires Shape(s) && Handed(s, w) && i < w && s.reqs[i].cls.Write?
    ensures s.reqs[i].pc.WDone?
  {
    HandedIsFirst(s, w);
    if i < w - 1 {
      Fifo(s, i, w - 1);
    } else {
      assert NodeAt(s, w) && NodeAt(s, i) && LinkAt(s, i);
    }
  }

  /** A writer that swaps the mailbox finds itself or nothing. */
  lemma WriterTakes(s: State, i: nat)
    requires Inv(s) && i < |s.reqs| && s.reqs[i].pc.WTake?
    ensures s.nextWriter.None? || (s.nextWriter == Some(i) && s.reqs[i].blocked)
  {
    assert NodeAt(s, i);
    if s.nextWriter.Some? {
      var w := s.nextWriter.value;
      if i < w {
        EarlierWritersDone(s, w, i);
      } else if w < i && !s.reqs[i].blocked {
        Fifo(s, w, i);
      } else if w < i {
        HandedIsFirst(s, i);
        WaitingUnique(s, w, i);
      }
    }
  }

  lemma WriterTakesMail(s: State, i: nat, pc: Pc)
    requires Inv(s) && i < |s.reqs| && s.reqs[i].pc.WTake?
    requires pc == if s.nextWriter == Some(i) then WSelf else WSpin
    ensures Mail(Mailed(s, i, pc, None))
  {
    hide LinkOk, EndOk, Counting;
    var s' := Mailed(s, i, pc, None);
    WriterTakes(s, i);
    assert forall k: nat, w: nat :: WakesAt(s', k, w) <==> WakesAt(s, k, w);
    assert forall w: nat :: Waiting(s', w) <==> Waiting(s, w);
    forall w: nat | Waiting(s', w)
      ensures s'.reqs[w].pc.WSelf? || Taken(s', w)
    {
      if s.nextWriter == Some(i) {
        HandedIsFirst(s, w);
        WaitingUnique(s, i, w);
      } else if Taken(s, w) {
        var k: nat :| WakesAt(s, k, w);
        assert WakesAt(s', k, w);
      }
    }
  }

  lemma ReaderTakesMail(s: State, i: nat, pc: Pc)
    requires Inv(s) && i < |s.reqs| && s.reqs[i].pc.RTake?
    requires pc == if s.nextWriter.Some? then RWake(s.nextWriter.value) else RDone
    ensures Mail(Mailed(s, i, pc, None))
  {
    hide LinkOk, EndOk, Counting;
    var s' := Mailed(s, i, pc, None);
    assert NodeAt(s, i);
    assert forall w: nat :: Waiting(s', w) <==> Waiting(s, w);
    assert forall k: nat, w: nat :: WakesAt(s', k, w) <==> WakesAt(s, k, w) || (k == i && pc == RWake(w));
    forall w: nat | Waiting(s', w)
      ensures s'.reqs[w].pc.WSelf? || Taken(s', w)
    {
      if s.nextWriter == Some(w) {
        assert WakesAt(s', i, w);
      } else if Taken(s, w) {
        var k: nat :| WakesAt(s, k, w);
        assert WakesAt(s', k, w);
      }
    }
  }

  /** The two writes of a waking step: unblock `w`, finish `i`. */
  function Woken(s: State, i: nat, w: nat, pc: Pc): State
    requires i < |s.reqs| && w < |s.reqs|
  {
    Goto(Unblock(s, w), i, pc)
  }

  lemma UnblockNode(r: Request, i: nat)
    requires NodeOk(r, i) && (r.pc.WCount? || r.pc.WTake? || r.pc.WSpin?)
    ensures NodeOk(r.(blocked := false), i)
  {
  }

  /** Waking a writer that waits keeps the queue well shaped. */
  lemma UnblockShape(s: State, w: nat)
    requires Shape(s) && Waiting(s, w) && !s.reqs[w].pc.WSelf?
    ensures Shape(Unblock(s, w))
  {
    var s' := Unblock(s, w);
    assert NodeAt(s, w);
    if w > 0 {
      assert NodeAt(s, w - 1) && LinkAt(s, w - 1);
      assert LinkAt(s', w - 1);
    }
    if w + 1 < |s.reqs| {
      assert LinkAt(s, w);
      assert LinkAt(s', w);
    }
    assert NodeAt(s', w) by {
      UnblockNode(s.reqs[w], w);
    }
    ShapeFrame(s, s', w, w);
  }

  lemma WokenMoved(s: State, i: nat, w: nat)
    requires WakesAt(s, i, w) && w < |s.reqs|
    ensures Moved(Unblock(s, w), Woken(s, i, w, RDone), i)
  {
  }

  lemma WokenShape(s: State, i: nat, w: nat)
    requires Inv(s) && WakesAt(s, i, w)
    ensures Waiting(s, w) && Shape(Woken(s, i, w, RDone))
  {
    hide NodeOk, LinkOk, Counting;
    UnblockShape(s, w);
    WokenMoved(s, i, w);
    var u, s' := Unblock(s, w), Woken(s, i, w, RDone);
    MovedEnd(u, s', i);
    MovedShape(u, s', i);
  }

  lemma WokenMail(s: State, i: nat, w: nat, pc: Pc)
    requires Inv(s) && i < |s.reqs| && w < |s.reqs|
    requires (s.reqs[i].pc == RWake(w) && pc.RDone?) || (s.reqs[i].pc.WSelf? && i == w && pc.WSpin?)
    ensures Mail(Woken(s, i, w, pc))
  {
    var s' := Woken(s, i, w, pc);
    assert NodeAt(s, i);
    assert WakesAt(s, i, w) || s.reqs[i].pc.WSelf?;
    HandedIsFirst(s, w);
    forall x: nat
      ensures !Waiting(s', x)
    {
      if Waiting(s', x) && x != w {
        assert Waiting(s, x);
        WaitingUnique(s, x, w);
      }
    }
    forall k: nat, x: nat
      ensures !WakesAt(s', k, x)
    {
      if WakesAt(s', k, x) {
        assert WakesAt(s, k, x);
        WaitingUnique(s, x, w);
      }
    }
    if s.nextWriter.Some? {
      WaitingUnique(s, s.nextWriter.value, w);
    }
  }

  lemma WokenCounting(s: State, i: nat, w: nat, pc: Pc)
    requires Inv(s) && i < |s.reqs| && w < |s.reqs|
    requires (s.reqs[i].pc == RWake(w) && pc.RDone?) || (s.reqs[i].pc.WSelf? && i == w && pc.WSpin?)
    ensures Counting(Woken(s, i, w, pc))
  {
    hide LinkOk, EndOk;
    var s' := Woken(s, i, w, pc);
    assert NodeAt(s, i);
    assert WakesAt(s, i, w) || s.reqs[i].pc.WSelf?;
    forall k: nat
      ensures Counted(s', k) <==> Counted(s, k)
    {
    }
    SameInside(s, s');
    assert forall k: nat :: TakesAt(s, k) ==> TakesAt(s', k);
  }

  lemma ClaimsAtZero(s: State, i: nat)
    requires Counting(s) && i < |s.reqs| && s.reqs[i].pc.WTake?
    ensures s.readerCount == 0
  {
  }

  /** A step on the mailbox by the request that owns what it writes. */
  predicate MailsItself(pc: Pc) {
    pc.WPost? || pc.RPost? || pc.WTake? || pc.RTake?
  }

  lemma MovedMailed(s: State, s': State, i: nat)
    requires Moved(s, s', i)
    ensures MailsItself(s.reqs[i].pc) ==> s' == Mailed(s, i, s'.reqs[i].pc, s'.nextWriter)
    ensures s.reqs[i].pc.WSelf? ==> s' == Woken(s, i, i, WSpin)
  {
  }

  lemma OwnMail(s: State, s': State, i: nat)
    requires Inv(s) && Moved(s, s', i) && OwnStep(s.reqs[i].pc)
    ensures Mail(s')
  {
    hide Shape, Mail, Counting, PredClass, Waiting;
    var pc := s.reqs[i].pc;
    if MailsItself(pc) {
      MovedMailed(s, s', i);
      if pc.WPost? {
        WriterPosts(s, i);
      } else if pc.RPost? {
        ReaderPosts(s, i);
      } else if pc.WTake? {
        WriterTakesMail(s, i, s'.reqs[i].pc);
      } else {
        ReaderTakesMail(s, i, s'.reqs[i].pc);
      }
    } else if pc.WSelf? {
      MovedMailed(s, s', i);
      WokenMail(s, i, i, WSpin);
    } else {
      forall w: nat
        ensures Waiting(s', w) <==> Waiting(s, w)
      {
        MovedWaiting(s, s', i, w);
      }
      QuietMail(s, s');
    }
  }

  lemma OwnCounting(s: State, s': State, i: nat)
    requires Inv(s) && Moved(s, s', i) && OwnStep(s.reqs[i].pc)
    ensures Counting(s')
  {
    hide Shape, Mail, Counting, PredClass;
    var pc := s.reqs[i].pc;
    if MailsItself(pc) {
      MovedMailed(s, s', i);
      if pc.RPost? {
        ReaderPosts(s, i);
      } else if pc.WTake? {
        ClaimsAtZero(s, i);
      }
      MailedCounting(s, i, s'.reqs[i].pc, s'.nextWriter);
    } else if pc.WSelf? {
      MovedMailed(s, s', i);
      WokenCounting(s, i, i, WSpin);
    } else if Increments(pc) {
      IncrementCounting(s, s', i);
    } else if pc.RDec? {
      DecrementCounting(s, s', i);
    } else {
      MovedCounting(s, s', i);
    }
  }

  lemma WakeStep(s: State, i: nat, w: nat)
    requires Safe(s, i) && WakesAt(s, i, w)
    ensures w < |s.reqs| && Step(s, i) == Woken(s, i, w, RDone)
  {
  }

  // ----- All steps -----

  /** `s'` is `s` after the waking step of request `i`. */
  predicate Woke(s: State, s': State, i: nat) {
    && i < |s.reqs| && s.reqs[i].pc.RWake? && s.reqs[i].pc.w < |s.reqs|
    && s' == Woken(s, i, s.reqs[i].pc.w, RDone)
  }

  /** What a step of request `i` can be. */
  predicate Changed(s: State, s': State, i: nat) {
    && i < |s.reqs|
    && var pc := s.reqs[i].pc;
    if pc.RWake? then Woke(s, s', i)
    else if UsesPred(pc) && !pc.RClass? then Joined(s, s', i)
    else if pc.WPass? || pc.RPass? then PassedOn(s, s', i)
    else Moved(s, s', i)
  }

  lemma OwnPointers(s: State, i: nat)
    requires Inv(s) && i < |s.reqs|
    ensures s.tail == Some(i) ==> i + 1 == |s.reqs|
    ensures s.reqs[i].pc.WTake? && s.nextWriter == Some(i) ==> s.reqs[i].blocked
    ensures s.reqs[i].pc.WClass? ==> s.reqs[i].next == Some(i + 1)
  {
    assert NodeAt(s, i);
    if s.reqs[i].pc.WTake? {
      WriterTakes(s, i);
    }
  }

  lemma StepChanges(s: State, i: nat)
    requires Inv(s) && i < |s.reqs|
    ensures Safe(s, i) && Changed(s, Step(s, i), i)
  {
    hide Step, Shape, Mail, Counting, Moved, Joined, PassedOn;
    InvSafe(s, i);
    ShapeGivesPointers(s, i);
    var pc := s.reqs[i].pc;
    if pc.RWake? {
      WakeStep(s, i, pc.w);
    } else if UsesPred(pc) && !pc.RClass? {
      JoinStep(s, i);
    } else if pc.WPass? || pc.RPass? {
      PassStep(s, i);
    } else {
      OwnPointers(s, i);
      OwnStepMoves(s, i);
    }
  }

  /** Whatever a step can be keeps the invariant. */
  lemma ChangedInv(s: State, s': State, i: nat)
    requires Inv(s) && Changed(s, s', i)
    ensures Inv(s')
  {
    hide Shape, Mail, Counting, Moved, Joined, PassedOn, Woken;
    if Woke(s, s', i) {
      var w := s.reqs[i].pc.w;
      WokenShape(s, i, w);
      WokenMail(s, i, w, RDone);
      WokenCounting(s, i, w, RDone);
    } else if Joined(s, s', i) {
      JoinedShape(s, s', i);
      NeighbourInv(s, s', i);
    } else if PassedOn(s, s', i) {
      PassedShape(s, s', i);
      NeighbourInv(s, s', i);
    } else {
      MovedEnd(s, s', i);
      MovedShape(s, s', i);
      OwnMail(s, s', i);
      OwnCounting(s, s', i);
    }
  }

  lemma ArriveKeeps(s: State, cls: Class, w: nat)
    requires Shape(s)
    ensures var s' := ArriveStep(s, cls);
      (Waiting(s', w) <==> Waiting(s, w)) && (Counted(s', w) <==> Counted(s, w))
  {
    if w == |s.reqs| > 0 {
      assert NodeAt(s, w - 1);
    }
  }

  lemma ArriveInv(s: State, cls: Class)
    requires Inv(s)
    ensures Inv(ArriveStep(s, cls))
  {
    hide Shape, Counted;
    var s' := ArriveStep(s, cls);
    ArriveShape(s, cls);
    forall w: nat
      ensures (Waiting(s', w) <==> Waiting(s, w)) && (Counted(s', w) <==> Counted(s, w))
    {
      ArriveKeeps(s, cls, w);
    }
    QuietMail(s, s');
    SameInside(s, s');
    assert forall k: nat :: TakesAt(s, k) ==> TakesAt(s', k);
  }

  /** Every step of every request, in any state the invariant allows, is safe and keeps it. */
  lemma StepInv(s: State, i: nat)
    requires Inv(s) && i < |s.reqs|
    ensures Safe(s, i) && Inv(Step(s, i))
  {
    hide Inv, Step, Changed;
    StepChanges(s, i);
    ChangedInv(s, Step(s, i), i);
  }
}
