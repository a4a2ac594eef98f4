/** What holds in every state of every run of the rendezvous, with any number of
    processors and any interleaving. */
module SmmRendezvousTheorems {
  import opened SmmRendezvous
  import opened SmmRendezvousInvariant
  import opened SmmRendezvousSteps
  import opened SmmRendezvousTargetSteps

  // ----- The invariant over whole runs -----

  lemma InitialInv(s: State)
    requires Initial(s)
    ensures Inv(s)
  {
    forall j | 0 <= j < |s.cpus| ensures Ok(s, j) {}
  }

  lemma ApStepKeepsInv(s: State, i: nat, ch: Choice)
    requires Inv(s) && Enabled(s, i, ch)
    requires !IsBsp(s.cpus[i].pc)
    ensures Inv(Next(s, i, ch))
  {
    match s.cpus[i].pc {
      case Outside => KeepSample(s, i, ch.valid);
      case Sampled(_) => if s.sh.counter == LOCKED { KeepLate(s, i); } else { KeepCheckIn(s, i); }
      case Late => KeepWaiting(s, i, Outside);
      case Counted(_) => KeepInitBusy(s, i);
      case Elect => KeepElect(s, i, ch.vote);
      case Compare => if s.sh.bspIndex == i { KeepBecomeBsp(s, i); } else { KeepLoser(s, i); }
      case ApTimeout => if ch.giveUp { KeepGiveUp(s, i); } else { KeepJoin(s, i); }
      case ApFind => KeepFind(s, i);
      case ApMark(_) => KeepMarkPresent(s, i);
      case ApSignal(_, _) => KeepSignal(s, i);
      case ApAwait(_, _) => KeepAwait(s, i);
      case ApAct(_, k) => if k == 5 { KeepClearPresent(s, i); } else { KeepActAp(s, i); }
      case ApCheck(_) => KeepCheckInside(s, i);
      case ApRun(_) => KeepRunJob(s, i);
      case ApFree(_) => KeepFreeBusy(s, i);
      case Done => KeepWaiting(s, i, Leaving);
      case Leaving => KeepWaiting(s, i, Outside);
      case _ =>
    }
  }

  /** The last waits touch nothing; only a processor outside the run gets past them. */
  lemma KeepWaiting(s: State, i: nat, pc: Pc)
    requires Inv(s) && i < |s.cpus|
    requires || (s.cpus[i].pc.Done? && pc == Leaving)
             || ((s.cpus[i].pc.Leaving? || s.cpus[i].pc.Late?) && !s.sh.allCpusInSync && pc == Outside)
    ensures Inv(Goto(s, i, pc))
  {
    WaitingOwn(s, i, pc);
    KeepOwn(s, i, s.cpus[i].(pc := pc));
  }

  lemma WaitingOwn(s: State, i: nat, pc: Pc)
    requires ScalarsOk(s) && CpusOk(s) && i < |s.cpus|
    requires || (s.cpus[i].pc.Done? && pc == Leaving)
             || ((s.cpus[i].pc.Leaving? || s.cpus[i].pc.Late?) && !s.sh.allCpusInSync && pc == Outside)
    ensures OwnOk(s, i, s.cpus[i].(pc := pc))
  {
    assert Ok(s, i);
  }

  lemma KeepDrain(s: State, i: nat, ch: Choice)
    requires Inv(s) && Enabled(s, i, ch) && s.cpus[i].pc.BspDrain?
    ensures Inv(Drain(s, i))
  {
    var pc := s.cpus[i].pc;
    BspIsLeader(s, i);
    if pc.held { KeepDrainFree(s, i); }
    else if pc.left > 0 && Drains(s, i, pc.left - 1) { KeepDrainTake(s, i); }
    else { KeepDrainSkip(s, i); }
  }

  lemma BarrierStepKeepsInv(s: State, i: nat, ch: Choice)
    requires Inv(s) && Enabled(s, i, ch) && (s.cpus[i].pc.BspWait? || s.cpus[i].pc.BspRelease?)
    ensures Inv(Next(s, i, ch))
  {
    match s.cpus[i].pc {
      case BspWait(_, left) => if left > 0 { KeepWaitTake(s, i); } else { KeepWaitDone(s, i); }
      case BspRelease(_, left) => if left > 0 { KeepReleaseVisit(s, i); } else { KeepReleaseDone(s, i); }
      case _ =>
    }
  }

  lemma BspStepKeepsInv(s: State, i: nat, ch: Choice)
    requires Inv(s) && Enabled(s, i, ch)
    requires IsBsp(s.cpus[i].pc) && !InWork(s.cpus[i].pc)
    ensures Inv(Next(s, i, ch))
  {
    match s.cpus[i].pc {
      case BspEnter => KeepEnter(s, i);
      case BspMark => KeepMarkBsp(s, i);
      case BspSync => KeepSetInSync(s, i);
      case BspLock => KeepLock(s, i);
      case BspWait(_, _) => BarrierStepKeepsInv(s, i, ch);
      case BspRelease(_, _) => BarrierStepKeepsInv(s, i, ch);
      case BspAct(_) => KeepActBsp(s, i);
      case BspUnelect => KeepUnelect(s, i);
      case BspReset => KeepReset(s, i);
      case _ =>
    }
  }

  lemma WorkStepKeepsInv(s: State, i: nat, ch: Choice)
    requires Inv(s) && Enabled(s, i, ch)
    requires InWork(s.cpus[i].pc)
    ensures Inv(Next(s, i, ch))
  {
    match s.cpus[i].pc {
      case BspOwn => KeepOwnBusy(s, i);
      case BspCore => if ch.call { KeepCall(s, i, ch); } else { KeepReturn(s, i, ch); }
      case BspFill(_, _, _) => KeepFill(s, i);
      case BspPost(_, _) => KeepPost(s, i);
      case BspBlock(_) => KeepBlock(s, i);
      case BspUnblock(_) => KeepUnblock(s, i);
      case BspDrain(_, _) => KeepDrain(s, i, ch);
      case BspLeave => KeepLeave(s, i);
      case _ =>
    }
  }

  lemma StepKeepsInv(s: State, i: nat, ch: Choice)
    requires Inv(s) && Enabled(s, i, ch)
    ensures Inv(Next(s, i, ch))
  {
    if InWork(s.cpus[i].pc) { WorkStepKeepsInv(s, i, ch); }
    else if IsBsp(s.cpus[i].pc) { BspStepKeepsInv(s, i, ch); }
    else { ApStepKeepsInv(s, i, ch); }
  }

  lemma StepInv(s: State, s': State)
    requires Inv(s) && Step(s, s')
    ensures Inv(s')
  {
    var i: nat, ch: Choice :| Enabled(s, i, ch) && s' == Next(s, i, ch);
    StepKeepsInv(s, i, ch);
  }

  lemma {:induction false} RunKeepsInv(s: State, n: nat)
    requires ReachableIn(s, n)
    ensures Inv(s)
    decreases n
  {
    if n == 0 {
      InitialInv(s);
    } else {
      var p: State :| ReachableIn(p, n - 1) && Step(p, s);
      RunKeepsInv(p, n - 1);
      StepInv(p, s);
    }
  }

  /** Every reachable state satisfies the invariant. */
  lemma ReachableInv(s: State)
    requires Reachable(s)
    ensures Inv(s)
  {
    var n: nat :| ReachableIn(s, n);
    RunKeepsInv(s, n);
  }

  /** Whoever is in BSPHandler is the leader the invariant speaks of. */
  lemma BspIsLeader(s: State, i: nat)
    requires CpusOk(s) && i < |s.cpus| && IsBsp(s.cpus[i].pc)
    ensures i == s.hist.leader && LeaderPc(s) == s.cpus[i].pc
  {
    assert Ok(s, i);
  }

  // ----- Barriers and MTRR programming -----

  /** When the BSP is about to return from its b-th WaitForAllAPs, every AP of the run has
      released the BSP's Run exactly b times, the semaphore is empty again, and the count
      it waited for is the number of those APs. */
  lemma BarrierLockstep(s: State, i: nat, b: nat)
    requires Reachable(s) && i < |s.cpus| && s.cpus[i].pc == BspWait(b, 0)
    ensures s.cpus[i].apCount == |s.hist.members - {i}|
    ensures s.cpus[i].run == 0 && 1 <= b <= 6
    ensures forall j :: j in s.hist.members && j != i ==> j < |s.cpus| && s.cpus[j].signals == b
  {
    ReachableInv(s);
    BarrierComplete(s, i);
    assert Ok(s, i);
    forall j | j in s.hist.members && j != i ensures s.cpus[j].signals == b {
      assert Ok(s, j);
    }
  }

  /** At no time has an AP run ahead of the BSP's barrier or lagged by more than one. */
  lemma NobodyRunsAhead(s: State, i: nat, j: nat)
    requires Reachable(s) && i < |s.cpus| && j < |s.cpus| && i != j
    requires IsBsp(s.cpus[i].pc) && j in s.hist.members
    ensures s.cpus[j].signals <= Expect(s.cpus[i].pc) <= s.cpus[j].signals + 1
  {
    ReachableInv(s);
    BspIsLeader(s, i);
    assert Ok(s, j);
  }

  /** In every run: all MTRR backups, then all replacements, then the scheduled procedures,
      then all restores; and each phase starts only when every participant has finished
      the one before. */
  lemma MtrrOrder(s: State)
    requires Reachable(s)
    ensures Sorted(s.hist.log)
    ensures forall c, d :: Replace(c) in s.hist.log && d in s.hist.members ==> Backup(d) in s.hist.log
    ensures forall c, x, d :: Work(c, x) in s.hist.log && d in s.hist.members ==> Replace(d) in s.hist.log
    ensures forall c, d :: Restore(c) in s.hist.log && d in s.hist.members && d < |s.cpus| ==>
              LeftWorkLoop(s.cpus[d].pc)
  {
    AllInOrder(s);
    forall c, d | Replace(c) in s.hist.log && d in s.hist.members ensures Backup(d) in s.hist.log {
      assert InOrder(s, Replace(c), d);
    }
    forall c, x, d | Work(c, x) in s.hist.log && d in s.hist.members ensures Replace(d) in s.hist.log {
      assert InOrder(s, Work(c, x), d);
    }
    forall c, d | Restore(c) in s.hist.log && d in s.hist.members && d < |s.cpus| ensures LeftWorkLoop(s.cpus[d].pc) {
      assert InOrder(s, Restore(c), d);
    }
  }

  lemma AllInOrder(s: State)
    requires Reachable(s)
    ensures Sorted(s.hist.log) && forall e, d :: e in s.hist.log && d in s.hist.members ==> InOrder(s, e, d)
  {
    ReachableInv(s);
    forall e, d | e in s.hist.log && d in s.hist.members ensures InOrder(s, e, d) { OrderAt(s, e, d); }
  }

  predicate InOrder(s: State, e: Event, d: nat) {
    && (Phase(e) >= 2 ==> Backup(d) in s.hist.log)
    && (Phase(e) >= 3 ==> Replace(d) in s.hist.log)
    && (Phase(e) >= 4 ==> d < |s.cpus| && LeftWorkLoop(s.cpus[d].pc))
  }

  /** An event of some phase means that every participant has got there. */
  lemma OrderAt(s: State, e: Event, d: nat)
    requires Inv(s) && e in s.hist.log && d in s.hist.members
    ensures InOrder(s, e, d)
  {
    assert Phase(e) <= Bound(LeaderPc(s));
    if Phase(e) >= 2 { PhaseReached(s, d, Phase(e)); }
  }

  predicate LeftWorkLoop(pc: Pc) {
    && !InWork(pc) && !pc.ApCheck? && !pc.ApRun? && !pc.ApFree? && !(pc.ApAwait? && pc.k <= 3)
  }

  lemma PhaseReached(s: State, d: nat, phase: nat)
    requires Inv(s) && d in s.hist.members && 2 <= phase <= Bound(LeaderPc(s))
    ensures d < |s.cpus| && Backup(d) in s.hist.log
    ensures phase >= 3 ==> Replace(d) in s.hist.log
    ensures phase >= 4 ==> LeftWorkLoop(s.cpus[d].pc)
  {
    MemberReached(s, d, phase);
    LoggedBy(s, d);
  }

  lemma MemberReached(s: State, d: nat, phase: nat)
    requires Scalars(s) && CpusOk(s) && d in s.hist.members && 2 <= phase <= Bound(LeaderPc(s))
    ensures d < |s.cpus| && BackedUp(s.cpus[d].pc)
    ensures phase >= 3 ==> Replaced(s.cpus[d].pc)
    ensures phase >= 4 ==> LeftWorkLoop(s.cpus[d].pc)
  {
    assert Ok(s, d);
  }

  lemma LoggedBy(s: State, d: nat)
    requires LogOk(s) && d in s.hist.members && d < |s.cpus|
    ensures BackedUp(s.cpus[d].pc) ==> Backup(d) in s.hist.log
    ensures Replaced(s.cpus[d].pc) ==> Replace(d) in s.hist.log
  {
    assert EventsOk(multiset(s.hist.log), d, s.cpus[d].pc, true);
  }

  // ----- Scheduled procedures -----

  /** Procedures run in the order they were accepted, each once, and at most one is
      outstanding on an AP. */
  lemma DispatchOnce(s: State, j: nat)
    requires Reachable(s) && j < |s.cpus| && j in s.hist.members && j != s.hist.leader
    requires !s.cpus[j].pc.Counted?
    ensures s.cpus[j].ran <= s.cpus[j].given
    ensures |s.cpus[j].given| <= |s.cpus[j].ran| + 1
  {
    ReachableInv(s);
    assert Ok(s, j);
  }

  /** Once InsideSmm is FALSE again nothing accepted is left undone, and a token taken from
      now on is the exit token; before that a token always stands for one accepted
      procedure, whose Busy lock is held. */
  lemma NoConfusedToken(s: State, j: nat)
    requires Reachable(s) && j < |s.cpus| && j in s.hist.members && j != s.hist.leader
    ensures !s.sh.insideSmm && !s.cpus[j].pc.Counted? ==>
              s.cpus[j].given == s.cpus[j].ran && !s.cpus[j].busy
    ensures s.cpus[j].pc.ApRun? || (s.cpus[j].pc.ApCheck? && s.sh.insideSmm) ==>
              s.cpus[j].given == s.cpus[j].ran + [s.cpus[j].job] && s.cpus[j].busy
  {
    ReachableInv(s);
    assert Ok(s, j);
  }

  // ----- Participation and election -----

  /** At most one processor is in BSPHandler. */
  lemma OneBsp(s: State, i: nat, j: nat)
    requires Reachable(s) && i < |s.cpus| && j < |s.cpus|
    requires IsBsp(s.cpus[i].pc) && IsBsp(s.cpus[j].pc)
    ensures i == j
  {
    ReachableInv(s);
    BspIsLeader(s, i);
    BspIsLeader(s, j);
  }

  /** The lockdown freezes the set of participants until the reset: a later check-in is
      refused, and no participant leaves. */
  lemma LockdownFreezesMembers(s: State, i: nat, ch: Choice)
    requires Reachable(s) && BspLocked(LeaderPc(s)) && Enabled(s, i, ch)
    ensures Next(s, i, ch).hist.members == s.hist.members || s.cpus[i].pc.BspReset?
    ensures s.sh.counter == LOCKED
    ensures s.cpus[s.hist.leader].apCount == |s.hist.members| - 1
  {
    ReachableInv(s);
    MembersStay(s, i, ch);
  }

  lemma MembersStay(s: State, i: nat, ch: Choice)
    requires Scalars(s) && CpusOk(s) && BspLocked(LeaderPc(s)) && Enabled(s, i, ch)
    ensures Next(s, i, ch).hist.members == s.hist.members || s.cpus[i].pc.BspReset?
    ensures s.sh.counter == LOCKED && s.cpus[s.hist.leader].apCount == |s.hist.members| - 1
  {
    assert Ok(s, i);
    if s.cpus[i].pc.ApTimeout? && ch.giveUp { assert !s.sh.insideSmm; }
  }

  /** A processor whose check-in was refused is not Present, holds no token, is nobody's
      AP, and only goes back outside, after the run is over. */
  lemma LateStaysOut(s: State, i: nat, ch: Choice)
    requires Reachable(s) && i < |s.cpus| && s.cpus[i].pc.Late?
    ensures !s.cpus[i].present && s.cpus[i].run == 0 && i !in s.hist.members
    ensures Enabled(s, i, ch) ==> !BspLocked(LeaderPc(s)) && Next(s, i, ch) == Goto(s, i, Outside)
  {
    ReachableInv(s);
    assert Ok(s, i);
  }

  /** Between runs, and for every processor outside the current one, Run is zero. */
  lemma StrangersUntouched(s: State, i: nat)
    requires Reachable(s) && i < |s.cpus| && i !in s.hist.members
    ensures s.cpus[i].run == 0 && !s.cpus[i].present
  {
    ReachableInv(s);
    assert Ok(s, i);
  }

  /** The ASSERTs of the source. */
  lemma AssertsHold(s: State, i: nat)
    requires Reachable(s) && i < |s.cpus|
    ensures s.cpus[i].pc.BspEnter? ==> s.sh.bspIndex == i
    ensures s.cpus[i].pc.ApTimeout? || s.cpus[i].pc.ApFind? || HasBsp(s.cpus[i].pc) ==> s.sh.bspIndex != i
    ensures s.cpus[i].pc.ApRun? ==> s.cpus[i].busy
    ensures s.cpus[i].pc.Done? ==> s.cpus[i].run == 0
  {
    ReachableInv(s);
    AssertsAt(s, i);
  }

  lemma AssertsAt(s: State, i: nat)
    requires Scalars(s) && CpusOk(s) && i < |s.cpus|
    ensures s.cpus[i].pc.BspEnter? ==> s.sh.bspIndex == i
    ensures s.cpus[i].pc.ApTimeout? || s.cpus[i].pc.ApFind? || HasBsp(s.cpus[i].pc) ==> s.sh.bspIndex != i
    ensures s.cpus[i].pc.ApRun? ==> s.cpus[i].busy
    ensures s.cpus[i].pc.Done? ==> s.cpus[i].run == 0
  {
    assert Ok(s, i);
  }

  /** The ASSERT of AllCpusInSmmWithExceptions, for a system without hot plug. */
  lemma CounterFits(s: State)
    requires Reachable(s)
    ensures s.sh.counter == LOCKED || s.sh.counter <= |s.cpus|
  {
    ReachableInv(s);
    MembersFit(s.hist.members, |s.cpus|);
  }

  // ----- The end of a run -----

  /** What the next run finds: the state InitializeMpSyncData leaves, but for the Busy
      locks, which every check-in initialises again. */
  predicate Clean(s: State) {
    && s.sh == Shared(s.sh.election, 0, if s.sh.election then -1 else 0, false, false)
    && s.hist == History(-1, {}, {}, [])
    && forall i {:trigger s.cpus[i]} :: 0 <= i < |s.cpus| ==> s.cpus[i].run == 0 && !s.cpus[i].present
  }

  /** The reset leaves the shared block clean, and by then every participant has backed up,
      replaced and restored its MTRRs exactly once and run everything it was given. */
  lemma CleanExit(s: State, i: nat)
    requires Reachable(s) && i < |s.cpus| && s.cpus[i].pc.BspReset?
    ensures Clean(Reset(s, i))
    ensures forall j :: j in s.hist.members ==>
              && j < |s.cpus|
              && multiset(s.hist.log)[Backup(j)] == 1
              && multiset(s.hist.log)[Replace(j)] == 1
              && multiset(s.hist.log)[Restore(j)] == 1
              && (j != i ==> s.cpus[j].given == s.cpus[j].ran && s.cpus[j].signals == 6)
  {
    ReachableInv(s);
    assert Ok(s, i);
    ResetScalars(s, i);
    ResetCpus(s, i);
    forall j | 0 <= j < |s.cpus| ensures Reset(s, i).cpus[j].run == 0 && !Reset(s, i).cpus[j].present {
      assert Ok(Reset(s, i), j);
    }
    forall j | j in s.hist.members
      ensures j != i ==> s.cpus[j].given == s.cpus[j].ran && s.cpus[j].signals == 6
      ensures EventsOk(multiset(s.hist.log), j, s.cpus[j].pc, true)
      ensures BackedUp(s.cpus[j].pc) && Replaced(s.cpus[j].pc) && Restored(s.cpus[j].pc)
    {
      assert Ok(s, j);
    }
  }

  // ----- No deadlock -----

  const GO: Choice := Choice(true, true, false, false, 0, 0, false, false)

  /** As long as somebody is in the run, some participant can make a move that changes the
      state: the barriers, the Busy locks and the drain loop never block for ever on each
      other. */
  lemma NoDeadlock(s: State)
    requires Reachable(s) && s.hist.members != {}
    ensures exists i, ch :: i in s.hist.members && Enabled(s, i, ch) && Next(s, i, ch) != s
  {
    ReachableInv(s);
    if s.hist.leader == -1 {
      var i :| i in s.hist.members;
      assert Ok(s, i);
      EarlyMoves(s, i);
    } else {
      SomebodyMoves(s);
    }
  }

  /** Once there is a BSP, no call is needed for that. */
  lemma SomebodyMoves(s: State)
    requires Reachable(s) && s.hist.leader >= 0
    ensures exists i :: i in s.hist.members && Enabled(s, i, GO) && Next(s, i, GO) != s
  {
    ReachableInv(s);
    var b := s.hist.leader;
    assert Ok(s, b);
    if !Blocked(s, b) {
      BspMoves(s, b);
    } else {
      var j := Blocker(s, b);
      ApMoves(s, j);
    }
  }

  lemma EarlyMoves(s: State, i: nat)
    requires Scalars(s) && CpusOk(s) && s.hist.leader == -1 && i in s.hist.members
    ensures exists ch :: Enabled(s, i, ch) && Next(s, i, ch) != s
  {
    assert Ok(s, i);
    assert |s.hist.members| > 0;
    var ch := GO.(giveUp := true);
    assert Enabled(s, i, ch);
    assert Next(s, i, ch).cpus[i].pc != s.cpus[i].pc;
  }

  /** Is the BSP waiting for an AP? */
  predicate Blocked(s: State, b: nat)
    requires b < |s.cpus|
  {
    var pc := s.cpus[b].pc;
    || (pc.BspWait? && pc.left > 0 && s.cpus[b].run == 0)
    || (pc.BspBlock? && pc.target < |s.cpus| && s.cpus[pc.target].busy)
    || (pc.BspDrain? && 0 < pc.left <= |s.cpus| && !pc.held && Drains(s, b, pc.left - 1) && s.cpus[pc.left - 1].busy)
  }

  lemma BspMoves(s: State, b: nat)
    requires Scalars(s) && CpusOk(s) && b == s.hist.leader && b < |s.cpus| && !Blocked(s, b)
    ensures Enabled(s, b, GO) && Next(s, b, GO) != s
  {
    assert Ok(s, b);
    assert Next(s, b, GO).cpus[b].pc != s.cpus[b].pc;
  }

  /** The AP the BSP is waiting for: one that has not signalled yet, or one that still has
      a procedure to run. */
  lemma Blocker(s: State, b: nat) returns (j: nat)
    requires Scalars(s) && CpusOk(s) && b == s.hist.leader && b < |s.cpus| && Blocked(s, b)
    ensures j in s.hist.members && j != b && (InWork(s.cpus[b].pc) ==> j < |s.cpus| && s.cpus[j].busy)
    ensures s.cpus[b].pc.BspWait? ==> j !in s.hist.arrived
  {
    assert Ok(s, b);
    var pc := s.cpus[b].pc;
    if pc.BspWait? {
      assert |s.hist.arrived| < |s.hist.members| - 1;
      assert |s.hist.members - {b}| == |s.hist.members| - 1;
      assert s.hist.arrived != s.hist.members - {b};
      assert !(s.hist.members - {b} <= s.hist.arrived) by { assert s.hist.arrived <= s.hist.members - {b}; }
      j :| j in s.hist.members - {b} && j !in s.hist.arrived;
    } else if pc.BspBlock? {
      j := pc.target;
    } else {
      j := pc.left - 1;
      assert Ok(s, j);
    }
  }

  lemma ApMoves(s: State, j: nat)
    requires Scalars(s) && CpusOk(s) && 0 <= s.hist.leader < |s.cpus| && Blocked(s, s.hist.leader)
    requires j in s.hist.members && j != s.hist.leader
    requires InWork(LeaderPc(s)) ==> j < |s.cpus| && s.cpus[j].busy
    requires LeaderPc(s).BspWait? ==> j !in s.hist.arrived
    ensures Enabled(s, j, GO) && Next(s, j, GO) != s
  {
    assert Ok(s, s.hist.leader);
    assert Ok(s, j);
    assert Next(s, j, GO).cpus[j].pc != s.cpus[j].pc;
  }
}
