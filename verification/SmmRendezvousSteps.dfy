/** Every step keeps the invariant: one lemma per kind of step. */
module SmmRendezvousSteps {
  import opened SmmRendezvous
  import opened SmmRendezvousInvariant

  // ----- Frames -----

  /** The invariant of one processor's entry. */
  predicate Ok(s: State, i: nat)
    requires i < |s.cpus|
  {
    CpuOk(ViewOf(s), i, s.cpus[i], i in s.hist.members, i in s.hist.arrived)
  }

  predicate SameEvents(pc: Pc, pc': Pc) {
    BackedUp(pc) == BackedUp(pc') && Replaced(pc) == Replaced(pc') && Restored(pc) == Restored(pc')
  }

  predicate SameElsewhere(s: State, s': State, i: nat) {
    && |s'.cpus| == |s.cpus| && i < |s.cpus|
    && forall j {:trigger s'.cpus[j]} :: 0 <= j < |s.cpus| && j != i ==> s'.cpus[j].pc == s.cpus[j].pc
  }

  /** Only processor i moves, and it logs nothing. */
  lemma LogFrame(s: State, s': State, i: nat)
    requires LogOk(s) && SameElsewhere(s, s', i)
    requires s'.hist.log == s.hist.log && s'.hist.members == s.hist.members
    requires Bound(LeaderPc(s)) <= Bound(LeaderPc(s'))
    requires i in s.hist.members ==> SameEvents(s.cpus[i].pc, s'.cpus[i].pc)
    ensures LogOk(s')
  {
    forall j | 0 <= j < |s'.cpus|
      ensures EventsOk(multiset(s'.hist.log), j, s'.cpus[j].pc, j in s'.hist.members)
    {
      assert EventsOk(multiset(s.hist.log), j, s.cpus[j].pc, j in s.hist.members);
    }
  }

  /** c may replace processor i's entry when nothing else changes. */
  predicate OwnOk(s: State, i: nat, c: Cpu) {
    && i < |s.cpus| && i != s.hist.leader
    && CpuOk(ViewOf(s), i, c, i in s.hist.members, i in s.hist.arrived)
    && (i in s.hist.members ==> SameEvents(s.cpus[i].pc, c.pc))
  }

  lemma KeepOwn(s: State, i: nat, c: Cpu)
    requires Inv(s) && OwnOk(s, i, c)
    ensures Inv(Put(s, i, c))
  {
    var s' := Put(s, i, c);
    assert ViewOf(s') == ViewOf(s);
    LogFrame(s, s', i);
  }

  /** Appending an event of the current phase keeps the log in order. */
  lemma AppendSorted(log: seq<Event>, e: Event)
    requires Sorted(log) && forall x :: x in log ==> Phase(x) <= Phase(e)
    ensures Sorted(log + [e])
  {
    forall a, b | 0 <= a < b < |log + [e]| ensures Phase((log + [e])[a]) <= Phase((log + [e])[b]) {
      assert (log + [e])[a] == log[a];
      if b == |log| { assert log[a] in log; }
    }
  }

  /** Only processor i moves, and it logs an event of the current phase. */
  lemma LogEvent(s: State, s': State, i: nat, e: Event)
    requires LogOk(s) && SameElsewhere(s, s', i) && i in s.hist.members
    requires s'.hist.log == s.hist.log + [e] && s'.hist.members == s.hist.members
    requires Bound(LeaderPc(s)) <= Phase(e) <= Bound(LeaderPc(s'))
    requires e.cpu == i
    requires B2N(BackedUp(s'.cpus[i].pc)) == B2N(BackedUp(s.cpus[i].pc)) + B2N(e.Backup?)
    requires B2N(Replaced(s'.cpus[i].pc)) == B2N(Replaced(s.cpus[i].pc)) + B2N(e.Replace?)
    requires B2N(Restored(s'.cpus[i].pc)) == B2N(Restored(s.cpus[i].pc)) + B2N(e.Restore?)
    ensures LogOk(s')
  {
    AppendSorted(s.hist.log, e);
    assert multiset(s'.hist.log) == multiset(s.hist.log) + multiset{e};
    forall j | 0 <= j < |s'.cpus|
      ensures EventsOk(multiset(s'.hist.log), j, s'.cpus[j].pc, j in s'.hist.members)
    {
      assert EventsOk(multiset(s.hist.log), j, s.cpus[j].pc, j in s.hist.members);
    }
  }

  // ----- Entry, check-in and election -----

  lemma KeepSample(s: State, i: nat, valid: bool)
    requires Inv(s) && i < |s.cpus| && s.cpus[i].pc.Outside?
    ensures Inv(Sample(s, i, valid))
  {
    var c := s.cpus[i].(pc := Sampled(s.sh.insideSmm));
    assert OwnOk(s, i, c) by { assert Ok(s, i); }
    KeepOwn(s, i, c);
  }

  lemma KeepLate(s: State, i: nat)
    requires Inv(s) && i < |s.cpus| && s.cpus[i].pc.Sampled? && s.sh.counter == LOCKED
    ensures Inv(CheckIn(s, i))
  {
    var c := s.cpus[i].(pc := Late);
    assert OwnOk(s, i, c) by { assert Ok(s, i); }
    KeepOwn(s, i, c);
  }

  lemma KeepCheckIn(s: State, i: nat)
    requires Inv(s) && i < |s.cpus| && s.cpus[i].pc.Sampled? && s.sh.counter != LOCKED
    ensures Inv(CheckIn(s, i))
  {
    CheckInCpus(s, i);
    CheckInLog(s, i);
  }

  lemma CheckInCpus(s: State, i: nat)
    requires Scalars(s) && CpusOk(s) && i < |s.cpus| && s.cpus[i].pc.Sampled? && s.sh.counter != LOCKED
    ensures CpusOk(CheckIn(s, i)) && Scalars(CheckIn(s, i))
    ensures LeaderPc(CheckIn(s, i)) == LeaderPc(s) && i !in s.hist.members
  {
    var s' := CheckIn(s, i);
    assert Ok(s, i);
    assert ViewOf(s') == ViewOf(s);
    CheckInOwn(ViewOf(s), i, s.cpus[i], i in s.hist.members, i in s.hist.arrived);
    forall j | 0 <= j < |s'.cpus| ensures Ok(s', j) {
      assert Ok(s, j);
      assert j != i ==> (j in s'.hist.members <==> j in s.hist.members);
    }
  }

  lemma CheckInOwn(v: View, i: nat, c: Cpu, member: bool, arrived: bool)
    requires CpuOk(v, i, c, member, arrived) && c.pc.Sampled? && !BspLocked(v.lpc)
    ensures !member && !arrived && i != v.leader
    ensures CpuOk(v, i, c.(pc := Counted(c.pc.bspInProgress), signals := 0), true, false)
  {}

  lemma CheckInLog(s: State, i: nat)
    requires LogOk(s) && i < |s.cpus| && s.cpus[i].pc.Sampled? && s.sh.counter != LOCKED
    requires LeaderPc(CheckIn(s, i)) == LeaderPc(s) && i !in s.hist.members
    ensures LogOk(CheckIn(s, i))
  {
    var s' := CheckIn(s, i);
    forall j | 0 <= j < |s'.cpus|
      ensures EventsOk(multiset(s'.hist.log), j, s'.cpus[j].pc, j in s'.hist.members)
    {
      assert EventsOk(multiset(s.hist.log), j, s.cpus[j].pc, j in s.hist.members);
    }
  }

  lemma InitBusyOwn(s: State, i: nat)
    requires ScalarsOk(s) && CpusOk(s) && i < |s.cpus| && s.cpus[i].pc.Counted?
    ensures OwnOk(s, i, InitBusy(s, i).cpus[i])
  {
    assert Ok(s, i);
  }

  lemma KeepInitBusy(s: State, i: nat)
    requires Inv(s) && i < |s.cpus| && s.cpus[i].pc.Counted?
    ensures Inv(InitBusy(s, i))
  {
    var c := InitBusy(s, i).cpus[i];
    InitBusyOwn(s, i);
    KeepOwn(s, i, c);
  }

  lemma ElectOwn(s: State, i: nat)
    requires CpusOk(s) && i < |s.cpus| && s.cpus[i].pc.Elect?
    ensures OwnOk(s, i, s.cpus[i].(pc := Compare))
  {
    assert Ok(s, i);
  }

  lemma KeepElect(s: State, i: nat, vote: bool)
    requires Inv(s) && i < |s.cpus| && s.cpus[i].pc.Elect?
    ensures Inv(ElectBsp(s, i, vote))
  {
    ElectOwn(s, i);
    KeepOwn(s, i, s.cpus[i].(pc := Compare));
    if s.sh.election && vote && s.sh.bspIndex == -1 { KeepWinner(Goto(s, i, Compare), i); }
  }

  lemma KeepWinner(s: State, i: nat)
    requires Inv(s) && i < |s.cpus| && s.cpus[i].pc.Compare? && s.sh.election && s.sh.bspIndex == -1
    ensures Inv(s.(sh := s.sh.(bspIndex := i)))
  {
    var s' := s.(sh := s.sh.(bspIndex := i));
    WinnerCpus(s, i);
    LogFrame(s, s', i);
  }

  lemma WinnerCpus(s: State, i: nat)
    requires Scalars(s) && CpusOk(s) && i < |s.cpus| && s.cpus[i].pc.Compare? && s.sh.election && s.sh.bspIndex == -1
    ensures CpusOk(s.(sh := s.sh.(bspIndex := i))) && Scalars(s.(sh := s.sh.(bspIndex := i)))
  {
    var s' := s.(sh := s.sh.(bspIndex := i));
    assert Ok(s, i);
    assert s.hist.leader == -1;
    forall j | 0 <= j < |s'.cpus| ensures Ok(s', j) { assert Ok(s, j); }
  }

  lemma LoserOwn(s: State, i: nat)
    requires CpusOk(s) && i < |s.cpus| && s.cpus[i].pc.Compare? && s.sh.bspIndex != i
    ensures OwnOk(s, i, s.cpus[i].(pc := ApTimeout))
  {
    assert Ok(s, i);
  }

  lemma KeepLoser(s: State, i: nat)
    requires Inv(s) && i < |s.cpus| && s.cpus[i].pc.Compare? && s.sh.bspIndex != i
    ensures Inv(CompareIndex(s, i))
  {
    var c := s.cpus[i].(pc := ApTimeout);
    LoserOwn(s, i);
    KeepOwn(s, i, c);
  }

  /** The winner becomes the BSP: nobody else is, and nobody has joined a BSP yet. */
  lemma KeepBecomeBsp(s: State, i: nat)
    requires Inv(s) && i < |s.cpus| && s.cpus[i].pc.Compare? && s.sh.bspIndex == i
    ensures Inv(CompareIndex(s, i))
  {
    BecomeBspScalars(s, i);
    BecomeBspCpus(s, i);
    LogFrame(s, CompareIndex(s, i), i);
  }

  lemma BecomeBspScalars(s: State, i: nat)
    requires Scalars(s) && CpusOk(s) && i < |s.cpus| && s.cpus[i].pc.Compare? && s.sh.bspIndex == i
    ensures Scalars(CompareIndex(s, i)) && s.hist.leader == -1 && s.cpus[i].run == 0
  {
    assert Ok(s, i);
  }

  lemma BecomeBspCpus(s: State, i: nat)
    requires Scalars(s) && CpusOk(s) && i < |s.cpus| && s.cpus[i].pc.Compare? && s.sh.bspIndex == i
    requires s.hist.leader == -1
    ensures CpusOk(CompareIndex(s, i))
  {
    var s' := CompareIndex(s, i);
    assert Ok(s, i);
    forall j | 0 <= j < |s'.cpus| ensures Ok(s', j) { assert Ok(s, j); }
  }

  lemma KeepGiveUp(s: State, i: nat)
    requires Inv(s) && i < |s.cpus| && s.cpus[i].pc.ApTimeout? && !s.sh.insideSmm && s.sh.counter > 0
    ensures Inv(GiveUp(s, i))
  {
    var s' := GiveUp(s, i);
    GiveUpCpus(s, i);
    assert LeaderPc(s') == LeaderPc(s);
    forall j | 0 <= j < |s'.cpus|
      ensures EventsOk(multiset(s'.hist.log), j, s'.cpus[j].pc, j in s'.hist.members)
    {
      assert EventsOk(multiset(s.hist.log), j, s.cpus[j].pc, j in s.hist.members);
    }
  }

  lemma GiveUpCpus(s: State, i: nat)
    requires Scalars(s) && CpusOk(s) && i < |s.cpus| && s.cpus[i].pc.ApTimeout?
    requires !s.sh.insideSmm && s.sh.counter > 0
    ensures CpusOk(GiveUp(s, i)) && Scalars(GiveUp(s, i)) && i != s.hist.leader
  {
    var s' := GiveUp(s, i);
    assert Ok(s, i);
    assert ViewOf(s') == ViewOf(s);
    forall j | 0 <= j < |s'.cpus| ensures Ok(s', j) { assert Ok(s, j); }
  }

  // ----- APHandler -----

  lemma JoinOwn(s: State, i: nat)
    requires Shape(s) && ScalarsOk(s) && CpusOk(s) && i < |s.cpus| && s.cpus[i].pc.ApTimeout? && s.sh.insideSmm
    ensures OwnOk(s, i, s.cpus[i].(pc := ApFind))
  {
    assert Ok(s, i);
  }

  lemma KeepJoin(s: State, i: nat)
    requires Inv(s) && i < |s.cpus| && s.cpus[i].pc.ApTimeout? && s.sh.insideSmm
    ensures Inv(Goto(s, i, ApFind))
  {
    var c := s.cpus[i].(pc := ApFind);
    JoinOwn(s, i);
    KeepOwn(s, i, c);
  }

  lemma FindOwn(s: State, i: nat)
    requires Shape(s) && ScalarsOk(s) && CpusOk(s) && i < |s.cpus| && s.cpus[i].pc.ApFind?
    ensures OwnOk(s, i, s.cpus[i].(pc := ApMark(s.sh.bspIndex)))
  {
    assert Ok(s, i);
  }

  lemma KeepFind(s: State, i: nat)
    requires Inv(s) && i < |s.cpus| && s.cpus[i].pc.ApFind?
    ensures Inv(Goto(s, i, ApMark(s.sh.bspIndex)))
  {
    var c := s.cpus[i].(pc := ApMark(s.sh.bspIndex));
    FindOwn(s, i);
    KeepOwn(s, i, c);
  }

  lemma KeepMarkPresent(s: State, i: nat)
    requires Inv(s) && i < |s.cpus| && s.cpus[i].pc.ApMark?
    ensures Inv(MarkPresent(s, i))
  {
    var c := MarkPresent(s, i).cpus[i];
    assert OwnOk(s, i, c) by { assert Ok(s, i); }
    KeepOwn(s, i, c);
  }

  lemma KeepSignal(s: State, i: nat)
    requires Inv(s) && i < |s.cpus| && s.cpus[i].pc.ApSignal? && 0 <= s.cpus[i].pc.bsp < |s.cpus|
    ensures Inv(Signal(s, i))
  {
    var s' := Signal(s, i);
    SignalScalars(s, i);
    SignalCpus(s, i);
    LogFrame(s, s', i);
  }

  lemma SignalCpus(s: State, i: nat)
    requires Scalars(s) && CpusOk(s) && i < |s.cpus|
    requires s.cpus[i].pc.ApSignal? && s.cpus[i].pc.bsp == s.hist.leader >= 0 && s.hist.leader != i
    requires i !in s.hist.arrived
    ensures CpusOk(Signal(s, i))
  {
    var s' := Signal(s, i);
    assert Ok(s, i);
    assert ViewOf(s') == ViewOf(s);
    SignalOwn(ViewOf(s), i, s.cpus[i], i in s.hist.members, i in s.hist.arrived);
    forall j | 0 <= j < |s'.cpus| ensures Ok(s', j) {
      assert Ok(s, j);
      assert j != i ==> (j in s'.hist.arrived <==> j in s.hist.arrived);
    }
  }

  lemma SignalOwn(v: View, i: nat, c: Cpu, member: bool, arrived: bool)
    requires CpuOk(v, i, c, member, arrived) && !arrived && i != v.leader && v.leader >= 0
    requires c.pc.ApSignal? && c.pc.bsp == v.leader
    ensures member
    ensures CpuOk(v, i, c.(pc := if c.pc.k == 6 then Done else ApAwait(c.pc.bsp, c.pc.k), signals := c.signals + 1),
                  member, true)
  {}

  /** The BSP's Run cannot have reached the refusing value. */
  lemma SignalScalars(s: State, i: nat)
    requires Scalars(s) && CpusOk(s) && i < |s.cpus|
    requires s.cpus[i].pc.ApSignal? && 0 <= s.cpus[i].pc.bsp < |s.cpus|
    ensures Scalars(Signal(s, i)) && s.cpus[i].pc.bsp == s.hist.leader && s.hist.leader != i && i !in s.hist.arrived
    ensures s.cpus[s.hist.leader].run < LOCKED && SameEvents(s.cpus[i].pc, Signal(s, i).cpus[i].pc)
  {
    assert Ok(s, i);
    var b := s.hist.leader;
    assert Ok(s, b);
    assert i !in s.hist.arrived;
    assert s.cpus[b].run <= |s.hist.arrived|;
    MembersFit(s.hist.arrived, |s.cpus|);
  }

  function Indices(n: nat): set<nat> {
    if n == 0 then {} else Indices(n - 1) + {n - 1}
  }

  lemma {:induction false} IndicesAre(n: nat)
    ensures |Indices(n)| == n && forall i: nat :: i in Indices(n) <==> i < n
  {
    if n > 0 { IndicesAre(n - 1); }
  }

  lemma MembersFit(m: set<nat>, n: nat)
    requires forall i :: i in m ==> i < n
    ensures |m| <= n
  {
    IndicesAre(n);
    SubsetSize(m, Indices(n));
  }

  lemma {:induction false} SubsetSize(a: set<nat>, b: set<nat>)
    requires a <= b
    ensures |a| <= |b|
    ensures |a| == |b| ==> a == b
  {
    if a != {} {
      var x :| x in a;
      SubsetSize(a - {x}, b - {x});
    }
  }

  lemma AwaitOwn(s: State, i: nat)
    requires ScalarsOk(s) && CpusOk(s) && i < |s.cpus| && s.cpus[i].pc.ApAwait? && s.cpus[i].run > 0
    ensures OwnOk(s, i, Await(s, i).cpus[i])
  {
    assert Ok(s, i);
  }

  lemma KeepAwait(s: State, i: nat)
    requires Inv(s) && i < |s.cpus| && s.cpus[i].pc.ApAwait? && s.cpus[i].run > 0
    ensures Inv(Await(s, i))
  {
    var c := Await(s, i).cpus[i];
    AwaitOwn(s, i);
    KeepOwn(s, i, c);
  }

  lemma KeepClearPresent(s: State, i: nat)
    requires Inv(s) && i < |s.cpus| && s.cpus[i].pc.ApAct? && s.cpus[i].pc.k == 5
    ensures Inv(ActAp(s, i))
  {
    var c := ActAp(s, i).cpus[i];
    assert OwnOk(s, i, c) by { assert Ok(s, i); }
    KeepOwn(s, i, c);
  }

  lemma KeepActAp(s: State, i: nat)
    requires Inv(s) && i < |s.cpus| && s.cpus[i].pc.ApAct? && s.cpus[i].pc.k != 5
    ensures Inv(ActAp(s, i))
  {
    var s' := ActAp(s, i);
    ActApCpus(s, i);
    ActApLog(s, i);
  }

  lemma ActApCpus(s: State, i: nat)
    requires Scalars(s) && CpusOk(s) && i < |s.cpus| && s.cpus[i].pc.ApAct? && s.cpus[i].pc.k != 5
    ensures CpusOk(ActAp(s, i)) && Scalars(ActAp(s, i)) && LeaderPc(ActAp(s, i)) == LeaderPc(s)
    ensures Expect(LeaderPc(s)) == s.cpus[i].pc.k + 1 && s.cpus[i].pc.k in {1, 2, 4} && i in s.hist.members
  {
    var s' := ActAp(s, i);
    assert Ok(s, i);
    assert ViewOf(s') == ViewOf(s);
    assert Ok(s', i);
    forall j | 0 <= j < |s'.cpus| ensures Ok(s', j) { assert Ok(s, j); }
  }

  lemma ActApLog(s: State, i: nat)
    requires LogOk(s) && i < |s.cpus| && s.cpus[i].pc.ApAct? && s.cpus[i].pc.k in {1, 2, 4} && i in s.hist.members
    requires LeaderPc(ActAp(s, i)) == LeaderPc(s) && Expect(LeaderPc(s)) == s.cpus[i].pc.k + 1
    ensures LogOk(ActAp(s, i))
  {
    var k := s.cpus[i].pc.k;
    LogEvent(s, ActAp(s, i), i, if k == 1 then Backup(i) else if k == 2 then Replace(i) else Restore(i));
  }

  lemma CheckInsideOwn(s: State, i: nat)
    requires ScalarsOk(s) && CpusOk(s) && i < |s.cpus| && s.cpus[i].pc.ApCheck?
    ensures OwnOk(s, i, CheckInside(s, i).cpus[i])
  {
    assert Ok(s, i);
  }

  lemma KeepCheckInside(s: State, i: nat)
    requires Inv(s) && i < |s.cpus| && s.cpus[i].pc.ApCheck?
    ensures Inv(CheckInside(s, i))
  {
    var c := CheckInside(s, i).cpus[i];
    CheckInsideOwn(s, i);
    KeepOwn(s, i, c);
  }

  lemma KeepRunJob(s: State, i: nat)
    requires Inv(s) && i < |s.cpus| && s.cpus[i].pc.ApRun?
    ensures Inv(RunJob(s, i))
  {
    RunJobCpus(s, i);
    LogEvent(s, RunJob(s, i), i, Work(i, s.cpus[i].job));
  }

  lemma RunJobCpus(s: State, i: nat)
    requires Scalars(s) && CpusOk(s) && i < |s.cpus| && s.cpus[i].pc.ApRun?
    ensures CpusOk(RunJob(s, i)) && Scalars(RunJob(s, i)) && LeaderPc(RunJob(s, i)) == LeaderPc(s)
    ensures InWork(LeaderPc(s)) && i in s.hist.members
  {
    var s' := RunJob(s, i);
    assert Ok(s, i);
    assert ViewOf(s') == ViewOf(s);
    assert Ok(s', i);
    forall j | 0 <= j < |s'.cpus| ensures Ok(s', j) { assert Ok(s, j); }
  }

  lemma KeepFreeBusy(s: State, i: nat)
    requires Inv(s) && i < |s.cpus| && s.cpus[i].pc.ApFree?
    ensures Inv(FreeBusy(s, i))
  {
    var c := FreeBusy(s, i).cpus[i];
    assert OwnOk(s, i, c) by { assert Ok(s, i); }
    KeepOwn(s, i, c);
  }

  // ----- BSPHandler: the steps that only move the BSP -----

  lemma KeepEnter(s: State, i: nat)
    requires Inv(s) && i < |s.cpus| && s.cpus[i].pc.BspEnter?
    ensures Inv(EnterSmm(s, i))
  {
    EnterCpus(s, i);
    LogFrame(s, EnterSmm(s, i), i);
  }

  lemma EnterCpus(s: State, i: nat)
    requires Scalars(s) && CpusOk(s) && i < |s.cpus| && s.cpus[i].pc.BspEnter?
    ensures CpusOk(EnterSmm(s, i)) && Scalars(EnterSmm(s, i)) && s.hist.leader == i
  {
    assert Ok(s, i);
    var s' := EnterSmm(s, i);
    assert ViewOf(s') == ViewOf(s).(inside := true, lpc := BspMark);
    forall j | 0 <= j < |s'.cpus| ensures Ok(s', j) {
      assert Ok(s, j);
      if j != i { EnterOther(ViewOf(s), j, s.cpus[j], j in s.hist.members, j in s.hist.arrived); }
    }
  }

  lemma EnterOther(v: View, j: nat, c: Cpu, member: bool, arrived: bool)
    requires CpuOk(v, j, c, member, arrived) && j != v.leader && v.lpc.BspEnter? && v.leader >= 0
    ensures CpuOk(v.(inside := true, lpc := BspMark), j, c, member, arrived)
  {}

  lemma KeepMarkBsp(s: State, i: nat)
    requires Inv(s) && i < |s.cpus| && s.cpus[i].pc.BspMark?
    ensures Inv(MarkBsp(s, i))
  {
    MarkBspCpus(s, i);
    LogFrame(s, MarkBsp(s, i), i);
  }

  lemma MarkBspCpus(s: State, i: nat)
    requires Scalars(s) && CpusOk(s) && i < |s.cpus| && s.cpus[i].pc.BspMark?
    ensures CpusOk(MarkBsp(s, i)) && Scalars(MarkBsp(s, i)) && s.hist.leader == i
  {
    assert Ok(s, i);
    var s' := MarkBsp(s, i);
    forall j | 0 <= j < |s'.cpus| ensures Ok(s', j) { assert Ok(s, j); }
  }

  lemma KeepSetInSync(s: State, i: nat)
    requires Inv(s) && i < |s.cpus| && s.cpus[i].pc.BspSync?
    ensures Inv(SetInSync(s, i))
  {
    SetInSyncCpus(s, i);
    LogFrame(s, SetInSync(s, i), i);
  }

  lemma SetInSyncCpus(s: State, i: nat)
    requires Scalars(s) && CpusOk(s) && i < |s.cpus| && s.cpus[i].pc.BspSync?
    ensures CpusOk(SetInSync(s, i)) && Scalars(SetInSync(s, i)) && s.hist.leader == i
  {
    assert Ok(s, i);
    var s' := SetInSync(s, i);
    forall j | 0 <= j < |s'.cpus| ensures Ok(s', j) { assert Ok(s, j); }
  }

  /** The old counter is the number of members, so ApCount is the number of the others. */
  lemma KeepLock(s: State, i: nat)
    requires Inv(s) && i < |s.cpus| && s.cpus[i].pc.BspLock?
    ensures Inv(LockCounter(s, i))
  {
    LockScalars(s, i);
    LockCpus(s, i);
    LogFrame(s, LockCounter(s, i), i);
  }

  lemma LockScalars(s: State, i: nat)
    requires Scalars(s) && CpusOk(s) && i < |s.cpus| && s.cpus[i].pc.BspLock?
    ensures Scalars(LockCounter(s, i)) && s.hist.leader == i
  {
    assert Ok(s, i);
    assert |s.hist.members - {i}| == |s.hist.members| - 1;
  }

  lemma LockCpus(s: State, i: nat)
    requires Shape(s) && ScalarsOk(s) && CpusOk(s) && i < |s.cpus| && s.cpus[i].pc.BspLock? && s.hist.leader == i
    ensures CpusOk(LockCounter(s, i))
  {
    assert Ok(s, i);
    var s' := LockCounter(s, i);
    forall j | 0 <= j < |s'.cpus| ensures Ok(s', j) { assert Ok(s, j); }
  }

  lemma KeepWaitTake(s: State, i: nat)
    requires Inv(s) && i < |s.cpus| && s.cpus[i].pc.BspWait? && s.cpus[i].pc.left > 0 && s.cpus[i].run > 0
    ensures Inv(WaitAps(s, i))
  {
    WaitTakeScalars(s, i);
    WaitTakeCpus(s, i);
    LogFrame(s, WaitAps(s, i), i);
  }

  lemma WaitTakeScalars(s: State, i: nat)
    requires Scalars(s) && CpusOk(s) && i < |s.cpus| && s.cpus[i].pc.BspWait? && s.cpus[i].pc.left > 0
    requires s.cpus[i].run > 0
    ensures Scalars(WaitAps(s, i)) && s.hist.leader == i
  {
    assert Ok(s, i);
  }

  lemma WaitTakeCpus(s: State, i: nat)
    requires CpusOk(s) && i < |s.cpus| && s.hist.leader == i
    requires s.cpus[i].pc.BspWait? && s.cpus[i].pc.left > 0 && s.cpus[i].run > 0
    ensures CpusOk(WaitAps(s, i))
  {
    var s' := WaitAps(s, i);
    forall j | 0 <= j < |s'.cpus| ensures Ok(s', j) { assert Ok(s, j); }
  }

  /** When the last signal of a barrier has been taken, every AP of the run has made it. */
  lemma BarrierComplete(s: State, i: nat)
    requires Scalars(s) && CpusOk(s) && i < |s.cpus|
    requires s.cpus[i].pc.BspWait? && s.cpus[i].pc.left == 0
    ensures s.hist.leader == i && s.cpus[i].run == 0
    ensures s.hist.arrived == s.hist.members - {i}
  {
    assert Ok(s, i);
    assert |s.hist.members - {i}| == |s.hist.members| - 1;
    SubsetSize(s.hist.arrived, s.hist.members - {i});
  }

  lemma KeepWaitDone(s: State, i: nat)
    requires Inv(s) && i < |s.cpus| && s.cpus[i].pc.BspWait? && s.cpus[i].pc.left == 0
    ensures Inv(WaitAps(s, i))
  {
    BarrierComplete(s, i);
    WaitDoneCpus(s, i);
    WaitDoneScalars(s, i);
    LogFrame(s, WaitAps(s, i), i);
  }

  lemma WaitDoneScalars(s: State, i: nat)
    requires Scalars(s) && CpusOk(s) && i < |s.cpus| && i == s.hist.leader && s.cpus[i].run == 0
    requires s.cpus[i].pc.BspWait? && s.cpus[i].pc.left == 0
    ensures Scalars(WaitAps(s, i)) && 1 <= s.cpus[i].pc.k <= 6
  {
    assert Ok(s, i);
  }

  lemma WaitDoneCpus(s: State, i: nat)
    requires ScalarsOk(s) && CpusOk(s) && i < |s.cpus| && i == s.hist.leader
    requires s.cpus[i].pc.BspWait? && s.cpus[i].pc.left == 0
    requires s.hist.arrived == s.hist.members - {i}
    ensures CpusOk(WaitAps(s, i))
  {
    var s' := WaitAps(s, i);
    assert Ok(s, i);
    assert ViewOf(s') == ViewOf(s).(lpc := AfterWait(s.cpus[i].pc.k, |s.cpus|));
    forall j | 0 <= j < |s'.cpus| ensures Ok(s', j) {
      assert Ok(s, j);
      if j != i { WaitDoneOther(ViewOf(s), j, s.cpus[j], j in s.hist.members, j in s.hist.arrived); }
    }
  }

  lemma WaitDoneOther(v: View, j: nat, c: Cpu, member: bool, arrived: bool)
    requires CpuOk(v, j, c, member, arrived) && j != v.leader && j < v.n && arrived == member
    requires v.lpc.BspWait? && 1 <= v.lpc.k <= 6
    ensures CpuOk(v.(lpc := AfterWait(v.lpc.k, v.n)), j, c, member, false)
  {}

  lemma KeepReleaseDone(s: State, i: nat)
    requires Inv(s) && i < |s.cpus| && s.cpus[i].pc.BspRelease? && s.cpus[i].pc.left == 0
    ensures Inv(ReleaseAps(s, i))
  {
    ReleaseDoneScalars(s, i);
    ReleaseDoneCpus(s, i);
    LogFrame(s, ReleaseAps(s, i), i);
  }

  lemma ReleaseDoneScalars(s: State, i: nat)
    requires Scalars(s) && CpusOk(s) && i < |s.cpus| && s.cpus[i].pc.BspRelease? && s.cpus[i].pc.left == 0
    ensures Scalars(ReleaseAps(s, i)) && s.hist.leader == i && 1 <= s.cpus[i].pc.k <= 5
  {
    assert Ok(s, i);
  }

  lemma ReleaseDoneCpus(s: State, i: nat)
    requires ScalarsOk(s) && CpusOk(s) && i < |s.cpus| && s.hist.leader == i && s.cpus[i].pc.BspRelease?
    requires s.cpus[i].pc.left == 0
    ensures CpusOk(ReleaseAps(s, i))
  {
    var s' := ReleaseAps(s, i);
    var c := s.cpus[i];
    assert Ok(s, i);
    assert ViewOf(s') == ViewOf(s).(lpc := if c.pc.k == 3 then BspWait(4, c.apCount) else BspAct(c.pc.k));
    forall j | 0 <= j < |s'.cpus| ensures Ok(s', j) {
      assert Ok(s, j);
      if j != i { ReleaseDoneOther(ViewOf(s), j, s.cpus[j], j in s.hist.members, j in s.hist.arrived, c.apCount); }
    }
  }

  lemma ReleaseDoneOther(v: View, j: nat, c: Cpu, member: bool, arrived: bool, apCount: nat)
    requires CpuOk(v, j, c, member, arrived) && j != v.leader && v.lpc.BspRelease? && 1 <= v.lpc.k <= 5
    requires v.lpc.left == 0
    ensures CpuOk(v.(lpc := if v.lpc.k == 3 then BspWait(4, apCount) else BspAct(v.lpc.k)), j, c, member, arrived)
  {}

  lemma KeepActBsp(s: State, i: nat)
    requires Inv(s) && i < |s.cpus| && s.cpus[i].pc.BspAct?
    ensures Inv(ActBsp(s, i))
  {
    ActBspScalars(s, i);
    ActBspCpus(s, i);
    ActBspLog(s, i);
  }

  lemma ActBspScalars(s: State, i: nat)
    requires Scalars(s) && CpusOk(s) && i < |s.cpus| && s.cpus[i].pc.BspAct?
    ensures Scalars(ActBsp(s, i)) && s.hist.leader == i && s.cpus[i].pc.k in {1, 2, 4, 5} && i in s.hist.members
  {
    assert Ok(s, i);
  }

  lemma ActBspCpus(s: State, i: nat)
    requires ScalarsOk(s) && CpusOk(s) && i < |s.cpus| && s.cpus[i].pc.BspAct? && s.hist.leader == i
    requires s.cpus[i].pc.k in {1, 2, 4, 5}
    ensures CpusOk(ActBsp(s, i))
  {
    var s' := ActBsp(s, i);
    assert ViewOf(s') == ViewOf(s).(lpc := BspWait(s.cpus[i].pc.k + 1, s.cpus[i].apCount));
    ActBspOwn(ViewOf(s), i, s.cpus[i], i in s.hist.members, i in s.hist.arrived);
    ActBspFrame(s, s', i);
  }

  lemma ActBspFrame(s: State, s': State, i: nat)
    requires CpusOk(s) && i < |s.cpus| == |s'.cpus| && i == s.hist.leader
    requires s.cpus[i].pc.BspAct? && s.cpus[i].pc.k in {1, 2, 4, 5}
    requires ViewOf(s') == ViewOf(s).(lpc := BspWait(s.cpus[i].pc.k + 1, s.cpus[i].apCount))
    requires s'.hist.members == s.hist.members && s'.hist.arrived == s.hist.arrived
    requires forall j {:trigger s'.cpus[j]} :: 0 <= j < |s.cpus| && j != i ==> s'.cpus[j] == s.cpus[j]
    requires Ok(s', i)
    ensures CpusOk(s')
  {
    forall j | 0 <= j < |s'.cpus| ensures Ok(s', j) {
      if j != i { ActBspOther(ViewOf(s), j, s.cpus[j], j in s.hist.members, j in s.hist.arrived, s.cpus[i].apCount); }
    }
  }

  lemma ActBspOwn(v: View, i: nat, c: Cpu, member: bool, arrived: bool)
    requires CpuOk(v, i, c, member, arrived) && i == v.leader && v.lpc == c.pc && c.pc.BspAct? && c.pc.k in {1, 2, 4, 5}
    ensures var c' := c.(pc := BspWait(c.pc.k + 1, c.apCount), present := c.present && c.pc.k != 5);
            CpuOk(v.(lpc := c'.pc), i, c', member, arrived)
  {}

  lemma ActBspOther(v: View, j: nat, c: Cpu, member: bool, arrived: bool, apCount: nat)
    requires CpuOk(v, j, c, member, arrived) && j != v.leader && v.lpc.BspAct? && v.lpc.k in {1, 2, 4, 5}
    ensures CpuOk(v.(lpc := BspWait(v.lpc.k + 1, apCount)), j, c, member, arrived)
  {}

  lemma ActBspLog(s: State, i: nat)
    requires LogOk(s) && i < |s.cpus| && s.cpus[i].pc.BspAct? && s.hist.leader == i
    requires s.cpus[i].pc.k in {1, 2, 4, 5} && i in s.hist.members
    ensures LogOk(ActBsp(s, i))
  {
    var k := s.cpus[i].pc.k;
    var s' := ActBsp(s, i);
    if k == 5 { LogFrame(s, s', i); }
    else { LogEvent(s, s', i, if k == 1 then Backup(i) else if k == 2 then Replace(i) else Restore(i)); }
  }

  lemma KeepOwnBusy(s: State, i: nat)
    requires Inv(s) && i < |s.cpus| && s.cpus[i].pc.BspOwn?
    ensures Inv(OwnBusy(s, i))
  {
    OwnBusyCpus(s, i);
    LogFrame(s, OwnBusy(s, i), i);
  }

  lemma OwnBusyCpus(s: State, i: nat)
    requires Scalars(s) && CpusOk(s) && i < |s.cpus| && s.cpus[i].pc.BspOwn?
    ensures CpusOk(OwnBusy(s, i)) && Scalars(OwnBusy(s, i)) && s.hist.leader == i
  {
    assert Ok(s, i);
    var s' := OwnBusy(s, i);
    forall j | 0 <= j < |s'.cpus| ensures Ok(s', j) { assert Ok(s, j); }
  }

  lemma KeepReturn(s: State, i: nat, ch: Choice)
    requires Inv(s) && i < |s.cpus| && s.cpus[i].pc.BspCore? && !ch.call
    ensures Inv(Core(s, i, ch))
  {
    ReturnCpus(s, i, ch);
    LogFrame(s, Core(s, i, ch), i);
  }

  lemma ReturnCpus(s: State, i: nat, ch: Choice)
    requires Scalars(s) && CpusOk(s) && i < |s.cpus| && s.cpus[i].pc.BspCore? && !ch.call
    ensures CpusOk(Core(s, i, ch)) && Scalars(Core(s, i, ch)) && s.hist.leader == i
  {
    assert Ok(s, i);
    var s' := Core(s, i, ch);
    forall j | 0 <= j < |s'.cpus| ensures Ok(s', j) { assert Ok(s, j); }
  }

  lemma KeepLeave(s: State, i: nat)
    requires Inv(s) && i < |s.cpus| && s.cpus[i].pc.BspLeave?
    ensures Inv(LeaveSmm(s, i))
  {
    LeaveScalars(s, i);
    LeaveCpus(s, i);
    LogFrame(s, LeaveSmm(s, i), i);
  }

  lemma LeaveScalars(s: State, i: nat)
    requires Scalars(s) && CpusOk(s) && i < |s.cpus| && s.cpus[i].pc.BspLeave?
    ensures Scalars(LeaveSmm(s, i)) && s.hist.leader == i
  {
    assert Ok(s, i);
  }

  lemma LeaveCpus(s: State, i: nat)
    requires ScalarsOk(s) && CpusOk(s) && i < |s.cpus| && s.cpus[i].pc.BspLeave? && s.hist.leader == i
    ensures CpusOk(LeaveSmm(s, i))
  {
    var s' := LeaveSmm(s, i);
    forall j | 0 <= j < |s'.cpus| ensures Ok(s', j) { assert Ok(s, j); }
  }

  lemma KeepUnelect(s: State, i: nat)
    requires Inv(s) && i < |s.cpus| && s.cpus[i].pc.BspUnelect?
    ensures Inv(Unelect(s, i))
  {
    UnelectCpus(s, i);
    LogFrame(s, Unelect(s, i), i);
  }

  lemma UnelectCpus(s: State, i: nat)
    requires Scalars(s) && CpusOk(s) && i < |s.cpus| && s.cpus[i].pc.BspUnelect?
    ensures CpusOk(Unelect(s, i)) && Scalars(Unelect(s, i)) && s.hist.leader == i
  {
    assert Ok(s, i);
    var s' := Unelect(s, i);
    assert ViewOf(s') == ViewOf(s).(lpc := BspReset, bspIndex := s'.sh.bspIndex);
    forall j | 0 <= j < |s'.cpus| ensures Ok(s', j) {
      if j != i { UnelectOther(ViewOf(s), j, s.cpus[j], j in s.hist.members, j in s.hist.arrived, s'.sh.bspIndex); }
    }
  }

  lemma UnelectOther(v: View, j: nat, c: Cpu, member: bool, arrived: bool, bspIndex: int)
    requires CpuOk(v, j, c, member, arrived) && j != v.leader && v.lpc.BspUnelect? && v.leader >= 0
    requires bspIndex == (if v.election then -1 else v.bspIndex)
    ensures CpuOk(v.(lpc := BspReset, bspIndex := bspIndex), j, c, member, arrived)
  {}

  lemma KeepReset(s: State, i: nat)
    requires Inv(s) && i < |s.cpus| && s.cpus[i].pc.BspReset?
    ensures Inv(Reset(s, i))
  {
    var s' := Reset(s, i);
    ResetScalars(s, i);
    ResetCpus(s, i);
    forall j | 0 <= j < |s'.cpus| ensures EventsOk(multiset(s'.hist.log), j, s'.cpus[j].pc, j in s'.hist.members) {}
  }

  lemma ResetScalars(s: State, i: nat)
    requires Scalars(s) && CpusOk(s) && i < |s.cpus| && s.cpus[i].pc.BspReset?
    ensures Scalars(Reset(s, i)) && s.hist.leader == i && s.cpus[i].run == 0
  {
    assert Ok(s, i);
    assert forall j :: j in s.hist.arrived ==> !Ok(s, j);
    assert s.hist.arrived == {};
  }

  lemma ResetCpus(s: State, i: nat)
    requires ScalarsOk(s) && CpusOk(s) && i < |s.cpus| && s.cpus[i].pc.BspReset? && s.hist.leader == i
    requires s.cpus[i].run == 0
    ensures CpusOk(Reset(s, i))
  {
    assert Ok(s, i);
    var s' := Reset(s, i);
    forall j | 0 <= j < |s'.cpus| ensures Ok(s', j) { assert Ok(s, j); }
  }
}
