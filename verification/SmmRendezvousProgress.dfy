/** Progress of a run after the lockdown: every step of a participant brings the reset nearer,
    but for the calls the BSP makes inside SmmCoreEntry, and each of these costs a fixed amount. */
module SmmRendezvousProgress {
  import opened SmmRendezvous
  import opened SmmRendezvousInvariant
  import opened SmmRendezvousSteps
  import opened SmmRendezvousTheorems

  /** SmmCoreEntry has returned and the reset has not been made. */
  predicate Exiting(pc: Pc) {
    || pc.BspDrain? || pc.BspLeave? || pc.BspUnelect? || pc.BspReset?
    || (pc.BspRelease? && pc.k >= 3) || (pc.BspWait? && pc.k >= 4) || (pc.BspAct? && pc.k >= 4)
  }

  /** The BSP asks for a procedure on an AP. */
  predicate IsCall(s: State, i: nat, ch: Choice) {
    i < |s.cpus| && s.cpus[i].pc.BspCore? && ch.call
  }

  /** The steps the BSP still has to make, with n processors and a APs. */
  function BspRank(pc: Pc, n: nat, a: nat): int {
    match pc
    case BspWait(k, left) => left + WaitRank(k, n, a)
    case BspRelease(k, left) => left + ReleaseRank(k, n, a)
    case BspAct(k) =>
      if k == 1 then 18 + 5 * a + 6 * n else if k == 2 then 15 + 4 * a + 5 * n
      else if k == 4 then 6 + 2 * a + n else 3 + a
    case BspOwn => 13 + 3 * a + 5 * n
    case BspFill(_, _, _) => 16 + 3 * a + 5 * n
    case BspPost(_, _) => 15 + 3 * a + 5 * n
    case BspBlock(_) => 14 + 3 * a + 5 * n
    case BspUnblock(_) => 13 + 3 * a + 5 * n
    case BspCore => 12 + 3 * a + 5 * n
    case BspDrain(left, held) => 11 + 3 * a + 3 * n + 2 * left - B2N(held)
    case BspLeave => 10 + 3 * a + 3 * n
    case BspUnelect => 1
    case _ => 0
  }

  /** At the k-th barrier. */
  function WaitRank(k: nat, n: nat, a: nat): nat {
    if k == 1 then 20 + 5 * a + 7 * n else if k == 2 then 17 + 4 * a + 6 * n else if k == 3 then 14 + 3 * a + 5 * n
    else if k == 4 then 8 + 2 * a + 2 * n else if k == 5 then 5 + a + n else 2
  }

  function ReleaseRank(k: nat, n: nat, a: nat): nat {
    if k == 1 then 19 + 5 * a + 6 * n else if k == 2 then 16 + 4 * a + 5 * n
    else if k == 3 then 9 + 3 * a + 2 * n else if k == 4 then 7 + 2 * a + n else 4 + a
  }

  /** The steps an AP still has to make for itself, and four for a procedure it has not run. */
  function ApRank(c: Cpu): int {
    match c.pc
    case Counted(_) => 23
    case _ => 4 * (|c.given| - |c.ran|) + PcRank(c.pc)
  }

  function PcRank(pc: Pc): nat {
    match pc
    case Elect => 22
    case Compare => 21
    case ApTimeout => 20
    case ApFind => 19
    case ApMark(_) => 18
    case ApSignal(_, k) =>
      if k == 1 then 17 else if k == 2 then 14 else if k == 3 then 11 else if k == 4 then 8 else if k == 5 then 5 else 2
    case ApAwait(_, k) => if k == 1 then 16 else if k == 2 then 13 else if k == 3 then 10 else if k == 4 then 7 else 4
    case ApAct(_, k) => if k == 1 then 15 else if k == 2 then 12 else if k == 4 then 6 else 3
    case ApFree(_) => 11
    case ApCheck(_) => 9
    case ApRun(_) => 8
    case Done => 1
    case _ => 0
  }

  function ApRanks(cpus: seq<Cpu>, members: set<nat>, leader: int, n: nat): int
    requires n <= |cpus|
  {
    if n == 0 then 0
    else
      ApRanks(cpus, members, leader, n - 1) +
      (if n - 1 in members && n - 1 != leader then ApRank(cpus[n - 1]) else 0)
  }

  /** The measure of a state. */
  function Measure(s: State): int
    requires 0 <= s.hist.leader < |s.cpus|
  {
    BspRank(LeaderPc(s), |s.cpus|, s.cpus[s.hist.leader].apCount) +
    ApRanks(s.cpus, s.hist.members, s.hist.leader, |s.cpus|)
  }

  /** Only the rank of processor i changes. */
  lemma {:induction false} RanksChange(cpus: seq<Cpu>, cpus': seq<Cpu>, members: set<nat>, leader: int, i: nat, n: nat)
    requires n <= |cpus| == |cpus'|
    requires forall j {:trigger cpus'[j]} :: 0 <= j < |cpus| && j != i && j in members && j != leader ==>
               ApRank(cpus'[j]) == ApRank(cpus[j])
    ensures ApRanks(cpus', members, leader, n) - ApRanks(cpus, members, leader, n) ==
              if i < n && i in members && i != leader then ApRank(cpus'[i]) - ApRank(cpus[i]) else 0
  {
    if n > 0 { RanksChange(cpus, cpus', members, leader, i, n - 1); }
  }

  // ----- One step -----

  /** Where an AP of a locked run can be. */
  predicate ApAt(s: State, j: nat) {
    j < |s.cpus| && ApFits(s.cpus[j]) && (Sig(s.cpus[j].pc) < 3 ==> s.sh.insideSmm)
  }

  /** It owes the procedure it is about to run, and at most one. */
  predicate ApFits(c: Cpu) {
    && (BeforeJoin(c.pc) || c.pc.ApFind? || HasBsp(c.pc) || Finished(c.pc)) && ApWellFormed(c.pc)
    && (c.pc.Counted? || |c.given| == |c.ran|
        || (|c.given| == |c.ran| + 1 && ((c.pc.ApAwait? && c.pc.k == 3) || c.pc.ApCheck? || c.pc.ApRun?)))
    && (c.pc.ApRun? ==> |c.given| == |c.ran| + 1)
  }

  lemma RankFits(c: Cpu)
    requires ApFits(c)
    ensures 0 <= ApRank(c) <= 23 && (Sig(c.pc) >= 3 ==> ApRank(c) <= 14)
  {}

  lemma ApIsAt(s: State, j: nat)
    requires Scalars(s) && CpusOk(s) && BspLocked(LeaderPc(s)) && j < |s.cpus| && j in s.hist.members
    requires j != s.hist.leader
    ensures ApAt(s, j) && (Exiting(LeaderPc(s)) ==> Sig(s.cpus[j].pc) >= 3)
  {
    assert Ok(s, j);
    LeaderIsBsp(s);
  }

  lemma LeaderIsBsp(s: State)
    requires Scalars(s) && CpusOk(s) && BspLocked(LeaderPc(s))
    ensures 0 <= s.hist.leader < |s.cpus| && BspWellFormed(LeaderPc(s), |s.cpus|, s.cpus[s.hist.leader].apCount)
    ensures s.sh.allCpusInSync && s.sh.counter == LOCKED && s.hist.leader in s.hist.members
    ensures LeaderPc(s).BspReset? || s.sh.bspIndex == s.hist.leader
  {
    assert Ok(s, s.hist.leader);
  }

  /** What a step leaves alone. */
  predicate SameRun(s: State, s': State) {
    |s'.cpus| == |s.cpus| && s'.hist.leader == s.hist.leader && s'.hist.members == s.hist.members
  }

  /** The leader's place and its count stay. */
  predicate SameLeader(s: State, s': State)
    requires 0 <= s.hist.leader < |s.cpus|
  {
    && SameRun(s, s') && s'.cpus[s.hist.leader].pc == LeaderPc(s)
    && s'.cpus[s.hist.leader].apCount == s.cpus[s.hist.leader].apCount
  }

  /** A step of an AP of the run lowers its own rank and leaves every other one. */
  predicate ApNearer(s: State, s': State, i: nat)
    requires 0 <= s.hist.leader < |s.cpus| && i < |s.cpus|
  {
    && SameLeader(s, s') && ApRank(s'.cpus[i]) < ApRank(s.cpus[i])
    && forall j {:trigger s'.cpus[j]} :: 0 <= j < |s.cpus| && j != i ==> ApRank(s'.cpus[j]) == ApRank(s.cpus[j])
  }

  lemma SignalNearer(s: State, i: nat)
    requires 0 <= s.hist.leader < |s.cpus| && i != s.hist.leader && ApAt(s, i) && s.cpus[i].pc.ApSignal?
    requires 0 <= s.cpus[i].pc.bsp < |s.cpus|
    ensures ApNearer(s, Signal(s, i), i)
  {}

  lemma WorkNearer(s: State, i: nat, ch: Choice)
    requires 0 <= s.hist.leader < |s.cpus| && i != s.hist.leader && ApAt(s, i) && Enabled(s, i, ch)
    requires || s.cpus[i].pc.ApAwait? || s.cpus[i].pc.ApAct? || s.cpus[i].pc.ApCheck? || s.cpus[i].pc.ApRun?
             || s.cpus[i].pc.ApFree?
    ensures ApNearer(s, Next(s, i, ch), i)
  {}

  lemma JoinNearer(s: State, i: nat, ch: Choice)
    requires 0 <= s.hist.leader < |s.cpus| && s.sh.allCpusInSync && Enabled(s, i, ch) && i != s.hist.leader
    requires ApAt(s, i)
    requires BeforeJoin(s.cpus[i].pc) ==> s.sh.bspIndex == s.hist.leader
    requires BeforeJoin(s.cpus[i].pc) || s.cpus[i].pc.ApFind? || s.cpus[i].pc.ApMark? || Finished(s.cpus[i].pc)
    ensures ApNearer(s, Next(s, i, ch), i)
  {}

  lemma ApSteps(s: State, i: nat, ch: Choice)
    requires 0 <= s.hist.leader < |s.cpus| && s.sh.allCpusInSync && Enabled(s, i, ch) && i != s.hist.leader
    requires ApAt(s, i) && (BeforeJoin(s.cpus[i].pc) ==> s.sh.bspIndex == s.hist.leader)
    ensures ApNearer(s, Next(s, i, ch), i)
  {
    var pc := s.cpus[i].pc;
    if pc.ApSignal? { SignalNearer(s, i); }
    else if pc.ApAwait? || pc.ApAct? || pc.ApCheck? || pc.ApRun? || pc.ApFree? { WorkNearer(s, i, ch); }
    else { JoinNearer(s, i, ch); }
  }

  /** The BSP is nearer to the reset. */
  predicate Nearer(s: State, s': State)
    requires 0 <= s.hist.leader < |s.cpus|
  {
    && SameRun(s, s') && s'.cpus[s.hist.leader].apCount == s.cpus[s.hist.leader].apCount && BspLocked(LeaderPc(s'))
    && (Exiting(LeaderPc(s)) ==> Exiting(LeaderPc(s')))
    && BspRank(LeaderPc(s'), |s.cpus|, s.cpus[s.hist.leader].apCount) <
       BspRank(LeaderPc(s), |s.cpus|, s.cpus[s.hist.leader].apCount)
  }

  predicate BspAt(s: State, b: nat) {
    b == s.hist.leader && b < |s.cpus| && BspLocked(s.cpus[b].pc) &&
    BspWellFormed(s.cpus[b].pc, |s.cpus|, s.cpus[b].apCount)
  }

  lemma WaitNearer(s: State, b: nat)
    requires BspAt(s, b) && s.cpus[b].pc.BspWait? && (s.cpus[b].pc.left > 0 ==> s.cpus[b].run > 0)
    ensures Nearer(s, WaitAps(s, b))
  {}

  lemma ReleaseNearer(s: State, b: nat)
    requires BspAt(s, b) && s.cpus[b].pc.BspRelease?
    ensures Nearer(s, ReleaseAps(s, b))
  {}

  lemma DrainNearer(s: State, b: nat)
    requires BspAt(s, b) && s.cpus[b].pc.BspDrain?
    ensures Nearer(s, Drain(s, b))
  {}

  /** The steps of a call after its beginning. */
  lemma CallNearer(s: State, b: nat, ch: Choice)
    requires BspAt(s, b) && Enabled(s, b, ch)
    requires s.cpus[b].pc.BspFill? || s.cpus[b].pc.BspPost? || s.cpus[b].pc.BspBlock? || s.cpus[b].pc.BspUnblock?
    requires s.cpus[b].pc.target != b
    ensures Nearer(s, Next(s, b, ch))
  {}

  lemma OtherNearer(s: State, b: nat, ch: Choice)
    requires BspAt(s, b) && Enabled(s, b, ch) && !s.cpus[b].pc.BspReset? && !IsCall(s, b, ch)
    requires !s.cpus[b].pc.BspWait? && !s.cpus[b].pc.BspRelease? && !s.cpus[b].pc.BspDrain?
    requires !s.cpus[b].pc.BspFill? && !s.cpus[b].pc.BspPost? && !s.cpus[b].pc.BspBlock? && !s.cpus[b].pc.BspUnblock?
    ensures Nearer(s, Next(s, b, ch))
  {}

  /** A step of the BSP lowers its rank, unless it is a call. */
  lemma BspSteps(s: State, b: nat, ch: Choice)
    requires Shape(s) && BspAt(s, b) && !s.cpus[b].pc.BspReset? && Enabled(s, b, ch) && !IsCall(s, b, ch)
    ensures Nearer(s, Next(s, b, ch))
  {
    var pc := s.cpus[b].pc;
    if pc.BspWait? { WaitNearer(s, b); }
    else if pc.BspRelease? { ReleaseNearer(s, b); }
    else if pc.BspDrain? { DrainNearer(s, b); }
    else if pc.BspFill? || pc.BspPost? || pc.BspBlock? || pc.BspUnblock? { CallNearer(s, b, ch); }
    else { OtherNearer(s, b, ch); }
  }

  /** It leaves the rank of every AP. */
  lemma BspLeavesAps(s: State, ch: Choice, j: nat)
    requires 0 <= s.hist.leader < |s.cpus| && BspLocked(LeaderPc(s)) && Enabled(s, s.hist.leader, ch)
    requires j < |s.cpus| && j != s.hist.leader && !IsCall(s, s.hist.leader, ch)
    ensures j < |Next(s, s.hist.leader, ch).cpus| && ApRank(Next(s, s.hist.leader, ch).cpus[j]) == ApRank(s.cpus[j])
  {}

  /** A call costs the four steps of the BSP and the four of the AP that follow. */
  lemma CallCosts(s: State, b: nat, ch: Choice)
    requires BspAt(s, b) && IsCall(s, b, ch)
    ensures var s' := Next(s, b, ch);
            && SameRun(s, s') && s'.cpus[b].apCount == s.cpus[b].apCount && InCore(LeaderPc(s'))
            && Measure(s') <= Measure(s) + 8
  {
    var s' := Next(s, b, ch);
    if Accepts(s, b, ch.target, ch.removing) {
      RanksChange(s.cpus, s'.cpus, s.hist.members, s.hist.leader, ch.target, |s.cpus|);
    }
  }

  /** A step of a processor outside the run changes only its own entry. */
  lemma OutsiderSteps(s: State, i: nat, ch: Choice)
    requires Scalars(s) && CpusOk(s) && BspLocked(LeaderPc(s)) && Enabled(s, i, ch) && i !in s.hist.members
    ensures var s' := Next(s, i, ch);
            && SameRun(s, s') && i != s.hist.leader
            && forall j {:trigger s'.cpus[j]} :: 0 <= j < |s.cpus| && j != i ==> s'.cpus[j] == s.cpus[j]
  {
    assert Ok(s, i);
    LeaderIsBsp(s);
  }

  /** The BSP's step, unless it is a call. */
  lemma LeaderStep(s: State, ch: Choice)
    requires Scalars(s) && CpusOk(s) && BspLocked(LeaderPc(s)) && !LeaderPc(s).BspReset?
    requires 0 <= s.hist.leader && Enabled(s, s.hist.leader, ch) && !IsCall(s, s.hist.leader, ch)
    ensures var s' := Next(s, s.hist.leader, ch); Nearer(s, s') && Measure(s') < Measure(s)
  {
    var b := s.hist.leader;
    var s' := Next(s, b, ch);
    LeaderIsBsp(s);
    BspSteps(s, b, ch);
    forall j {:trigger s'.cpus[j]} | 0 <= j < |s.cpus| && j != b ensures ApRank(s'.cpus[j]) == ApRank(s.cpus[j]) {
      BspLeavesAps(s, ch, j);
    }
    RanksChange(s.cpus, s'.cpus, s.hist.members, s.hist.leader, b, |s.cpus|);
  }

  lemma ApStep(s: State, i: nat, ch: Choice)
    requires Scalars(s) && CpusOk(s) && BspLocked(LeaderPc(s)) && Enabled(s, i, ch)
    requires i in s.hist.members && i != s.hist.leader
    ensures 0 <= s.hist.leader < |s.cpus|
    ensures var s' := Next(s, i, ch); SameLeader(s, s') && Measure(s') < Measure(s)
  {
    LeaderIsBsp(s);
    ApIsAt(s, i);
    assert BeforeJoin(s.cpus[i].pc) ==> !LeaderPc(s).BspReset? by { assert Ok(s, i); }
    ApSteps(s, i, ch);
    RanksChange(s.cpus, Next(s, i, ch).cpus, s.hist.members, s.hist.leader, i, |s.cpus|);
  }

  lemma OutsiderStep(s: State, i: nat, ch: Choice)
    requires Scalars(s) && CpusOk(s) && BspLocked(LeaderPc(s)) && Enabled(s, i, ch) && i !in s.hist.members
    ensures 0 <= s.hist.leader < |s.cpus|
    ensures var s' := Next(s, i, ch); SameLeader(s, s') && Measure(s') == Measure(s) && !IsCall(s, i, ch)
  {
    LeaderIsBsp(s);
    OutsiderSteps(s, i, ch);
    assert Ok(s, i);
    RanksChange(s.cpus, Next(s, i, ch).cpus, s.hist.members, s.hist.leader, i, |s.cpus|);
  }

  lemma OnlyLeaderCalls(s: State, i: nat, ch: Choice)
    requires Scalars(s) && CpusOk(s) && IsCall(s, i, ch)
    ensures i == s.hist.leader
  {
    assert Ok(s, i);
  }

  /** What a step of the run does to the measure. */
  predicate Progress(s: State, s': State, call: bool, member: bool) {
    && 0 <= s.hist.leader < |s.cpus| && SameRun(s, s') && BspLocked(LeaderPc(s'))
    && (Exiting(LeaderPc(s)) ==> Exiting(LeaderPc(s')) && !call)
    && if call then Measure(s') <= Measure(s) + 8
       else if member then Measure(s') < Measure(s) else Measure(s') == Measure(s)
  }

  /** After the lockdown every step of a participant lowers the measure, but for a call, which
      raises it by at most eight; a step of any other processor leaves it.  Nobody joins or
      leaves the run before its reset. */
  lemma RunStep(s: State, i: nat, ch: Choice)
    requires Reachable(s) && BspLocked(LeaderPc(s)) && Enabled(s, i, ch) && !s.cpus[i].pc.BspReset?
    ensures Progress(s, Next(s, i, ch), IsCall(s, i, ch), i in s.hist.members)
  {
    ReachableInv(s);
    LeaderIsBsp(s);
    if IsCall(s, i, ch) {
      OnlyLeaderCalls(s, i, ch);
      CallCosts(s, i, ch);
    } else if i !in s.hist.members {
      OutsiderStep(s, i, ch);
    } else if i != s.hist.leader {
      ApStep(s, i, ch);
    } else {
      LeaderStep(s, ch);
    }
  }

  // ----- The whole run -----

  predicate ApsAt(s: State, exiting: bool) {
    forall j: nat {:trigger s.cpus[j]} :: j < |s.cpus| && j in s.hist.members && j != s.hist.leader ==>
      ApFits(s.cpus[j]) && (exiting ==> Sig(s.cpus[j].pc) >= 3)
  }

  lemma {:induction false} RanksBounded(s: State, exiting: bool, n: nat)
    requires ApsAt(s, exiting) && n <= |s.cpus|
    ensures 0 <= ApRanks(s.cpus, s.hist.members, s.hist.leader, n) <= 23 * n
    ensures exiting ==> ApRanks(s.cpus, s.hist.members, s.hist.leader, n) <= 14 * n
  {
    if n > 0 {
      RanksBounded(s, exiting, n - 1);
      if n - 1 in s.hist.members && n - 1 != s.hist.leader { RankFits(s.cpus[n - 1]); }
    }
  }

  lemma ApsAreAt(s: State)
    requires Scalars(s) && CpusOk(s) && BspLocked(LeaderPc(s))
    ensures ApsAt(s, Exiting(LeaderPc(s)))
  {
    forall j: nat {:trigger s.cpus[j]} | j < |s.cpus| && j in s.hist.members && j != s.hist.leader
      ensures ApFits(s.cpus[j]) && (Exiting(LeaderPc(s)) ==> Sig(s.cpus[j].pc) >= 3)
    {
      ApIsAt(s, j);
    }
  }

  lemma BspRankFits(pc: Pc, n: nat, a: nat)
    requires BspLocked(pc) && BspWellFormed(pc, n, a) && a <= n
    ensures 0 <= BspRank(pc, n, a) <= 20 + 13 * n && (Exiting(pc) ==> BspRank(pc, n, a) <= 11 + 8 * n)
  {}

  /** The measure is a natural number, linear in the number of processors. */
  lemma MeasureBounded(s: State)
    requires Reachable(s) && BspLocked(LeaderPc(s))
    ensures 0 <= s.hist.leader < |s.cpus| && 0 <= Measure(s) <= 20 + 36 * |s.cpus|
    ensures Exiting(LeaderPc(s)) ==> Measure(s) <= 11 + 22 * |s.cpus|
  {
    ReachableInv(s);
    LeaderIsBsp(s);
    ApsAreAt(s);
    RanksBounded(s, Exiting(LeaderPc(s)), |s.cpus|);
    MembersFit(s.hist.members, |s.cpus|);
    BspRankFits(LeaderPc(s), |s.cpus|, s.cpus[s.hist.leader].apCount);
  }

  datatype Move = Move(cpu: nat, choice: Choice)

  /** The moves can be made one after the other, none of them being the reset. */
  predicate Runs(s: State, moves: seq<Move>)
    decreases |moves|
  {
    moves == [] ||
    (Enabled(s, moves[0].cpu, moves[0].choice) && !s.cpus[moves[0].cpu].pc.BspReset?
     && Runs(Next(s, moves[0].cpu, moves[0].choice), moves[1..]))
  }

  /** How many of the moves are made by participants. */
  function Participating(members: set<nat>, moves: seq<Move>): nat {
    if moves == [] then 0 else B2N(moves[0].cpu in members) + Participating(members, moves[1..])
  }

  lemma StepReachable(s: State, i: nat, ch: Choice)
    requires Reachable(s) && Enabled(s, i, ch)
    ensures Reachable(Next(s, i, ch))
  {
    var n: nat :| ReachableIn(s, n);
    assert Step(s, Next(s, i, ch));
    assert ReachableIn(Next(s, i, ch), n + 1);
  }

  /** How many of the moves are calls. */
  function Calls(s: State, moves: seq<Move>): nat
    requires Runs(s, moves)
    decreases |moves|
  {
    if moves == [] then 0
    else
      B2N(IsCall(s, moves[0].cpu, moves[0].choice)) + Calls(Next(s, moves[0].cpu, moves[0].choice), moves[1..])
  }

  /** However the processors are interleaved, after the lockdown the participants together make
      at most so many moves before the reset, and nine for every call: nobody runs or waits
      actively for ever. */
  lemma {:induction false} RunIsBounded(s: State, moves: seq<Move>)
    requires Reachable(s) && BspLocked(LeaderPc(s)) && Runs(s, moves)
    ensures 0 <= s.hist.leader < |s.cpus|
    ensures Participating(s.hist.members, moves) <= Measure(s) + 9 * Calls(s, moves)
    decreases |moves|
  {
    MeasureBounded(s);
    if moves != [] {
      RunStep(s, moves[0].cpu, moves[0].choice);
      StepReachable(s, moves[0].cpu, moves[0].choice);
      RunIsBounded(Next(s, moves[0].cpu, moves[0].choice), moves[1..]);
    }
  }

  /** Once SmmCoreEntry has returned there are no calls any more. */
  lemma {:induction false} ExitIsBounded(s: State, moves: seq<Move>)
    requires Reachable(s) && Exiting(LeaderPc(s)) && Runs(s, moves)
    ensures Calls(s, moves) == 0
    ensures 0 <= s.hist.leader < |s.cpus| && Participating(s.hist.members, moves) <= Measure(s) <= 11 + 22 * |s.cpus|
    decreases |moves|
  {
    MeasureBounded(s);
    if moves != [] {
      RunStep(s, moves[0].cpu, moves[0].choice);
      StepReachable(s, moves[0].cpu, moves[0].choice);
      ExitIsBounded(Next(s, moves[0].cpu, moves[0].choice), moves[1..]);
    }
    RunIsBounded(s, moves);
  }

  /** And the reset can be reached from everywhere: as long as it is not next, some participant
      can move without a call. */
  lemma {:induction false} RunCompletes(s: State) returns (s': State)
    requires Reachable(s) && BspLocked(LeaderPc(s))
    ensures Reachable(s') && LeaderPc(s').BspReset? && s'.hist.members == s.hist.members
    decreases MeasureOr0(s)
  {
    MeasureBounded(s);
    ReachableInv(s);
    LeaderIsBsp(s);
    s' := s;
    if !LeaderPc(s).BspReset? {
      SomebodyMoves(s);
      var i :| i in s.hist.members && Enabled(s, i, GO) && Next(s, i, GO) != s;
      OnlyLeaderResets(s, i);
      RunStep(s, i, GO);
      StepReachable(s, i, GO);
      MeasureBounded(Next(s, i, GO));
      s' := RunCompletes(Next(s, i, GO));
    }
  }

  function MeasureOr0(s: State): nat {
    if 0 <= s.hist.leader < |s.cpus| && Measure(s) >= 0 then Measure(s) else 0
  }

  lemma OnlyLeaderResets(s: State, i: nat)
    requires Scalars(s) && CpusOk(s) && i < |s.cpus| && !LeaderPc(s).BspReset?
    ensures !s.cpus[i].pc.BspReset?
  {
    assert Ok(s, i);
  }
}
