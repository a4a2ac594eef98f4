/** The invariant of the rendezvous.  It is local: a few facts about the scalars, and for
    each processor a fact about its own entry and the program counter of the BSP. */
module SmmRendezvousInvariant {
  import opened SmmRendezvous

  // ----- Where the BSP is -----

  predicate IsBsp(pc: Pc) {
    pc.BspEnter? || pc.BspMark? || pc.BspSync? || pc.BspLock? || pc.BspWait? || pc.BspRelease?
    || pc.BspAct? || pc.BspOwn? || InCore(pc) || pc.BspDrain? || pc.BspLeave? || pc.BspUnelect? || pc.BspReset?
  }

  /** Inside SmmCoreEntry, possibly in the middle of a scheduling call. */
  predicate InCore(pc: Pc) {
    pc.BspCore? || pc.BspFill? || pc.BspPost? || pc.BspBlock? || pc.BspUnblock?
  }

  /** Between the third barrier and the clearing of InsideSmm. */
  predicate InWork(pc: Pc) {
    pc.BspOwn? || InCore(pc) || pc.BspDrain? || pc.BspLeave?
  }

  predicate BspLocked(pc: Pc) {
    IsBsp(pc) && !pc.BspEnter? && !pc.BspMark? && !pc.BspSync? && !pc.BspLock?
  }

  /** InsideSmm is TRUE exactly here. */
  predicate BspInside(pc: Pc) {
    || pc.BspMark? || pc.BspSync? || pc.BspLock? || InWork(pc)
    || (pc.BspWait? && pc.k <= 3) || (pc.BspRelease? && pc.k <= 2) || (pc.BspAct? && pc.k <= 2)
  }

  /** The barrier the BSP is in or heading for; 7 after the last one. */
  function Expect(pc: Pc): nat {
    if pc.BspWait? then pc.k
    else if pc.BspRelease? || pc.BspAct? then pc.k + 1
    else if InWork(pc) then 4
    else if pc.BspUnelect? || pc.BspReset? then 7
    else 1
  }

  /** How many AP signals the BSP has already taken for that barrier. */
  function Consumed(pc: Pc, apCount: nat): int {
    if pc.BspWait? then apCount - pc.left else 0
  }

  /** How many ReleaseAllAPs rounds have already visited processor i. */
  function Passed(pc: Pc, i: nat): nat {
    if pc.BspWait? then (if pc.k == 0 then 0 else pc.k - 1)
    else if pc.BspRelease? then (if i >= pc.left then pc.k else if pc.k == 0 then 0 else pc.k - 1)
    else if pc.BspAct? then pc.k
    else if InWork(pc) then 2
    else if pc.BspUnelect? || pc.BspReset? then 5
    else 0
  }

  predicate BspWellFormed(pc: Pc, n: nat, apCount: nat) {
    && (pc.BspWait? ==> 1 <= pc.k <= 6 && pc.left <= apCount)
    && (pc.BspRelease? ==> 1 <= pc.k <= 5 && pc.left <= n)
    && (pc.BspAct? ==> 1 <= pc.k <= 5 && pc.k != 3)
    && (pc.BspDrain? ==> pc.left <= n && (pc.held ==> pc.left > 0))
  }

  predicate BspPresent(pc: Pc) {
    IsBsp(pc) && !pc.BspEnter? && !pc.BspMark? && !(pc.BspWait? && pc.k >= 6) && !pc.BspUnelect? && !pc.BspReset?
  }

  /** Which AP's lock the BSP itself is holding, if any. */
  predicate Holds(pc: Pc, i: nat) {
    || (pc.BspFill? && pc.target == i) || (pc.BspPost? && pc.target == i) || (pc.BspUnblock? && pc.target == i)
    || (pc.BspDrain? && pc.held && pc.left == i + 1)
  }

  // ----- Where an AP is -----

  predicate HasBsp(pc: Pc) {
    pc.ApMark? || pc.ApSignal? || pc.ApAwait? || pc.ApAct? || pc.ApCheck? || pc.ApRun? || pc.ApFree?
  }

  predicate BeforeJoin(pc: Pc) {
    pc.Counted? || pc.Elect? || pc.Compare? || pc.ApTimeout?
  }

  predicate ApWellFormed(pc: Pc) {
    && (pc.ApSignal? ==> 1 <= pc.k <= 6)
    && (pc.ApAwait? ==> 1 <= pc.k <= 5)
    && (pc.ApAct? ==> 1 <= pc.k <= 5 && pc.k != 3)
  }

  predicate Finished(pc: Pc) {
    pc.Done? || pc.Leaving?
  }

  /** Releases of the BSP's Run made so far. */
  function Sig(pc: Pc): nat {
    if pc.ApSignal? then (if pc.k == 0 then 0 else pc.k - 1)
    else if pc.ApAwait? || pc.ApAct? then pc.k
    else if pc.ApCheck? || pc.ApRun? || pc.ApFree? then 3
    else if Finished(pc) then 6
    else 0
  }

  /** Round tokens taken from its own Run so far.  A token taken in the work loop is a
      round token exactly when InsideSmm is already FALSE. */
  function Got(pc: Pc, insideSmm: bool): nat {
    if pc.ApSignal? then (if pc.k == 0 then 0 else pc.k - 1)
    else if pc.ApAwait? then (if pc.k == 0 then 0 else pc.k - 1)
    else if pc.ApAct? then pc.k
    else if pc.ApCheck? then (if insideSmm then 2 else 3)
    else if pc.ApRun? || pc.ApFree? then 2
    else if Finished(pc) then 5
    else 0
  }

  predicate ApPresent(pc: Pc) {
    HasBsp(pc) && !pc.ApMark? && !(pc.ApSignal? && pc.k == 6)
  }

  // ----- Events a processor has produced in this run -----

  function B2N(b: bool): nat { if b then 1 else 0 }

  predicate BackedUp(pc: Pc) {
    || (pc.ApSignal? && pc.k >= 2) || (pc.ApAwait? && pc.k >= 2) || (pc.ApAct? && pc.k >= 2)
    || pc.ApCheck? || pc.ApRun? || pc.ApFree? || Finished(pc)
    || (pc.BspWait? && pc.k >= 2) || (pc.BspRelease? && pc.k >= 2) || (pc.BspAct? && pc.k >= 2)
    || InWork(pc) || pc.BspUnelect? || pc.BspReset?
  }

  predicate Replaced(pc: Pc) {
    || (pc.ApSignal? && pc.k >= 3) || (pc.ApAwait? && pc.k >= 3) || (pc.ApAct? && pc.k >= 3)
    || pc.ApCheck? || pc.ApRun? || pc.ApFree? || Finished(pc)
    || (pc.BspWait? && pc.k >= 3) || (pc.BspRelease? && pc.k >= 3) || (pc.BspAct? && pc.k >= 3)
    || InWork(pc) || pc.BspUnelect? || pc.BspReset?
  }

  predicate Restored(pc: Pc) {
    || (pc.ApSignal? && pc.k >= 5) || (pc.ApAwait? && pc.k >= 5) || (pc.ApAct? && pc.k >= 5) || Finished(pc)
    || (pc.BspWait? && pc.k >= 5) || (pc.BspRelease? && pc.k >= 5) || (pc.BspAct? && pc.k >= 5)
    || pc.BspUnelect? || pc.BspReset?
  }

  function Phase(e: Event): nat {
    match e
    case Backup(_) => 1
    case Replace(_) => 2
    case Work(_, _) => 3
    case Restore(_) => 4
  }

  /** The latest phase an event may have had so far. */
  function Bound(pc: Pc): nat {
    if Expect(pc) <= 2 then 1 else if Expect(pc) >= 5 then 4 else Expect(pc) - 1
  }

  ghost predicate Sorted(log: seq<Event>) {
    forall a, b :: 0 <= a < b < |log| ==> Phase(log[a]) <= Phase(log[b])
  }

  // ----- The invariant -----

  /** What a processor's own entry is compared with: the scalars it reads and the place
      the BSP has reached. */
  datatype View = View(n: nat, election: bool, bspIndex: int, inside: bool, leader: int, lpc: Pc)

  function LeaderPc(s: State): Pc {
    if 0 <= s.hist.leader < |s.cpus| then s.cpus[s.hist.leader].pc else Outside
  }

  function ViewOf(s: State): View {
    View(|s.cpus|, s.sh.election, s.sh.bspIndex, s.sh.insideSmm, s.hist.leader, LeaderPc(s))
  }

  /** The procedure accepted for AP i and not executed yet, if there is one. */
  function Pending(lpc: Pc, i: nat, c: Cpu): seq<nat> {
    if lpc.BspFill? && lpc.target == i then [lpc.newJob]
    else if lpc.BspPost? && lpc.target == i then [c.job]
    else if c.pc.ApAwait? && c.run == 1 then [c.job]
    else if c.pc.ApCheck? || c.pc.ApRun? then [c.job]
    else []
  }

  /** Scheduling on AP i while the BSP is between the third barrier and BspLeave. */
  predicate JobOk(lpc: Pc, i: nat, c: Cpu) {
    && (c.pc.ApAwait? || c.pc.ApCheck? || c.pc.ApRun? || c.pc.ApFree?)
    && (c.pc.ApAwait? ==> c.pc.k == 3 && c.run <= 1)
    && (!c.pc.ApAwait? ==> c.run == 0)
    && (c.busy <==> Holds(lpc, i) || !c.pc.ApAwait? || c.run == 1)
    && (Holds(lpc, i) ==> c.pc.ApAwait? && c.run == 0)
    && c.given == c.ran + Pending(lpc, i, c)
    && (lpc.BspOwn? || lpc.BspLeave? || (lpc.BspDrain? && i >= lpc.left) ==> !c.busy)
  }

  /** An AP that is checked in, while nobody is in BSPHandler yet. */
  predicate EarlyOk(c: Cpu) {
    && BeforeJoin(c.pc) && c.run == 0 && !c.present && c.signals == 0
    && (c.pc.Counted? || (!c.busy && c.given == c.ran))
  }

  /** An AP that is checked in, while the BSP is at v.lpc. */
  predicate ApOk(v: View, i: nat, c: Cpu, arrived: bool) {
    && (BeforeJoin(c.pc) || c.pc.ApFind? || HasBsp(c.pc) || Finished(c.pc))
    && ApWellFormed(c.pc)
    && (HasBsp(c.pc) ==> c.pc.bsp == v.leader)
    && c.signals == Sig(c.pc)
    && Sig(c.pc) <= Expect(v.lpc) <= Sig(c.pc) + 1
    && (arrived <==> Sig(c.pc) == Expect(v.lpc))
    && (c.present <==> ApPresent(c.pc))
    && (if InWork(v.lpc) then JobOk(v.lpc, i, c)
        else
          && c.run + Got(c.pc, v.inside) == Passed(v.lpc, i)
          && !c.pc.ApRun? && !c.pc.ApFree?
          && (c.pc.ApCheck? ==> !v.inside)
          && (c.pc.Counted? || (!c.busy && c.given == c.ran)))
  }

  /** A processor outside the current run: it holds no token and is not Present. */
  predicate OutOk(c: Cpu) {
    && (c.pc.Outside? || c.pc.Sampled? || c.pc.Late? || Finished(c.pc))
    && c.run == 0 && !c.present
  }

  predicate BspOk(n: nat, c: Cpu) {
    && IsBsp(c.pc)
    && BspWellFormed(c.pc, n, c.apCount)
    && (c.present <==> BspPresent(c.pc))
  }

  predicate NotAp(pc: Pc) {
    pc.Outside? || pc.Sampled? || pc.Late? || pc.Counted? || pc.Elect? || pc.Compare? || Finished(pc)
  }

  /** BspIndex names the BSP, or the winner of the election on its way to BSPHandler, or,
      without election, the fixed BSP; never a processor in APHandler. */
  predicate ElectionOk(v: View, i: nat, c: Cpu) {
    && (v.bspIndex == i ==> v.leader == i || c.pc.Compare? || (!v.election && NotAp(c.pc)))
    && ((c.pc.Sampled? || c.pc.Counted?) && c.pc.bspInProgress ==> v.election || i != 0)
  }

  predicate CpuOk(v: View, i: nat, c: Cpu, member: bool, arrived: bool) {
    && (if i == v.leader then member && !arrived && BspOk(v.n, c)
        else if !member then OutOk(c) && !arrived
        else if v.leader == -1 then EarlyOk(c)
        else ApOk(v, i, c, arrived))
    && ElectionOk(v, i, c)
  }

  predicate CpusOk(s: State) {
    forall i {:trigger s.cpus[i]} :: 0 <= i < |s.cpus| ==>
      CpuOk(ViewOf(s), i, s.cpus[i], i in s.hist.members, i in s.hist.arrived)
  }

  predicate Shape(s: State) {
    && 0 < |s.cpus| < LOCKED
    && -1 <= s.hist.leader < |s.cpus|
    && -1 <= s.sh.bspIndex < |s.cpus|
    && (forall i :: i in s.hist.members ==> i < |s.cpus|)
    && s.hist.arrived <= s.hist.members
    && (s.hist.leader == -1 ==> s.hist.arrived == {} && s.hist.log == [])
    && var lpc := LeaderPc(s);
       (lpc.BspFill? || lpc.BspPost? || lpc.BspBlock? || lpc.BspUnblock? ==>
          lpc.target < |s.cpus| && lpc.target != s.hist.leader && lpc.target in s.hist.members)
       && (lpc.BspDrain? && lpc.held ==>
             lpc.left > 0 && lpc.left - 1 != s.hist.leader && lpc.left - 1 in s.hist.members)
  }

  predicate ScalarsOk(s: State) {
    var lpc := LeaderPc(s);
    && s.sh.counter == (if BspLocked(lpc) then LOCKED else |s.hist.members|)
    && s.sh.insideSmm == BspInside(lpc)
    && s.sh.allCpusInSync == (BspLocked(lpc) || lpc.BspLock?)
    && (!s.sh.election ==> s.sh.bspIndex == 0)
    && (s.hist.leader >= 0 ==> s.sh.bspIndex == (if s.sh.election && lpc.BspReset? then -1 else s.hist.leader))
  }

  /** The BSP's own Run counts exactly the signals of the current barrier not taken yet. */
  predicate CountOk(s: State) {
    0 <= s.hist.leader < |s.cpus| ==>
      var b := s.cpus[s.hist.leader];
      && |s.hist.arrived| == b.run + Consumed(b.pc, b.apCount)
      && (BspLocked(b.pc) ==> b.apCount == |s.hist.members| - 1)
  }

  /** Every member's events are in the log once, every event is in phase order. */
  ghost predicate LogOk(s: State) {
    && Sorted(s.hist.log)
    && (forall e :: e in s.hist.log ==> Phase(e) <= Bound(LeaderPc(s)))
    && (forall i {:trigger s.cpus[i]} :: 0 <= i < |s.cpus| ==>
          EventsOk(multiset(s.hist.log), i, s.cpus[i].pc, i in s.hist.members))
  }

  ghost predicate EventsOk(log: multiset<Event>, i: nat, pc: Pc, member: bool) {
    && log[Backup(i)] == B2N(member && BackedUp(pc))
    && log[Replace(i)] == B2N(member && Replaced(pc))
    && log[Restore(i)] == B2N(member && Restored(pc))
  }

  predicate Scalars(s: State) {
    Shape(s) && ScalarsOk(s) && CountOk(s)
  }

  ghost predicate Inv(s: State) {
    Scalars(s) && CpusOk(s) && LogOk(s)
  }
}
