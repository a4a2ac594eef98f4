/** The SMM rendezvous of PiSmmCpuDxeSmm/MpService.c as a transition system.

    Every processor has a program counter; one step is one access to the shared
    block mSmmMpSyncData (or one labelled event), so a run is a sequentially
    consistent interleaving of any number of processors.  Timeouts, the platform's
    answer to "is this SMI valid" and the calls made inside SmmCoreEntry are free
    choices.  Semaphore operations are atomic here; module SmmSemaphoreCas shows that
    the compare-exchange loops of the source behave this way. */
module SmmRendezvous {

  // (UINT32)-1: the value LockdownSemaphore stores in Counter.
  const LOCKED: nat := 0xFFFF_FFFF

  datatype Event =
    | Backup(cpu: nat)             // MtrrGetAllMtrrs
    | Replace(cpu: nat)            // ReplaceOSMtrrs
    | Work(cpu: nat, job: nat)     // a procedure scheduled by SmmStartupThisAp
    | Restore(cpu: nat)            // ReenableSmrr, MtrrSetAllMtrrs

  datatype Pc =
    | Outside                                   // not in SMM
    | Sampled(bspInProgress: bool)              // about to signal presence
    | Late                                      // check-in refused, waiting for the run to end
    | Counted(bspInProgress: bool)              // checked in, Busy not yet initialised
    | Elect
    | Compare                                   // about to compare BspIndex with its own index
    // APHandler
    | ApTimeout                                 // clocking the BSP
    | ApFind                                    // BSP is available, about to read BspIndex
    | ApMark(bsp: int)                          // about to set Present
    | ApSignal(bsp: int, k: nat)                // about to release the BSP's Run for the k-th time
    | ApAwait(bsp: int, k: nat)                 // waiting on its own Run; k == 3 is the work loop
    | ApAct(bsp: int, k: nat)                   // what the k-th token allows
    | ApCheck(bsp: int)                         // woken in the work loop, about to read InsideSmm
    | ApRun(bsp: int)                           // about to invoke the scheduled procedure
    | ApFree(bsp: int)                          // about to release Busy
    // BSPHandler
    | BspEnter
    | BspMark
    | BspSync
    | BspLock
    | BspWait(k: nat, left: nat)                // k-th WaitForAllAPs, left more to take
    | BspRelease(k: nat, left: nat)             // k-th ReleaseAllAPs, indices below left to visit
    | BspAct(k: nat)                            // what the BSP does after its k-th ReleaseAllAPs
    | BspOwn                                    // about to take its own Busy lock
    | BspCore                                   // inside SmmCoreEntry
    | BspFill(target: nat, newJob: nat, blocking: bool)
    | BspPost(target: nat, blocking: bool)
    | BspBlock(target: nat)
    | BspUnblock(target: nat)
    | BspDrain(left: nat, held: bool)           // waiting for pending non-block tasks
    | BspLeave
    | BspUnelect
    | BspReset
    // back in SmiRendezvous
    | Done                                      // about to check that its Run is zero
    | Leaving                                   // waiting for AllCpusInSync to clear

  /** One entry of CpuData[] with the processor's locals.  The last three fields are
      history: releases of the BSP's Run in this run, procedures accepted for this
      processor and procedures it has executed. */
  datatype Cpu = Cpu(
    pc: Pc, run: nat, present: bool, busy: bool, job: nat, apCount: nat,
    signals: nat, given: seq<nat>, ran: seq<nat>)

  /** The scalar fields of mSmmMpSyncData. */
  datatype Shared = Shared(
    election: bool,        // PcdCpuSmmEnableBspElection
    counter: nat, bspIndex: int, insideSmm: bool, allCpusInSync: bool)

  /** History of the current run: who runs BSPHandler (-1 if nobody), who is checked
      in, whose current-barrier signal has been made, and the events so far. */
  datatype History = History(leader: int, members: set<nat>, arrived: set<nat>, log: seq<Event>)

  datatype State = State(cpus: seq<Cpu>, sh: Shared, hist: History)

  /** The free choices of one step. */
  datatype Choice = Choice(
    valid: bool,           // PlatformValidSmi
    vote: bool,            // !SwitchBsp || CandidateBsp[CpuIndex], and the platform hook gave no answer
    giveUp: bool,          // the sync timer expired
    call: bool,            // inside SmmCoreEntry: schedule a procedure, or return
    target: nat, newJob: nat, blocking: bool,
    removing: bool)        // Operation[target] == SmmCpuRemove

  // ----- Semaphores, in atomic form -----

  /** The new value of a semaphore after ReleaseSemaphore. */
  function Released(value: nat): nat {
    if value == LOCKED then value else value + 1
  }

  // ----- Small updates -----

  function Goto(s: State, i: nat, pc: Pc): State
    requires i < |s.cpus|
  {
    s.(cpus := s.cpus[i := s.cpus[i].(pc := pc)])
  }

  function Put(s: State, i: nat, c: Cpu): State
    requires i < |s.cpus|
  {
    s.(cpus := s.cpus[i := c])
  }

  function Log(s: State, e: Event): State {
    s.(hist := s.hist.(log := s.hist.log + [e]))
  }

  // ----- SmiRendezvous: entry, check-in, election -----

  function Sample(s: State, i: nat, valid: bool): State
    requires i < |s.cpus|
  {
    if !s.sh.insideSmm && !valid then s else Goto(s, i, Sampled(s.sh.insideSmm))
  }

  /** Signal presence.  The semaphore answers 0 once the BSP has locked it down. */
  function CheckIn(s: State, i: nat): State
    requires i < |s.cpus| && s.cpus[i].pc.Sampled?
  {
    if s.sh.counter == LOCKED then Goto(s, i, Late)
    else
      var c := s.cpus[i];
      s.(cpus := s.cpus[i := c.(pc := Counted(c.pc.bspInProgress), signals := 0)],
         sh := s.sh.(counter := s.sh.counter + 1),
         hist := s.hist.(members := s.hist.members + {i}))
  }

  function InitBusy(s: State, i: nat): State
    requires i < |s.cpus| && s.cpus[i].pc.Counted?
  {
    var c := s.cpus[i];
    Put(s, i, c.(pc := if c.pc.bspInProgress then ApTimeout else Elect, busy := false, given := [], ran := []))
  }

  /** Default BSP election: compare-exchange of BspIndex from -1. */
  function ElectBsp(s: State, i: nat, vote: bool): State
    requires i < |s.cpus|
  {
    var s' := Goto(s, i, Compare);
    if s.sh.election && vote && s.sh.bspIndex == -1 then s'.(sh := s.sh.(bspIndex := i)) else s'
  }

  function CompareIndex(s: State, i: nat): State
    requires i < |s.cpus|
  {
    if s.sh.bspIndex == i then Goto(s, i, BspEnter).(hist := s.hist.(leader := i, arrived := {}))
    else Goto(s, i, ApTimeout)
  }

  /** The BSP timed out: WaitForSemaphore on Counter, its load and its decrement in one step. */
  function GiveUp(s: State, i: nat): State
    requires i < |s.cpus| && s.sh.counter > 0
  {
    Goto(s, i, Done).(sh := s.sh.(counter := s.sh.counter - 1),
                      hist := s.hist.(members := s.hist.members - {i}))
  }

  // ----- APHandler -----

  function MarkPresent(s: State, i: nat): State
    requires i < |s.cpus| && s.cpus[i].pc.ApMark?
  {
    var c := s.cpus[i];
    Put(s, i, c.(pc := ApSignal(c.pc.bsp, 1), present := true))
  }

  /** Release the BSP's Run. */
  function Signal(s: State, i: nat): State
    requires i < |s.cpus| && s.cpus[i].pc.ApSignal? && 0 <= s.cpus[i].pc.bsp < |s.cpus|
  {
    var c := s.cpus[i];
    var b := c.pc.bsp;
    var after := if c.pc.k == 6 then Done else ApAwait(b, c.pc.k);
    var cpus := s.cpus[b := s.cpus[b].(run := Released(s.cpus[b].run))];
    s.(cpus := cpus[i := cpus[i].(pc := after, signals := c.signals + 1)],
       hist := s.hist.(arrived := s.hist.arrived + {i}))
  }

  /** Take one token from its own Run. */
  function Await(s: State, i: nat): State
    requires i < |s.cpus| && s.cpus[i].pc.ApAwait? && s.cpus[i].run > 0
  {
    var c := s.cpus[i];
    var after := if c.pc.k == 3 then ApCheck(c.pc.bsp) else ApAct(c.pc.bsp, c.pc.k);
    Put(s, i, c.(pc := after, run := c.run - 1))
  }

  /** k == 1 backs up the MTRRs, 2 programs the SMM ones, 4 restores the OS ones, 5
      clears Present. */
  function ActAp(s: State, i: nat): State
    requires i < |s.cpus| && s.cpus[i].pc.ApAct?
  {
    var c := s.cpus[i];
    var s' := Put(s, i, c.(pc := ApSignal(c.pc.bsp, c.pc.k + 1), present := c.present && c.pc.k != 5));
    if c.pc.k == 1 then Log(s', Backup(i))
    else if c.pc.k == 2 then Log(s', Replace(i))
    else if c.pc.k == 4 then Log(s', Restore(i))
    else s'
  }

  function CheckInside(s: State, i: nat): State
    requires i < |s.cpus| && s.cpus[i].pc.ApCheck?
  {
    var b := s.cpus[i].pc.bsp;
    Goto(s, i, if s.sh.insideSmm then ApRun(b) else ApSignal(b, 4))
  }

  function RunJob(s: State, i: nat): State
    requires i < |s.cpus| && s.cpus[i].pc.ApRun?
  {
    var c := s.cpus[i];
    Log(Put(s, i, c.(pc := ApFree(c.pc.bsp), ran := c.ran + [c.job])), Work(i, c.job))
  }

  function FreeBusy(s: State, i: nat): State
    requires i < |s.cpus| && s.cpus[i].pc.ApFree?
  {
    var c := s.cpus[i];
    Put(s, i, c.(pc := ApAwait(c.pc.bsp, 3), busy := false))
  }

  // ----- BSPHandler -----

  function EnterSmm(s: State, i: nat): State
    requires i < |s.cpus|
  {
    Goto(s, i, BspMark).(sh := s.sh.(insideSmm := true))
  }

  function MarkBsp(s: State, i: nat): State
    requires i < |s.cpus|
  {
    Put(s, i, s.cpus[i].(pc := BspSync, present := true))
  }

  function SetInSync(s: State, i: nat): State
    requires i < |s.cpus|
  {
    Goto(s, i, BspLock).(sh := s.sh.(allCpusInSync := true))
  }

  /** LockdownSemaphore: the old value, less one, is the number of APs. */
  function LockCounter(s: State, i: nat): State
    requires i < |s.cpus|
  {
    var apCount := if s.sh.counter == 0 then LOCKED else s.sh.counter - 1;
    Put(s, i, s.cpus[i].(pc := BspWait(1, apCount), apCount := apCount)).(sh := s.sh.(counter := LOCKED))
  }

  /** What follows the k-th WaitForAllAPs. */
  function AfterWait(k: nat, n: nat): Pc {
    if k == 3 then BspOwn else if k >= 6 then BspUnelect else BspRelease(k, n)
  }

  function WaitAps(s: State, i: nat): State
    requires i < |s.cpus| && s.cpus[i].pc.BspWait? && (s.cpus[i].pc.left > 0 ==> s.cpus[i].run > 0)
  {
    var c := s.cpus[i];
    if c.pc.left > 0 then Put(s, i, c.(pc := BspWait(c.pc.k, c.pc.left - 1), run := c.run - 1))
    else Goto(s, i, AfterWait(c.pc.k, |s.cpus|)).(hist := s.hist.(arrived := {}))
  }

  /** ReleaseAllAPs visits the indices downwards. */
  function ReleaseAps(s: State, i: nat): State
    requires i < |s.cpus| && s.cpus[i].pc.BspRelease? && s.cpus[i].pc.left <= |s.cpus|
  {
    var c := s.cpus[i];
    var k := c.pc.k;
    if c.pc.left == 0 then Goto(s, i, if k == 3 then BspWait(4, c.apCount) else BspAct(k))
    else
      var t := c.pc.left - 1;
      var s' := Goto(s, i, BspRelease(k, t));
      if t != s.sh.bspIndex && s.cpus[t].present
      then Put(s', t, s'.cpus[t].(run := Released(s'.cpus[t].run)))
      else s'
  }

  /** k == 1 backs up the BSP's MTRRs, 2 programs the SMM ones, 4 restores the OS ones,
      5 clears the BSP's Present. */
  function ActBsp(s: State, i: nat): State
    requires i < |s.cpus| && s.cpus[i].pc.BspAct?
  {
    var c := s.cpus[i];
    var k := c.pc.k;
    var s' := Put(s, i, c.(pc := BspWait(k + 1, c.apCount), present := c.present && k != 5));
    if k == 1 then Log(s', Backup(i))
    else if k == 2 then Log(s', Replace(i))
    else if k == 4 then Log(s', Restore(i))
    else s'
  }

  function OwnBusy(s: State, i: nat): State
    requires i < |s.cpus|
  {
    Put(s, i, s.cpus[i].(pc := BspCore, busy := true))
  }

  /** SmmStartupThisAp's guard: everything but EFI_INVALID_PARAMETER. */
  predicate Accepts(s: State, i: nat, target: nat, removing: bool) {
    && target < |s.cpus| && target != i
    && s.cpus[target].present && !removing && !s.cpus[target].busy
  }

  function Core(s: State, i: nat, ch: Choice): State
    requires i < |s.cpus|
  {
    if !ch.call then Goto(s, i, BspDrain(|s.cpus|, false))
    else if !Accepts(s, i, ch.target, ch.removing) then s
    else
      var t := s.cpus[ch.target];
      Goto(Put(s, ch.target, t.(busy := true, given := t.given + [ch.newJob])),
           i, BspFill(ch.target, ch.newJob, ch.blocking))
  }

  function FillJob(s: State, i: nat): State
    requires i < |s.cpus| && s.cpus[i].pc.BspFill? && s.cpus[i].pc.target < |s.cpus|
  {
    var pc := s.cpus[i].pc;
    Goto(Put(s, pc.target, s.cpus[pc.target].(job := pc.newJob)), i, BspPost(pc.target, pc.blocking))
  }

  function PostJob(s: State, i: nat): State
    requires i < |s.cpus| && s.cpus[i].pc.BspPost? && s.cpus[i].pc.target < |s.cpus|
  {
    var pc := s.cpus[i].pc;
    var t := s.cpus[pc.target];
    Goto(Put(s, pc.target, t.(run := Released(t.run))), i, if pc.blocking then BspBlock(pc.target) else BspCore)
  }

  /** AcquireSpinLock on the target's Busy, then ReleaseSpinLock. */
  function BlockOn(s: State, i: nat): State
    requires i < |s.cpus| && s.cpus[i].pc.BspBlock? && s.cpus[i].pc.target < |s.cpus|
  {
    var t := s.cpus[i].pc.target;
    Goto(Put(s, t, s.cpus[t].(busy := true)), i, BspUnblock(t))
  }

  function Unblock(s: State, i: nat): State
    requires i < |s.cpus| && s.cpus[i].pc.BspUnblock? && s.cpus[i].pc.target < |s.cpus|
  {
    var t := s.cpus[i].pc.target;
    Goto(Put(s, t, s.cpus[t].(busy := false)), i, BspCore)
  }

  /** Does the drain loop wait for this index? */
  predicate Drains(s: State, i: nat, t: nat)
    requires t < |s.cpus|
  {
    t != i && s.cpus[t].present
  }

  function Drain(s: State, i: nat): State
    requires i < |s.cpus| && s.cpus[i].pc.BspDrain? && s.cpus[i].pc.left <= |s.cpus|
  {
    var pc := s.cpus[i].pc;
    if pc.left == 0 then Goto(s, i, BspLeave)
    else
      var t := pc.left - 1;
      if pc.held then Goto(Put(s, t, s.cpus[t].(busy := false)), i, BspDrain(t, false))
      else if Drains(s, i, t) then Goto(Put(s, t, s.cpus[t].(busy := true)), i, BspDrain(pc.left, true))
      else Goto(s, i, BspDrain(t, false))
  }

  function LeaveSmm(s: State, i: nat): State
    requires i < |s.cpus|
  {
    Goto(s, i, BspRelease(3, |s.cpus|)).(sh := s.sh.(insideSmm := false))
  }

  function Unelect(s: State, i: nat): State
    requires i < |s.cpus|
  {
    Goto(s, i, BspReset).(sh := s.sh.(bspIndex := if s.sh.election then -1 else s.sh.bspIndex))
  }

  /** Counter and AllCpusInSync are cleared together; the run is over. */
  function Reset(s: State, i: nat): State
    requires i < |s.cpus|
  {
    Goto(s, i, Done).(sh := s.sh.(counter := 0, allCpusInSync := false),
                      hist := History(-1, {}, {}, []))
  }

  // ----- One step -----

  /** Can processor i move with this choice?  Only waiting on a semaphore, on a lock or
      on a flag blocks it. */
  predicate Enabled(s: State, i: nat, ch: Choice) {
    && i < |s.cpus|
    && var c := s.cpus[i];
       match c.pc
       case Late => !s.sh.allCpusInSync
       case Leaving => !s.sh.allCpusInSync
       case ApTimeout => if ch.giveUp then !s.sh.insideSmm && s.sh.counter > 0 else s.sh.insideSmm
       case ApSignal(b, _) => 0 <= b < |s.cpus|
       case ApAwait(_, _) => c.run > 0
       case BspWait(_, left) => left > 0 ==> c.run > 0
       case BspRelease(_, left) => left <= |s.cpus|
       case BspFill(t, _, _) => t < |s.cpus|
       case BspPost(t, _) => t < |s.cpus|
       case BspBlock(t) => t < |s.cpus| && !s.cpus[t].busy
       case BspUnblock(t) => t < |s.cpus|
       case BspDrain(left, held) =>
         left <= |s.cpus| && (left > 0 && !held && Drains(s, i, left - 1) ==> !s.cpus[left - 1].busy)
       case _ => true
  }

  function Next(s: State, i: nat, ch: Choice): State
    requires Enabled(s, i, ch)
  {
    match s.cpus[i].pc
    case Outside => Sample(s, i, ch.valid)
    case Sampled(_) => CheckIn(s, i)
    case Late => Goto(s, i, Outside)
    case Counted(_) => InitBusy(s, i)
    case Elect => ElectBsp(s, i, ch.vote)
    case Compare => CompareIndex(s, i)
    case ApTimeout => if ch.giveUp then GiveUp(s, i) else Goto(s, i, ApFind)
    case ApFind => Goto(s, i, ApMark(s.sh.bspIndex))
    case ApMark(_) => MarkPresent(s, i)
    case ApSignal(_, _) => Signal(s, i)
    case ApAwait(_, _) => Await(s, i)
    case ApAct(_, _) => ActAp(s, i)
    case ApCheck(_) => CheckInside(s, i)
    case ApRun(_) => RunJob(s, i)
    case ApFree(_) => FreeBusy(s, i)
    case BspEnter => EnterSmm(s, i)
    case BspMark => MarkBsp(s, i)
    case BspSync => SetInSync(s, i)
    case BspLock => LockCounter(s, i)
    case BspWait(_, _) => WaitAps(s, i)
    case BspRelease(_, _) => ReleaseAps(s, i)
    case BspAct(_) => ActBsp(s, i)
    case BspOwn => OwnBusy(s, i)
    case BspCore => Core(s, i, ch)
    case BspFill(_, _, _) => FillJob(s, i)
    case BspPost(_, _) => PostJob(s, i)
    case BspBlock(_) => BlockOn(s, i)
    case BspUnblock(_) => Unblock(s, i)
    case BspDrain(_, _) => Drain(s, i)
    case BspLeave => LeaveSmm(s, i)
    case BspUnelect => Unelect(s, i)
    case BspReset => Reset(s, i)
    case Done => Goto(s, i, Leaving)
    case Leaving => Goto(s, i, Outside)
  }

  ghost predicate Step(s: State, s': State) {
    exists i: nat, ch: Choice :: Enabled(s, i, ch) && s' == Next(s, i, ch)
  }

  /** What InitializeMpSyncData leaves behind, with every processor outside SMM. */
  predicate Initial(s: State) {
    && 0 < |s.cpus| < LOCKED
    && (forall i :: 0 <= i < |s.cpus| ==>
          s.cpus[i].pc == Outside && s.cpus[i].run == 0 && !s.cpus[i].present && !s.cpus[i].busy)
    && s.sh == Shared(s.sh.election, 0, if s.sh.election then -1 else 0, false, false)
    && s.hist == History(-1, {}, {}, [])
  }

  /** Some run of n steps, with any number of SMIs in it, gets to s. */
  ghost predicate ReachableIn(s: State, n: nat)
    decreases n
  {
    if n == 0 then Initial(s) else exists p: State :: ReachableIn(p, n - 1) && Step(p, s)
  }

  ghost predicate Reachable(s: State) {
    exists n: nat :: ReachableIn(s, n)
  }
}
