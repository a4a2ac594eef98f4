/** mMPSystemData and the MP services that work on it. */
module DxeMpSystem {
  import opened DxeMpServices

  class MpSystem {
    const cpuData: array<CpuData>
    const cpuList: array<bool>      // CpuList[]: still responsible for the all-AP job
    const bsp: nat                  // BspNumber
    const loopMode: LoopMode        // ApLoopMode; ApInHltLoop unless PcdCpuApLoopMode says otherwise
    var finishCount: nat
    var startCount: nat
    var singleThread: bool
    var procedure: nat

    // History of the all-AP job.
    ghost var members: seq<bool>    // the APs it was started on
    ghost var job: nat
    ghost var single: bool
    ghost var log: seq<Event>

    ghost predicate Shape()
      reads this
    {
      cpuData.Length == cpuList.Length && bsp < cpuData.Length
    }

    /** Between its wake-up and the end of its procedure an AP is Ready or Busy. */
    ghost predicate Valid()
      reads this, cpuData, cpuList
    {
      Shape() && NoStale(cpuData[..])
    }

    /** The all-AP job is consistent with its history. */
    ghost predicate Safe()
      reads this, cpuData, cpuList
    {
      && Valid()
      && JobSafe(cpuData[..], cpuList[..], members, job, single, log)
      && !members[bsp]
    }

    /** A pending job between two polls: the APs that should be at work have been woken up, in
        single-thread mode the one whose turn it is, and none has been lost. */
    ghost predicate Pending()
      reads this, cpuData, cpuList
    {
      Held(true) && startCount == |Enum(members)|
    }

    /** A job that still speaks of fewer APs than were started: see SecondStart. */
    ghost predicate Lost()
      reads this, cpuData, cpuList
    {
      Waiting() && startCount > |Enum(members)|
    }

    /** A job between two polls. */
    ghost predicate Waiting()
      reads this, cpuData, cpuList
    {
      Held(true) || Held(false)
    }

    /** The APs that should be at work are awake; or, in single-thread mode, the one whose turn
        it is has never been woken up, and everybody waits for ever. */
    ghost predicate Held(awake: bool)
      reads this, cpuData, cpuList
    {
      Polling() && Stance(cpuData[..], cpuList[..], single, awake)
    }

    /** A job whose processors have all been made Ready, as a poll finds it on its way. */
    ghost predicate Polling()
      reads this, cpuData, cpuList
    {
      && Safe()
      && singleThread == single && procedure == job
      && finishCount + |Enum(cpuList[..])| == |Enum(members)| <= startCount
      && NoneIdle(cpuData[..], cpuList[..])
    }

    /** No AP has anything to do. */
    constructor (n: nat, bsp': nat, mode: LoopMode)
      requires bsp' < n
      ensures Pending() && finishCount == startCount == 0 && bsp == bsp' && cpuData.Length == n && loopMode == mode
      ensures fresh(cpuData) && fresh(cpuList)
      ensures forall i :: 0 <= i < n ==> cpuData[i].state == Idle && !cpuList[i]
    {
      cpuData := new CpuData[n](_ => CpuData(Idle, NO_PROCEDURE, false));
      cpuList := new bool[n](_ => false);
      bsp, loopMode, finishCount, startCount, singleThread, procedure := bsp', mode, 0, 0, false, NO_PROCEDURE;
      job, single, log := NO_PROCEDURE, false, [];
      new;
      members := cpuList[..];
      NoJob(cpuData[..], cpuList[..], job, single);
    }

    // ----- The APs -----

    /** The APs take these turns; one that has nothing to do lets its turn pass. */
    method Interleave(steps: seq<nat>)
      requires Safe()
      modifies cpuData, this`log
      ensures Safe() && cpuData[bsp] == old(cpuData[bsp])
      ensures EvolvesAll(old(cpuData[..]), cpuData[..])
      ensures steps == [] ==> cpuData[..] == old(cpuData[..])
    {
      ghost var fz := cpuData[..];
      fz := RunAps(steps, 0, fz, cpuList[..]);
      TakenEvolves(old(cpuData[..]), fz, bsp, steps, cpuList[..]);
      assert cpuData[..] == fz;
    }

    /** The same while a job is being aborted, or with p == 0 at any time.  left are the APs
        of the job; those below p have been reset, and fz holds every AP as it is, or was
        when it was reset. */
    method RunAps(steps: seq<nat>, ghost p: nat, ghost fz: seq<CpuData>, ghost left: seq<bool>)
        returns (ghost fz': seq<CpuData>)
      requires Shape() && Aborting(fz, left, p)
      modifies cpuData, this`log
      ensures Aborting(fz', left, p) && Taken(fz, fz', bsp, steps, left, p)
    {
      fz' := fz;
      var k := 0;
      while k < |steps|
        invariant k <= |steps| && Aborting(fz', left, p) && Taken(fz, fz', bsp, steps[..k], left, p)
      {
        var i := steps[k];
        ghost var before := fz';
        if i < cpuData.Length && i != bsp && CanStep(cpuData[i]) { fz' := Step(i, p, fz', left); }
        TakenNext(fz, before, fz', bsp, steps, k, left, p);
        k := k + 1;
      }
      assert steps[..k] == steps;
    }

    /** One step of AP i: ApProcWrapper sets Busy and calls the procedure, or clears it and
        sets Finished. */
    method Step(i: nat, ghost p: nat, ghost fz: seq<CpuData>, ghost left: seq<bool>) returns (ghost fz': seq<CpuData>)
      requires Shape() && Aborting(fz, left, p) && i < cpuData.Length && i != bsp && CanStep(cpuData[i])
      modifies cpuData, this`log
      ensures Aborting(fz', left, p) && !(i < p && left[i]) && CanStep(fz[i]) && fz' == fz[i := ApStep(fz[i])]
    {
      assert cpuData[..][i] == cpuData[i];
      fz' := fz[i := ApStep(fz[i])];
      if left[i] {
        StepKeepsJob(fz, left, members, job, single, log, i);
        log := log + [StepEvent(i, fz[i])];
      } else {
        OtherStepKeepsJob(fz, left, members, job, single, log, i, ApStep(fz[i]));
      }
      cpuData[i] := ApStep(cpuData[i]);
    }

    /** The job is consistent with its history, where every AP counts as it is in fz. */
    ghost predicate Aborting(fz: seq<CpuData>, left: seq<bool>, p: nat)
      reads this, cpuData
    {
      && |fz| == |left| == cpuData.Length && bsp < |fz|
      && JobSafe(fz, left, members, job, single, log) && !members[bsp]
      && Frozen(fz, cpuData[..], left, loopMode, p) && NoStale(fz)
    }

    // ----- StartupAllAPs -----

    /** Every enabled AP must be idle; the responsible ones are marked on the way, so a
        rejected call has already rewritten the beginning of CpuList.  Meanwhile the APs go on
        with the job whose list was left. */
    method MarkIdleAps(sched: Schedule, ghost left: seq<bool>) returns (ready: bool)
      requires Shape() && Aborting(cpuData[..], left, 0)
      modifies cpuData, cpuList, this`log
      ensures Aborting(cpuData[..], left, 0)
      ensures EvolvesAll(old(cpuData[..]), cpuData[..]) && cpuData[bsp] == old(cpuData[bsp])
      ensures ready <==> FirstBusy(old(cpuData[..]), bsp, 0) == cpuData.Length
      ensures !ready ==> cpuList[..] == RejectedList(old(cpuList[..]), old(cpuData[..]), bsp)
      ensures ready ==> forall i :: 0 <= i < cpuList.Length ==>
                cpuList[i] == (i != bsp && old(cpuData[i]).state != Disabled)
    {
      ghost var data0, list0 := cpuData[..], cpuList[..];
      var q: nat := 0;
      while q < cpuData.Length
        invariant Aborting(cpuData[..], left, 0) && cpuData[bsp] == old(cpuData[bsp]) && q <= cpuData.Length
        invariant EvolvesAll(data0, cpuData[..]) && FirstBusy(data0, bsp, 0) == FirstBusy(data0, bsp, q)
        invariant forall i :: 0 <= i < q ==> cpuList[i] == (i != bsp && data0[i].state != Disabled)
        invariant forall i :: q <= i < cpuList.Length ==> cpuList[i] == list0[i]
      {
        ready := MarkOne(q, sched(q), data0, left);
        if !ready { return; }
        q := q + 1;
      }
      ready := true;
    }

    /** AP q is marked if it is enabled and idle; ready is false if it is enabled and not idle. */
    method MarkOne(q: nat, steps: seq<nat>, ghost data0: seq<CpuData>, ghost left: seq<bool>) returns (ready: bool)
      requires Shape() && Aborting(cpuData[..], left, 0) && EvolvesAll(data0, cpuData[..]) && q < cpuData.Length
      modifies cpuData, cpuList, this`log
      ensures Aborting(cpuData[..], left, 0) && EvolvesAll(data0, cpuData[..]) && cpuData[bsp] == old(cpuData[bsp])
      ensures ready <==> q == bsp || data0[q].state == Disabled || data0[q].state == Idle
      ensures cpuList[..] == old(cpuList[..])[q := ready && q != bsp && data0[q].state != Disabled]
    {
      RunOn(steps, data0, left);
      KindStays(data0, cpuData[..], q);
      cpuList[q] := false;
      if q != bsp && cpuData[q].state != Disabled {
        if cpuData[q].state != Idle { return false; }
        cpuList[q] := true;
      }
      ready := true;
    }

    /** The APs go on with a job whose list was left. */
    method RunOn(steps: seq<nat>, ghost data0: seq<CpuData>, ghost left: seq<bool>)
      requires Shape() && Aborting(cpuData[..], left, 0) && EvolvesAll(data0, cpuData[..])
      modifies cpuData, this`log
      ensures Aborting(cpuData[..], left, 0) && EvolvesAll(data0, cpuData[..]) && cpuData[bsp] == old(cpuData[bsp])
    {
      ghost var d := cpuData[..];
      ghost var fz := RunAps(steps, 0, d, left);
      assert cpuData[..] == fz;
      TakenEvolves(d, fz, bsp, steps, left);
      EvolvesFrom(data0, d, fz);
    }

    /** Set AP p Ready; it has not been woken up yet. */
    method SetReady(p: nat)
      requires Safe() && p < cpuData.Length && cpuList[p] && cpuData[p].state == Idle
      modifies cpuData
      ensures Safe() && cpuData[..] == old(cpuData[..])[p := old(cpuData[p]).(state := Ready)]
    {
      ghost var before := cpuData[..];
      cpuData[p] := cpuData[p].(state := Ready);
      assert cpuData[..] == before[p := before[p].(state := Ready)];
      ReadyKeepsJob(before, cpuList[..], members, job, single, log, p, before[p].(state := Ready));
    }

    /** WakeUpAp for the all-AP job. */
    method WakeUp(p: nat, proc: nat)
      requires Safe() && p < cpuData.Length && cpuList[p] && cpuData[p].state == Ready && proc == job
      requires single ==> p == First(cpuList[..])
      modifies cpuData
      ensures Safe() && cpuData[..] == old(cpuData[..])[p := CpuData(Ready, proc, true)]
    {
      ghost var before := cpuData[..];
      cpuData[p] := CpuData(Ready, proc, true);
      assert cpuData[..] == before[p := CpuData(Ready, proc, true)];
      ReadyKeepsJob(before, cpuList[..], members, job, single, log, p, CpuData(Ready, proc, true));
    }

    /** One round of the start loop. */
    method StartOne(p: nat, proc: nat, wake: bool, sched: Schedule)
      requires proc == job && Safe() && p < cpuData.Length && cpuList[p]
      requires Started(cpuData[..], cpuList[..], job, single, p) && IdleFrom(cpuData[..], cpuList[..], p)
      requires if single then wake <==> p == First(cpuList[..]) else wake
      modifies cpuData, this`log
      ensures Safe()
      ensures Started(cpuData[..], cpuList[..], job, single, p + 1) && IdleFrom(cpuData[..], cpuList[..], p + 1)
    {
      ghost var d0, list := cpuData[..], cpuList[..];
      SetReady(p);
      ghost var d1 := cpuData[..];
      Interleave(sched(cpuData.Length + 2 * p));
      ghost var d2 := cpuData[..];
      ReadyRound(d0, d1, d2, list, job, single, p);
      if wake {
        WakeUp(p, proc);
        ghost var d3 := cpuData[..];
        Interleave(sched(cpuData.Length + 2 * p + 1));
        WakeRound(d2, d3, cpuData[..], list, job, single, p);
      }
    }

    /** The start loop has come to AP p. */
    ghost predicate Starting(p: nat, blocking: bool)
      reads this, cpuData, cpuList
    {
      && Safe() && members == cpuList[..] && p <= |members|
      && Started(cpuData[..], members, job, single, p) && IdleFrom(cpuData[..], members, p)
      && startCount == |EnumUpTo(members, p)| && (blocking <==> single && First(members) < p)
    }

    lemma StartBegins()
      requires Safe() && members == cpuList[..] && IdleFrom(cpuData[..], cpuList[..], 0) && startCount == 0
      ensures Starting(0, false)
    {}

    lemma StartEnds(blocking: bool)
      requires Starting(cpuData.Length, blocking)
      ensures Safe() && Started(cpuData[..], cpuList[..], job, single, cpuData.Length) && startCount == |Enum(members)|
    {}

    /** One turn of the start loop. */
    method VisitOne(p: nat, proc: nat, singleThread': bool, blocking: bool, sched: Schedule) returns (blocking': bool)
      requires proc == job && singleThread' == single && p < cpuData.Length && Starting(p, blocking)
      modifies cpuData, this`log, this`startCount
      ensures Starting(p + 1, blocking')
    {
      blocking' := blocking;
      if cpuList[p] {
        startCount := startCount + 1;
        StartOne(p, proc, !blocking, sched);
        if singleThread' { blocking' := true; }
      } else {
        SkipRound(cpuData[..], members, job, single, p);
      }
    }

    /** The start loop: in single-thread mode only the first AP is woken up. */
    method StartMarked(proc: nat, singleThread': bool, sched: Schedule)
      requires proc == job && singleThread' == single && Safe()
      requires members == cpuList[..] && IdleFrom(cpuData[..], cpuList[..], 0)
      modifies cpuData, this`log, this`startCount
      ensures Safe() && Started(cpuData[..], cpuList[..], job, single, cpuData.Length) && startCount == |Enum(members)|
    {
      startCount := 0;
      var blocking := false;
      var p: nat := 0;
      StartBegins();
      while p < cpuData.Length
        invariant p <= cpuData.Length && Starting(p, blocking)
      {
        blocking := VisitOne(p, proc, singleThread', blocking, sched);
        p := p + 1;
      }
      StartEnds(blocking);
    }

    /** All responsible APs are marked and idle: start the job on them. */
    method Launch(proc: nat, singleThread': bool, sched: Schedule)
      requires Valid() && !cpuList[bsp] && IdleFrom(cpuData[..], cpuList[..], 0)
      modifies this, cpuData
      ensures Pending() && finishCount == 0 && single == singleThread' && job == proc
      ensures members == cpuList[..] && Started(cpuData[..], cpuList[..], job, single, cpuData.Length)
    {
      finishCount := 0;
      members, job, single, log := cpuList[..], proc, singleThread', [];
      FreshJob(cpuData[..], cpuList[..], proc, single);
      StartMarked(proc, singleThread', sched);
      singleThread, procedure := singleThread', proc;
      StartedNotIdle(cpuData[..], cpuList[..], job, single);
    }

    /** The history of the pending job goes on, if there is one to speak of. */
    ghost method OpenLog() returns (left: seq<bool>)
      requires Valid()
      modifies this`members, this`log
      ensures Aborting(cpuData[..], left, 0)
      ensures old(Safe()) ==> left == cpuList[..] && members == old(members) && log == old(log)
    {
      if Safe() { return cpuList[..]; }
      left := seq(cpuList.Length, _ => false);
      members, log := left, [];
      NoJob(cpuData[..], left, job, single);
    }

    /** StartupAllAPs in non-blocking mode; blocking mode then polls CheckAllAPs until it
        answers something other than NotReady.  A call is rejected iff some enabled AP is not
        Idle when it is made; then the APs go on with the job that was pending. */
    method StartupAllAPs(proc: nat, singleThread': bool, sched: Schedule) returns (status: Status)
      requires Valid()
      modifies this, cpuData, cpuList
      ensures Valid() && status in {Success, NotStarted, NotReady, InvalidParameter}
      ensures status == InvalidParameter <==> proc == NO_PROCEDURE
      ensures status == InvalidParameter ==> cpuList[..] == old(cpuList[..]) && cpuData[..] == old(cpuData[..])
      ensures status == NotReady <==> proc != NO_PROCEDURE && FirstBusy(old(cpuData[..]), bsp, 0) < cpuData.Length
      ensures status == NotReady ==> cpuList[..] == RejectedList(old(cpuList[..]), old(cpuData[..]), bsp)
      ensures status == NotReady ==> finishCount == old(finishCount) && startCount == old(startCount)
      ensures status == NotReady && old(Safe()) ==>
                && JobSafe(cpuData[..], old(cpuList[..]), members, job, single, log) && members == old(members)
                && job == old(job) && single == old(single) && singleThread == old(singleThread)
                && procedure == old(procedure) && EvolvesAll(old(cpuData[..]), cpuData[..])
      ensures status in {Success, NotStarted} ==>
                && Pending() && finishCount == 0 && single == singleThread' && job == proc && cpuList[..] == members
                && Started(cpuData[..], cpuList[..], job, single, cpuData.Length)
                && (status == NotStarted <==> startCount == 0 && cpuData.Length != 1)
      ensures status in {Success, NotStarted} ==> forall i :: 0 <= i < cpuData.Length ==>
                && cpuList[i] == (i != bsp && old(cpuData[i]).state != Disabled)
                && (cpuList[i] ==> old(cpuData[i]).state == Idle)
    {
      if proc == NO_PROCEDURE { return InvalidParameter; }
      ghost var data0 := cpuData[..];
      ghost var left := OpenLog();
      var ready := MarkIdleAps(sched, left);
      if !ready { return NotReady; }
      AllIdle(data0, cpuData[..], cpuList[..], bsp);
      Launch(proc, singleThread', sched);
      if startCount == 0 {
        if cpuData.Length == 1 { return Success; }
        return NotStarted;
      }
      return Success;
    }

    // ----- CheckAllAPs -----

    /** The APs move on while a job is polled. */
    method RunPolling(steps: seq<nat>)
      requires Polling()
      modifies cpuData, this`log
      ensures steps == [] ==> cpuData[..] == old(cpuData[..])
      ensures Polling() && EvolvesAll(old(cpuData[..]), cpuData[..]) && IdleStays(old(cpuData[..]), cpuData[..])
    {
      ghost var before := cpuData[..];
      Interleave(steps);
      EvolvesNotIdle(before, cpuData[..], cpuList[..]);
      EvolvesIdle(before, cpuData[..]);
    }

    /** The APs move on between two polls. */
    method RunPending(steps: seq<nat>, ghost awake: bool)
      requires Held(awake)
      modifies cpuData, this`log
      ensures steps == [] ==> cpuData[..] == old(cpuData[..])
      ensures Held(awake) && EvolvesAll(old(cpuData[..]), cpuData[..]) && IdleStays(old(cpuData[..]), cpuData[..])
    {
      ghost var before := cpuData[..];
      RunPolling(steps);
      EvolvesStance(before, cpuData[..], cpuList[..], single, awake);
    }

    /** Visit AP p: if it has finished, take it off the list, make it Idle and, in
        single-thread mode, wake up the next one. */
    method PollOne(p: nat, sched: Schedule, ghost awake: bool)
      requires Held(awake) && p < cpuData.Length && cpuList[p]
      modifies cpuData, cpuList, this`log, this`finishCount
      ensures Held(awake)
      ensures cpuList[..] == if old(cpuData[p]).state == Finished then old(cpuList[..])[p := false]
                             else old(cpuList[..])
      ensures IdleStays(old(cpuData[..]), cpuData[..]) && (cpuList[p] || cpuData[p].state == Idle)
      ensures FinishedStays(old(cpuData[..]), cpuData[..], p)
      ensures old(cpuData[p]).state != Finished ==> cpuData[..] == old(cpuData[..])
    {
      if cpuData[p].state == Finished {
        SomebodyIsAwake(p, awake);
        Retire(p, sched);
      }
    }

    /** A finished AP. */
    method Retire(p: nat, sched: Schedule)
      requires Held(true) && p < cpuData.Length && cpuList[p] && cpuData[p].state == Finished
      modifies cpuData, cpuList, this`log, this`finishCount
      ensures Held(true) && cpuList[..] == old(cpuList[..])[p := false]
      ensures IdleStays(old(cpuData[..]), cpuData[..]) && cpuData[p].state == Idle
      ensures FinishedStays(old(cpuData[..]), cpuData[..], p)
    {
      ghost var start := cpuData[..];
      TakeOff(p);
      ghost var before := cpuData[..];
      PassOn(p, sched);
      FinishedStaysOn(start, before, cpuData[..], p);
      IdleStaysOn(start, before, cpuData[..]);
    }

    /** Nobody finishes while everybody waits for ever. */
    lemma SomebodyIsAwake(p: nat, awake: bool)
      requires Held(awake) && p < cpuData.Length && cpuList[p] && cpuData[p].state == Finished
      ensures awake
    {
      if !awake { OthersWait(cpuData[..], cpuList[..], members, job, multiset(log)); }
    }

    /** A finished AP leaves the list and becomes Idle. */
    method TakeOff(p: nat)
      requires Held(true) && p < cpuData.Length && cpuList[p] && cpuData[p].state == Finished
      modifies cpuData, cpuList, this`finishCount
      ensures Polling() && cpuList[..] == old(cpuList[..])[p := false]
      ensures cpuData[..] == old(cpuData[..])[p := old(cpuData[p]).(state := Idle)]
      ensures if single then NextUnsignalled(cpuData[..], cpuList[..]) else AllWoken(cpuData[..], cpuList[..], false)
    {
      Strike(p);
      MakeIdle(p);
    }

    /** In single-thread mode the next AP is woken up. */
    method PassOn(p: nat, sched: Schedule)
      requires Polling() && p < cpuData.Length && cpuData[p].state == Idle && !cpuList[p]
      requires if single then NextUnsignalled(cpuData[..], cpuList[..]) else AllWoken(cpuData[..], cpuList[..], false)
      modifies cpuData, this`log
      ensures Held(true) && IdleStays(old(cpuData[..]), cpuData[..]) && KeepsFinished(old(cpuData[..]), cpuData[..])
    {
      ghost var d0 := cpuData[..];
      RunPolling(sched(3 * p + 1));
      ghost var d1 := cpuData[..];
      EvolvesFinished(d0, d1);
      if singleThread {
        EvolvesKeepsNext(d0, d1, cpuList[..], p);
        WakeNext(p, sched(3 * p + 2));
        IdleStaysOn(d0, d1, cpuData[..]);
        FinishedFollows(d0, d1, cpuData[..]);
      } else {
        EvolvesWoken(d0, d1, cpuList[..], false);
      }
    }

    /** A finished AP leaves the list. */
    method Strike(p: nat)
      requires Held(true) && p < cpuData.Length && cpuList[p] && cpuData[p].state == Finished
      modifies cpuList, this`finishCount
      ensures Polling() && cpuList[..] == old(cpuList[..])[p := false]
      ensures if single then NextUnsignalled(cpuData[..], cpuList[..]) else AllWoken(cpuData[..], cpuList[..], false)
    {
      ghost var data, list := cpuData[..], cpuList[..];
      finishCount := finishCount + 1;
      StrikeKeepsJob(data, list, members, job, single, log, p);
      if single { StrikeLeavesNext(data, list, members, job, multiset(log), p); }
      EnumStrike(list, p, |list|);
      NotIdleShrinks(data, list, p);
      cpuList[p] := false;
      assert cpuList[..] == list[p := false];
    }

    /** GetNextWaitingProcessorNumber and WakeUpAp, if an AP is still waiting. */
    method WakeNext(p: nat, steps: seq<nat>)
      requires Polling() && single && NextUnsignalled(cpuData[..], cpuList[..])
      requires p < cpuData.Length && cpuData[p].state == Idle && !cpuList[p]
      modifies cpuData, this`log
      ensures Held(true) && IdleStays(old(cpuData[..]), cpuData[..]) && KeepsFinished(old(cpuData[..]), cpuData[..])
    {
      var next := First(cpuList[..]);
      if next < cpuList.Length {
        ghost var start := cpuData[..];
        WakePending(next);
        RunPending(steps, true);
        WokenEvolves(start, cpuData[..], next, CpuData(Ready, procedure, true));
      } else {
        NobodyWaits(cpuData[..], cpuList[..]);
      }
    }

    method WakePending(next: nat)
      requires Polling() && single && next == First(cpuList[..]) < cpuData.Length && cpuData[next].state == Ready
      modifies cpuData
      ensures Held(true) && cpuData[..] == old(cpuData[..])[next := CpuData(Ready, procedure, true)]
    {
      WakeUp(next, procedure);
    }

    /** The BSP sets an AP that has left the list Idle. */
    method MakeIdle(p: nat)
      requires Polling() && p < cpuData.Length && !cpuList[p] && cpuData[p].state == Finished
      modifies cpuData
      ensures Polling() && cpuData[..] == old(cpuData[..])[p := old(cpuData[p]).(state := Idle)]
    {
      ghost var before := cpuData[..];
      assert !before[p].signal;
      OtherStepKeepsJob(before, cpuList[..], members, job, single, log, p, before[p].(state := Idle));
      cpuData[p] := cpuData[p].(state := Idle);
      assert cpuData[..] == before[p := before[p].(state := Idle)];
    }

    /** The poll loop has come to AP p. */
    ghost predicate Polled(p: nat, sched: Schedule, start: seq<CpuData>, list0: seq<bool>, awake: bool)
      reads this, cpuData, cpuList
    {
      && Held(awake) && OnlyIdleLeave(list0, cpuList[..], cpuData[..]) && Gone(start, cpuData[..], cpuList[..], p)
      && (Quiet(sched, 3 * cpuData.Length) && NobodyFinished(start, list0) ==>
            cpuData[..] == start && cpuList[..] == list0)
    }

    /** One turn of the poll loop. */
    method PollStep(p: nat, sched: Schedule, ghost start: seq<CpuData>, ghost list0: seq<bool>, ghost awake: bool)
      requires p < cpuData.Length && Polled(p, sched, start, list0, awake)
      modifies cpuData, cpuList, this`log, this`finishCount
      ensures Polled(p + 1, sched, start, list0, awake)
    {
      ghost var d0, list := cpuData[..], cpuList[..];
      RunPending(sched(3 * p), awake);
      ghost var d1 := cpuData[..];
      GoneOn(start, d0, d1, list, p);
      LeaversStayIdle(list0, list, d0, d1);
      if cpuList[p] {
        PollOne(p, sched, awake);
        PollRound(list0, start, d1, list, cpuData[..], cpuList[..], p);
      } else {
        GoneBelow(start, d1, list, p);
      }
    }

    /** The loop of CheckAllAPs over the responsible APs: whoever has finished before it, leaves
        the list.  If the others do not run and nobody has finished, nothing happens. */
    method Poll(sched: Schedule, ghost awake: bool)
      requires Held(awake)
      modifies cpuData, cpuList, this`log, this`finishCount
      ensures Held(awake) && OnlyIdleLeave(old(cpuList[..]), cpuList[..], cpuData[..])
      ensures FinishedLeave(old(cpuData[..]), cpuList[..])
      ensures Quiet(sched, 3 * cpuData.Length) && NobodyFinished(old(cpuData[..]), old(cpuList[..])) ==>
                cpuData[..] == old(cpuData[..]) && cpuList[..] == old(cpuList[..])
    {
      ghost var start, list0 := cpuData[..], cpuList[..];
      var p: nat := 0;
      while p < cpuData.Length
        invariant p <= cpuData.Length && Polled(p, sched, start, list0, awake)
      {
        PollStep(p, sched, start, list0, awake);
        p := p + 1;
      }
      AllGone(start, cpuData[..], cpuList[..]);
    }

    /** One round of the timeout path: ResetProcessorToIdleState, off the list, reported. */
    method GiveUpOn(p: nat, k: nat, failed: array?<nat>, ghost fz: seq<CpuData>, ghost left: seq<bool>)
        returns (k': nat)
      requires Shape() && Aborting(fz, left, p) && p < cpuData.Length && ListFrom(left, cpuList[..], p)
      requires Reported(failed, left, k, p)
      modifies cpuData, cpuList, if failed == null then {} else {failed}
      ensures Aborting(fz, left, p + 1) && ListFrom(left, cpuList[..], p + 1) && Reported(failed, left, k', p + 1)
    {
      EnumGrows(left, p + 1);
      k' := k;
      assert cpuList[..][p] == left[p] && cpuData[..][p] == fz[p];
      if cpuList[p] {
        cpuData[p] := ResetOf(loopMode, cpuData[p]);
        cpuList[p] := false;
        if failed != null {
          failed[k] := p;
          k' := k + 1;
        }
      }
    }

    /** The abort loop has come to AP p: of left, the APs the loop found, those below p have been
        reset and reported. */
    ghost predicate GivenUp(p: nat, k: nat, failed: array?<nat>, sched: Schedule,
                            start: seq<CpuData>, fz: seq<CpuData>, left: seq<bool>)
      reads this, cpuData, cpuList, if failed == null then {} else {failed}
    {
      && Shape() && Aborting(fz, left, p) && ListFrom(left, cpuList[..], p)
      && TakenBy(start, fz, bsp, sched, 3 * cpuData.Length, left, p) && Reported(failed, left, k, p)
    }

    /** The APs run on, and AP p is given up. */
    method AbortOne(p: nat, k: nat, failed: array?<nat>, sched: Schedule, ghost start: seq<CpuData>,
                    ghost fz: seq<CpuData>, ghost left: seq<bool>)
        returns (ghost fz': seq<CpuData>, k': nat)
      requires p < cpuData.Length && GivenUp(p, k, failed, sched, start, fz, left)
      modifies cpuData, cpuList, this`log, if failed == null then {} else {failed}
      ensures GivenUp(p + 1, k', failed, sched, start, fz', left)
    {
      fz' := RunAps(sched(3 * cpuData.Length + p), p, fz, left);
      TakenByNext(start, fz, fz', bsp, sched, 3 * cpuData.Length, left, p);
      k' := GiveUpOn(p, k, failed, fz', left);
    }

    /** The loop of the timeout path. */
    method GiveUpAll(failed: array?<nat>, sched: Schedule, ghost left: seq<bool>)
        returns (k: nat, ghost fz: seq<CpuData>)
      requires Shape() && Aborting(cpuData[..], left, 0) && left == cpuList[..] && Reported(failed, left, 0, 0)
      modifies cpuData, cpuList, this`log, if failed == null then {} else {failed}
      ensures Aborting(fz, left, cpuData.Length) && NoneListed(cpuList[..])
      ensures TakenBy(old(cpuData[..]), fz, bsp, sched, 3 * cpuData.Length, left, cpuData.Length)
      ensures Reported(failed, left, k, cpuData.Length)
    {
      ghost var start := cpuData[..];
      fz, k := start, 0;
      var p: nat := 0;
      while p < cpuData.Length
        invariant p <= cpuData.Length && GivenUp(p, k, failed, sched, start, fz, left)
      {
        fz, k := AbortOne(p, k, failed, sched, start, fz, left);
        p := p + 1;
      }
    }

    /** The timeout path: every AP still on the list is reset and, if asked for, reported.  fz
        holds every listed AP as it was when it was reset, the others as they are. */
    method Abort(wantList: bool, sched: Schedule) returns (failed: array?<nat>, ghost fz: seq<CpuData>)
      requires Polling()
      modifies cpuData, cpuList, this`log
      ensures Aborting(fz, old(cpuList[..]), cpuData.Length) && NoneListed(cpuList[..])
      ensures TakenBy(old(cpuData[..]), fz, bsp, sched, 3 * cpuData.Length, old(cpuList[..]), cpuData.Length)
      ensures if wantList then FailedList(failed, old(cpuList[..]), startCount - finishCount) else failed == null
    {
      ghost var left := cpuList[..];
      failed := null;
      if wantList { failed := new nat[startCount - finishCount + 1]; }
      var k: nat;
      k, fz := GiveUpAll(failed, sched, left);
      if wantList { failed[k] := END_OF_CPU_LIST; }
    }

    /** Nobody is responsible for anything any more. */
    ghost method ForgetJob()
      requires Shape() && NoneListed(cpuList[..])
      modifies this`members, this`log
      ensures (Safe() <==> NoStale(cpuData[..])) && Enum(members) == []
    {
      members, log := cpuList[..], [];
      NoJob(cpuData[..], cpuList[..], job, single);
    }

    /** AP e has left the list of a job without having finished: the history forgets it, too. */
    ghost method ForgetAp(data0: seq<CpuData>, list0: seq<bool>, e: nat)
      requires Valid() && JobSafe(cpuData[..], list0, members, job, single, log) && !members[bsp]
      requires e < |list0| && list0[e] && e == First(list0) && cpuList[..] == list0[e := false]
      requires EvolvesAll(data0, cpuData[..]) && NoneIdle(data0, list0) && AllWoken(data0, list0, single)
      requires singleThread == single && procedure == job
      requires finishCount + |Enum(list0)| == startCount == |Enum(members)|
      modifies this`members, this`log
      ensures Held(!single) && finishCount + |Enum(cpuList[..])| + 1 == startCount == |Enum(members)| + 1
    {
      ListedNotBsp(list0, members, bsp, cpuData[..], job, single, log, e);
      ForgetOne(data0, cpuData[..], list0, members, job, single, log, e);
      members, log := members[e := false], Forgotten(members, job, single, log, e);
    }

    /** The job is given up.  atReset holds the listed APs as they were when they were reset, and
        history is the log until then. */
    method TimeOut(wantList: bool, sched: Schedule)
        returns (failed: array?<nat>, ghost atReset: seq<CpuData>, ghost history: seq<Event>)
      requires Polling()
      modifies this`members, this`log, cpuData, cpuList
      ensures Shape() && NoneListed(cpuList[..]) && IdleStays(old(cpuData[..]), cpuData[..])
      ensures if wantList then FailedList(failed, old(cpuList[..]), startCount - finishCount) else failed == null
      ensures Told(old(members), old(cpuList[..]), atReset, job, single, multiset(history))
      ensures WereReset(old(cpuList[..]), atReset, cpuData[..], loopMode)
      ensures Safe() <==> loopMode == HaltLoop || NoneWoken(old(cpuList[..]), atReset)
      ensures TakenBy(old(cpuData[..]), atReset, bsp, sched, 3 * cpuData.Length, old(cpuList[..]), cpuData.Length)
    {
      ghost var start, left := cpuData[..], cpuList[..];
      failed, atReset := Abort(wantList, sched);
      history := log;
      TellAll(atReset, left, members, job, single, log);
      StaleIff(atReset, cpuData[..], left, loopMode);
      IdleAfterAll(start, atReset, cpuData[..], bsp, sched, 3 * cpuData.Length, left, loopMode);
      ForgetJob();
    }

    /** What CheckAllAPs answers after the poll. */
    method Conclude(expired: bool, wantList: bool, sched: Schedule, ghost awake: bool)
        returns (status: Status, failed: array?<nat>, ghost atReset: seq<CpuData>, ghost history: seq<Event>)
      requires Held(awake)
      modifies this`members, this`log, cpuData, cpuList
      ensures Shape() && status in {Success, TimedOut, NotReady} && |atReset| == cpuList.Length
      ensures IdleStays(old(cpuData[..]), cpuData[..])
      ensures finishCount + |Enum(old(cpuList[..]))| == |Enum(old(members))|
      ensures status == Success <==> Enum(old(cpuList[..])) == [] && startCount == |Enum(old(members))|
      ensures status == TimedOut <==> status != Success && expired
      ensures status == NotReady ==> Held(awake) && cpuList[..] == old(cpuList[..]) && members == old(members)
      ensures status == Success ==> Safe() && Succeeded(old(members), job, single, history)
      ensures status != NotReady ==> NoneListed(cpuList[..])
      ensures status == TimedOut && wantList ==> FailedList(failed, old(cpuList[..]), startCount - finishCount)
      ensures status != TimedOut || !wantList ==> failed == null
      ensures status == TimedOut ==>
                && Told(old(members), old(cpuList[..]), atReset, job, single, multiset(history))
                && WereReset(old(cpuList[..]), atReset, cpuData[..], loopMode)
                && (Safe() <==> loopMode == HaltLoop || NoneWoken(old(cpuList[..]), atReset))
                && TakenBy(old(cpuData[..]), atReset, bsp, sched, 3 * cpuData.Length, old(cpuList[..]), cpuData.Length)
    {
      failed := null;
      history, atReset := log, cpuData[..];
      if finishCount == startCount {
        AllStruck(cpuList[..]);
        JobDone(cpuData[..], cpuList[..], members, job, single, log);
        status := Success;
      } else if expired {
        failed, atReset, history := TimeOut(wantList, sched);
        status := TimedOut;
      } else {
        status := NotReady;
      }
    }

    /** CheckAllAPs: poll once, then succeed, time out or answer NotReady.  left is the list
        after the poll: the APs that had not finished when they were visited.  atReset holds
        them as they were when they were reset, and history is the log until then. */
    method CheckAllAPs(expired: bool, wantList: bool, sched: Schedule, ghost awake: bool)
        returns (status: Status, failed: array?<nat>, ghost left: seq<bool>, ghost atReset: seq<CpuData>,
                 ghost history: seq<Event>)
      requires Held(awake)
      modifies this`members, this`log, this`finishCount, cpuData, cpuList
      ensures Shape() && status in {Success, TimedOut, NotReady} && |left| == |atReset| == cpuList.Length
      ensures OnlyIdleLeave(old(cpuList[..]), left, cpuData[..])
      ensures FinishedLeave(old(cpuData[..]), left)
      ensures finishCount + |Enum(left)| == |Enum(old(members))|
      ensures status == Success <==> Enum(left) == [] && startCount == |Enum(old(members))|
      ensures status == TimedOut <==> status != Success && expired
      ensures status == NotReady ==> Held(awake) && cpuList[..] == left && members == old(members)
      ensures status == Success ==> Safe() && Succeeded(old(members), job, single, history)
      ensures status != NotReady ==> NoneListed(cpuList[..])
      ensures status == TimedOut && wantList ==> FailedList(failed, left, startCount - finishCount)
      ensures status != TimedOut || !wantList ==> failed == null
      ensures status == TimedOut ==>
                && Told(old(members), left, atReset, job, single, multiset(history))
                && WereReset(left, atReset, cpuData[..], loopMode)
                && (Safe() <==> loopMode == HaltLoop || NoneWoken(left, atReset))
      ensures Quiet(sched, 3 * cpuData.Length) && NobodyFinished(old(cpuData[..]), old(cpuList[..])) ==>
                && left == old(cpuList[..])
                && (status == TimedOut ==>
                      TakenBy(old(cpuData[..]), atReset, bsp, sched, 3 * cpuData.Length, left, cpuData.Length))
    {
      Poll(sched, awake);
      left := cpuList[..];
      ghost var polled := cpuData[..];
      status, failed, atReset, history := Conclude(expired, wantList, sched, awake);
      LeaversStayIdle(old(cpuList[..]), left, polled, cpuData[..]);
    }

    // ----- StartupThisAP -----

    /** StartupThisAP in non-blocking mode.  A pending all-AP job is not disturbed. */
    method StartupThisAP(p: nat, proc: nat, steps: seq<nat>) returns (status: Status)
      requires Safe() && NoneIdle(cpuData[..], cpuList[..])
      modifies cpuData, this`log
      ensures Safe() && NoneIdle(cpuData[..], cpuList[..])
      ensures (old(Held(true)) ==> Held(true)) && (old(Held(false)) ==> Held(false))
      ensures status ==
                if p >= cpuData.Length then NotFound
                else if p == bsp || proc == NO_PROCEDURE || old(cpuData[p]).state == Disabled then InvalidParameter
                else if old(cpuData[p]).state != Idle then NotReady
                else Success
      ensures status == Success ==> !cpuList[p] && Evolves(CpuData(Ready, proc, true), cpuData[p])
      ensures status != Success ==> cpuData[..] == old(cpuData[..])
    {
      if p >= cpuData.Length { return NotFound; }
      if p == bsp || proc == NO_PROCEDURE || cpuData[p].state == Disabled { return InvalidParameter; }
      if cpuData[p].state != Idle { return NotReady; }
      SetSolo(p, CpuData(Ready, proc, true));
      ghost var before := cpuData[..];
      Interleave(steps);
      EvolvesNotIdle(before, cpuData[..], cpuList[..]);
      assert Evolves(before[p], cpuData[..][p]);
      KeepStance(before, cpuData[..], cpuList[..], single);
      status := Success;
    }

    method SetSolo(p: nat, d: CpuData)
      requires Safe() && p < cpuData.Length && !cpuList[p]
      requires NoneIdle(cpuData[..], cpuList[..]) && (d.signal ==> d.state == Ready || d.state == Busy)
      modifies cpuData
      ensures Safe() && NoneIdle(cpuData[..], cpuList[..]) && cpuData[..] == old(cpuData[..])[p := d]
      ensures SameStance(old(cpuData[..]), cpuData[..], cpuList[..], single)
    {
      ghost var before := cpuData[..];
      OtherStepKeepsJob(before, cpuList[..], members, job, single, log, p, d);
      if Stance(before, cpuList[..], single, true) { StanceAside(before, cpuList[..], single, true, p, d); }
      if Stance(before, cpuList[..], single, false) { StanceAside(before, cpuList[..], single, false, p, d); }
      cpuData[p] := d;
      assert cpuData[..] == before[p := d];
    }

    /** CheckThisAP, for an AP that was started by StartupThisAP.  After a timeout everything is
        as it should be iff the AP waits in the halt loop or had not been woken up. */
    method CheckThisAP(p: nat, expired: bool) returns (status: Status)
      requires Safe() && NoneIdle(cpuData[..], cpuList[..]) && p < cpuData.Length && !cpuList[p]
      modifies cpuData
      ensures status == if old(cpuData[p]).state == Finished then Success else if expired then TimedOut else NotReady
      ensures Safe() <==> status == TimedOut ==> loopMode == HaltLoop || !old(cpuData[p]).signal
      ensures NoneIdle(cpuData[..], cpuList[..])
      ensures Safe() ==> (old(Held(true)) ==> Held(true)) && (old(Held(false)) ==> Held(false))
      ensures status != NotReady ==> cpuData[p].state == Idle
      ensures status == TimedOut ==> cpuData[p] == ResetOf(loopMode, old(cpuData[p]))
      ensures forall i :: 0 <= i < cpuData.Length && (i != p || status == NotReady) ==> cpuData[i] == old(cpuData[i])
    {
      status := NotReady;
      if cpuData[p].state == Finished {
        assert cpuData[..][p] == cpuData[p];
        SetSolo(p, cpuData[p].(state := Idle));
        status := Success;
      } else if expired {
        status := TimedOut;
        if loopMode == HaltLoop || !cpuData[p].signal {
          SetSolo(p, ResetOf(loopMode, cpuData[p]));
        } else {
          cpuData[p] := ResetOf(loopMode, cpuData[p]);
          assert cpuData[..][p] == cpuData[p] && !NoStale(cpuData[..]);
        }
      }
    }
  }

  // ----- Turns -----

  /** Every AP has taken its turns, but for those that were reset before. */
  ghost predicate Taken(a: seq<CpuData>, b: seq<CpuData>, bsp: nat, steps: seq<nat>, left: seq<bool>, p: nat)
  {
    && |a| == |b| == |left|
    && forall i: nat {:trigger b[i]} :: i < |b| ==>
         b[i] == if i == bsp || (i < p && left[i]) then a[i] else Stepped(a[i], Turns(steps, i))
  }

  lemma TakenEvolves(a: seq<CpuData>, b: seq<CpuData>, bsp: nat, steps: seq<nat>, left: seq<bool>)
    requires Taken(a, b, bsp, steps, left, 0)
    ensures EvolvesAll(a, b) && (bsp < |a| ==> b[bsp] == a[bsp]) && (steps == [] ==> b == a)
  {
    forall i: nat {:trigger b[i]} | i < |b| ensures Evolves(a[i], b[i]) { SteppedEvolves(a[i], Turns(steps, i)); }
  }

  /** One more turn: AP steps[k] has taken it, if it could. */
  lemma TakenNext(a: seq<CpuData>, b: seq<CpuData>, c: seq<CpuData>, bsp: nat, steps: seq<nat>, k: nat,
                  left: seq<bool>, p: nat)
    requires k < |steps| && Taken(a, b, bsp, steps[..k], left, p) && |c| == |b|
    requires var i := steps[k];
             if i < |b| && i != bsp && !(i < p && left[i]) && CanStep(b[i]) then c == b[i := ApStep(b[i])] else c == b
    ensures Taken(a, c, bsp, steps[..k + 1], left, p)
  {
    assert steps[..k + 1][..k] == steps[..k];
    forall i: nat {:trigger c[i]} | i < |c|
      ensures c[i] == if i == bsp || (i < p && left[i]) then a[i] else Stepped(a[i], Turns(steps[..k + 1], i))
    {
      assert b[i] == if i == bsp || (i < p && left[i]) then a[i] else Stepped(a[i], Turns(steps[..k], i));
    }
  }

  /** The APs at the p-th turn of the abort loop: each has taken the turns it got before its
      reset. */
  ghost predicate TakenBy(a: seq<CpuData>, b: seq<CpuData>, bsp: nat, sched: Schedule, base: nat, left: seq<bool>,
                          p: nat)
  {
    && |a| == |b| == |left|
    && forall i: nat {:trigger b[i]} :: i < |b| ==>
         b[i] == if i == bsp then a[i]
                 else Stepped(a[i], TurnsIn(sched, base, if i < p && left[i] then i + 1 else p, i))
  }

  lemma TakenByNext(a: seq<CpuData>, b: seq<CpuData>, c: seq<CpuData>, bsp: nat, sched: Schedule, base: nat,
                    left: seq<bool>, p: nat)
    requires TakenBy(a, b, bsp, sched, base, left, p) && Taken(b, c, bsp, sched(base + p), left, p)
    ensures TakenBy(a, c, bsp, sched, base, left, p + 1)
  {
    forall i: nat {:trigger c[i]} | i < |c|
      ensures c[i] == if i == bsp then a[i]
                      else Stepped(a[i], TurnsIn(sched, base, if i < p + 1 && left[i] then i + 1 else p + 1, i))
    {
      assert b[i] == if i == bsp then a[i]
                     else Stepped(a[i], TurnsIn(sched, base, if i < p && left[i] then i + 1 else p, i));
      if i != bsp && !(i < p && left[i]) { SteppedOn(a[i], TurnsIn(sched, base, p, i), Turns(sched(base + p), i)); }
    }
  }

  // ----- The abort -----

  /** fz holds every AP as it is, or for a listed one below p as it was before its reset. */
  ghost predicate Frozen(fz: seq<CpuData>, data: seq<CpuData>, left: seq<bool>, mode: LoopMode, p: nat) {
    && |fz| == |data| == |left|
    && forall i {:trigger data[i]} {:trigger fz[i]} :: 0 <= i < |data| ==>
         data[i] == if i < p && left[i] then ResetOf(mode, fz[i]) else fz[i]
  }

  /** The failed list, if there is one, has room for all and holds the listed APs below p. */
  ghost predicate Reported(failed: array?<nat>, left: seq<bool>, k: nat, p: nat)
    reads if failed == null then {} else {failed}
  {
    p <= |left| &&
    (failed != null ==>
       && failed.Length > |Enum(left)| && k == |EnumUpTo(left, p)| < failed.Length
       && failed[..k] == EnumUpTo(left, p))
  }

  /** The failed list, with room for count APs and the end mark: the listed APs in ascending
      order, then the end mark. */
  ghost predicate FailedList(failed: array?<nat>, left: seq<bool>, count: int)
    reads if failed == null then {} else {failed}
  {
    && failed != null && |Enum(left)| + 1 <= failed.Length == count + 1
    && failed[..|Enum(left)| + 1] == Enum(left) + [END_OF_CPU_LIST]
  }

  /** The listed APs from p on are still on the list. */
  predicate ListFrom(left: seq<bool>, list: seq<bool>, p: nat) {
    |list| == |left| && forall i {:trigger list[i]} :: 0 <= i < |list| ==> list[i] == (i >= p && left[i])
  }

  /** What a timed-out job has done.  A reported AP has begun the procedure iff it was Busy or
      Finished when it was reset, and ended it iff it was Finished; in single-thread mode only
      the least of them can have begun.  Every other AP of the job has run it once. */
  ghost predicate Told(members: seq<bool>, left: seq<bool>, atReset: seq<CpuData>, job: nat, single: bool,
                       log: multiset<Event>)
  {
    && |members| == |left| == |atReset|
    && forall i {:trigger left[i]} :: 0 <= i < |left| ==>
         ToldOf(i, members[i], left[i], atReset[i], job, single && i != First(left), log)
  }

  ghost predicate ToldOf(i: nat, member: bool, listed: bool, d: CpuData, job: nat, waits: bool, log: multiset<Event>) {
    if listed then
      && member
      && log[Begin(i, job)] == B2N(d.state == Busy || d.state == Finished)
      && log[End(i, job)] == B2N(d.state == Finished)
      && (waits ==> log[Begin(i, job)] == 0)
    else Ran(log, i, job, B2N(member))
  }

  lemma TellAll(fz: seq<CpuData>, left: seq<bool>, members: seq<bool>, job: nat, single: bool, log: seq<Event>)
    requires JobSafe(fz, left, members, job, single, log)
    ensures Told(members, left, fz, job, single, multiset(log))
  {
    forall i {:trigger left[i]} | 0 <= i < |left|
      ensures ToldOf(i, members[i], left[i], fz[i], job, single && i != First(left), multiset(log))
    {
      assert ApSafe(i, fz[i], left[i], members[i], job, single, i == First(left), multiset(log));
    }
  }

  /** No reported AP had a wake-up pending when it was reset. */
  predicate NoneWoken(left: seq<bool>, atReset: seq<CpuData>)
    requires |left| == |atReset|
  {
    forall i {:trigger atReset[i]} :: 0 <= i < |left| && left[i] ==> !atReset[i].signal
  }

  /** After the resets no wake-up is left over iff the APs wait in the halt loop or none of them
      had been woken up. */
  lemma StaleIff(fz: seq<CpuData>, data: seq<CpuData>, left: seq<bool>, mode: LoopMode)
    requires Frozen(fz, data, left, mode, |data|) && NoStale(fz)
    ensures NoStale(data) <==> mode == HaltLoop || NoneWoken(left, fz)
  {
    if mode != HaltLoop && !NoneWoken(left, fz) {
      var i :| 0 <= i < |left| && left[i] && fz[i].signal;
      assert data[i] == ResetOf(mode, fz[i]);
    }
    if mode == HaltLoop || NoneWoken(left, fz) {
      forall i {:trigger data[i]} | 0 <= i < |data| && data[i].signal
        ensures data[i].state == Ready || data[i].state == Busy
      {
        assert !left[i] && data[i] == fz[i];
      }
    }
  }

  /** The listed APs have been reset. */
  predicate WereReset(left: seq<bool>, atReset: seq<CpuData>, data: seq<CpuData>, mode: LoopMode) {
    && |left| == |atReset| == |data|
    && forall i {:trigger data[i]} :: 0 <= i < |data| && left[i] ==> data[i] == ResetOf(mode, atReset[i])
  }

  /** An AP that was reported by CheckAllAPs and reset outside the halt loop while it was Busy: once
      the start loop of another job has made it Ready, two turns make it run its old procedure
      and count as Finished, and no further turn makes it run the new one. */
  lemma StaleCountsAsFinished(left: seq<bool>, atReset: seq<CpuData>, data: seq<CpuData>, mode: LoopMode,
                              i: nat, turns: nat)
    requires WereReset(left, atReset, data, mode) && i < |left| && left[i] && mode != HaltLoop
    requires atReset[i].state == Busy && atReset[i].signal && turns >= 2
    ensures var ready := data[i].(state := Ready);
            && CanStep(ready) && StepEvent(i, ready) == Begin(i, atReset[i].procedure)
            && StepEvent(i, Stepped(ready, 1)) == End(i, atReset[i].procedure)
            && Stepped(ready, turns) == CpuData(Finished, NO_PROCEDURE, false) && !CanStep(Stepped(ready, turns))
  {
    var ready := data[i].(state := Ready);
    assert data[i] == ResetOf(mode, atReset[i]);
    assert Stepped(ready, 0) == ready && Stepped(ready, 2) == ApStep(ApStep(ready));
    if turns > 2 { StaleCountsAsFinished(left, atReset, data, mode, i, turns - 1); }
  }

  predicate NoneListed(list: seq<bool>) {
    forall i :: 0 <= i < |list| ==> !list[i]
  }

  lemma IdleAfterAll(start: seq<CpuData>, fz: seq<CpuData>, data: seq<CpuData>, bsp: nat, sched: Schedule, base: nat,
                     left: seq<bool>, mode: LoopMode)
    requires TakenBy(start, fz, bsp, sched, base, left, |data|) && Frozen(fz, data, left, mode, |data|)
    ensures IdleStays(start, data) && WereReset(left, fz, data, mode)
  {
    forall i {:trigger data[i]} | 0 <= i < |data| && start[i].state == Idle ensures data[i].state == Idle {
      assert data[i] == if left[i] then ResetOf(mode, fz[i]) else fz[i];
      if i != bsp { SteppedEvolves(start[i], TurnsIn(sched, base, if left[i] then i + 1 else |data|, i)); }
    }
  }

  lemma LeaversStayIdle(list0: seq<bool>, list: seq<bool>, a: seq<CpuData>, b: seq<CpuData>)
    requires OnlyIdleLeave(list0, list, a) && IdleStays(a, b)
    ensures OnlyIdleLeave(list0, list, b)
  {}

  /** The others do not run at the first n points. */
  ghost predicate Quiet(sched: Schedule, n: nat) {
    forall k: nat {:trigger sched(k)} :: k < n ==> sched(k) == []
  }

  predicate NobodyFinished(data: seq<CpuData>, list: seq<bool>) {
    |data| == |list| && forall i {:trigger data[i]} :: 0 <= i < |data| && list[i] ==> data[i].state != Finished
  }

  /** Whoever has left the list is Idle. */
  predicate OnlyIdleLeave(list0: seq<bool>, list: seq<bool>, data: seq<CpuData>) {
    && |list0| == |list| == |data|
    && forall i {:trigger list[i]} :: 0 <= i < |list| ==> list[i] == list0[i] || (list0[i] && data[i].state == Idle)
  }

  ghost predicate Ran(log: multiset<Event>, i: nat, job: nat, times: nat) {
    log[Begin(i, job)] == times && log[End(i, job)] == times
  }

  /** Every AP of the job, and no other, entered and left the procedure exactly once. */
  ghost predicate RanOnce(members: seq<bool>, job: nat, log: multiset<Event>) {
    forall i {:trigger members[i]} :: 0 <= i < |members| ==> Ran(log, i, job, B2N(members[i]))
  }

  /** And in single-thread mode one after the other, in ascending order. */
  ghost predicate Succeeded(members: seq<bool>, job: nat, single: bool, log: seq<Event>) {
    RanOnce(members, job, multiset(log)) && (single ==> log == Pairs(Enum(members), job))
  }

  lemma JobDone(data: seq<CpuData>, list: seq<bool>, members: seq<bool>, job: nat, single: bool, log: seq<Event>)
    requires JobSafe(data, list, members, job, single, log) && forall i :: 0 <= i < |list| ==> !list[i]
    ensures Succeeded(members, job, single, log)
  {
    forall i {:trigger members[i]} | 0 <= i < |members| ensures Ran(multiset(log), i, job, B2N(members[i])) {
      assert ApSafe(i, data[i], list[i], members[i], job, single, i == First(list), multiset(log));
    }
    if single {
      assert First(list) == |list| && Turn(data, list, job) == [];
      assert log == Pairs(Enum(members), job) + [];
    }
  }

  lemma AllStruck(list: seq<bool>)
    requires |Enum(list)| == 0
    ensures forall i :: 0 <= i < |list| ==> !list[i]
  {
    EnumIs(list, |list|);
    forall i: nat | i < |list| ensures !list[i] { assert i !in Enum(list); }
  }

  lemma {:induction false} EnumGrows(list: seq<bool>, k: nat)
    requires k <= |list|
    ensures |EnumUpTo(list, k)| <= |Enum(list)|
    decreases |list| - k
  {
    if k < |list| { EnumGrows(list, k + 1); }
  }

  predicate IdleStays(a: seq<CpuData>, b: seq<CpuData>) {
    |a| == |b| && forall i {:trigger b[i]} :: 0 <= i < |b| && a[i].state == Idle ==> b[i].state == Idle
  }

  lemma EvolvesIdle(a: seq<CpuData>, b: seq<CpuData>)
    requires EvolvesAll(a, b)
    ensures IdleStays(a, b)
  {
    forall i {:trigger b[i]} | 0 <= i < |b| && a[i].state == Idle
      ensures b[i].state == Idle
    {
      assert Evolves(a[i], b[i]);
    }
  }

  lemma IdleStaysOn(a: seq<CpuData>, b: seq<CpuData>, c: seq<CpuData>)
    requires IdleStays(a, b) && IdleStays(b, c)
    ensures IdleStays(a, c)
  {
    forall i {:trigger c[i]} | 0 <= i < |c| && a[i].state == Idle
      ensures c[i].state == Idle
    {
      assert b[i].state == Idle;
    }
  }

  /** No listed AP is Idle any more. */
  predicate NoneIdle(data: seq<CpuData>, list: seq<bool>)
    requires |data| == |list|
  {
    forall i {:trigger data[i]} :: 0 <= i < |data| && list[i] ==> data[i].state != Idle
  }

  /** The AP has been woken up for the procedure it is or was to run. */
  predicate Woken(d: CpuData) {
    (d.state == Ready && d.signal) || d.state == Busy || d.state == Finished
  }

  predicate AllWoken(data: seq<CpuData>, list: seq<bool>, single: bool)
    requires |data| == |list|
  {
    forall i {:trigger data[i]} :: 0 <= i < |data| && list[i] && (single ==> i == First(list)) ==> Woken(data[i])
  }

  lemma EvolvesWoken(a: seq<CpuData>, b: seq<CpuData>, list: seq<bool>, single: bool)
    requires |a| == |list| && EvolvesAll(a, b) && AllWoken(a, list, single)
    ensures AllWoken(b, list, single)
  {
    forall i {:trigger b[i]} | 0 <= i < |b| && list[i] && (single ==> i == First(list)) ensures Woken(b[i]) {
      assert Evolves(a[i], b[i]) && Woken(a[i]);
    }
  }

  /** Awake: the APs that should be at work have been woken up.  Otherwise: the one whose turn it
      is in single-thread mode has not been. */
  predicate Stance(data: seq<CpuData>, list: seq<bool>, single: bool, awake: bool)
    requires |data| == |list|
  {
    if awake then AllWoken(data, list, single) else single && NextUnsignalled(data, list)
  }

  lemma EvolvesStance(a: seq<CpuData>, b: seq<CpuData>, list: seq<bool>, single: bool, awake: bool)
    requires |a| == |list| && EvolvesAll(a, b) && Stance(a, list, single, awake)
    ensures Stance(b, list, single, awake)
  {
    if awake {
      EvolvesWoken(a, b, list, single);
    } else if First(list) < |list| {
      EvolvesKeepsNext(a, b, list, First(list));
    }
  }

  predicate SameStance(a: seq<CpuData>, b: seq<CpuData>, list: seq<bool>, single: bool)
    requires |a| == |b| == |list|
  {
    && (Stance(a, list, single, true) ==> Stance(b, list, single, true))
    && (Stance(a, list, single, false) ==> Stance(b, list, single, false))
  }

  lemma KeepStance(a: seq<CpuData>, b: seq<CpuData>, list: seq<bool>, single: bool)
    requires |a| == |list| && EvolvesAll(a, b)
    ensures SameStance(a, b, list, single)
  {
    if Stance(a, list, single, true) { EvolvesStance(a, b, list, single, true); }
    if Stance(a, list, single, false) { EvolvesStance(a, b, list, single, false); }
  }

  /** An AP that is not on the list does not matter. */
  lemma StanceAside(data: seq<CpuData>, list: seq<bool>, single: bool, awake: bool, p: nat, d: CpuData)
    requires |data| == |list| && p < |list| && !list[p] && Stance(data, list, single, awake)
    ensures Stance(data[p := d], list, single, awake)
  {}

  lemma NobodyWaits(data: seq<CpuData>, list: seq<bool>)
    requires |data| == |list| && First(list) == |list|
    ensures AllWoken(data, list, true)
  {}

  /** An AP that has finished stays so until the BSP visits it. */
  predicate FinishedStays(a: seq<CpuData>, b: seq<CpuData>, p: nat) {
    |a| == |b| && forall i {:trigger b[i]} :: 0 <= i < |b| && i != p && a[i].state == Finished ==>
      b[i].state == Finished
  }

  /** Whoever had finished still has. */
  predicate KeepsFinished(a: seq<CpuData>, b: seq<CpuData>) {
    |a| == |b| && forall i {:trigger b[i]} :: 0 <= i < |b| && a[i].state == Finished ==> b[i].state == Finished
  }

  lemma WokenEvolves(a: seq<CpuData>, c: seq<CpuData>, next: nat, d: CpuData)
    requires next < |a| && a[next].state == Ready && EvolvesAll(a[next := d], c)
    ensures KeepsFinished(a, c) && IdleStays(a, c)
  {
    forall i {:trigger c[i]} | 0 <= i < |c| && i != next ensures Evolves(a[i], c[i]) {
      assert Evolves(a[next := d][i], c[i]);
    }
  }

  lemma EvolvesFinished(a: seq<CpuData>, b: seq<CpuData>)
    requires EvolvesAll(a, b)
    ensures KeepsFinished(a, b)
  {
    forall i {:trigger b[i]} | 0 <= i < |b| && a[i].state == Finished
      ensures b[i].state == Finished
    {
      assert Evolves(a[i], b[i]);
    }
  }

  lemma FinishedFollows(a: seq<CpuData>, b: seq<CpuData>, c: seq<CpuData>)
    requires KeepsFinished(a, b) && KeepsFinished(b, c)
    ensures KeepsFinished(a, c)
  {
    forall i {:trigger c[i]} | 0 <= i < |c| && a[i].state == Finished
      ensures c[i].state == Finished
    {
      assert b[i].state == Finished;
    }
  }

  lemma FinishedStaysOn(a: seq<CpuData>, b: seq<CpuData>, c: seq<CpuData>, p: nat)
    requires p < |a| == |b| && (forall i :: 0 <= i < |a| && i != p ==> b[i] == a[i]) && KeepsFinished(b, c)
    ensures FinishedStays(a, c, p)
  {}

  /** Whoever had finished at the start is off the list below p, and finished above. */
  predicate Gone(start: seq<CpuData>, data: seq<CpuData>, list: seq<bool>, p: nat) {
    && |start| == |data| == |list|
    && forall i {:trigger start[i]} :: 0 <= i < |list| && start[i].state == Finished ==>
         if i < p then !list[i] else data[i].state == Finished
  }

  lemma GoneOn(start: seq<CpuData>, a: seq<CpuData>, b: seq<CpuData>, list: seq<bool>, p: nat)
    requires Gone(start, a, list, p) && EvolvesAll(a, b)
    ensures Gone(start, b, list, p)
  {
    forall i {:trigger start[i]} | 0 <= i < |list| && start[i].state == Finished
      ensures if i < p then !list[i] else b[i].state == Finished
    {
      assert Evolves(a[i], b[i]);
    }
  }

  lemma GoneBelow(start: seq<CpuData>, data: seq<CpuData>, list: seq<bool>, p: nat)
    requires Gone(start, data, list, p) && p < |list| && !list[p]
    ensures Gone(start, data, list, p + 1)
  {}

  /** Nobody who had finished is on the list. */
  predicate FinishedLeave(start: seq<CpuData>, list: seq<bool>) {
    |start| == |list| && forall i {:trigger list[i]} :: 0 <= i < |list| && start[i].state == Finished ==> !list[i]
  }

  lemma AllGone(start: seq<CpuData>, data: seq<CpuData>, list: seq<bool>)
    requires Gone(start, data, list, |list|)
    ensures FinishedLeave(start, list)
  {}

  /** One listed AP has been visited. */
  lemma PollRound(list0: seq<bool>, start: seq<CpuData>, a: seq<CpuData>, list: seq<bool>, b: seq<CpuData>,
                  list': seq<bool>, p: nat)
    requires OnlyIdleLeave(list0, list, a) && Gone(start, a, list, p) && p < |list| && list[p]
    requires list' == if a[p].state == Finished then list[p := false] else list
    requires IdleStays(a, b) && FinishedStays(a, b, p) && (list'[p] || b[p].state == Idle)
    ensures OnlyIdleLeave(list0, list', b) && Gone(start, b, list', p + 1)
  {
    forall i {:trigger list'[i]} | 0 <= i < |list|
      ensures list'[i] == list0[i] || (list0[i] && b[i].state == Idle)
      ensures start[i].state == Finished ==> if i < p + 1 then !list'[i] else b[i].state == Finished
    {
      assert list[i] == list0[i] || (list0[i] && a[i].state == Idle);
      assert start[i].state == Finished && i > p ==> a[i].state == Finished && b[i].state == Finished;
    }
  }

  /** The AP whose turn comes next is Ready and has not been woken up. */
  predicate NextUnsignalled(data: seq<CpuData>, list: seq<bool>)
    requires |data| == |list|
  {
    First(list) < |list| ==> data[First(list)].state == Ready && !data[First(list)].signal
  }

  lemma StrikeLeavesNext(data: seq<CpuData>, list: seq<bool>, members: seq<bool>, job: nat, log: multiset<Event>,
                         p: nat)
    requires |data| == |list| == |members| && AllSafe(data, list, members, job, true, log) && NoneIdle(data, list)
    requires p < |data| && list[p] && data[p].state == Finished
    ensures NextUnsignalled(data, list[p := false])
  {
    assert ApSafe(p, data[p], list[p], members[p], job, true, p == First(list), log);
    var q := First(list[p := false]);
    if q < |list| {
      assert list[q] && q != p;
      assert ApSafe(q, data[q], list[q], members[q], job, true, q == First(list), log);
    }
  }

  lemma NotIdleShrinks(data: seq<CpuData>, list: seq<bool>, p: nat)
    requires |data| == |list| && p < |data| && NoneIdle(data, list)
    ensures NoneIdle(data, list[p := false])
  {}

  lemma EvolvesNotIdle(a: seq<CpuData>, b: seq<CpuData>, list: seq<bool>)
    requires |a| == |list| && EvolvesAll(a, b) && NoneIdle(a, list)
    ensures NoneIdle(b, list)
  {
    forall i {:trigger b[i]} | 0 <= i < |b| && list[i] ensures b[i].state != Idle { assert Evolves(a[i], b[i]); }
  }

  /** Neither the waiting AP nor an Idle one moves. */
  lemma EvolvesKeepsNext(a: seq<CpuData>, b: seq<CpuData>, list: seq<bool>, p: nat)
    requires |a| == |list| && p < |a| && EvolvesAll(a, b) && NextUnsignalled(a, list)
    ensures NextUnsignalled(b, list) && (a[p].state == Idle ==> b[p].state == Idle)
  {
    assert Evolves(a[p], b[p]);
    if First(list) < |list| { assert Evolves(a[First(list)], b[First(list)]); }
  }

  predicate EvolvesAll(a: seq<CpuData>, b: seq<CpuData>) {
    |a| == |b| && forall i {:trigger b[i]} :: 0 <= i < |b| ==> Evolves(a[i], b[i])
  }

  /** The first enabled AP from k on that is not Idle. */
  function FirstBusy(data: seq<CpuData>, bsp: nat, k: nat): (r: nat)
    requires k <= |data|
    ensures k <= r <= |data|
    ensures forall i :: k <= i < r ==> i == bsp || data[i].state == Disabled || data[i].state == Idle
    ensures r < |data| ==> r != bsp && data[r].state != Disabled && data[r].state != Idle
    decreases |data| - k
  {
    if k == |data| then k
    else if k != bsp && data[k].state != Disabled && data[k].state != Idle then k
    else FirstBusy(data, bsp, k + 1)
  }

  /** The first enabled AP from k on. */
  function FirstEnabled(data: seq<CpuData>, bsp: nat, k: nat): (r: nat)
    requires k <= |data|
    ensures k <= r <= |data|
    ensures forall i :: k <= i < r ==> i == bsp || data[i].state == Disabled
    ensures r < |data| ==> r != bsp && data[r].state != Disabled
    decreases |data| - k
  {
    if k == |data| then k
    else if k != bsp && data[k].state != Disabled then k
    else FirstEnabled(data, bsp, k + 1)
  }

  /** The CpuList a rejected call leaves behind: up to the AP it stumbles over the marks of the
      new call, from there on those of the old one. */
  function RejectedList(list: seq<bool>, data: seq<CpuData>, bsp: nat): seq<bool>
    requires |list| == |data|
  {
    var q := FirstBusy(data, bsp, 0);
    seq(|list|, i requires 0 <= i < |list| =>
      if i < q then i != bsp && data[i].state != Disabled else if i == q then false else list[i])
  }

  lemma EvolvesFrom(a: seq<CpuData>, b: seq<CpuData>, c: seq<CpuData>)
    requires EvolvesAll(a, b) && EvolvesAll(b, c)
    ensures EvolvesAll(a, c)
  {
    forall i {:trigger c[i]} | 0 <= i < |c|
      ensures Evolves(a[i], c[i])
    {
      assert Evolves(a[i], b[i]) && Evolves(b[i], c[i]);
    }
  }

  /** On its own an AP does not become or cease to be Idle or Disabled. */
  lemma KindStays(a: seq<CpuData>, b: seq<CpuData>, i: nat)
    requires EvolvesAll(a, b) && i < |a|
    ensures (b[i].state == Idle <==> a[i].state == Idle) && (b[i].state == Disabled <==> a[i].state == Disabled)
  {
    assert Evolves(a[i], b[i]);
  }

  /** All marked APs are Idle. */
  lemma AllIdle(a: seq<CpuData>, b: seq<CpuData>, list: seq<bool>, bsp: nat)
    requires EvolvesAll(a, b) && |list| == |a| && FirstBusy(a, bsp, 0) == |a| && NoStale(b)
    requires forall i :: 0 <= i < |list| ==> list[i] == (i != bsp && a[i].state != Disabled)
    ensures IdleFrom(b, list, 0) && forall i :: 0 <= i < |list| && list[i] ==> a[i].state == Idle
  {
    forall i {:trigger b[i]} | 0 <= i < |b| && list[i] ensures b[i].state == Idle { KindStays(a, b, i); }
  }

  /** How a listed AP below p stands once the start loop has visited it: woken up and
      perhaps already running, or waiting for its turn. */
  predicate Started(data: seq<CpuData>, list: seq<bool>, job: nat, single: bool, p: nat)
    requires |data| == |list|
  {
    forall i {:trigger data[i]} :: 0 <= i < |data| && i < p && list[i] ==>
      if single && i != First(list) then data[i].state == Ready && !data[i].signal
      else Evolves(CpuData(Ready, job, true), data[i])
  }

  predicate IdleFrom(data: seq<CpuData>, list: seq<bool>, p: nat)
    requires |data| == |list|
  {
    forall i {:trigger data[i]} :: p <= i < |data| && list[i] ==> data[i].state == Idle && !data[i].signal
  }

  /** AP p has been made Ready but not woken up: the others move on, p does not. */
  lemma ReadyRound(d0: seq<CpuData>, d1: seq<CpuData>, d2: seq<CpuData>, list: seq<bool>, job: nat, single: bool,
                   p: nat)
    requires p < |d0| == |list| && list[p] && d1 == d0[p := d0[p].(state := Ready)] && EvolvesAll(d1, d2)
    requires Started(d0, list, job, single, p) && IdleFrom(d0, list, p)
    ensures Started(d2, list, job, single, p) && IdleFrom(d2, list, p + 1) && d2[p].state == Ready && !d2[p].signal
  {
    assert d0[p].state == Idle && Evolves(d1[p], d2[p]);
    forall i {:trigger d2[i]} | 0 <= i < |d2| ensures i != p ==> Evolves(d0[i], d2[i]) { assert Evolves(d1[i], d2[i]); }
  }

  lemma StartedNotIdle(data: seq<CpuData>, list: seq<bool>, job: nat, single: bool)
    requires |data| == |list| && Started(data, list, job, single, |data|)
    ensures NoneIdle(data, list) && AllWoken(data, list, single)
  {}

  lemma SkipRound(data: seq<CpuData>, list: seq<bool>, job: nat, single: bool, p: nat)
    requires p < |data| == |list| && !list[p] && Started(data, list, job, single, p) && IdleFrom(data, list, p)
    ensures Started(data, list, job, single, p + 1) && IdleFrom(data, list, p + 1)
  {}

  /** AP p is woken up, and any APs move on. */
  lemma WakeRound(d2: seq<CpuData>, d3: seq<CpuData>, d4: seq<CpuData>, list: seq<bool>, job: nat, single: bool, p: nat)
    requires p < |d2| == |list| && list[p] && d3 == d2[p := CpuData(Ready, job, true)] && EvolvesAll(d3, d4)
    requires Started(d2, list, job, single, p) && IdleFrom(d2, list, p + 1) && (single ==> p == First(list))
    ensures Started(d4, list, job, single, p + 1) && IdleFrom(d4, list, p + 1)
  {
    assert Evolves(d3[p], d4[p]);
    forall i {:trigger d4[i]} | 0 <= i < |d4| ensures i != p ==> Evolves(d2[i], d4[i]) { assert Evolves(d3[i], d4[i]); }
  }

  lemma ReadyKeepsJob(data: seq<CpuData>, list: seq<bool>, members: seq<bool>, job: nat, single: bool,
                      log: seq<Event>, p: nat, d: CpuData)
    requires JobSafe(data, list, members, job, single, log)
    requires p < |data| && list[p] && (data[p].state == Idle || data[p].state == Ready) && d.state == Ready
    requires d.signal ==> d.procedure == job && (single ==> p == First(list))
    ensures JobSafe(data[p := d], list, members, job, single, log)
  {
    ReadyKeepsAll(data, list, members, job, single, multiset(log), p, d);
    assert Turn(data[p := d], list, job) == Turn(data, list, job);
  }

  lemma ReadyKeepsAll(data: seq<CpuData>, list: seq<bool>, members: seq<bool>, job: nat, single: bool,
                      log: multiset<Event>, p: nat, d: CpuData)
    requires |data| == |list| == |members| && AllSafe(data, list, members, job, single, log)
    requires p < |data| && list[p] && (data[p].state == Idle || data[p].state == Ready) && d.state == Ready
    requires d.signal ==> d.procedure == job && (single ==> p == First(list))
    ensures AllSafe(data[p := d], list, members, job, single, log)
  {
    assert ApSafe(p, data[p], list[p], members[p], job, single, p == First(list), log);
  }

  /** A job that has just been marked and has not started: nothing has happened yet. */
  lemma FreshJob(data: seq<CpuData>, list: seq<bool>, job: nat, single: bool)
    requires |data| == |list|
    requires forall i :: 0 <= i < |data| && list[i] ==> data[i].state == Idle && !data[i].signal
    ensures JobSafe(data, list, list, job, single, [])
  {
    EmptyBefore(list, First(list));
    assert AllSafe(data, list, list, job, single, multiset([]));
  }

  lemma {:induction false} EmptyBefore(list: seq<bool>, k: nat)
    requires k <= |list| && forall i :: 0 <= i < k ==> !list[i]
    ensures EnumUpTo(list, k) == []
  {
    if k > 0 { EmptyBefore(list, k - 1); }
  }

  /** No job at all. */
  lemma NoJob(data: seq<CpuData>, list: seq<bool>, job: nat, single: bool)
    requires |data| == |list| && forall i :: 0 <= i < |list| ==> !list[i]
    ensures JobSafe(data, list, list, job, single, []) && Enum(list) == []
  {
    EmptyBefore(list, |list|);
    FreshJob(data, list, job, single);
  }

  // ----- What the histories mean -----

  /** In single-thread mode no two procedure bodies overlap, and they run in ascending
      processor number. */
  lemma SingleThreadOrder(data: seq<CpuData>, list: seq<bool>, members: seq<bool>, job: nat, log: seq<Event>)
    requires |data| == |list| == |members| && InTurn(data, list, members, job, log)
    ensures forall a :: 0 <= a < |log| - 1 && log[a].Begin? ==> log[a + 1] == End(log[a].cpu, job)
    ensures forall a, b :: 0 <= a < b < |log| && log[a].Begin? && log[b].Begin? ==> log[a].cpu < log[b].cpu
  {
    var k := InTurnPrefix(data, list, members, job, log);
    var cpus := EnumUpTo(members, k);
    forall a | 0 <= a < |log| - 1 && log[a].Begin? ensures log[a + 1] == End(log[a].cpu, job) {
      PairFollows(cpus, job, log, a);
    }
    EnumIs(members, k);
    forall a, b | 0 <= a < b < |log| && log[a].Begin? && log[b].Begin? ensures log[a].cpu < log[b].cpu {
      PairsAscend(cpus, job, log, a, b);
    }
  }

  /** The log is the beginning of the full single-thread history. */
  lemma InTurnPrefix(data: seq<CpuData>, list: seq<bool>, members: seq<bool>, job: nat, log: seq<Event>)
      returns (k: nat)
    requires |data| == |list| == |members| && InTurn(data, list, members, job, log)
    ensures k <= |members| && log <= Pairs(EnumUpTo(members, k), job)
  {
    k := First(list);
    if k < |list| {
      assert list[k] == members[k];
      TurnIs(data, list, job);
      TurnPrefix(members, k, job, Turn(data, list, job), log);
      k := k + 1;
    } else {
      assert Turn(data, list, job) == [];
      PrefixAfter(Pairs(EnumUpTo(members, k), job), [], []);
    }
  }

  lemma TurnIs(data: seq<CpuData>, list: seq<bool>, job: nat)
    requires |data| == |list|
    ensures Turn(data, list, job) <= [Begin(First(list), job), End(First(list), job)]
  {}

  lemma TurnPrefix(members: seq<bool>, k: nat, job: nat, turn: seq<Event>, log: seq<Event>)
    requires k < |members| && members[k] && turn <= [Begin(k, job), End(k, job)]
    requires log == Pairs(EnumUpTo(members, k), job) + turn
    ensures log <= Pairs(EnumUpTo(members, k + 1), job)
  {
    PairsOfNext(members, k, k + 1, job);
    PrefixAfter(Pairs(EnumUpTo(members, k), job), turn, [Begin(k, job), End(k, job)]);
  }

  lemma PrefixAfter(a: seq<Event>, b: seq<Event>, c: seq<Event>)
    requires b <= c
    ensures a + b <= a + c
  {
    assert (a + c)[..|a| + |b|] == a + b;
  }

  lemma {:induction false} PairAt(cpus: seq<nat>, job: nat, a: nat)
    ensures |Pairs(cpus, job)| == 2 * |cpus|
    ensures a < 2 * |cpus| ==>
              Pairs(cpus, job)[a] == if a % 2 == 0 then Begin(cpus[a / 2], job) else End(cpus[a / 2], job)
  {
    if cpus != [] { PairAt(cpus[..|cpus| - 1], job, a); }
  }

  lemma PairFollows(cpus: seq<nat>, job: nat, log: seq<Event>, a: nat)
    requires log <= Pairs(cpus, job) && a < |log| - 1 && log[a].Begin?
    ensures log[a + 1] == End(log[a].cpu, job)
  {
    PairAt(cpus, job, a);
    PairAt(cpus, job, a + 1);
  }

  lemma PairsAscend(cpus: seq<nat>, job: nat, log: seq<Event>, a: nat, b: nat)
    requires log <= Pairs(cpus, job) && a < b < |log| && log[a].Begin? && log[b].Begin?
    requires forall c, d :: 0 <= c < d < |cpus| ==> cpus[c] < cpus[d]
    ensures log[a].cpu < log[b].cpu
  {
    PairAt(cpus, job, a);
    PairAt(cpus, job, b);
    assert a / 2 < b / 2;
  }

  /** A call that is rejected while a job is pending leaves the job's list alone iff the least
      enabled AP is busy and not on that list. */
  lemma RejectedKeepsList(list: seq<bool>, data: seq<CpuData>, bsp: nat)
    requires |list| == |data| && bsp < |list| && !list[bsp] && NoneIdle(data, list)
    requires forall i :: 0 <= i < |list| && list[i] ==> data[i].state != Disabled
    requires FirstBusy(data, bsp, 0) < |data|
    ensures var e := FirstEnabled(data, bsp, 0);
            e < |data| && (RejectedList(list, data, bsp) == list <==> data[e].state != Idle && !list[e])
  {
    var q, e := FirstBusy(data, bsp, 0), FirstEnabled(data, bsp, 0);
    var list' := RejectedList(list, data, bsp);
    assert e <= q;
    if data[e].state != Idle && !list[e] {
      assert e == q;
      assert forall i :: 0 <= i < |list| ==> list'[i] == list[i];
    } else {
      assert list'[e] != list[e];
    }
  }

  /** A pending job whose list begins with the least enabled AP loses it to a second
      StartupAllAPs, and can never succeed any more: CheckAllAPs keeps a lost job lost.  The
      ghost history forgets the AP, as the list has. */
  method SecondStart(m: MpSystem, proc: nat, singleThread': bool, sched: Schedule)
    requires m.Pending() && proc != NO_PROCEDURE
    requires var e := FirstEnabled(m.cpuData[..], m.bsp, 0); e < m.cpuList.Length && m.cpuList[e]
    modifies m, m.cpuData, m.cpuList
    ensures m.Lost() && m.finishCount + |Enum(m.cpuList[..])| + 1 == m.startCount
    ensures m.cpuList[..] != old(m.cpuList[..])
  {
    ghost var data, list, members := m.cpuData[..], m.cpuList[..], m.members;
    ghost var e := FirstEnabled(data, m.bsp, 0);
    ListedEnabled(data, list, members, m.job, m.single, m.log);
    FirstIsLost(data, list, m.bsp, e);
    var status := m.StartupAllAPs(proc, singleThread', sched);
    m.ForgetAp(data, list, e);
  }

  /** A lost job stays lost at every poll, and is never found to have succeeded. */
  method LostStaysLost(m: MpSystem, expired: bool, wantList: bool, sched: Schedule) returns (status: Status)
    requires m.Lost()
    modifies m, m.cpuData, m.cpuList
    ensures status != Success && (status == NotReady ==> m.Lost())
  {
    var failed;
    ghost var left, atReset, history;
    status, failed, left, atReset, history := m.CheckAllAPs(expired, wantList, sched, m.Held(true));
  }

  /** The history without AP e. */
  function Forgotten(members: seq<bool>, job: nat, single: bool, log: seq<Event>, e: nat): seq<Event>
    requires e <= |members|
  {
    if single then Pairs(EnumUpTo(members, e), job) else Without(log, e)
  }

  function Without(log: seq<Event>, e: nat): seq<Event> {
    if log == [] then []
    else Without(log[..|log| - 1], e) + (if log[|log| - 1].cpu == e then [] else [log[|log| - 1]])
  }

  lemma {:induction false} WithoutCounts(log: seq<Event>, e: nat, v: Event)
    ensures multiset(Without(log, e))[v] == if v.cpu == e then 0 else multiset(log)[v]
  {
    if log != [] {
      WithoutCounts(log[..|log| - 1], e, v);
      assert log == log[..|log| - 1] + [log[|log| - 1]];
    }
  }

  /** The job without its first AP is consistent with the history without it. */
  lemma ForgetOne(data0: seq<CpuData>, data: seq<CpuData>, list: seq<bool>, members: seq<bool>, job: nat, single: bool,
                  log: seq<Event>, e: nat)
    requires JobSafe(data, list, members, job, single, log) && EvolvesAll(data0, data) && NoneIdle(data0, list)
    requires e < |list| && list[e] && e == First(list) && AllWoken(data0, list, single)
    ensures JobSafe(data, list[e := false], members[e := false], job, single, Forgotten(members, job, single, log, e))
    ensures NoneIdle(data, list[e := false])
    ensures Stance(data, list[e := false], single, !single)
    ensures |Enum(list[e := false])| == |Enum(list)| - 1 && |Enum(members[e := false])| == |Enum(members)| - 1
  {
    EvolvesNotIdle(data0, data, list);
    assert ApSafe(e, data[e], list[e], members[e], job, single, e == First(list), multiset(log));
    EnumStrike(list, e, |list|);
    EnumStrike(members, e, |list|);
    ForgetAll(data, list, members, job, single, log, e);
    if single {
      ForgetTurn(data, list, members, job, log, e);
    } else {
      EvolvesWoken(data0, data, list, false);
    }
  }

  lemma ForgetAll(data: seq<CpuData>, list: seq<bool>, members: seq<bool>, job: nat, single: bool, log: seq<Event>,
                  e: nat)
    requires JobSafe(data, list, members, job, single, log) && e < |list| && list[e] && e == First(list)
    ensures AllSafe(data, list[e := false], members[e := false], job, single,
                    multiset(Forgotten(members, job, single, log, e)))
  {
    var list', members' := list[e := false], members[e := false];
    var log' := multiset(Forgotten(members, job, single, log, e));
    forall i | 0 <= i < |data| ensures ApSafe(i, data[i], list'[i], members'[i], job, single, i == First(list'), log') {
      assert ApSafe(i, data[i], list[i], members[i], job, single, i == First(list), multiset(log));
      if single {
        ForgetCounts(data, list, members, job, log, e, Begin(i, job));
        ForgetCounts(data, list, members, job, log, e, End(i, job));
      } else {
        WithoutCounts(log, e, Begin(i, job));
        WithoutCounts(log, e, End(i, job));
      }
    }
  }

  /** In single-thread mode the events of the first listed AP are the last ones. */
  lemma ForgetCounts(data: seq<CpuData>, list: seq<bool>, members: seq<bool>, job: nat, log: seq<Event>,
                     e: nat, v: Event)
    requires |data| == |list| == |members| && InTurn(data, list, members, job, log) && e == First(list) < |list|
    ensures multiset(Pairs(EnumUpTo(members, e), job))[v] == if v.cpu == e then 0 else multiset(log)[v]
  {
    var before, turn := Pairs(EnumUpTo(members, e), job), Turn(data, list, job);
    EnumIs(members, e);
    PairsHold(EnumUpTo(members, e), job, v);
    assert v in before ==> v.cpu < e;
    assert multiset(log)[v] == multiset(before)[v] + multiset(turn)[v] by { assert log == before + turn; }
    assert v in turn ==> v.cpu == e;
  }

  lemma {:induction false} PairsHold(cpus: seq<nat>, job: nat, v: Event)
    ensures v in Pairs(cpus, job) ==> v.cpu in cpus
  {
    if cpus != [] { PairsHold(cpus[..|cpus| - 1], job, v); }
  }

  lemma ForgetTurn(data: seq<CpuData>, list: seq<bool>, members: seq<bool>, job: nat, log: seq<Event>, e: nat)
    requires |data| == |list| == |members| && AllSafe(data, list, members, job, true, multiset(log))
    requires InTurn(data, list, members, job, log) && NoneIdle(data, list) && e == First(list) < |list|
    ensures InTurn(data, list[e := false], members[e := false], job, Pairs(EnumUpTo(members, e), job))
    ensures NextUnsignalled(data, list[e := false])
  {
    var list' := list[e := false];
    var q := First(list');
    NextListed(list, e, q);
    WaitsForTurn(data, list, members, job, multiset(log), e, q);
    TurnForgotten(data, list, members, job, log, e, q);
  }

  lemma NextListed(list: seq<bool>, e: nat, q: nat)
    requires e == First(list) < |list| && q == First(list[e := false])
    ensures e < q && (q < |list| ==> list[q])
  {
    var list' := list[e := false];
    assert forall i :: 0 <= i <= e ==> !list'[i];
  }

  /** The next one has not been woken up. */
  lemma WaitsForTurn(data: seq<CpuData>, list: seq<bool>, members: seq<bool>, job: nat, log: multiset<Event>,
                     e: nat, q: nat)
    requires |data| == |list| == |members| && AllSafe(data, list, members, job, true, log) && NoneIdle(data, list)
    requires e == First(list) < q <= |list| && (q < |list| ==> list[q])
    ensures q < |list| ==> data[q].state == Ready && !data[q].signal
  {
    if q < |list| { assert ApSafe(q, data[q], list[q], members[q], job, true, q == First(list), log); }
  }

  lemma TurnForgotten(data: seq<CpuData>, list: seq<bool>, members: seq<bool>, job: nat, log: seq<Event>,
                      e: nat, q: nat)
    requires |data| == |list| == |members| && InTurn(data, list, members, job, log) && e < |list| && list[e]
    requires e == First(list) < q == First(list[e := false]) && (q < |list| ==> data[q].state == Ready)
    ensures InTurn(data, list[e := false], members[e := false], job, Pairs(EnumUpTo(members, e), job))
  {
    var list', members' := list[e := false], members[e := false];
    forall i | e < i < q ensures !members[i] { assert !list'[i] && list[i] == members[i]; }
    NoneBetween(members, members', e, q);
    assert Turn(data, list', job) == [];
    assert Pairs(EnumUpTo(members, e), job) == Pairs(EnumUpTo(members', q), job) + [];
  }

  /** Between the AP that is forgotten and the next one there is no other. */
  lemma {:induction false} NoneBetween(members: seq<bool>, members': seq<bool>, e: nat, q: nat)
    requires e < q <= |members| && members' == members[e := false] && forall i :: e < i < q ==> !members[i]
    ensures EnumUpTo(members', q) == EnumUpTo(members, e)
  {
    if q == e + 1 { EnumSame(members, members', e); } else { NoneBetween(members, members', e, q - 1); }
  }

  lemma ListedEnabled(data: seq<CpuData>, list: seq<bool>, members: seq<bool>, job: nat, single: bool, log: seq<Event>)
    requires JobSafe(data, list, members, job, single, log)
    ensures forall i :: 0 <= i < |list| && list[i] ==> data[i].state != Disabled
  {
    forall i | 0 <= i < |list| && list[i] ensures data[i].state != Disabled {
      assert ApSafe(i, data[i], list[i], members[i], job, single, i == First(list), multiset(log));
    }
  }

  lemma FirstIsLost(data: seq<CpuData>, list: seq<bool>, bsp: nat, e: nat)
    requires |list| == |data| && bsp < |list| && !list[bsp] && NoneIdle(data, list)
    requires forall i :: 0 <= i < |list| && list[i] ==> data[i].state != Disabled
    requires e == FirstEnabled(data, bsp, 0) < |data| && list[e]
    ensures FirstBusy(data, bsp, 0) == e == First(list) && RejectedList(list, data, bsp) == list[e := false]
  {
    var q := FirstBusy(data, bsp, 0);
    assert data[e].state != Idle;
    assert q == e;
    assert forall i :: 0 <= i < |list| ==> RejectedList(list, data, bsp)[i] == list[e := false][i];
  }

  /** A timed-out job can report an AP that has run the procedure: in every pending job with a
      Busy AP, if that AP finishes between the poll and its reset. */
  method ReportsFinished(m: MpSystem, i: nat) returns (failed: array?<nat>, ghost history: seq<Event>)
    requires m.Pending() && i < m.cpuList.Length && m.cpuList[i] && m.cpuData[i].state == Busy
    requires NobodyFinished(m.cpuData[..], m.cpuList[..])
    modifies m, m.cpuData, m.cpuList
    ensures FailedList(failed, old(m.cpuList[..]), |Enum(old(m.cpuList[..]))|) && i in Enum(old(m.cpuList[..]))
    ensures multiset(history)[Begin(i, old(m.job))] == multiset(history)[End(i, old(m.job))] == 1
  {
    var base := 3 * m.cpuData.Length;
    var sched: Schedule := k => if k == base + i then [i] else [];
    ghost var data, list, members := m.cpuData[..], m.cpuList[..], m.members;
    ListedNotBsp(list, members, m.bsp, data, m.job, m.single, m.log, i);
    assert Quiet(sched, base) && m.finishCount + |Enum(list)| == |Enum(members)|;
    ghost var left, atReset;
    var status;
    status, failed, left, atReset, history := m.CheckAllAPs(true, true, sched, true);
    assert left == list && status == TimedOut;
    OneTurn(sched, base, i);
    FinishesLate(data, atReset, members, left, m.bsp, sched, base, i, old(m.job), old(m.single), multiset(history));
  }

  /** The AP with its one turn has finished when it is reset. */
  lemma FinishesLate(data: seq<CpuData>, atReset: seq<CpuData>, members: seq<bool>, left: seq<bool>, bsp: nat,
                     sched: Schedule, base: nat, i: nat, job: nat, single: bool, log: multiset<Event>)
    requires TakenBy(data, atReset, bsp, sched, base, left, |left|) && Told(members, left, atReset, job, single, log)
    requires i < |left| && left[i] && i != bsp && data[i].state == Busy && TurnsIn(sched, base, i + 1, i) == 1
    ensures log[Begin(i, job)] == log[End(i, job)] == 1
  {
    assert atReset[i] == Stepped(data[i], 1);
    assert Stepped(data[i], 0) == data[i];
    assert ToldOf(i, members[i], left[i], atReset[i], job, single && i != First(left), log);
  }

  lemma ListedNotBsp(list: seq<bool>, members: seq<bool>, bsp: nat, data: seq<CpuData>, job: nat, single: bool,
                     log: seq<Event>, i: nat)
    requires JobSafe(data, list, members, job, single, log) && bsp < |members| && !members[bsp] && i < |list| && list[i]
    ensures i != bsp && members[i] && i in Enum(list) && Enum(list) != []
  {
    EnumIs(list, |list|);
    assert ApSafe(i, data[i], list[i], members[i], job, single, i == First(list), multiset(log));
  }

  /** AP i gets one turn up to its own reset. */
  lemma OneTurn(sched: Schedule, base: nat, i: nat)
    requires forall k: nat {:trigger sched(k)} :: sched(k) == if k == base + i then [i] else []
    ensures TurnsIn(sched, base, i + 1, i) == 1
  {
    NoTurn(sched, base, i, i);
    assert [i][..0] == [];
    assert Turns([i], i) == 1;
  }

  lemma {:induction false} NoTurn(sched: Schedule, base: nat, m: nat, i: nat)
    requires forall k: nat {:trigger sched(k)} :: sched(k) == if k == base + i then [i] else []
    requires m <= i
    ensures TurnsIn(sched, base, m, i) == 0
  {
    if m > 0 { NoTurn(sched, base, m - 1, i); }
  }
}
