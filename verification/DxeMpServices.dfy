/** CpuMpDxe/MpService.c: StartupAllAPs, CheckAllAPs, StartupThisAP and CheckThisAP, with
    the APs running between any two accesses the BSP makes. */
module DxeMpServices {

  datatype CpuState = Idle | Ready | Busy | Finished | Disabled

  const NO_PROCEDURE: nat := 0

  /** CPU_DATA_BLOCK; signal is the wake-up the AP's wait loop reacts to. */
  datatype CpuData = CpuData(state: CpuState, procedure: nat, signal: bool)

  datatype Status = Success | NotStarted | NotReady | TimedOut | InvalidParameter | NotFound

  /** An AP enters or leaves the procedure of the all-AP job. */
  datatype Event = Begin(cpu: nat, procedure: nat) | End(cpu: nat, procedure: nat)

  const END_OF_CPU_LIST: nat := 0xFFFF_FFFF

  function B2N(b: bool): nat { if b then 1 else 0 }

  // ----- Lists of processors -----

  /** The indices below k that are TRUE, ascending. */
  function EnumUpTo(list: seq<bool>, k: nat): seq<nat>
    requires k <= |list|
  {
    if k == 0 then [] else EnumUpTo(list, k - 1) + (if list[k - 1] then [k - 1] else [])
  }

  lemma {:induction false} EnumIs(list: seq<bool>, k: nat)
    requires k <= |list|
    ensures |EnumUpTo(list, k)| <= k
    ensures forall x: nat :: x in EnumUpTo(list, k) <==> x < k && list[x]
    ensures forall a, b :: 0 <= a < b < |EnumUpTo(list, k)| ==> EnumUpTo(list, k)[a] < EnumUpTo(list, k)[b]
  {
    if k > 0 {
      EnumIs(list, k - 1);
      var r := EnumUpTo(list, k - 1);
      forall b {:trigger r[b]} | 0 <= b < |r| ensures r[b] < k - 1 { assert r[b] in r; }
    }
  }

  function Enum(list: seq<bool>): seq<nat> {
    EnumUpTo(list, |list|)
  }

  /** GetNextWaitingProcessorNumber: the least listed processor, or |list|. */
  function First(list: seq<bool>): (r: nat)
    ensures r <= |list|
    ensures r < |list| ==> list[r]
    ensures forall i :: 0 <= i < r ==> !list[i]
  {
    if list == [] then 0 else if list[0] then 0 else 1 + First(list[1..])
  }

  lemma {:induction false} EnumSame(a: seq<bool>, b: seq<bool>, k: nat)
    requires k <= |a| && k <= |b| && forall i :: 0 <= i < k ==> a[i] == b[i]
    ensures EnumUpTo(a, k) == EnumUpTo(b, k)
  {
    if k > 0 { EnumSame(a, b, k - 1); }
  }

  /** Striking one processor off shortens the list by one. */
  lemma {:induction false} EnumStrike(list: seq<bool>, p: nat, k: nat)
    requires p < k <= |list| && list[p]
    ensures |EnumUpTo(list[p := false], k)| == |EnumUpTo(list, k)| - 1
  {
    var list' := list[p := false];
    if p == k - 1 { EnumSame(list, list', p); }
    else { EnumStrike(list, p, k - 1); assert list'[k - 1] == list[k - 1]; }
  }

  /** Between the least listed processor and the next one there is no other. */
  lemma {:induction false} EnumNext(members: seq<bool>, p: nat, q: nat)
    requires p < q <= |members| && members[p]
    requires forall i :: p < i < q ==> !members[i]
    ensures EnumUpTo(members, q) == EnumUpTo(members, p) + [p]
  {
    if q > p + 1 { EnumNext(members, p, q - 1); }
  }

  // ----- What an AP does: ApProcWrapper -----

  /** One step of an AP: note the wake-up and enter the procedure, or leave it. */
  predicate CanStep(d: CpuData) {
    (d.state == Ready && d.signal) || d.state == Busy
  }

  function ApStep(d: CpuData): CpuData {
    if d.state == Ready then d.(state := Busy) else CpuData(Finished, NO_PROCEDURE, false)
  }

  /** d' is reached from d by the AP's own steps. */
  predicate Evolves(d: CpuData, d': CpuData) {
    || d' == d
    || (CanStep(d) && (d' == ApStep(d) || (d.state == Ready && d' == ApStep(ApStep(d)))))
  }

  function StepEvent(i: nat, d: CpuData): Event {
    if d.state == Ready then Begin(i, d.procedure) else End(i, d.procedure)
  }

  /** k steps of an AP, as far as it can go. */
  function Stepped(d: CpuData, k: nat): CpuData {
    if k == 0 then d
    else
      var e := Stepped(d, k - 1);
      if CanStep(e) then ApStep(e) else e
  }

  lemma {:induction false} SteppedEvolves(d: CpuData, k: nat)
    ensures Evolves(d, Stepped(d, k))
  {
    if k > 0 { SteppedEvolves(d, k - 1); }
  }

  lemma {:induction false} SteppedOn(d: CpuData, a: nat, b: nat)
    ensures Stepped(Stepped(d, a), b) == Stepped(d, a + b)
  {
    if b > 0 { SteppedOn(d, a, b - 1); }
  }

  /** How often processor i gets a turn. */
  function Turns(steps: seq<nat>, i: nat): nat {
    if steps == [] then 0 else Turns(steps[..|steps| - 1], i) + B2N(steps[|steps| - 1] == i)
  }

  /** When the BSP lets the others run: the turns they get at its k-th such point. */
  type Schedule = nat -> seq<nat>

  /** The turns of processor i at m points from base on. */
  function TurnsIn(sched: Schedule, base: nat, m: nat, i: nat): nat {
    if m == 0 then 0 else TurnsIn(sched, base, m - 1, i) + Turns(sched(base + m - 1), i)
  }

  // ----- ResetProcessorToIdleState -----

  /** MonitorAddr->ApLoopMode: how an AP without work waits. */
  datatype LoopMode = HaltLoop | MwaitLoop | RunLoop

  /** The INIT signal takes the AP out of its procedure and, in the halt loop, takes the pending
      start-up with it.  In the other modes StartupApSignal in memory survives. */
  function ResetOf(mode: LoopMode, d: CpuData): CpuData {
    CpuData(Idle, d.procedure, d.signal && mode != HaltLoop)
  }

  /** No AP has a wake-up that does not belong to what it is doing. */
  predicate NoStale(data: seq<CpuData>) {
    forall i {:trigger data[i]} :: 0 <= i < |data| && data[i].signal ==> data[i].state == Ready || data[i].state == Busy
  }

  // ----- The job invariant -----

  /** The history of one processor in the current StartupAllAPs job. */
  ghost predicate ApSafe(i: nat, d: CpuData, listed: bool, member: bool, job: nat, single: bool, least: bool,
                         log: multiset<Event>)
  {
    if listed then
      && member
      && log[Begin(i, job)] == B2N(d.state == Busy || d.state == Finished)
      && log[End(i, job)] == B2N(d.state == Finished)
      && d.state != Disabled
      && (d.signal ==> d.procedure == job && (d.state == Ready || d.state == Busy))
      && (d.state == Busy ==> d.signal)
      && (single && !least ==> !d.signal && (d.state == Ready || d.state == Idle))
    else
      log[Begin(i, job)] == log[End(i, job)] == B2N(member)
  }

  /** Begin and End of each of these processors, one after the other. */
  function Pairs(cpus: seq<nat>, job: nat): seq<Event> {
    if cpus == [] then []
    else Pairs(cpus[..|cpus| - 1], job) + [Begin(cpus[|cpus| - 1], job), End(cpus[|cpus| - 1], job)]
  }

  lemma PairsOfNext(members: seq<bool>, p: nat, q: nat, job: nat)
    requires p < q <= |members| && members[p]
    requires forall i :: p < i < q ==> !members[i]
    ensures Pairs(EnumUpTo(members, q), job) == Pairs(EnumUpTo(members, p), job) + [Begin(p, job), End(p, job)]
  {
    EnumNext(members, p, q);
    assert EnumUpTo(members, q)[..|EnumUpTo(members, q)| - 1] == EnumUpTo(members, p);
  }

  /** What the processor whose turn it is has logged so far. */
  function Turn(data: seq<CpuData>, list: seq<bool>, job: nat): seq<Event>
    requires |data| == |list|
  {
    var f := First(list);
    if f == |list| then []
    else if data[f].state == Busy then [Begin(f, job)]
    else if data[f].state == Finished then [Begin(f, job), End(f, job)]
    else []
  }

  /** In single-thread mode the log is exactly: every member before the one whose turn it
      is, in ascending order and one after the other, then that one's own events. */
  predicate InTurn(data: seq<CpuData>, list: seq<bool>, members: seq<bool>, job: nat, log: seq<Event>)
    requires |data| == |list| == |members|
  {
    && log == Pairs(EnumUpTo(members, First(list)), job) + Turn(data, list, job)
    && forall i :: First(list) <= i < |list| ==> list[i] == members[i]
  }

  ghost predicate AllSafe(data: seq<CpuData>, list: seq<bool>, members: seq<bool>, job: nat, single: bool,
                          log: multiset<Event>)
    requires |data| == |list| == |members|
  {
    forall i {:trigger data[i]} :: 0 <= i < |data| ==>
      ApSafe(i, data[i], list[i], members[i], job, single, i == First(list), log)
  }

  ghost predicate JobSafe(data: seq<CpuData>, list: seq<bool>, members: seq<bool>, job: nat, single: bool,
                          log: seq<Event>)
  {
    && |data| == |list| == |members|
    && AllSafe(data, list, members, job, single, multiset(log))
    && (single ==> InTurn(data, list, members, job, log))
  }

  /** A step of a listed AP, with its event, keeps the job invariant. */
  lemma StepKeepsJob(data: seq<CpuData>, list: seq<bool>, members: seq<bool>, job: nat, single: bool,
                     log: seq<Event>, i: nat)
    requires JobSafe(data, list, members, job, single, log)
    requires i < |data| && list[i] && CanStep(data[i])
    ensures JobSafe(data[i := ApStep(data[i])], list, members, job, single, log + [StepEvent(i, data[i])])
  {
    assert ApSafe(i, data[i], list[i], members[i], job, single, i == First(list), multiset(log));
    assert multiset(log + [StepEvent(i, data[i])]) == multiset(log) + multiset{StepEvent(i, data[i])};
    StepKeepsAll(data, list, members, job, single, multiset(log), i);
    if single { StepInTurn(data, list, members, job, log, i); }
  }

  lemma StepInTurn(data: seq<CpuData>, list: seq<bool>, members: seq<bool>, job: nat, log: seq<Event>, i: nat)
    requires |data| == |list| == |members| && InTurn(data, list, members, job, log)
    requires i == First(list) < |list| && CanStep(data[i]) && data[i].signal && data[i].procedure == job
    ensures InTurn(data[i := ApStep(data[i])], list, members, job, log + [StepEvent(i, data[i])])
  {
    var before := Pairs(EnumUpTo(members, i), job);
    var turn := Turn(data, list, job);
    assert Turn(data[i := ApStep(data[i])], list, job) == turn + [StepEvent(i, data[i])];
    assert (before + turn) + [StepEvent(i, data[i])] == before + (turn + [StepEvent(i, data[i])]);
  }

  lemma StepKeepsAll(data: seq<CpuData>, list: seq<bool>, members: seq<bool>, job: nat, single: bool,
                     log: multiset<Event>, i: nat)
    requires |data| == |list| == |members| && AllSafe(data, list, members, job, single, log)
    requires i < |data| && list[i] && CanStep(data[i])
    ensures AllSafe(data[i := ApStep(data[i])], list, members, job, single, log + multiset{StepEvent(i, data[i])})
  {
    var data', log' := data[i := ApStep(data[i])], log + multiset{StepEvent(i, data[i])};
    assert ApSafe(i, data[i], list[i], members[i], job, single, i == First(list), log);
    forall j | 0 <= j < |data'| ensures ApSafe(j, data'[j], list[j], members[j], job, single, j == First(list), log') {
      assert ApSafe(j, data[j], list[j], members[j], job, single, j == First(list), log);
    }
  }

  /** A step of any other AP is not part of the job. */
  lemma OtherStepKeepsJob(data: seq<CpuData>, list: seq<bool>, members: seq<bool>, job: nat, single: bool,
                          log: seq<Event>, i: nat, d: CpuData)
    requires JobSafe(data, list, members, job, single, log)
    requires i < |data| && !list[i]
    ensures JobSafe(data[i := d], list, members, job, single, log)
  {
    assert AllSafe(data[i := d], list, members, job, single, multiset(log)) by {
      assert ApSafe(i, data[i], list[i], members[i], job, single, i == First(list), multiset(log));
    }
  }

  /** Taking a finished AP off the list keeps the job invariant. */
  lemma StrikeKeepsJob(data: seq<CpuData>, list: seq<bool>, members: seq<bool>, job: nat, single: bool,
                       log: seq<Event>, p: nat)
    requires JobSafe(data, list, members, job, single, log)
    requires p < |data| && list[p] && data[p].state == Finished
    ensures JobSafe(data, list[p := false], members, job, single, log)
    ensures single ==> First(list) == p < First(list[p := false])
  {
    assert ApSafe(p, data[p], list[p], members[p], job, single, p == First(list), multiset(log));
    StrikeKeepsAll(data, list, members, job, single, multiset(log), p);
    if single {
      OthersWait(data, list, members, job, multiset(log));
      StrikeTurn(data, list, members, job, log, p);
    }
  }

  lemma StrikeKeepsAll(data: seq<CpuData>, list: seq<bool>, members: seq<bool>, job: nat, single: bool,
                       log: multiset<Event>, p: nat)
    requires |data| == |list| == |members| && AllSafe(data, list, members, job, single, log)
    requires p < |data| && list[p] && data[p].state == Finished
    ensures AllSafe(data, list[p := false], members, job, single, log)
  {
    var list' := list[p := false];
    assert ApSafe(p, data[p], list[p], members[p], job, single, p == First(list), log);
    forall j | 0 <= j < |data| ensures ApSafe(j, data[j], list'[j], members[j], job, single, j == First(list'), log) {
      assert ApSafe(j, data[j], list[j], members[j], job, single, j == First(list), log);
    }
  }

  lemma OthersWait(data: seq<CpuData>, list: seq<bool>, members: seq<bool>, job: nat, log: multiset<Event>)
    requires |data| == |list| == |members| && AllSafe(data, list, members, job, true, log)
    ensures forall i :: First(list) < i < |list| && list[i] ==> data[i].state == Ready || data[i].state == Idle
  {
    forall i | First(list) < i < |list| && list[i] ensures data[i].state == Ready || data[i].state == Idle {
      assert ApSafe(i, data[i], list[i], members[i], job, true, i == First(list), log);
    }
  }

  lemma StrikeTurn(data: seq<CpuData>, list: seq<bool>, members: seq<bool>, job: nat, log: seq<Event>, p: nat)
    requires |data| == |list| == |members| && InTurn(data, list, members, job, log)
    requires p == First(list) < |list| && data[p].state == Finished
    requires forall i :: p < i < |list| && list[i] ==> data[i].state == Ready || data[i].state == Idle
    ensures InTurn(data, list[p := false], members, job, log) && p < First(list[p := false])
  {
    var list' := list[p := false];
    var q := First(list');
    assert p < q;
    assert forall i :: p < i < |list| ==> list'[i] == list[i] == members[i];
    PairsOfNext(members, p, q, job);
    assert Turn(data, list, job) == [Begin(p, job), End(p, job)];
    assert Turn(data, list', job) == [];
    assert log == Pairs(EnumUpTo(members, q), job) + [];
  }
}
