/** The BSP's steps that also touch one AP's entry keep the invariant: releasing its Run,
    scheduling a procedure on it, waiting for its Busy lock. */
module SmmRendezvousTargetSteps {
  import opened SmmRendezvous
  import opened SmmRendezvousInvariant
  import opened SmmRendezvousSteps

  // ----- ReleaseAllAPs -----

  lemma KeepReleaseVisit(s: State, i: nat)
    requires Inv(s) && i < |s.cpus| && s.cpus[i].pc.BspRelease? && 0 < s.cpus[i].pc.left <= |s.cpus|
    ensures Inv(ReleaseAps(s, i))
  {
    VisitScalars(s, i);
    VisitTarget(s, i, s.cpus[i].pc.left - 1);
    VisitCpus(s, i, s.cpus[i].pc.left - 1);
    VisitLog(s, i);
  }

  lemma VisitScalars(s: State, i: nat)
    requires Scalars(s) && CpusOk(s) && i < |s.cpus| && s.cpus[i].pc.BspRelease? && 0 < s.cpus[i].pc.left <= |s.cpus|
    ensures Scalars(ReleaseAps(s, i)) && s.hist.leader == i == s.sh.bspIndex && 1 <= s.cpus[i].pc.k <= 5
    ensures Ok(ReleaseAps(s, i), i)
  {
    assert Ok(s, i);
  }

  lemma VisitLog(s: State, i: nat)
    requires LogOk(s) && i < |s.cpus| && s.cpus[i].pc.BspRelease? && 0 < s.cpus[i].pc.left <= |s.cpus|
    requires s.hist.leader == i
    ensures LogOk(ReleaseAps(s, i))
  {
    LogFrame(s, ReleaseAps(s, i), i);
  }

  /** At every ReleaseAllAPs the Present flag tells exactly whether the AP is in the run. */
  lemma VisitOne(v: View, t: nat, c: Cpu, member: bool, arrived: bool)
    requires CpuOk(v, t, c, member, arrived) && t != v.leader && v.leader >= 0
    requires v.lpc.BspRelease? && 1 <= v.lpc.k <= 5 && v.lpc.left == t + 1
    ensures c.present == member && c.run < LOCKED
    ensures CpuOk(v.(lpc := BspRelease(v.lpc.k, t)), t,
                  if c.present then c.(run := Released(c.run)) else c, member, arrived)
  {}

  lemma VisitOther(v: View, t: nat, j: nat, c: Cpu, member: bool, arrived: bool)
    requires CpuOk(v, j, c, member, arrived) && j != v.leader && j != t
    requires v.lpc.BspRelease? && v.lpc.left == t + 1
    ensures CpuOk(v.(lpc := BspRelease(v.lpc.k, t)), j, c, member, arrived)
  {}

  lemma VisitTarget(s: State, i: nat, t: nat)
    requires CpusOk(s) && i < |s.cpus| && i == s.hist.leader == s.sh.bspIndex
    requires s.cpus[i].pc.BspRelease? && s.cpus[i].pc.left == t + 1 <= |s.cpus| && 1 <= s.cpus[i].pc.k <= 5
    ensures t != i ==> Ok(ReleaseAps(s, i), t)
  {
    var v := ViewOf(s);
    assert ViewOf(ReleaseAps(s, i)) == v.(lpc := BspRelease(s.cpus[i].pc.k, t));
    assert Ok(s, t);
    if t != i { VisitOne(v, t, s.cpus[t], t in s.hist.members, t in s.hist.arrived); }
  }

  lemma VisitCpus(s: State, i: nat, t: nat)
    requires CpusOk(s) && i < |s.cpus| && i == s.hist.leader == s.sh.bspIndex
    requires s.cpus[i].pc.BspRelease? && s.cpus[i].pc.left == t + 1 <= |s.cpus|
    requires Ok(ReleaseAps(s, i), i) && Ok(ReleaseAps(s, i), t)
    ensures CpusOk(ReleaseAps(s, i))
  {
    VisitFrame(s, ReleaseAps(s, i), i, t);
  }

  /** Only the entries of the BSP and of the AP it visits change. */
  lemma VisitFrame(s: State, s': State, i: nat, t: nat)
    requires CpusOk(s) && i < |s.cpus| == |s'.cpus| && i == s.hist.leader
    requires s.cpus[i].pc.BspRelease? && s.cpus[i].pc.left == t + 1 <= |s.cpus|
    requires ViewOf(s') == ViewOf(s).(lpc := BspRelease(s.cpus[i].pc.k, t))
    requires s'.hist.members == s.hist.members && s'.hist.arrived == s.hist.arrived
    requires forall j {:trigger s'.cpus[j]} :: 0 <= j < |s.cpus| && j != i && j != t ==> s'.cpus[j] == s.cpus[j]
    requires Ok(s', i) && Ok(s', t)
    ensures CpusOk(s')
  {
    forall j | 0 <= j < |s'.cpus| ensures Ok(s', j) {
      if j != i && j != t { VisitOther(ViewOf(s), t, j, s.cpus[j], j in s.hist.members, j in s.hist.arrived); }
    }
  }

  // ----- Steps between the third barrier and BspLeave -----

  /** The BSP moves to pc and replaces the entry of AP t. */
  function WorkOn(s: State, i: nat, pc: Pc, t: nat, c: Cpu): State
    requires i < |s.cpus| && t < |s.cpus|
  {
    Goto(Put(s, t, c), i, pc)
  }

  /** The moves of the BSP that concern AP t. */
  predicate WorkMove(pc: Pc, pc': Pc, t: nat) {
    || (pc.BspCore? && pc'.BspFill? && pc'.target == t)
    || (pc.BspFill? && pc.target == t && pc'.BspPost? && pc'.target == t)
    || (pc.BspPost? && pc.target == t && (pc'.BspCore? || (pc'.BspBlock? && pc'.target == t)))
    || (pc.BspBlock? && pc.target == t && pc'.BspUnblock? && pc'.target == t)
    || (pc.BspUnblock? && pc.target == t && pc'.BspCore?)
    || (pc == BspDrain(t + 1, false) && pc' == BspDrain(t + 1, true))
    || (pc == BspDrain(t + 1, true) && pc' == BspDrain(t, false))
  }

  lemma WorkMoveOther(pc: Pc, pc': Pc, t: nat, j: nat, c: Cpu)
    requires WorkMove(pc, pc', t) && JobOk(pc, j, c) && j != t
    ensures JobOk(pc', j, c)
  {}

  /** The conditions under which such a step keeps the invariant. */
  predicate WorkStep(s: State, i: nat, pc: Pc, t: nat, c: Cpu) {
    && i < |s.cpus| && t < |s.cpus| && i == s.hist.leader && t != i && t in s.hist.members
    && WorkMove(s.cpus[i].pc, pc, t)
    && c.pc == s.cpus[t].pc && c.present == s.cpus[t].present && c.signals == s.cpus[t].signals
    && JobOk(pc, t, c)
  }

  lemma KeepWorkStep(s: State, i: nat, pc: Pc, t: nat, c: Cpu)
    requires Inv(s) && WorkStep(s, i, pc, t, c)
    ensures Inv(WorkOn(s, i, pc, t, c))
  {
    WorkScalars(s, i, pc, t, c);
    WorkCpus(s, i, pc, t, c);
    LogFrame(s, WorkOn(s, i, pc, t, c), i);
  }

  lemma WorkScalars(s: State, i: nat, pc: Pc, t: nat, c: Cpu)
    requires Scalars(s) && CpusOk(s) && WorkStep(s, i, pc, t, c)
    ensures Scalars(WorkOn(s, i, pc, t, c)) && Ok(WorkOn(s, i, pc, t, c), i)
    ensures SameEvents(s.cpus[i].pc, pc) && Bound(s.cpus[i].pc) == Bound(pc)
  {
    assert Ok(s, i);
  }

  lemma WorkCpus(s: State, i: nat, pc: Pc, t: nat, c: Cpu)
    requires CpusOk(s) && WorkStep(s, i, pc, t, c) && Ok(WorkOn(s, i, pc, t, c), i)
    ensures CpusOk(WorkOn(s, i, pc, t, c))
  {
    var s' := WorkOn(s, i, pc, t, c);
    var v := ViewOf(s);
    assert ViewOf(s') == v.(lpc := pc);
    forall j | 0 <= j < |s'.cpus| ensures Ok(s', j) {
      if j != i { WorkOther(v, pc, t, j, s.cpus[j], s'.cpus[j], j in s.hist.members, j in s.hist.arrived); }
    }
  }

  lemma WorkOther(v: View, pc: Pc, t: nat, j: nat, c: Cpu, c': Cpu, member: bool, arrived: bool)
    requires CpuOk(v, j, c, member, arrived) && j != v.leader && v.leader >= 0
    requires WorkMove(v.lpc, pc, t)
    requires c'.pc == c.pc && c'.present == c.present && c'.signals == c.signals
    requires if j == t then member && JobOk(pc, t, c') else c' == c
    ensures CpuOk(v.(lpc := pc), j, c', member, arrived)
  {
    if member && j != t { WorkMoveOther(v.lpc, pc, t, j, c); }
  }

  /** In the work phase every member but the BSP satisfies JobOk, and Present is
      membership. */
  lemma WorkMember(s: State, i: nat, t: nat)
    requires Scalars(s) && CpusOk(s) && i < |s.cpus| && t < |s.cpus| && t != i && InWork(s.cpus[i].pc)
    ensures i == s.hist.leader && BspOk(|s.cpus|, s.cpus[i])
    ensures s.cpus[t].present == (t in s.hist.members)
    ensures t in s.hist.members ==> JobOk(s.cpus[i].pc, t, s.cpus[t])
  {
    assert Ok(s, i);
    assert Ok(s, t);
  }

  lemma KeepCall(s: State, i: nat, ch: Choice)
    requires Inv(s) && i < |s.cpus| && s.cpus[i].pc.BspCore? && ch.call
    ensures Inv(Core(s, i, ch))
  {
    if Accepts(s, i, ch.target, ch.removing) {
      var t := s.cpus[ch.target];
      var c := t.(busy := true, given := t.given + [ch.newJob]);
      var pc := BspFill(ch.target, ch.newJob, ch.blocking);
      assert WorkStep(s, i, pc, ch.target, c) by { WorkMember(s, i, ch.target); }
      KeepWorkStep(s, i, pc, ch.target, c);
    }
  }

  lemma TargetFits(s: State, i: nat)
    requires Scalars(s) && CpusOk(s) && i < |s.cpus|
    requires s.cpus[i].pc.BspFill? || s.cpus[i].pc.BspPost? || s.cpus[i].pc.BspBlock? || s.cpus[i].pc.BspUnblock?
    ensures s.cpus[i].pc.target < |s.cpus| && s.cpus[i].pc.target != i && s.cpus[i].pc.target in s.hist.members
    ensures i == s.hist.leader && JobOk(s.cpus[i].pc, s.cpus[i].pc.target, s.cpus[s.cpus[i].pc.target])
  {
    assert Ok(s, i);
    WorkMember(s, i, s.cpus[i].pc.target);
  }

  lemma KeepFill(s: State, i: nat)
    requires Inv(s) && i < |s.cpus| && s.cpus[i].pc.BspFill? && s.cpus[i].pc.target < |s.cpus|
    ensures Inv(FillJob(s, i))
  {
    var pc := s.cpus[i].pc;
    var c := s.cpus[pc.target].(job := pc.newJob);
    assert WorkStep(s, i, BspPost(pc.target, pc.blocking), pc.target, c) by { TargetFits(s, i); }
    KeepWorkStep(s, i, BspPost(pc.target, pc.blocking), pc.target, c);
  }

  lemma KeepPost(s: State, i: nat)
    requires Inv(s) && i < |s.cpus| && s.cpus[i].pc.BspPost? && s.cpus[i].pc.target < |s.cpus|
    ensures Inv(PostJob(s, i))
  {
    var pc := s.cpus[i].pc;
    var t := s.cpus[pc.target];
    var c := t.(run := Released(t.run));
    var after := if pc.blocking then BspBlock(pc.target) else BspCore;
    assert WorkStep(s, i, after, pc.target, c) by { TargetFits(s, i); }
    KeepWorkStep(s, i, after, pc.target, c);
  }

  lemma KeepBlock(s: State, i: nat)
    requires Inv(s) && i < |s.cpus| && s.cpus[i].pc.BspBlock? && s.cpus[i].pc.target < |s.cpus|
    requires !s.cpus[s.cpus[i].pc.target].busy
    ensures Inv(BlockOn(s, i))
  {
    var t := s.cpus[i].pc.target;
    var c := s.cpus[t].(busy := true);
    assert WorkStep(s, i, BspUnblock(t), t, c) by { TargetFits(s, i); }
    KeepWorkStep(s, i, BspUnblock(t), t, c);
  }

  lemma KeepUnblock(s: State, i: nat)
    requires Inv(s) && i < |s.cpus| && s.cpus[i].pc.BspUnblock? && s.cpus[i].pc.target < |s.cpus|
    ensures Inv(Unblock(s, i))
  {
    var t := s.cpus[i].pc.target;
    var c := s.cpus[t].(busy := false);
    assert WorkStep(s, i, BspCore, t, c) by { TargetFits(s, i); }
    KeepWorkStep(s, i, BspCore, t, c);
  }

  // ----- The drain loop -----

  lemma KeepDrainTake(s: State, i: nat)
    requires Inv(s) && i < |s.cpus| && s.cpus[i].pc.BspDrain? && 0 < s.cpus[i].pc.left <= |s.cpus| && !s.cpus[i].pc.held
    requires Drains(s, i, s.cpus[i].pc.left - 1) && !s.cpus[s.cpus[i].pc.left - 1].busy
    ensures Inv(Drain(s, i))
  {
    var t := s.cpus[i].pc.left - 1;
    var c := s.cpus[t].(busy := true);
    DrainTakeOk(s, i);
    assert Drain(s, i) == WorkOn(s, i, BspDrain(t + 1, true), t, c);
    KeepWorkStep(s, i, BspDrain(t + 1, true), t, c);
  }

  lemma DrainTakeOk(s: State, i: nat)
    requires Scalars(s) && CpusOk(s) && i < |s.cpus|
    requires s.cpus[i].pc.BspDrain? && 0 < s.cpus[i].pc.left <= |s.cpus| && !s.cpus[i].pc.held
    requires Drains(s, i, s.cpus[i].pc.left - 1) && !s.cpus[s.cpus[i].pc.left - 1].busy
    ensures var t := s.cpus[i].pc.left - 1;
            WorkStep(s, i, BspDrain(t + 1, true), t, s.cpus[t].(busy := true))
  {
    WorkMember(s, i, s.cpus[i].pc.left - 1);
  }

  lemma KeepDrainFree(s: State, i: nat)
    requires Inv(s) && i < |s.cpus| && s.cpus[i].pc.BspDrain? && 0 < s.cpus[i].pc.left <= |s.cpus| && s.cpus[i].pc.held
    ensures Inv(Drain(s, i))
  {
    var t := s.cpus[i].pc.left - 1;
    var c := s.cpus[t].(busy := false);
    DrainFreeOk(s, i);
    assert Drain(s, i) == WorkOn(s, i, BspDrain(t, false), t, c);
    KeepWorkStep(s, i, BspDrain(t, false), t, c);
  }

  lemma DrainFreeOk(s: State, i: nat)
    requires Scalars(s) && CpusOk(s) && i < |s.cpus|
    requires s.cpus[i].pc.BspDrain? && 0 < s.cpus[i].pc.left <= |s.cpus| && s.cpus[i].pc.held
    ensures var t := s.cpus[i].pc.left - 1;
            WorkStep(s, i, BspDrain(t, false), t, s.cpus[t].(busy := false))
  {
    assert Ok(s, i);
    WorkMember(s, i, s.cpus[i].pc.left - 1);
  }

  lemma KeepDrainSkip(s: State, i: nat)
    requires Inv(s) && i < |s.cpus| && s.cpus[i].pc.BspDrain? && s.cpus[i].pc.left <= |s.cpus| && !s.cpus[i].pc.held
    requires s.cpus[i].pc.left > 0 ==> !Drains(s, i, s.cpus[i].pc.left - 1)
    ensures Inv(Drain(s, i))
  {
    DrainSkipScalars(s, i);
    DrainSkipCpus(s, i);
    LogFrame(s, Drain(s, i), i);
  }

  lemma DrainSkipScalars(s: State, i: nat)
    requires Scalars(s) && CpusOk(s) && i < |s.cpus| && s.cpus[i].pc.BspDrain? && s.cpus[i].pc.left <= |s.cpus|
    requires !s.cpus[i].pc.held
    requires s.cpus[i].pc.left > 0 ==> !Drains(s, i, s.cpus[i].pc.left - 1)
    ensures Scalars(Drain(s, i)) && i == s.hist.leader && Ok(Drain(s, i), i)
  {
    assert Ok(s, i);
  }

  lemma DrainSkipCpus(s: State, i: nat)
    requires CpusOk(s) && i < |s.cpus| && s.cpus[i].pc.BspDrain? && s.cpus[i].pc.left <= |s.cpus| && !s.cpus[i].pc.held
    requires s.cpus[i].pc.left > 0 ==> !Drains(s, i, s.cpus[i].pc.left - 1)
    requires i == s.hist.leader && Ok(Drain(s, i), i)
    ensures CpusOk(Drain(s, i))
  {
    var s' := Drain(s, i);
    forall j | 0 <= j < |s'.cpus| ensures Ok(s', j) { assert Ok(s, j); }
  }
}
