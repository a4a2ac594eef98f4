/** WaitForSemaphore, ReleaseSemaphore and LockdownSemaphore as they are written: a load
    into a local Value, a local test, and a compare-exchange that may fail and start over.
    The machine below replaces every semaphore operation of SmmRendezvous by such a loop,
    one shared access per step; projecting the local Values away gives a run of
    SmmRendezvous, so everything proved there holds here. */
module SmmSemaphoreCas {
  import opened SmmRendezvous
  import opened SmmRendezvousInvariant
  import opened SmmRendezvousSteps
  import opened SmmRendezvousTargetSteps
  import opened SmmRendezvousTheorems

  datatype Sem = CounterSem | RunSem(cpu: nat)

  datatype Op = NoOp | ReleaseOp(sem: Sem) | WaitOp(sem: Sem) | LockOp

  datatype Local = Empty | Loaded(op: Op, value: nat)

  datatype CasState = CasState(s: State, local: seq<Local>)

  predicate SemFits(s: State, sem: Sem) {
    sem.RunSem? ==> sem.cpu < |s.cpus|
  }

  function Value(s: State, sem: Sem): nat
    requires SemFits(s, sem)
  {
    match sem
    case CounterSem => s.sh.counter
    case RunSem(j) => s.cpus[j].run
  }

  function Store(s: State, sem: Sem, v: nat): State
    requires SemFits(s, sem)
  {
    match sem
    case CounterSem => s.(sh := s.sh.(counter := v))
    case RunSem(j) => Put(s, j, s.cpus[j].(run := v))
  }

  function SemOf(op: Op): Sem
    requires !op.NoOp?
  {
    if op.LockOp? then CounterSem else op.sem
  }

  /** The semaphore loop processor i is in, if it is in one.  An expired timer's wait on
      Counter is not: it is taken together with the test of InsideSmm. */
  function OpOf(s: State, i: nat): Op
    requires i < |s.cpus|
  {
    match s.cpus[i].pc
    case Sampled(_) => ReleaseOp(CounterSem)
    case ApSignal(b, _) => if 0 <= b < |s.cpus| then ReleaseOp(RunSem(b)) else NoOp
    case ApAwait(_, _) => WaitOp(RunSem(i))
    case BspWait(_, left) => if left > 0 then WaitOp(RunSem(i)) else NoOp
    case BspRelease(_, left) =>
      if 0 < left <= |s.cpus| && left - 1 != s.sh.bspIndex && s.cpus[left - 1].present
      then ReleaseOp(RunSem(left - 1)) else NoOp
    case BspPost(t, _) => if t < |s.cpus| then ReleaseOp(RunSem(t)) else NoOp
    case BspLock => LockOp
    case _ => NoOp
  }

  /** What processor i does, apart from the exchanged memory word, when its loop has ended
      with this Value. */
  function Proceed(s: State, i: nat, value: nat): State
    requires i < |s.cpus| && !OpOf(s, i).NoOp?
  {
    var c := s.cpus[i];
    match c.pc
    case Sampled(bip) =>
      Put(s, i, c.(pc := Counted(bip), signals := 0)).(hist := s.hist.(members := s.hist.members + {i}))
    case ApSignal(b, k) =>
      Put(s, i, c.(pc := if k == 6 then Done else ApAwait(b, k), signals := c.signals + 1))
        .(hist := s.hist.(arrived := s.hist.arrived + {i}))
    case ApAwait(b, k) => Goto(s, i, if k == 3 then ApCheck(b) else ApAct(b, k))
    case BspWait(k, left) => Goto(s, i, BspWait(k, left - 1))
    case BspRelease(k, left) => Goto(s, i, BspRelease(k, left - 1))
    case BspPost(t, blocking) => Goto(s, i, if blocking then BspBlock(t) else BspCore)
    case BspLock =>
      var apCount := if value == 0 then LOCKED else value - 1;
      Put(s, i, c.(pc := BspWait(1, apCount), apCount := apCount))
    case _ => s
  }

  /** ReleaseSemaphore found the word at its maximum and answers 0. */
  function Refused(s: State, i: nat): State
    requires i < |s.cpus| && OpOf(s, i).ReleaseOp?
  {
    if s.cpus[i].pc.Sampled? then Goto(s, i, Late) else Proceed(s, i, LOCKED)
  }

  /** The value the compare-exchange writes, computed from the local Value. */
  function Exchanged(op: Op, value: nat): nat
    requires !op.NoOp? && (op.WaitOp? ==> value > 0)
  {
    match op
    case ReleaseOp(_) => value + 1
    case WaitOp(_) => value - 1
    case LockOp => LOCKED
  }

  /** May the loop go on to its compare-exchange with this Value? */
  predicate Passes(op: Op, value: nat) {
    (op.ReleaseOp? ==> value != LOCKED) && (op.WaitOp? ==> value != 0)
  }

  predicate Load(c: CasState, c': CasState, i: nat, ch: Choice)
    requires i < |c.s.cpus| == |c.local|
  {
    var op := OpOf(c.s, i);
    if op.NoOp? then Enabled(c.s, i, ch) && c' == c.(s := Next(c.s, i, ch))
    else
      var v := Value(c.s, SemOf(op));
      if Passes(op, v) then c' == c.(local := c.local[i := Loaded(op, v)])
      else if op.ReleaseOp? then c' == c.(s := Refused(c.s, i))
      else c' == c
  }

  predicate CompareExchange(c: CasState, c': CasState, i: nat)
    requires i < |c.s.cpus| == |c.local| && c.local[i].Loaded?
  {
    var op, v := c.local[i].op, c.local[i].value;
    && !op.NoOp? && Passes(op, v) && SemFits(c.s, SemOf(op))
    && var next := c.local[i := Empty];
       if Value(c.s, SemOf(op)) == v then
         var stored := Store(c.s, SemOf(op), Exchanged(op, v));
         !OpOf(stored, i).NoOp? && c' == CasState(Proceed(stored, i, v), next)
       else c' == c.(local := next)
  }

  predicate CasStep(c: CasState, c': CasState, i: nat, ch: Choice) {
    && i < |c.s.cpus| == |c.local|
    && (if c.local[i].Empty? then Load(c, c', i, ch) else CompareExchange(c, c', i))
  }

  ghost predicate CasNext(c: CasState, c': CasState) {
    exists i: nat, ch: Choice :: CasStep(c, c', i, ch)
  }

  ghost predicate CasReachableIn(c: CasState, n: nat)
    decreases n
  {
    if n == 0 then
      Initial(c.s) && |c.local| == |c.s.cpus| && forall i :: 0 <= i < |c.local| ==> c.local[i].Empty?
    else
      exists p: CasState :: CasReachableIn(p, n - 1) && CasNext(p, c)
  }

  // ----- Refinement -----

  /** A pending compare-exchange belongs to the loop its processor is in, and its Value
      passed the loop's test. */
  predicate LocalOk(s: State, i: nat, l: Local)
    requires i < |s.cpus|
  {
    l.Loaded? ==> !l.op.NoOp? && OpOf(s, i) == l.op && Passes(l.op, l.value)
  }

  predicate LocalsOk(c: CasState) {
    && |c.local| == |c.s.cpus|
    && forall i {:trigger c.local[i]} :: 0 <= i < |c.local| ==> LocalOk(c.s, i, c.local[i])
  }

  /** A successful compare-exchange is the atomic operation. */
  lemma SwapIsNext(s: State, i: nat, ch: Choice)
    requires i < |s.cpus| && !OpOf(s, i).NoOp?
    requires Passes(OpOf(s, i), Value(s, SemOf(OpOf(s, i))))
    requires s.cpus[i].pc.ApSignal? ==> s.cpus[i].pc.bsp != i
    requires s.cpus[i].pc.BspPost? ==> s.cpus[i].pc.target != i
    requires s.cpus[i].pc.BspRelease? ==> s.cpus[i].pc.left - 1 != i
    ensures var sem := SemOf(OpOf(s, i));
            var stored := Store(s, sem, Exchanged(OpOf(s, i), Value(s, sem)));
            && OpOf(stored, i) == OpOf(s, i)
            && Enabled(s, i, ch)
            && Proceed(stored, i, Value(s, sem)) == Next(s, i, ch)
  {
    var sem := SemOf(OpOf(s, i));
    var stored := Store(s, sem, Exchanged(OpOf(s, i), Value(s, sem)));
    assert Proceed(stored, i, Value(s, sem)).cpus == Next(s, i, ch).cpus;
  }

  /** A refused release is the atomic operation on a full semaphore. */
  lemma RefusalIsNext(s: State, i: nat, ch: Choice)
    requires i < |s.cpus| && OpOf(s, i).ReleaseOp? && Value(s, OpOf(s, i).sem) == LOCKED
    requires s.cpus[i].pc.ApSignal? ==> s.cpus[i].pc.bsp != i
    ensures Enabled(s, i, ch) && Refused(s, i) == Next(s, i, ch)
  {
    assert Refused(s, i).cpus == Next(s, i, ch).cpus;
  }

  /** The part of the invariant that is not about the log. */
  predicate Sane(s: State) { Scalars(s) && CpusOk(s) }

  /** No processor waits for a token from itself. */
  lemma NotItself(s: State, i: nat)
    requires Sane(s) && i < |s.cpus|
    ensures s.cpus[i].pc.ApSignal? ==> s.cpus[i].pc.bsp != i
    ensures s.cpus[i].pc.BspPost? ==> s.cpus[i].pc.target != i
    ensures s.cpus[i].pc.BspRelease? ==> s.sh.bspIndex == i
  {
    assert Ok(s, i);
  }

  /** A step of another processor does not change the loop processor i is in. */
  lemma OthersKeepOp(s: State, j: nat, ch: Choice, i: nat)
    requires Sane(s) && Enabled(s, j, ch) && Sane(Next(s, j, ch)) && i < |s.cpus| && i != j
    ensures |Next(s, j, ch).cpus| == |s.cpus| && OpOf(Next(s, j, ch), i) == OpOf(s, i)
  {
    OthersKeepPc(s, j, ch, i);
    if s.cpus[i].pc.BspRelease? {
      BspIsLeader(s, i);
      SameMembers(s, j, ch, i);
    }
    SameLoop(s, Next(s, j, ch), i);
  }

  lemma SameLoop(s: State, s': State, i: nat)
    requires Sane(s) && Sane(s') && i < |s.cpus| == |s'.cpus| && s'.cpus[i].pc == s.cpus[i].pc
    requires s.cpus[i].pc.BspRelease? ==> s'.hist.members == s.hist.members
    ensures OpOf(s', i) == OpOf(s, i)
  {
    if s.cpus[i].pc.BspRelease? && 0 < s.cpus[i].pc.left <= |s.cpus| {
      IndexStays(s, i);
      IndexStays(s', i);
      if s.cpus[i].pc.left - 1 != i { SameVisit(s, s', i, s.cpus[i].pc.left - 1); }
    }
    SameOp(s, s', i);
  }

  lemma SameOp(s: State, s': State, i: nat)
    requires i < |s.cpus| == |s'.cpus| && s'.cpus[i].pc == s.cpus[i].pc
    requires s.cpus[i].pc.BspRelease? && 0 < s.cpus[i].pc.left <= |s.cpus| ==>
               s'.sh.bspIndex == s.sh.bspIndex == i
               && (s.cpus[i].pc.left - 1 != i ==>
                     s'.cpus[s.cpus[i].pc.left - 1].present == s.cpus[s.cpus[i].pc.left - 1].present)
    ensures OpOf(s', i) == OpOf(s, i)
  {}

  lemma IndexStays(s: State, i: nat)
    requires Sane(s) && i < |s.cpus| && s.cpus[i].pc.BspRelease?
    ensures s.sh.bspIndex == i
  {
    NotItself(s, i);
  }

  /** ReleaseAllAPs goes on to visit the same AP. */
  lemma SameVisit(s: State, s': State, i: nat, t: nat)
    requires Sane(s) && Sane(s') && i < |s.cpus| == |s'.cpus| && s'.hist.members == s.hist.members
    requires s'.cpus[i].pc == s.cpus[i].pc && s.cpus[i].pc.BspRelease? && s.cpus[i].pc.left == t + 1 <= |s.cpus|
    requires t != i
    ensures s'.cpus[t].present == s.cpus[t].present
  {
    PresentIsMember(s, i, t);
    PresentIsMember(s', i, t);
  }

  lemma OthersKeepPc(s: State, j: nat, ch: Choice, i: nat)
    requires Enabled(s, j, ch) && i < |s.cpus| && i != j
    ensures |Next(s, j, ch).cpus| == |s.cpus| && Next(s, j, ch).cpus[i].pc == s.cpus[i].pc
  {}

  lemma PresentIsMember(s: State, i: nat, t: nat)
    requires Sane(s) && i < |s.cpus| && s.cpus[i].pc.BspRelease? && s.cpus[i].pc.left == t + 1 <= |s.cpus| && t != i
    ensures s.cpus[t].present <==> t in s.hist.members
  {
    BspIsLeader(s, i);
    assert Ok(s, i);
    assert Ok(s, t);
    VisitOne(ViewOf(s), t, s.cpus[t], t in s.hist.members, t in s.hist.arrived);
  }

  lemma SameMembers(s: State, j: nat, ch: Choice, i: nat)
    requires Sane(s) && Enabled(s, j, ch) && i == s.hist.leader && i != j && BspLocked(LeaderPc(s))
    ensures Next(s, j, ch).hist.members == s.hist.members
  {
    assert Ok(s, j);
  }

  lemma CasStepRefines(c: CasState, c': CasState, i: nat, ch: Choice)
    requires Inv(c.s) && LocalsOk(c) && CasStep(c, c', i, ch)
    ensures c'.s == c.s || (Enabled(c.s, i, ch) && c'.s == Next(c.s, i, ch))
    ensures |c'.local| == |c.local| && (c'.s == c.s ==> LocalOk(c.s, i, c'.local[i]))
    ensures c'.local[i].Loaded? ==> c'.s == c.s
    ensures forall j :: 0 <= j < |c.local| && j != i ==> c'.local[j] == c.local[j]
  {
    NotItself(c.s, i);
    assert LocalOk(c.s, i, c.local[i]);
    var op := OpOf(c.s, i);
    if c.local[i].Empty? {
      if op.ReleaseOp? && !Passes(op, Value(c.s, SemOf(op))) { RefusalIsNext(c.s, i, ch); }
    } else if Value(c.s, SemOf(op)) == c.local[i].value {
      SwapIsNext(c.s, i, ch);
    }
  }

  lemma CasStepKeepsLocals(c: CasState, c': CasState, i: nat, ch: Choice)
    requires Inv(c.s) && LocalsOk(c) && CasStep(c, c', i, ch)
    ensures Inv(c'.s) && LocalsOk(c')
  {
    CasStepRefines(c, c', i, ch);
    if c'.s != c.s {
      StepKeepsInv(c.s, i, ch);
      OthersKeepLocals(c.s, i, ch, c.local, c'.local);
    }
  }

  lemma OthersKeepLocals(s: State, i: nat, ch: Choice, local: seq<Local>, local': seq<Local>)
    requires Inv(s) && Enabled(s, i, ch) && Inv(Next(s, i, ch))
    requires LocalsOk(CasState(s, local)) && |local'| == |local| && local'[i].Empty?
    requires forall j :: 0 <= j < |local| && j != i ==> local'[j] == local[j]
    ensures LocalsOk(CasState(Next(s, i, ch), local'))
  {
    SameSize(s, i, ch);
    forall j | 0 <= j < |local'| ensures LocalOk(Next(s, i, ch), j, local'[j]) {
      if j != i {
        assert LocalOk(s, j, local[j]);
        OthersKeepOp(s, i, ch, j);
      }
    }
  }

  lemma SameSize(s: State, i: nat, ch: Choice)
    requires Enabled(s, i, ch)
    ensures |Next(s, i, ch).cpus| == |s.cpus|
  {}

  /** Every state the compare-exchange machine reaches projects to a state the atomic
      machine reaches. */
  lemma {:induction false} CasRefines(c: CasState, n: nat)
    requires CasReachableIn(c, n)
    ensures Reachable(c.s) && LocalsOk(c)
    decreases n
  {
    if n == 0 {
      assert ReachableIn(c.s, 0);
    } else {
      var p: CasState :| CasReachableIn(p, n - 1) && CasNext(p, c);
      var i: nat, ch: Choice :| CasStep(p, c, i, ch);
      CasRefines(p, n - 1);
      ReachableInv(p.s);
      CasStepRefines(p, c, i, ch);
      CasStepKeepsLocals(p, c, i, ch);
      if c.s != p.s { OneMoreStep(p.s, c.s, i, ch); }
    }
  }

  lemma OneMoreStep(p: State, s: State, i: nat, ch: Choice)
    requires Reachable(p) && Enabled(p, i, ch) && s == Next(p, i, ch)
    ensures Reachable(s)
  {
    var m: nat :| ReachableIn(p, m);
    assert Step(p, s);
    assert ReachableIn(s, m + 1);
  }
}
