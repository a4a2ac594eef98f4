/** The SMM CPU service: pending BSP switches, hot additions and hot removals, and their
    execution after the SMI handlers have returned. */
module CpuHotPlug {

  const INVALID_APIC_ID: nat := 0xFFFF_FFFF_FFFF_FFFF

  datatype Operation = None | Add | Remove | SwitchBsp

  datatype Status = Success | Unsupported | InvalidParameter | NotFound | AlreadyStarted

  /** The slots that hold a processor. */
  function Present(ids: seq<nat>): nat {
    if ids == [] then 0 else Present(ids[..|ids| - 1]) + (if ids[|ids| - 1] != INVALID_APIC_ID then 1 else 0)
  }

  /** The slots with a pending operation of a kind. */
  function Pending(ops: seq<Operation>, op: Operation): nat {
    if ops == [] then 0 else Pending(ops[..|ops| - 1], op) + (if ops[|ops| - 1] == op then 1 else 0)
  }

  lemma {:induction false} PresentAfter(ids: seq<nat>, i: nat, id: nat)
    requires i < |ids|
    ensures Present(ids[i := id]) ==
      Present(ids) - (if ids[i] != INVALID_APIC_ID then 1 else 0) + (if id != INVALID_APIC_ID then 1 else 0)
  {
    var n := |ids| - 1;
    if i == n {
      assert ids[i := id][..n] == ids[..n];
    } else {
      PresentAfter(ids[..n], i, id);
      assert ids[i := id][..n] == ids[..n][i := id];
    }
  }

  lemma {:induction false} PendingAfter(ops: seq<Operation>, i: nat, o: Operation, op: Operation)
    requires i < |ops|
    ensures Pending(ops[i := o], op) == Pending(ops, op) - (if ops[i] == op then 1 else 0) + (if o == op then 1 else 0)
  {
    var n := |ops| - 1;
    if i == n {
      assert ops[i := o][..n] == ops[..n];
    } else {
      PendingAfter(ops[..n], i, o, op);
      assert ops[i := o][..n] == ops[..n][i := o];
    }
  }

  lemma {:induction false} NonePending(ops: seq<Operation>, op: Operation)
    requires forall i :: 0 <= i < |ops| ==> ops[i] != op
    ensures Pending(ops, op) == 0
  {
    if ops != [] { NonePending(ops[..|ops| - 1], op); }
  }

  /** Two slots never hold the same processor. */
  predicate DistinctIds(ids: seq<nat>) {
    forall i, j :: 0 <= i < j < |ids| && ids[i] != INVALID_APIC_ID ==> ids[i] != ids[j]
  }

  /** A slot is empty while its removal is pending, and full while any other operation is. */
  predicate SlotsFit(ids: seq<nat>, ops: seq<Operation>) {
    |ids| == |ops| && forall i :: 0 <= i < |ids| && ops[i] != None ==> (ids[i] == INVALID_APIC_ID <==> ops[i] == Remove)
  }

  /** The number of processors once the pending operations are carried out. */
  function Due(ops: seq<Operation>, numberOfCpus: int): int {
    numberOfCpus + Pending(ops, Add) - Pending(ops, Remove)
  }

  class CpuService {
    const processorId: array<nat>          // ProcessorInfo[].ProcessorId
    const apicId: array<nat>               // mCpuHotPlugData.ApicId[], also written by the RAS handler
    const operation: array<Operation>
    const candidateBsp: array<bool>
    var numberOfCpus: int                  // mNumberOfCpus
    var switchBsp: bool
    var currentCpu: nat                    // CurrentlyExecutingCpu
    const hotPlug: bool                    // PcdCpuHotPlugSupport

    ghost predicate Shape()
      reads this
    {
      && processorId.Length == apicId.Length == operation.Length == candidateBsp.Length
      && processorId != apicId
    }

    /** The slots are in order, whatever has been counted. */
    ghost predicate Sound()
      reads this, processorId, operation
    {
      Shape() && DistinctIds(processorId[..]) && SlotsFit(processorId[..], operation[..])
    }

    /** Every processor is counted once: those present are the ones counted, with the pending
        additions and without the pending removals. */
    ghost predicate Valid()
      reads this, processorId, operation
    {
      Sound() && Present(processorId[..]) == Due(operation[..], numberOfCpus)
    }

    /** At start the first processors are there and nothing is pending. */
    constructor (ids: seq<nat>, max: nat, support: bool)
      requires |ids| <= max && INVALID_APIC_ID !in ids && DistinctIds(ids)
      ensures Valid() && numberOfCpus == |ids| && currentCpu == 0 && hotPlug == support
      ensures processorId[..] == apicId[..] == ids + seq(max - |ids|, _ => INVALID_APIC_ID)
      ensures operation[..] == seq(max, _ => None)
      ensures fresh(processorId) && fresh(apicId) && fresh(operation) && fresh(candidateBsp)
    {
      processorId := new nat[max](i requires 0 <= i < max => if i < |ids| then ids[i] else INVALID_APIC_ID);
      apicId := new nat[max](i requires 0 <= i < max => if i < |ids| then ids[i] else INVALID_APIC_ID);
      operation := new Operation[max](_ => None);
      candidateBsp := new bool[max](_ => false);
      numberOfCpus, switchBsp, currentCpu, hotPlug := |ids|, false, 0, support;
      new;
      StartsBalanced(processorId[..], operation[..], |ids|);
    }

    /** SmmSwitchBsp. */
    method SwitchBsp(processor: nat) returns (status: Status)
      requires Valid()
      modifies operation
      ensures Valid()
      ensures status == if processor >= processorId.Length then InvalidParameter
                        else if processorId[processor] == INVALID_APIC_ID then NotFound
                        else if old(operation[processor]) != None || currentCpu == processor then Unsupported
                        else Success
      ensures operation[..] == if status == Success then old(operation[..])[processor := Operation.SwitchBsp]
                               else old(operation[..])
    {
      if processor >= processorId.Length { return InvalidParameter; }
      if processorId[processor] == INVALID_APIC_ID { return NotFound; }
      if operation[processor] != None || currentCpu == processor { return Unsupported; }
      PendingAfter(operation[..], processor, Operation.SwitchBsp, Add);
      PendingAfter(operation[..], processor, Operation.SwitchBsp, Remove);
      ghost var before := operation[..];
      operation[processor] := Operation.SwitchBsp;
      assert operation[..] == before[processor := Operation.SwitchBsp];
      status := Success;
    }

    /** SmmAddProcessor.  The new processor gets the first empty slot the RAS handler has mapped
        its APIC ID to.  The books stay balanced iff nothing was pending in that slot. */
    method AddProcessor(id: nat) returns (status: Status, slot: nat)
      requires Valid()
      modifies processorId, operation
      ensures status == if !hotPlug then Unsupported
                        else if id == INVALID_APIC_ID then InvalidParameter
                        else if id in old(processorId[..]) then AlreadyStarted
                        else if forall i :: 0 <= i < apicId.Length ==>
                                  !(apicId[i] == id && old(processorId[i]) == INVALID_APIC_ID)
                        then InvalidParameter
                        else Success
      ensures status != Success ==> processorId[..] == old(processorId[..]) && operation[..] == old(operation[..])
      ensures status == Success ==>
                && slot < apicId.Length && apicId[slot] == id && old(processorId[slot]) == INVALID_APIC_ID
                && (forall i :: 0 <= i < slot ==> !(apicId[i] == id && old(processorId[i]) == INVALID_APIC_ID))
                && processorId[..] == old(processorId[..])[slot := id]
                && operation[..] == old(operation[..])[slot := Add]
                && Sound() && (Valid() <==> old(operation[slot]) == None)
    {
      slot := 0;
      if !hotPlug { return Unsupported, 0; }
      if id == INVALID_APIC_ID { return InvalidParameter, 0; }
      var i := 0;
      while i < processorId.Length
        invariant i <= processorId.Length && forall j :: 0 <= j < i ==> processorId[j] != id
      {
        if processorId[i] == id { return AlreadyStarted, 0; }
        i := i + 1;
      }
      slot := 0;
      while slot < processorId.Length
        invariant slot <= processorId.Length
        invariant forall j :: 0 <= j < slot ==> !(apicId[j] == id && processorId[j] == INVALID_APIC_ID)
      {
        if apicId[slot] == id && processorId[slot] == INVALID_APIC_ID {
          Enter(id, slot);
          return Success, slot;
        }
        slot := slot + 1;
      }
      return InvalidParameter, slot;
    }

    method Enter(id: nat, slot: nat)
      requires Valid() && slot < processorId.Length && processorId[slot] == INVALID_APIC_ID != id
      requires id !in processorId[..]
      modifies processorId, operation
      ensures processorId[..] == old(processorId[..])[slot := id] && operation[..] == old(operation[..])[slot := Add]
      ensures Sound() && (Valid() <==> old(operation[slot]) == None)
    {
      ghost var ids, ops := processorId[..], operation[..];
      PresentAfter(ids, slot, id);
      PendingAfter(ops, slot, Add, Add);
      PendingAfter(ops, slot, Add, Remove);
      processorId[slot] := id;
      operation[slot] := Add;
      assert processorId[..] == ids[slot := id] && operation[..] == ops[slot := Add];
    }

    /** SmmRemoveProcessor. */
    method RemoveProcessor(processor: nat) returns (status: Status)
      requires Valid()
      modifies processorId, apicId, operation
      ensures Valid()
      ensures status == if !hotPlug then Unsupported
                        else if processor >= processorId.Length then InvalidParameter
                        else if old(processorId[processor]) == INVALID_APIC_ID then InvalidParameter
                        else if processor == currentCpu || old(operation[processor]) != None then Unsupported
                        else Success
      ensures if status == Success then
                && processorId[..] == old(processorId[..])[processor := INVALID_APIC_ID]
                && apicId[..] == old(apicId[..])[processor := INVALID_APIC_ID]
                && operation[..] == old(operation[..])[processor := Remove]
              else
                && processorId[..] == old(processorId[..])
                && apicId[..] == old(apicId[..])
                && operation[..] == old(operation[..])
    {
      if !hotPlug { return Unsupported; }
      if processor >= processorId.Length || processorId[processor] == INVALID_APIC_ID { return InvalidParameter; }
      if processor == currentCpu { return Unsupported; }
      if operation[processor] != None { return Unsupported; }
      ghost var ids, ops, apics := processorId[..], operation[..], apicId[..];
      PresentAfter(ids, processor, INVALID_APIC_ID);
      PendingAfter(ops, processor, Remove, Add);
      PendingAfter(ops, processor, Remove, Remove);
      processorId[processor] := INVALID_APIC_ID;
      apicId[processor] := INVALID_APIC_ID;
      operation[processor] := Remove;
      assert processorId[..] == ids[processor := INVALID_APIC_ID] && operation[..] == ops[processor := Remove];
      assert apicId[..] == apics[processor := INVALID_APIC_ID];
      return Success;
    }

    /** SmmCpuUpdate: every pending operation is carried out, and then the processors counted
        are exactly those present iff the books were balanced before. */
    method Update()
      requires Sound()
      modifies this`numberOfCpus, this`switchBsp, operation, candidateBsp
      ensures Sound() && processorId[..] == old(processorId[..])
      ensures forall i :: 0 <= i < operation.Length ==> operation[i] == None
      ensures numberOfCpus == Due(old(operation[..]), old(numberOfCpus))
      ensures numberOfCpus == Present(processorId[..]) <==> old(Valid())
      ensures Valid() <==> old(Valid())
      ensures switchBsp == (old(switchBsp) || Operation.SwitchBsp in old(operation[..]))
      ensures forall i :: 0 <= i < candidateBsp.Length ==>
                candidateBsp[i] == (old(candidateBsp[i]) || old(operation[i]) == Operation.SwitchBsp)
    {
      ghost var ops := operation[..];
      TakeSwitches();
      ghost var ops1 := operation[..];
      CountOnly(Add);
      ghost var ops2 := operation[..];
      CountOnly(Remove);
      NothingLeft(ops, ops1, ops2, operation[..]);
    }

    /** The pass of SmmCpuUpdate over the pending BSP switches. */
    method TakeSwitches()
      requires Sound()
      modifies this`switchBsp, operation, candidateBsp
      ensures Sound() && ClearedAll(old(operation[..]), operation[..], Operation.SwitchBsp)
      ensures Due(operation[..], numberOfCpus) == Due(old(operation[..]), numberOfCpus)
      ensures switchBsp == (old(switchBsp) || Operation.SwitchBsp in old(operation[..]))
      ensures forall i :: 0 <= i < candidateBsp.Length ==>
                candidateBsp[i] == (old(candidateBsp[i]) || old(operation[i]) == Operation.SwitchBsp)
    {
      ghost var ops := operation[..];
      var i: nat := 0;
      while i < operation.Length
        invariant i <= operation.Length && Sound() && Cleared(ops, operation[..], Operation.SwitchBsp, i)
        invariant Due(operation[..], numberOfCpus) == Due(ops, numberOfCpus)
        invariant switchBsp == (old(switchBsp) || Operation.SwitchBsp in ops[..i])
        invariant forall j :: 0 <= j < candidateBsp.Length ==>
                    candidateBsp[j] == (old(candidateBsp[j]) || (j < i && ops[j] == Operation.SwitchBsp))
      {
        if operation[i] == Operation.SwitchBsp {
          Clear(i);
          switchBsp := true;
          candidateBsp[i] := true;
        }
        i := i + 1;
      }
      assert ops[..i] == ops;
      AllCleared(ops, operation[..], Operation.SwitchBsp, i);
    }

    /** A pending BSP switch is taken off the list; it does not count. */
    method Clear(i: nat)
      requires Sound() && i < operation.Length && operation[i] == Operation.SwitchBsp
      modifies operation
      ensures Sound() && operation[..] == old(operation[..])[i := None]
      ensures Due(operation[..], numberOfCpus) == Due(old(operation[..]), numberOfCpus)
    {
      ghost var ops := operation[..];
      PendingAfter(ops, i, None, Add);
      PendingAfter(ops, i, None, Remove);
      operation[i] := None;
      assert operation[..] == ops[i := None];
    }

    /** One pass of SmmCpuUpdate over the pending additions, or over the pending removals. */
    method CountOnly(op: Operation)
      requires Sound() && (op == Add || op == Remove)
      modifies this`numberOfCpus, operation
      ensures Sound() && ClearedAll(old(operation[..]), operation[..], op)
      ensures Due(operation[..], numberOfCpus) == Due(old(operation[..]), old(numberOfCpus))
    {
      ghost var ops := operation[..];
      var i: nat := 0;
      while i < operation.Length
        invariant i <= operation.Length && Sound() && Cleared(ops, operation[..], op, i)
        invariant Due(operation[..], numberOfCpus) == Due(ops, old(numberOfCpus))
      {
        if operation[i] == op {
          ghost var before := operation[..];
          PendingAfter(before, i, None, Add);
          PendingAfter(before, i, None, Remove);
          operation[i] := None;
          assert operation[..] == before[i := None];
          numberOfCpus := if op == Add then numberOfCpus + 1 else numberOfCpus - 1;
        }
        i := i + 1;
      }
      AllCleared(ops, operation[..], op, i);
    }
  }

  predicate ClearedAt(before: seq<Operation>, after: seq<Operation>, op: Operation, j: nat) {
    |before| == |after| && (j < |before| ==> after[j] == if before[j] == op then None else before[j])
  }

  predicate ClearedAll(before: seq<Operation>, after: seq<Operation>, op: Operation) {
    |before| == |after| && forall j: nat :: j < |before| ==> ClearedAt(before, after, op, j)
  }

  predicate Cleared(before: seq<Operation>, after: seq<Operation>, op: Operation, i: nat) {
    |before| == |after| && forall j :: 0 <= j < |before| ==>
      after[j] == if j < i && before[j] == op then None else before[j]
  }

  lemma AllCleared(before: seq<Operation>, after: seq<Operation>, op: Operation, i: nat)
    requires Cleared(before, after, op, i) && i >= |before|
    ensures ClearedAll(before, after, op)
  {}

  /** After the three passes nothing is pending. */
  lemma NothingLeft(ops: seq<Operation>, ops1: seq<Operation>, ops2: seq<Operation>, ops3: seq<Operation>)
    requires ClearedAll(ops, ops1, Operation.SwitchBsp) && ClearedAll(ops1, ops2, Add) && ClearedAll(ops2, ops3, Remove)
    ensures forall j :: 0 <= j < |ops3| ==> ops3[j] == None
    ensures Pending(ops3, Add) == Pending(ops3, Remove) == 0
  {
    forall j | 0 <= j < |ops3| ensures ops3[j] == None {
      assert ClearedAt(ops, ops1, Operation.SwitchBsp, j);
      assert ClearedAt(ops1, ops2, Add, j) && ClearedAt(ops2, ops3, Remove, j);
    }
    NonePending(ops3, Add);
    NonePending(ops3, Remove);
  }

  /** The removal of a processor is lost when another one is added to its slot before the
      pending operations are carried out: after SmmCpuUpdate three processors are counted where
      two are present. */
  method LoseRemoval() returns (s: CpuService)
    ensures s.Sound() && s.numberOfCpus == 3 && Present(s.processorId[..]) == 2
    ensures forall i :: 0 <= i < s.operation.Length ==> s.operation[i] == None
  {
    s := new CpuService([5, 6], 2, true);
    assert s.processorId[0] == 5 && s.processorId[1] == 6 && s.operation[1] == None;
    var removed := s.RemoveProcessor(1);
    assert s.processorId[..] == [5, INVALID_APIC_ID] && s.operation[..] == [None, Remove];
    s.apicId[1] := 7;                       // the RAS handler
    assert s.processorId[0] == 5 && s.processorId[1] == INVALID_APIC_ID && s.apicId[1] == 7 && s.operation[1] == Remove;
    var added, slot := s.AddProcessor(7);
    LostBooks(s.processorId[..], s.operation[..]);
    s.Update();
  }

  lemma LostBooks(ids: seq<nat>, ops: seq<Operation>)
    requires ids == [5, 7] && ops == [None, Add]
    ensures Present(ids) == 2 && Pending(ops, Add) == 1 && Pending(ops, Remove) == 0
  {
    assert ids[..1] == [5] && [5][..0] == [] && ops[..1] == [None] && [None][..0] == [];
    assert Present([5]) == 1 && Pending([None], Add) == 0 && Pending([None], Remove) == 0;
  }

  lemma {:induction false} StartsBalanced(ids: seq<nat>, ops: seq<Operation>, n: nat)
    requires n <= |ids| && (forall i :: 0 <= i < |ids| ==> (ids[i] != INVALID_APIC_ID <==> i < n))
    requires forall i :: 0 <= i < |ops| ==> ops[i] == None
    ensures Present(ids) == Due(ops, n)
  {
    NonePending(ops, Add);
    NonePending(ops, Remove);
    PresentFirst(ids, n);
  }

  lemma {:induction false} PresentFirst(ids: seq<nat>, n: nat)
    requires forall i :: 0 <= i < |ids| ==> (ids[i] != INVALID_APIC_ID <==> i < n)
    ensures Present(ids) == if n <= |ids| then n else |ids|
  {
    if ids != [] { PresentFirst(ids[..|ids| - 1], n); }
  }
}
