/** The device as a map from slots to security associations: what each operation means, slot by slot, and what a whole
    series of them leaves in a slot. */
module MacsecSlots {
  import opened Wire
  import opened Mkpdu
  import opened Macsec
  import opened MacsecRuns

  /** What an operation makes of one slot. */
  function SlotAfter(was: Option<Sa>, op: Op, slot: Slot): (r: Option<Sa>) {
    match op
    case OpInstallTx(an, ki, key, active) =>
      if slot != TxSlot(an) then was
      else if was.Some? && was.value.keyId == ki then Some(was.value.(active := was.value.active || active))
      else Some(Sa(an, None, active, ki, key))
    case OpActivateTx(an) =>
      if slot != TxSlot(an) || was.None? then was else Some(was.value.(active := true))
    case OpInstallRx(sci, an, ki, key) =>
      if slot != RxSlot(sci, an) || (was.Some? && was.value.keyId == ki) then was else Some(Sa(an, None, true, ki, key))
    case OpRemoveRx(sci) => if slot.RxSlot? && slot.sci == sci then None else was
    case OpClear => None
  }

  lemma ActivateAt(sas: seq<Sa>, an: u8, other: u8)
    requires DistinctAns(sas)
    ensures SaAt(Activate(sas, an), other)
         == if other == an && SaAt(sas, an).Some? then Some(SaAt(sas, an).value.(active := true)) else SaAt(sas, other)
  {
    var i := FindSa(sas, an);
    if i < |sas| {
      SaAtUpdate(sas, i, sas[i].(active := true), other);
    }
  }

  lemma TxExact(d: Desired, an: u8, ki: KeyId, key: bytes, active: bool, slot: Slot)
    requires Settled(d)
    ensures At(InstallTx(d, an, ki, key, active).desired, slot) == SlotAfter(At(d, slot), OpInstallTx(an, ki, key, active), slot)
  {
    if slot.TxSlot? {
      ActivateAt(d.tx, an, slot.an);
      Replaced(d.tx, Sa(an, Some(1), active, ki, key), slot.an);
      hide Evict, ForgetPn, Activate;
    }
  }

  lemma RxExact(d: Desired, sci: u64, an: u8, ki: KeyId, key: bytes, slot: Slot)
    requires Settled(d)
    ensures At(InstallRx(d, sci, an, ki, key).desired, slot) == SlotAfter(At(d, slot), OpInstallRx(sci, an, ki, key), slot)
  {
    hide At, SetSas, Evict, ForgetPn, WithSc, Settled;
    var i := FindSc(d.rx, sci);
    var base := d.(rx := WithSc(d.rx, sci));
    var sas := base.rx[i].sas;
    ChannelSlot(d, sci, slot);
    Replaced(sas, Sa(an, Some(1), true, ki, key), slot.an);
    SetSasSlots(base, i, ForgetPn(Evict(sas, an) + [Sa(an, Some(1), true, ki, key)], an));
  }

  /** Each operation does to every slot what it means there, however the lists are kept. */
  lemma PerformExact(d: Desired, op: Op, slot: Slot)
    requires Settled(d)
    ensures At(Perform(d, op).desired, slot) == SlotAfter(At(d, slot), op, slot)
  {
    match op
    case OpInstallTx(an, ki, key, active) => TxExact(d, an, ki, key, active, slot);
    case OpActivateTx(an) =>
      if slot.TxSlot? {
        ActivateAt(d.tx, an, slot.an);
      }
    case OpInstallRx(sci, an, ki, key) => RxExact(d, sci, an, ki, key, slot);
    case OpRemoveRx(sci) =>
      if slot.RxSlot? {
        KeepScLookup(d.rx, sci, slot.sci);
      }
    case OpClear =>
  }

  /** What a series of operations leaves in one slot. */
  function Wanted(ops: seq<Op>, slot: Slot): (r: Option<Sa>) {
    if ops == [] then None else SlotAfter(Wanted(ops[..|ops| - 1], slot), ops[|ops| - 1], slot)
  }

  /** Over every series of operations the device wants in each slot what the slot's own history says; receive
      associations are active from the start. */
  lemma {:induction false} SlotsExact(ops: seq<Op>, slot: Slot)
    ensures At(After(ops).desired, slot) == Wanted(ops, slot)
    ensures slot.RxSlot? && Wanted(ops, slot).Some? ==> Wanted(ops, slot).value.active
  {
    hide After, At, Perform, Settled, GoodRun, SameKeys;
    if ops == [] {
      NothingWanted(slot);
    } else {
      var before := ops[..|ops| - 1];
      SlotsExact(before, slot);
      PacketNumbersNeverRewound(before);
      OneMore(ops);
      PerformExact(After(before).desired, ops[|ops| - 1], slot);
    }
  }

  lemma NothingWanted(slot: Slot)
    ensures At(After([]).desired, slot) == None
  {
  }
}
