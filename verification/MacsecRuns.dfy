/** Over every run of device operations no packet number is rewound and no key is swapped under a
    live association number. */
module MacsecRuns {
  import opened Wire
  import opened Mkpdu
  import opened Macsec

  /** Where the kernel keeps one security association. */
  datatype Slot = TxSlot(an: u8) | RxSlot(sci: u64, an: u8)

  function SaAt(sas: seq<Sa>, an: u8): (r: Option<Sa>) {
    var i := FindSa(sas, an);
    if i < |sas| then Some(sas[i]) else None
  }

  function SasAt(scs: seq<RxSc>, sci: u64): (r: seq<Sa>) {
    var i := FindSc(scs, sci);
    if i < |scs| then scs[i].sas else []
  }

  function At(d: Desired, slot: Slot): (r: Option<Sa>) {
    match slot
    case TxSlot(an) => SaAt(d.tx, an)
    case RxSlot(sci, an) => SaAt(SasAt(d.rx, sci), an)
  }

  predicate DistinctAns(sas: seq<Sa>) {
    forall i, j | 0 <= i < j < |sas| :: sas[i].an != sas[j].an
  }

  predicate DistinctScis(scs: seq<RxSc>) {
    forall i, j | 0 <= i < j < |scs| :: scs[i].sci != scs[j].sci
  }

  /** At most one TX SA per AN, one RX channel per SCI and one SA per AN in each channel. */
  predicate Unique(d: Desired) {
    && DistinctAns(d.tx) && DistinctScis(d.rx)
    && (forall i | 0 <= i < |d.rx| :: DistinctAns(d.rx[i].sas))
  }

  ghost predicate NoPn(d: Desired) {
    forall slot :: At(d, slot).Some? ==> At(d, slot).value.pn.None?
  }

  predicate SameSa(a: Option<Sa>, b: Option<Sa>) {
    a.Some? == b.Some? && (a.Some? ==> a.value.keyId == b.value.keyId && a.value.key == b.value.key)
  }

  /** The same keys in the same slots. */
  ghost predicate SameKeys(a: Desired, b: Desired) {
    forall slot :: SameSa(At(a, slot), At(b, slot))
  }

  /** Applying `b` while `a` is in force: a packet number is sent only to a slot that is empty, and
      an occupied slot keeps its key. */
  ghost predicate SafeAt(a: Desired, b: Desired, slot: Slot) {
    At(b, slot).Some? ==>
      && (At(b, slot).value.pn.Some? ==> At(a, slot).None?)
      && (At(a, slot).Some? ==> At(a, slot).value.keyId == At(b, slot).value.keyId
                                && At(a, slot).value.key == At(b, slot).value.key)
  }

  ghost predicate SafeApply(a: Desired, b: Desired) {
    forall slot :: SafeAt(a, b, slot)
  }

  ghost predicate CarriesPn(d: Desired, slot: Slot) {
    At(d, slot).Some? && At(d, slot).value.pn.Some?
  }

  ghost predicate OnePn(d: Desired) {
    forall s, t :: CarriesPn(d, s) && CarriesPn(d, t) ==> s == t
  }

  // ------------------------------------------------- lookups after list edits

  lemma FoundAt(sas: seq<Sa>, i: nat)
    requires i < |sas| && DistinctAns(sas)
    ensures FindSa(sas, sas[i].an) == i
  {
  }

  lemma SaAtEvict(sas: seq<Sa>, an: u8, other: u8)
    requires DistinctAns(sas)
    ensures DistinctAns(Evict(sas, an))
    ensures SaAt(Evict(sas, an), other) == if other == an then None else SaAt(sas, other)
  {
    var i, j, r := FindSa(sas, an), FindSa(sas, other), Evict(sas, an);
    if i < |sas| {
      assert forall k | 0 <= k < i :: r[k] == sas[k];
      assert forall k | i <= k < |r| :: r[k] == sas[k + 1];
      if other != an && j < |sas| {
        FoundAt(r, if j < i then j else j - 1);
      }
    }
  }

  lemma SaAtPush(sas: seq<Sa>, sa: Sa, other: u8)
    requires DistinctAns(sas) && SaAt(sas, sa.an).None?
    ensures DistinctAns(sas + [sa])
    ensures SaAt(sas + [sa], other) == if other == sa.an then Some(sa) else SaAt(sas, other)
  {
    var r := sas + [sa];
    assert forall k | 0 <= k < |sas| :: r[k] == sas[k];
    FoundAt(r, |sas|);
    if FindSa(sas, other) < |sas| {
      FoundAt(r, FindSa(sas, other));
    }
  }

  lemma SaAtUpdate(sas: seq<Sa>, i: nat, sa: Sa, other: u8)
    requires DistinctAns(sas) && i < |sas| && sa.an == sas[i].an
    ensures DistinctAns(sas[i := sa])
    ensures SaAt(sas[i := sa], other) == if other == sa.an then Some(sa) else SaAt(sas, other)
  {
    var r := sas[i := sa];
    FoundAt(r, i);
    if FindSa(sas, other) < |sas| {
      FoundAt(r, FindSa(sas, other));
    }
  }

  lemma ScFoundAt(scs: seq<RxSc>, i: nat)
    requires i < |scs| && DistinctScis(scs)
    ensures FindSc(scs, scs[i].sci) == i
  {
  }

  lemma SasAtWithSc(scs: seq<RxSc>, sci: u64, other: u64)
    requires DistinctScis(scs)
    ensures DistinctScis(WithSc(scs, sci)) && SasAt(WithSc(scs, sci), other) == SasAt(scs, other)
  {
    var r := WithSc(scs, sci);
    if FindSc(scs, sci) == |scs| {
      assert forall k | 0 <= k < |scs| :: r[k] == scs[k];
      ScFoundAt(r, |scs|);
      if FindSc(scs, other) < |scs| {
        ScFoundAt(r, FindSc(scs, other));
      }
    }
  }

  lemma SasAtUpdate(scs: seq<RxSc>, i: nat, sas: seq<Sa>, other: u64)
    requires DistinctScis(scs) && i < |scs|
    ensures var r := scs[i := scs[i].(sas := sas)];
      DistinctScis(r) && SasAt(r, other) == if other == scs[i].sci then sas else SasAt(scs, other)
  {
    var r := scs[i := scs[i].(sas := sas)];
    ScFoundAt(r, i);
    if FindSc(scs, other) < |scs| {
      ScFoundAt(r, FindSc(scs, other));
    }
  }

  lemma LastIsNew(scs: seq<RxSc>)
    requires DistinctScis(scs) && scs != []
    ensures DistinctScis(scs[..|scs| - 1])
    ensures forall x | x in scs[..|scs| - 1] :: x.sci != scs[|scs| - 1].sci
  {
  }

  lemma {:induction false} KeepScLookup(scs: seq<RxSc>, sci: u64, other: u64)
    requires DistinctScis(scs)
    ensures DistinctScis(KeepSc(scs, sci))
    ensures SasAt(KeepSc(scs, sci), other) == if other == sci then [] else SasAt(scs, other)
  {
    if scs != [] {
      hide SasAt, DistinctScis;
      var n := |scs| - 1;
      LastIsNew(scs);
      KeepScLookup(scs[..n], sci, other);
      assert scs == scs[..n] + [scs[n]];
      ScPush(scs[..n], scs[n], other);
      var kept := KeepSc(scs[..n], sci);
      if scs[n].sci != sci {
        assert KeepSc(scs, sci) == kept + [scs[n]];
        hide KeepSc;
        ScPush(kept, scs[n], other);
      } else {
        assert KeepSc(scs, sci) == kept;
        hide KeepSc;
      }
    }
  }

  lemma ScPush(scs: seq<RxSc>, sc: RxSc, other: u64)
    requires DistinctScis(scs) && forall x | x in scs :: x.sci != sc.sci
    ensures DistinctScis(scs + [sc])
    ensures SasAt(scs + [sc], other) == if other == sc.sci then sc.sas else SasAt(scs, other)
  {
    var r := scs + [sc];
    assert forall k | 0 <= k < |scs| :: r[k] == scs[k] && scs[k] in scs;
    ScFoundAt(r, |scs|);
    if FindSc(scs, other) < |scs| {
      ScFoundAt(r, FindSc(scs, other));
    }
  }

  // ------------------------------------------------------- one operation

  /** What every configuration an operation applies must satisfy, given what was in force before. */
  ghost predicate GoodApply(before: Desired, applied: Desired) {
    Unique(applied) && OnePn(applied) && SafeApply(before, applied)
  }

  ghost predicate Settled(d: Desired) {
    Unique(d) && NoPn(d)
  }

  /** Every configuration in `applies` is good after its predecessor, starting from `before`. */
  ghost predicate GoodRun(before: Desired, applies: seq<Desired>) {
    forall i | 0 <= i < |applies| :: GoodApply(InForce(before, applies, i), applies[i])
  }

  /** The configuration in force when `applies[i]` is applied. */
  function InForce(before: Desired, applies: seq<Desired>, i: nat): (d: Desired)
    requires i < |applies|
  {
    if i == 0 then before else applies[i - 1]
  }

  lemma SamePnFree(d: Desired, d': Desired)
    requires Settled(d) && Unique(d') && SameKeys(d, d') && NoPn(d')
    ensures GoodApply(d, d')
  {
    forall slot ensures SafeAt(d, d', slot) {
      assert SameSa(At(d, slot), At(d', slot));
    }
  }

  /** An SA list after evicting `sa.an`, after pushing `sa`, and after forgetting its number. */
  lemma Replaced(sas: seq<Sa>, sa: Sa, other: u8)
    requires DistinctAns(sas)
    ensures var bare := Evict(sas, sa.an); var with := bare + [sa]; var final := ForgetPn(with, sa.an);
      && DistinctAns(bare) && DistinctAns(with) && DistinctAns(final)
      && SaAt(bare, other) == (if other == sa.an then None else SaAt(sas, other))
      && SaAt(with, other) == (if other == sa.an then Some(sa) else SaAt(sas, other))
      && SaAt(final, other) == (if other == sa.an then Some(sa.(pn := None)) else SaAt(sas, other))
  {
    var bare := Evict(sas, sa.an);
    SaAtEvict(sas, sa.an, other);
    SaAtEvict(sas, sa.an, sa.an);
    SaAtPush(bare, sa, other);
    SaAtPush(bare, sa, sa.an);
    hide Evict;
    var with := bare + [sa];
    SaAtUpdate(with, FindSa(with, sa.an), sa.(pn := None), other);
  }

  lemma ActivateSlots(d: Desired, an: u8, slot: Slot)
    requires Unique(d)
    ensures DistinctAns(Activate(d.tx, an))
    ensures slot.TxSlot? ==>
      SaAt(Activate(d.tx, an), slot.an)
      == match SaAt(d.tx, slot.an) case None => None
         case Some(sa) => Some(if slot.an == an then sa.(active := true) else sa)
  {
    var i := FindSa(d.tx, an);
    if i < |d.tx| {
      SaAtUpdate(d.tx, i, d.tx[i].(active := true), if slot.TxSlot? then slot.an else 0);
    }
  }

  lemma ActivateSettled(d: Desired, an: u8)
    requires Settled(d)
    ensures Settled(d.(tx := Activate(d.tx, an))) && GoodApply(d, d.(tx := Activate(d.tx, an)))
  {
    var d' := d.(tx := Activate(d.tx, an));
    ActivateSlots(d, an, TxSlot(an));
    forall slot ensures At(d', slot).Some? ==> At(d', slot).value.pn.None? {
      assert At(d, slot).Some? ==> At(d, slot).value.pn.None?;
      ActivateSlots(d, an, slot);
    }
    forall slot ensures SameSa(At(d, slot), At(d', slot)) {
      ActivateSlots(d, an, slot);
    }
    SamePnFree(d, d');
  }

  /** Evict, then add one SA with a packet number, then forget that number. */
  lemma ReplaceSafe(d: Desired, bare: Desired, with: Desired, final: Desired, at: Slot, sa: Sa)
    requires Settled(d) && Unique(bare) && Unique(with) && Unique(final)
    requires forall slot :: At(bare, slot) == if slot == at then None else At(d, slot)
    requires forall slot :: At(with, slot) == if slot == at then Some(sa) else At(d, slot)
    requires forall slot :: At(final, slot) == if slot == at then Some(sa.(pn := None)) else At(d, slot)
    ensures GoodApply(d, bare) && GoodApply(bare, with) && Settled(final) && SameKeys(with, final)
    ensures At(d, at).None? ==> GoodApply(d, with)
  {
    hide At;
    assert forall slot :: At(d, slot).Some? ==> At(d, slot).value.pn.None?;
    assert forall slot :: CarriesPn(with, slot) ==> slot == at;
    assert forall slot :: !CarriesPn(bare, slot);
    assert forall slot :: SafeAt(d, bare, slot) && SafeAt(bare, with, slot) && SameSa(At(with, slot), At(final, slot));
    assert At(d, at).None? ==> forall slot :: SafeAt(d, with, slot);
  }

  lemma InstallTxSafe(d: Desired, an: u8, ki: KeyId, key: bytes, active: bool)
    requires Settled(d)
    ensures var e := InstallTx(d, an, ki, key, active);
      && Settled(e.desired) && e.applies != [] && GoodRun(d, e.applies)
      && SameKeys(e.applies[|e.applies| - 1], e.desired)
  {
    if HasKey(d.tx, an, ki) {
      ActivateSettled(d, an);
      assert forall slot :: SameSa(At(d, slot), At(d, slot));
      SamePnFree(d, d);
    } else {
      var sa := Sa(an, Some(1), active, ki, key);
      var bare := d.(tx := Evict(d.tx, an));
      var with := d.(tx := Evict(d.tx, an) + [sa]);
      var final := d.(tx := ForgetPn(with.tx, an));
      Replaced(d.tx, sa, an);
      forall slot
        ensures At(bare, slot) == if slot == TxSlot(an) then None else At(d, slot)
        ensures At(with, slot) == if slot == TxSlot(an) then Some(sa) else At(d, slot)
        ensures At(final, slot) == if slot == TxSlot(an) then Some(sa.(pn := None)) else At(d, slot)
      {
        Replaced(d.tx, sa, slot.an);
      }
      hide Evict, ForgetPn;
      ReplaceSafe(d, bare, with, final, TxSlot(an), sa);
    }
  }

  lemma SetSasSlots(d: Desired, i: nat, sas: seq<Sa>)
    requires Unique(d) && i < |d.rx| && DistinctAns(sas)
    ensures Unique(SetSas(d, i, sas))
    ensures forall slot ::
      At(SetSas(d, i, sas), slot)
      == if slot.RxSlot? && slot.sci == d.rx[i].sci then SaAt(sas, slot.an) else At(d, slot)
  {
    SasAtUpdate(d.rx, i, sas, 0);
    forall slot
      ensures At(SetSas(d, i, sas), slot)
        == if slot.RxSlot? && slot.sci == d.rx[i].sci then SaAt(sas, slot.an) else At(d, slot)
    {
      if slot.RxSlot? {
        SasAtUpdate(d.rx, i, sas, slot.sci);
      }
    }
  }

  lemma WithScSettled(d: Desired, sci: u64)
    requires Settled(d)
    ensures var base := d.(rx := WithSc(d.rx, sci));
      Settled(base) && GoodApply(d, base) && forall slot :: At(base, slot) == At(d, slot)
  {
    var base := d.(rx := WithSc(d.rx, sci));
    SasAtWithSc(d.rx, sci, 0);
    forall slot ensures At(base, slot) == At(d, slot) {
      if slot.RxSlot? {
        SasAtWithSc(d.rx, sci, slot.sci);
      }
    }
    hide At;
    assert forall slot :: At(d, slot).Some? ==> At(d, slot).value.pn.None?;
    assert forall slot :: SameSa(At(d, slot), At(base, slot));
    SamePnFree(d, base);
  }

  /** The slots of a channel, whether it was there or is created for them. */
  lemma ChannelSlot(d: Desired, sci: u64, slot: Slot)
    requires Settled(d)
    ensures var base := d.(rx := WithSc(d.rx, sci)); var i := FindSc(d.rx, sci);
      && Settled(base) && Unique(base) && i < |base.rx| && base.rx[i].sci == sci && DistinctAns(base.rx[i].sas)
      && At(base, slot) == At(d, slot)
      && (slot.RxSlot? && slot.sci == sci ==> At(d, slot) == SaAt(base.rx[i].sas, slot.an))
  {
    hide At;
    var base := d.(rx := WithSc(d.rx, sci));
    WithScSettled(d, sci);
    FirstOf(base, FindSc(d.rx, sci), slot);
  }

  lemma FirstOf(d: Desired, i: nat, slot: Slot)
    requires Unique(d) && i < |d.rx|
    ensures slot.RxSlot? && slot.sci == d.rx[i].sci ==> At(d, slot) == SaAt(d.rx[i].sas, slot.an)
  {
    ScFoundAt(d.rx, i);
    hide SaAt;
  }

  lemma ReplaceInSc(d: Desired, i: nat, sa: Sa)
    requires Settled(d) && i < |d.rx|
    ensures var bare := SetSas(d, i, Evict(d.rx[i].sas, sa.an));
      var with := SetSas(d, i, Evict(d.rx[i].sas, sa.an) + [sa]);
      var final := SetSas(d, i, ForgetPn(Evict(d.rx[i].sas, sa.an) + [sa], sa.an));
      && GoodApply(d, bare) && GoodApply(bare, with) && Settled(final) && SameKeys(with, final)
      && (SaAt(d.rx[i].sas, sa.an).None? ==> GoodApply(d, with))
  {
    var sas := d.rx[i].sas;
    var bare, with := Evict(sas, sa.an), Evict(sas, sa.an) + [sa];
    var final := ForgetPn(with, sa.an);
    var at := RxSlot(d.rx[i].sci, sa.an);
    ScFoundAt(d.rx, i);
    forall other: u8
      ensures SaAt(bare, other) == if other == sa.an then None else SaAt(sas, other)
      ensures SaAt(with, other) == if other == sa.an then Some(sa) else SaAt(sas, other)
      ensures SaAt(final, other) == if other == sa.an then Some(sa.(pn := None)) else SaAt(sas, other)
    {
      Replaced(sas, sa, other);
    }
    Replaced(sas, sa, sa.an);
    hide Evict, ForgetPn;
    SetSasSlots(d, i, bare);
    SetSasSlots(d, i, with);
    SetSasSlots(d, i, final);
    assert forall slot: Slot :: slot.RxSlot? && slot.sci == at.sci ==> At(d, slot) == SaAt(sas, slot.an);
    hide SetSas, SaAt, At;
    ReplaceSafe(d, SetSas(d, i, bare), SetSas(d, i, with), SetSas(d, i, final), at, sa);
  }

  lemma InstallRxSafe(d: Desired, sci: u64, an: u8, ki: KeyId, key: bytes)
    requires Settled(d)
    ensures var e := InstallRx(d, sci, an, ki, key);
      && Settled(e.desired) && e.applies != [] && GoodRun(d, e.applies)
      && SameKeys(e.applies[|e.applies| - 1], e.desired)
  {
    var i := FindSc(d.rx, sci);
    var base := d.(rx := WithSc(d.rx, sci));
    var sa := Sa(an, Some(1), true, ki, key);
    WithScSettled(d, sci);
    hide At;
    if HasKey(base.rx[i].sas, an, ki) {
      assert forall slot :: SameSa(At(base, slot), At(base, slot));
    } else {
      ReplaceInSc(base, i, sa);
      GoodFromSame(d, base);
    }
  }

  /** Only the slots of what was in force before matter. */
  lemma GoodFromSame(a: Desired, b: Desired)
    requires SameKeys(a, b) || forall slot :: At(a, slot) == At(b, slot)
    ensures forall d :: GoodApply(b, d) ==> GoodApply(a, d)
  {
    hide At, Unique, OnePn;
    assert forall slot :: SameSa(At(a, slot), At(b, slot));
    forall d | GoodApply(b, d) ensures SafeApply(a, d) {
      assert forall slot :: SafeAt(b, d, slot) ==> SafeAt(a, d, slot);
    }
  }

  lemma RemoveSafe(d: Desired, d': Desired)
    requires Settled(d) && Unique(d')
    requires forall slot :: At(d', slot) == None || At(d', slot) == At(d, slot)
    ensures Settled(d') && GoodApply(d, d') && SameKeys(d', d')
  {
    hide At, Unique;
    assert forall slot :: At(d, slot).Some? ==> At(d, slot).value.pn.None?;
    assert forall slot :: SafeAt(d, d', slot) && SameSa(At(d', slot), At(d', slot)) && !CarriesPn(d', slot);
  }

  lemma RemoveRxSafe(d: Desired, sci: u64)
    requires Settled(d)
    ensures var d' := d.(rx := KeepSc(d.rx, sci)); Settled(d') && GoodApply(d, d') && SameKeys(d', d')
  {
    var d' := d.(rx := KeepSc(d.rx, sci));
    KeepScLookup(d.rx, sci, 0);
    forall slot ensures At(d', slot) == None || At(d', slot) == At(d, slot) {
      if slot.RxSlot? {
        KeepScLookup(d.rx, sci, slot.sci);
      }
    }
    assert forall sc | sc in d.rx :: DistinctAns(sc.sas);
    assert Unique(d');
    RemoveSafe(d, d');
  }

  /** One operation applies only good configurations and leaves no packet number behind. */
  lemma PerformSafe(d: Desired, op: Op)
    requires Settled(d)
    ensures var e := Perform(d, op);
      && Settled(e.desired) && e.applies != [] && GoodRun(d, e.applies)
      && SameKeys(e.applies[|e.applies| - 1], e.desired)
  {
    match op
    case OpInstallTx(an, ki, key, active) => InstallTxSafe(d, an, ki, key, active);
    case OpActivateTx(an) =>
      ActivateSettled(d, an);
      assert forall slot :: SameSa(At(Perform(d, op).desired, slot), At(Perform(d, op).desired, slot));
    case OpInstallRx(sci, an, ki, key) => InstallRxSafe(d, sci, an, ki, key);
    case OpRemoveRx(sci) => RemoveRxSafe(d, sci);
    case OpClear => RemoveSafe(d, Desired([], []));
  }

  // ------------------------------------------------------------------ runs

  /** The device after a run of operations: desired state and everything applied since creation. */
  function After(ops: seq<Op>): (e: Effect) {
    if ops == [] then Clear()
    else
      var before := After(ops[..|ops| - 1]);
      var e := Perform(before.desired, ops[|ops| - 1]);
      Effect(e.desired, before.applies + e.applies)
  }

  lemma GoodRunAppend(before: Desired, xs: seq<Desired>, d: Desired, ys: seq<Desired>)
    requires xs != [] && GoodRun(before, xs) && GoodRun(d, ys) && SameKeys(xs[|xs| - 1], d)
    ensures GoodRun(before, xs + ys)
  {
    var all := xs + ys;
    hide GoodApply, SameKeys, At;
    GoodFromSame(xs[|xs| - 1], d);
    forall i | 0 <= i < |all| ensures GoodApply(InForce(before, all, i), all[i]) {
      if i < |xs| {
        assert GoodApply(InForce(before, xs, i), xs[i]);
      } else {
        assert GoodApply(InForce(d, ys, i - |xs|), ys[i - |xs|]);
      }
    }
  }

  /** Over every run: each applied configuration has unique slots, carries at most one packet number
      and only for a slot the previous configuration left empty, and never changes the key of a slot
      the previous configuration occupied. */
  lemma {:induction false} PacketNumbersNeverRewound(ops: seq<Op>)
    ensures Settled(After(ops).desired) && After(ops).applies != []
    ensures GoodRun(Desired([], []), After(ops).applies)
    ensures SameKeys(After(ops).applies[|After(ops).applies| - 1], After(ops).desired)
  {
    var empty := Desired([], []);
    if ops == [] {
      RemoveSafe(empty, empty);
    } else {
      var before := After(ops[..|ops| - 1]);
      var op := ops[|ops| - 1];
      PacketNumbersNeverRewound(ops[..|ops| - 1]);
      PerformSafe(before.desired, op);
      hide Perform, Settled, SameKeys;
      GoodRunAppend(empty, before.applies, before.desired, Perform(before.desired, op).applies);
    }
  }

  // ---------------------------------------------------------------- kernel

  datatype KernelSa = KernelSa(keyId: KeyId, key: bytes, pn: nat)

  type Kernel = Slot -> Option<KernelSa>

  /** The kernel deletes slots that are gone, creates missing ones, and updates an existing one in
      place: its key stays and a configured packet number overwrites the running one. */
  function KernelApply(k: Kernel, d: Desired): (k': Kernel) {
    (slot: Slot) =>
      match At(d, slot)
      case None => None
      case Some(sa) =>
        match k(slot)
        case None => Some(KernelSa(sa.keyId, sa.key, if sa.pn.Some? then sa.pn.value else 1))
        case Some(was) => Some(if sa.pn.Some? then was.(pn := sa.pn.value) else was)
  }

  /** Frames sent or received between applies only raise packet numbers. */
  function Traffic(k: Kernel, sent: Slot -> nat): (k': Kernel) {
    (slot: Slot) => match k(slot) case None => None case Some(sa) => Some(sa.(pn := sa.pn + sent(slot)))
  }

  /** The kernel after the applied configurations, with traffic `sent(i)` after the i-th. */
  function KernelAfter(applies: seq<Desired>, sent: (nat, Slot) -> nat): (k: Kernel) {
    if applies == [] then (slot: Slot) => None
    else
      var n := |applies| - 1;
      Traffic(KernelApply(KernelAfter(applies[..n], sent), applies[n]), slot => sent(n, slot))
  }

  /** One slot after one more configuration and the traffic after it. */
  function Moved(k: Option<KernelSa>, want: Option<Sa>, sent: nat): (r: Option<KernelSa>) {
    if want.None? then None
    else if k.None? then
      Some(KernelSa(want.value.keyId, want.value.key, (if want.value.pn.Some? then want.value.pn.value else 1) + sent))
    else Some(k.value.(pn := (if want.value.pn.Some? then want.value.pn.value else k.value.pn) + sent))
  }

  lemma KernelUnfolds(applies: seq<Desired>, d: Desired, sent: (nat, Slot) -> nat, slot: Slot)
    ensures KernelAfter(applies + [d], sent)(slot)
         == Traffic(KernelApply(KernelAfter(applies, sent), d), s => sent(|applies|, s))(slot)
  {
    hide KernelApply, At;
    assert (applies + [d])[..|applies|] == applies;
  }

  lemma MovedIs(k: Kernel, d: Desired, sent: Slot -> nat, slot: Slot)
    ensures Traffic(KernelApply(k, d), sent)(slot) == Moved(k(slot), At(d, slot), sent(slot))
  {
    hide At;
  }

  lemma KernelStep(applies: seq<Desired>, d: Desired, sent: (nat, Slot) -> nat, slot: Slot)
    ensures KernelAfter(applies + [d], sent)(slot)
         == Moved(KernelAfter(applies, sent)(slot), At(d, slot), sent(|applies|, slot))
  {
    hide KernelAfter, KernelApply, Traffic, Moved, At;
    KernelUnfolds(applies, d, sent, slot);
    MovedIs(KernelAfter(applies, sent), d, s => sent(|applies|, s), slot);
  }

  lemma KernelEmpty(sent: (nat, Slot) -> nat, slot: Slot)
    ensures KernelAfter([], sent)(slot) == None
  {
  }

  lemma GoodPrefix(applies: seq<Desired>, slot: Slot)
    requires |applies| > 1 && GoodRun(Desired([], []), applies)
    ensures var n := |applies| - 1; GoodRun(Desired([], []), applies[..n]) && SafeAt(applies[n - 1], applies[n], slot)
  {
    hide At;
    var n, empty := |applies| - 1, Desired([], []);
    forall i | 0 <= i < n ensures GoodApply(InForce(empty, applies[..n], i), applies[..n][i]) {
      assert GoodApply(InForce(empty, applies, i), applies[i]);
    }
    assert GoodApply(InForce(empty, applies, n), applies[n]);
  }

  lemma {:induction false} KernelTracks(applies: seq<Desired>, sent: (nat, Slot) -> nat, slot: Slot)
    requires applies != [] && GoodRun(Desired([], []), applies)
    ensures var k := KernelAfter(applies, sent)(slot); var a := At(applies[|applies| - 1], slot);
      k.Some? == a.Some? && (k.Some? ==> k.value.keyId == a.value.keyId && k.value.key == a.value.key)
  {
    hide At, KernelAfter, GoodRun;
    var n := |applies| - 1;
    var init := applies[..n];
    assert applies == init + [applies[n]];
    KernelStep(init, applies[n], sent, slot);
    if n > 0 {
      GoodPrefix(applies, slot);
      KernelTracks(init, sent, slot);
    } else {
      KernelEmpty(sent, slot);
    }
  }

  /** Applying a configuration without a packet number for an occupied slot only moves it forward. */
  lemma ApplyKeepsPn(applies: seq<Desired>, d: Desired, sent: (nat, Slot) -> nat, slot: Slot)
    requires At(d, slot).Some? ==> At(d, slot).value.pn.None?
    ensures var k, k' := KernelAfter(applies, sent)(slot), KernelAfter(applies + [d], sent)(slot);
      && k'.Some? == At(d, slot).Some?
      && (k.Some? && k'.Some? ==> k.value.keyId == k'.value.keyId && k.value.pn <= k'.value.pn)
  {
    hide At, KernelAfter;
    KernelStep(applies, d, sent, slot);
  }

  /** Replacing a key takes two applies; a slot whose key survives is occupied and unnumbered in both. */
  lemma OperationKeepsPn(e: Effect, op: Op, sent: (nat, Slot) -> nat, slot: Slot)
    requires Settled(e.desired)
    requires At(e.desired, slot).Some? && At(Perform(e.desired, op).desired, slot).Some?
    requires At(e.desired, slot).value.keyId == At(Perform(e.desired, op).desired, slot).value.keyId
    requires KernelAfter(e.applies, sent)(slot).Some?
    ensures var k, k' := KernelAfter(e.applies, sent)(slot), KernelAfter(e.applies + Perform(e.desired, op).applies, sent)(slot);
      k'.Some? && k.value.pn <= k'.value.pn
  {
    hide Perform, KernelAfter, At, Settled;
    var added := Perform(e.desired, op).applies;
    SurvivingSlot(e.desired, op, slot);
    assert At(added[0], slot).Some? && At(added[0], slot).value.pn.None?;
    var mid := e.applies + [added[0]];
    ApplyKeepsPn(e.applies, added[0], sent, slot);
    if |added| == 1 {
      assert e.applies + added == mid;
    } else {
      assert e.applies + added == mid + [added[1]];
      ApplyKeepsPn(mid, added[1], sent, slot);
    }
  }

  /** After every run the kernel holds exactly the keys the device wants, slot by slot, and each
      operation leaves the packet number of every key it does not replace where traffic put it. */
  lemma KernelNeverRewinds(ops: seq<Op>, sent: (nat, Slot) -> nat, slot: Slot)
    requires ops != []
    ensures var e, e' := After(ops[..|ops| - 1]), After(ops);
      var k, k', want := KernelAfter(e.applies, sent)(slot), KernelAfter(e'.applies, sent)(slot), At(e'.desired, slot);
      && k'.Some? == want.Some?
      && (k'.Some? ==> k'.value.keyId == want.value.keyId && k'.value.key == want.value.key)
      && (k.Some? && k'.Some? && k.value.keyId == k'.value.keyId ==> k.value.pn <= k'.value.pn)
  {
    hide After, Perform, KernelAfter, At, GoodRun, Settled;
    var e, e', op := After(ops[..|ops| - 1]), After(ops), ops[|ops| - 1];
    PacketNumbersNeverRewound(ops[..|ops| - 1]);
    PacketNumbersNeverRewound(ops);
    OneMore(ops);
    KernelTracks(e.applies, sent, slot);
    KernelTracks(e'.applies, sent, slot);
    SameAt(e.applies[|e.applies| - 1], e.desired, slot);
    SameAt(e'.applies[|e'.applies| - 1], e'.desired, slot);
    hide SameKeys;
    var k, k' := KernelAfter(e.applies, sent)(slot), KernelAfter(e'.applies, sent)(slot);
    if k.Some? && k'.Some? && k.value.keyId == k'.value.keyId {
      OperationKeepsPn(e, op, sent, slot);
    }
  }

  lemma OneMore(ops: seq<Op>)
    requires ops != []
    ensures var e, e', op := After(ops[..|ops| - 1]), After(ops), ops[|ops| - 1];
      e'.desired == Perform(e.desired, op).desired && e'.applies == e.applies + Perform(e.desired, op).applies
  {
    hide Perform;
  }

  lemma SameAt(a: Desired, b: Desired, slot: Slot)
    requires SameKeys(a, b)
    ensures SameSa(At(a, slot), At(b, slot))
  {
  }

  lemma SurvivingSlot(d: Desired, op: Op, slot: Slot)
    requires Settled(d) && At(d, slot).Some? && At(Perform(d, op).desired, slot).Some?
    requires At(d, slot).value.keyId == At(Perform(d, op).desired, slot).value.keyId
    ensures var added := Perform(d, op).applies;
      && 1 <= |added| <= 2
      && forall i | 0 <= i < |added| :: At(added[i], slot).Some? && At(added[i], slot).value.pn.None?
  {
    assert At(d, slot).value.pn.None?;
    hide Evict, ForgetPn, InstallTx, InstallRx, Activate, KeepSc;
    match op
    case OpInstallTx(an, ki, key, active) => SurvivingTx(d, an, ki, key, active, slot);
    case OpActivateTx(an) => ActivateSlots(d, an, slot);
    case OpInstallRx(sci, an, ki, key) => SurvivingRx(d, sci, an, ki, key, slot);
    case OpRemoveRx(sci) =>
      if slot.RxSlot? {
        KeepScLookup(d.rx, sci, slot.sci);
      }
    case OpClear =>
  }

  lemma SurvivingTx(d: Desired, an: u8, ki: KeyId, key: bytes, active: bool, slot: Slot)
    requires Settled(d) && At(d, slot).Some? && At(InstallTx(d, an, ki, key, active).desired, slot).Some?
    requires At(d, slot).value.keyId == At(InstallTx(d, an, ki, key, active).desired, slot).value.keyId
    ensures var added := InstallTx(d, an, ki, key, active).applies;
      && 1 <= |added| <= 2
      && forall i | 0 <= i < |added| :: At(added[i], slot).Some? && At(added[i], slot).value.pn.None?
  {
    assert At(d, slot).value.pn.None?;
    if HasKey(d.tx, an, ki) {
      ActivateSlots(d, an, slot);
    } else if slot.TxSlot? {
      Replaced(d.tx, Sa(an, Some(1), active, ki, key), slot.an);
      hide Evict, ForgetPn;
    }
  }

  lemma SurvivingRx(d: Desired, sci: u64, an: u8, ki: KeyId, key: bytes, slot: Slot)
    requires Settled(d) && At(d, slot).Some? && At(InstallRx(d, sci, an, ki, key).desired, slot).Some?
    requires At(d, slot).value.keyId == At(InstallRx(d, sci, an, ki, key).desired, slot).value.keyId
    ensures var added := InstallRx(d, sci, an, ki, key).applies;
      && 1 <= |added| <= 2
      && forall i | 0 <= i < |added| :: At(added[i], slot).Some? && At(added[i], slot).value.pn.None?
  {
    hide At, SetSas, Evict, ForgetPn, WithSc;
    var i := FindSc(d.rx, sci);
    var base := d.(rx := WithSc(d.rx, sci));
    var sa := Sa(an, Some(1), true, ki, key);
    var sas := base.rx[i].sas;
    ChannelSlot(d, sci, slot);
    assert At(d, slot).value.pn.None?;
    hide Settled;
    if !HasKey(sas, an, ki) {
      Replaced(sas, sa, slot.an);
      SetSasSlots(base, i, Evict(sas, an));
      SetSasSlots(base, i, Evict(sas, an) + [sa]);
      SetSasSlots(base, i, ForgetPn(Evict(sas, an) + [sa], an));
    }
  }
}
