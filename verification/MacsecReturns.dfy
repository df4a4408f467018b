/** Packet numbers of a key over whole runs: they go back only for a key that returns to a slot it left. */
module MacsecReturns {
  import opened Wire
  import opened Mkpdu
  import opened Macsec
  import opened MacsecRuns
  import opened MacsecSlots

  /** The key id wanted in a slot after the first `i` operations. */
  function KeyAt(ops: seq<Op>, slot: Slot, i: nat): (k: Option<KeyId>)
    requires i <= |ops|
  {
    var sa := At(After(ops[..i]).desired, slot);
    if sa.Some? then Some(sa.value.keyId) else None
  }

  /** What the kernel holds in it then. */
  function KernelAt(ops: seq<Op>, sent: (nat, Slot) -> nat, slot: Slot, i: nat): (k: Option<KernelSa>)
    requires i <= |ops|
  {
    KernelAfter(After(ops[..i]).applies, sent)(slot)
  }

  /** A key id is in the slot, then not, then again. */
  ghost predicate Returns(ops: seq<Op>, slot: Slot) {
    exists i: nat, j: nat, k: nat | i < j < k <= |ops| :: ReturnsAt(ops, slot, i, j, k)
  }

  ghost predicate ReturnsAt(ops: seq<Op>, slot: Slot, i: nat, j: nat, k: nat)
    requires i < j < k <= |ops|
  {
    KeyAt(ops, slot, i).Some? && KeyAt(ops, slot, j) != KeyAt(ops, slot, i) && KeyAt(ops, slot, k) == KeyAt(ops, slot, i)
  }

  /** From `i` to `k` the packet number of the same key id does not decrease. */
  ghost predicate Kept(ops: seq<Op>, sent: (nat, Slot) -> nat, slot: Slot, i: nat, k: nat)
    requires i <= k <= |ops|
  {
    var a, b := KernelAt(ops, sent, slot, i), KernelAt(ops, sent, slot, k);
    a.Some? && b.Some? && a.value.keyId == b.value.keyId ==> a.value.pn <= b.value.pn
  }

  ghost predicate NeverDecreases(ops: seq<Op>, slot: Slot) {
    forall sent: (nat, Slot) -> nat, i: nat, k: nat | i <= k <= |ops| :: Kept(ops, sent, slot, i, k)
  }

  lemma KernelHas(ops: seq<Op>, sent: (nat, Slot) -> nat, slot: Slot, i: nat)
    requires i <= |ops|
    ensures var k := KernelAt(ops, sent, slot, i);
      k.Some? == KeyAt(ops, slot, i).Some? && (k.Some? ==> Some(k.value.keyId) == KeyAt(ops, slot, i))
  {
    var e := After(ops[..i]);
    PacketNumbersNeverRewound(ops[..i]);
    KernelTracks(e.applies, sent, slot);
    hide After, KernelAfter, At;
    assert SameSa(At(e.applies[|e.applies| - 1], slot), At(e.desired, slot));
  }

  lemma OneStep(ops: seq<Op>, sent: (nat, Slot) -> nat, slot: Slot, i: nat)
    requires i < |ops|
    ensures Kept(ops, sent, slot, i, i + 1)
  {
    assert ops[..i + 1][..i] == ops[..i];
    hide After, KernelAfter, At;
    KernelNeverRewinds(ops[..i + 1], sent, slot);
  }

  /** While a key id stays, its packet number does not decrease. */
  lemma {:induction false} StaysKept(ops: seq<Op>, sent: (nat, Slot) -> nat, slot: Slot, i: nat, k: nat)
    requires i <= k <= |ops| && forall j | i <= j <= k :: KeyAt(ops, slot, j) == KeyAt(ops, slot, i)
    ensures Kept(ops, sent, slot, i, k)
    decreases k - i
  {
    hide KeyAt, KernelAt;
    if i < k {
      StaysKept(ops, sent, slot, i, k - 1);
      OneStep(ops, sent, slot, k - 1);
      KernelHas(ops, sent, slot, i);
      KernelHas(ops, sent, slot, k - 1);
      KernelHas(ops, sent, slot, k);
      assert KeyAt(ops, slot, k - 1) == KeyAt(ops, slot, i) && KeyAt(ops, slot, k) == KeyAt(ops, slot, i);
    }
  }

  lemma NoReturnKept(ops: seq<Op>, sent: (nat, Slot) -> nat, slot: Slot, i: nat, k: nat)
    requires !Returns(ops, slot) && i <= k <= |ops|
    ensures Kept(ops, sent, slot, i, k)
  {
    hide KeyAt, KernelAt;
    KernelHas(ops, sent, slot, i);
    KernelHas(ops, sent, slot, k);
    if KeyAt(ops, slot, i).Some? && KeyAt(ops, slot, k) == KeyAt(ops, slot, i) {
      forall j | i <= j <= k ensures KeyAt(ops, slot, j) == KeyAt(ops, slot, i) {
        if i < j < k {
          assert !ReturnsAt(ops, slot, i, j, k);
        }
      }
      StaysKept(ops, sent, slot, i, k);
    }
  }

  // --------------------------------------------------------------- a new key

  /** A key id that an operation brings into a slot is applied last, with packet number one. */
  lemma NewKeyIsNumbered(d: Desired, op: Op, slot: Slot)
    requires Settled(d) && At(Perform(d, op).desired, slot).Some?
    requires At(d, slot).Some? ==> At(d, slot).value.keyId != At(Perform(d, op).desired, slot).value.keyId
    ensures var added := Perform(d, op).applies;
      added != [] && At(added[|added| - 1], slot).Some? && At(added[|added| - 1], slot).value.pn == Some(1)
  {
    hide Evict, ForgetPn, InstallTx, InstallRx, Activate, KeepSc, At, Settled;
    PerformExact(d, op, slot);
    if op.OpInstallTx? {
      NewTx(d, op.an, op.ki, op.key, op.active, slot);
    } else if op.OpInstallRx? {
      NewRx(d, op.sci, op.an, op.ki, op.key, slot);
    }
  }

  lemma NewTx(d: Desired, an: u8, ki: KeyId, key: bytes, active: bool, slot: Slot)
    requires Settled(d) && At(InstallTx(d, an, ki, key, active).desired, slot).Some?
    requires At(d, slot).Some? ==> At(d, slot).value.keyId != At(InstallTx(d, an, ki, key, active).desired, slot).value.keyId
    ensures var added := InstallTx(d, an, ki, key, active).applies;
      added != [] && At(added[|added| - 1], slot).Some? && At(added[|added| - 1], slot).value.pn == Some(1)
  {
    if HasKey(d.tx, an, ki) {
      ActivateSlots(d, an, slot);
    } else if slot.TxSlot? {
      Replaced(d.tx, Sa(an, Some(1), active, ki, key), slot.an);
      hide Evict, ForgetPn;
    }
  }

  lemma NewRx(d: Desired, sci: u64, an: u8, ki: KeyId, key: bytes, slot: Slot)
    requires Settled(d) && At(InstallRx(d, sci, an, ki, key).desired, slot).Some?
    requires At(d, slot).Some? ==> At(d, slot).value.keyId != At(InstallRx(d, sci, an, ki, key).desired, slot).value.keyId
    ensures var added := InstallRx(d, sci, an, ki, key).applies;
      added != [] && At(added[|added| - 1], slot).Some? && At(added[|added| - 1], slot).value.pn == Some(1)
  {
    hide At, SetSas, Evict, ForgetPn, WithSc, Settled;
    var i := FindSc(d.rx, sci);
    var base := d.(rx := WithSc(d.rx, sci));
    var sa := Sa(an, Some(1), true, ki, key);
    var sas := base.rx[i].sas;
    ChannelSlot(d, sci, slot);
    if !HasKey(sas, an, ki) {
      Replaced(sas, sa, slot.an);
      SetSasSlots(base, i, Evict(sas, an) + [sa]);
      SetSasSlots(base, i, ForgetPn(Evict(sas, an) + [sa], an));
    }
  }

  /** The kernel starts a new key at one, plus what it sends at once. */
  lemma NumberedStartsAtOne(applies: seq<Desired>, d: Desired, sent: (nat, Slot) -> nat, slot: Slot)
    requires GoodRun(Desired([], []), applies + [d]) && At(d, slot).Some? && At(d, slot).value.pn == Some(1)
    ensures var k := KernelAfter(applies + [d], sent)(slot); k.Some? && k.value.pn == 1 + sent(|applies|, slot)
  {
    KernelStep(applies, d, sent, slot);
  }

  lemma AppliesGrow(ops: seq<Op>, i: nat)
    requires i < |ops|
    ensures var e := After(ops[..i]);
      && After(ops[..i + 1]).applies == e.applies + Perform(e.desired, ops[i]).applies
      && After(ops[..i + 1]).desired == Perform(e.desired, ops[i]).desired
  {
    assert ops[..i + 1][..i] == ops[..i];
  }

  lemma NewKeyStartsAtOne(ops: seq<Op>, sent: (nat, Slot) -> nat, slot: Slot, i: nat)
    requires i < |ops| && KeyAt(ops, slot, i + 1).Some? && KeyAt(ops, slot, i) != KeyAt(ops, slot, i + 1)
    ensures var k := KernelAt(ops, sent, slot, i + 1); var n := |After(ops[..i + 1]).applies|;
      n > |After(ops[..i]).applies| > 0 && k.Some? && k.value.pn == 1 + sent(n - 1, slot)
  {
    hide After, KernelAfter, Perform, GoodRun, At, Settled, SameKeys;
    var e, e' := After(ops[..i]), After(ops[..i + 1]);
    PacketNumbersNeverRewound(ops[..i]);
    PacketNumbersNeverRewound(ops[..i + 1]);
    AppliesGrow(ops, i);
    NewKeyIsNumbered(e.desired, ops[i], slot);
    var added := Perform(e.desired, ops[i]).applies;
    LastNumbered(e.applies, added, sent, slot);
  }

  lemma LastNumbered(applies: seq<Desired>, added: seq<Desired>, sent: (nat, Slot) -> nat, slot: Slot)
    requires added != [] && GoodRun(Desired([], []), applies + added)
    requires At(added[|added| - 1], slot).Some? && At(added[|added| - 1], slot).value.pn == Some(1)
    ensures var k := KernelAfter(applies + added, sent)(slot);
      k.Some? && k.value.pn == 1 + sent(|applies + added| - 1, slot)
  {
    hide KernelAfter, GoodRun, At;
    var n := |added| - 1;
    assert applies + added == (applies + added[..n]) + [added[n]];
    NumberedStartsAtOne(applies + added[..n], added[n], sent, slot);
  }

  lemma {:induction false} AppliesMono(ops: seq<Op>, i: nat, k: nat)
    requires i <= k <= |ops|
    ensures 0 < |After(ops[..i]).applies| <= |After(ops[..k]).applies|
    decreases k - i
  {
    hide GoodRun, Settled, SameKeys, After, Perform;
    PacketNumbersNeverRewound(ops[..i]);
    if i < k {
      AppliesMono(ops, i, k - 1);
      AppliesGrow(ops, k - 1);
    }
  }

  /** Traffic raises the packet number at least by what was sent last. */
  lemma SentIsCounted(applies: seq<Desired>, sent: (nat, Slot) -> nat, slot: Slot)
    requires applies != []
    ensures var k := KernelAfter(applies, sent)(slot); k.Some? ==> k.value.pn >= sent(|applies| - 1, slot)
  {
  }

  /** Where a key id comes back. */
  lemma {:induction false} ComesBack(ops: seq<Op>, slot: Slot, key: Option<KeyId>, j: nat, k: nat) returns (b: nat)
    requires j < k <= |ops| && KeyAt(ops, slot, j) != key && KeyAt(ops, slot, k) == key
    ensures j <= b < k && KeyAt(ops, slot, b) != key && KeyAt(ops, slot, b + 1) == key
    decreases k - j
  {
    hide KeyAt;
    if KeyAt(ops, slot, k - 1) != key {
      b := k - 1;
    } else {
      b := ComesBack(ops, slot, key, j, k - 1);
    }
  }

  /** With traffic after `i`, a key id that returns starts below where it was. */
  lemma ReturnRewinds(ops: seq<Op>, slot: Slot, i: nat, j: nat, k: nat)
    requires i < j < k <= |ops| && ReturnsAt(ops, slot, i, j, k)
    ensures !NeverDecreases(ops, slot)
  {
    hide KeyAt, After;
    var at := |After(ops[..i]).applies| - 1;
    var sent := (n: nat, s: Slot) => if n == at then 2 else 0;
    var b := ComesBack(ops, slot, KeyAt(ops, slot, i), j, k);
    NewKeyStartsAtOne(ops, sent, slot, b);
    AppliesMono(ops, i, b);
    KernelHas(ops, sent, slot, i);
    KernelHas(ops, sent, slot, b + 1);
    SentIsCounted(After(ops[..i]).applies, sent, slot);
    hide KernelAfter;
    assert KernelAt(ops, sent, slot, b + 1).value.pn == 1;
    assert KernelAt(ops, sent, slot, i).value.pn >= 2;
    assert !Kept(ops, sent, slot, i, b + 1);
  }

  /** Over a whole run, whatever the traffic, the packet number of every key id in a slot never decreases exactly
      when no key id returns to the slot after leaving it. */
  lemma NeverRewoundIffNoReturn(ops: seq<Op>, slot: Slot)
    ensures NeverDecreases(ops, slot) <==> !Returns(ops, slot)
  {
    hide KeyAt, KernelAt;
    if Returns(ops, slot) {
      var i: nat, j: nat, k: nat :| i < j < k <= |ops| && ReturnsAt(ops, slot, i, j, k);
      ReturnRewinds(ops, slot, i, j, k);
    } else {
      forall sent: (nat, Slot) -> nat, i: nat, k: nat | i <= k <= |ops| ensures Kept(ops, sent, slot, i, k) {
        NoReturnKept(ops, sent, slot, i, k);
      }
    }
  }

  /** Two keys alternating on one association number. */
  function Alternating(): (ops: seq<Op>) {
    [OpInstallTx(0, KeyId(1, 1), [], false), OpInstallTx(0, KeyId(2, 1), [], false), OpInstallTx(0, KeyId(1, 1), [], false)]
  }

  lemma AlternatingReturns()
    ensures Returns(Alternating(), TxSlot(0)) && !NeverDecreases(Alternating(), TxSlot(0))
  {
    var ops := Alternating();
    Installed(ops, 1);
    Installed(ops, 2);
    Installed(ops, 3);
    hide After;
    assert ReturnsAt(ops, TxSlot(0), 1, 2, 3);
    NeverRewoundIffNoReturn(ops, TxSlot(0));
  }

  lemma Installed(ops: seq<Op>, i: nat)
    requires 0 < i <= |ops| && ops[i - 1].OpInstallTx? && ops[i - 1].an == 0
    ensures KeyAt(ops, TxSlot(0), i) == Some(ops[i - 1].ki)
  {
    hide After, At;
    var before, all := ops[..i - 1], ops[..i];
    assert all[..i - 1] == before && all[i - 1] == ops[i - 1];
    SlotsExact(all, TxSlot(0));
  }
}
