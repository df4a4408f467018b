/** The MACsec device: the desired TX and RX security associations and every configuration the
    kernel is asked to apply (src/wired/macsec.rs). */
module Macsec {
  import opened Wire
  import opened Mkpdu

  datatype Sa = Sa(an: u8, pn: Option<nat>, active: bool, keyId: KeyId, key: bytes)

  datatype RxSc = RxSc(sci: u64, sas: seq<Sa>)

  datatype Desired = Desired(tx: seq<Sa>, rx: seq<RxSc>)

  /** What one device operation leaves: the desired state and the configurations it applied. */
  datatype Effect = Effect(desired: Desired, applies: seq<Desired>)

  function FindSa(sas: seq<Sa>, an: u8): (i: nat)
    ensures i <= |sas|
    ensures i < |sas| ==> sas[i].an == an
    ensures forall j | 0 <= j < i :: sas[j].an != an
  {
    if sas == [] || sas[0].an == an then 0 else 1 + FindSa(sas[1..], an)
  }

  function FindSc(scs: seq<RxSc>, sci: u64): (i: nat)
    ensures i <= |scs|
    ensures i < |scs| ==> scs[i].sci == sci
    ensures forall j | 0 <= j < i :: scs[j].sci != sci
  {
    if scs == [] || scs[0].sci == sci then 0 else 1 + FindSc(scs[1..], sci)
  }

  function Without<T>(s: seq<T>, i: nat): (r: seq<T>)
    requires i < |s|
    ensures |r| == |s| - 1
  {
    s[..i] + s[i + 1..]
  }

  /** The SA list without `an`: unchanged when `an` is absent. */
  function Evict(sas: seq<Sa>, an: u8): (r: seq<Sa>) {
    var i := FindSa(sas, an);
    if i < |sas| then Without(sas, i) else sas
  }

  function ForgetPn(sas: seq<Sa>, an: u8): (r: seq<Sa>) {
    var i := FindSa(sas, an);
    if i < |sas| then sas[i := sas[i].(pn := None)] else sas
  }

  function Activate(sas: seq<Sa>, an: u8): (r: seq<Sa>) {
    var i := FindSa(sas, an);
    if i < |sas| then sas[i := sas[i].(active := true)] else sas
  }

  function HasKey(sas: seq<Sa>, an: u8, ki: KeyId): (b: bool) {
    var i := FindSa(sas, an);
    i < |sas| && sas[i].keyId == ki
  }

  function InstallTx(d: Desired, an: u8, ki: KeyId, key: bytes, active: bool): (e: Effect) {
    if HasKey(d.tx, an, ki) then
      var d' := if active then d.(tx := Activate(d.tx, an)) else d;
      Effect(d', [d'])
    else
      var without := d.(tx := Evict(d.tx, an));
      var with := d.(tx := Evict(d.tx, an) + [Sa(an, Some(1), active, ki, key)]);
      Effect(with.(tx := ForgetPn(with.tx, an)),
             (if FindSa(d.tx, an) < |d.tx| then [without] else []) + [with])
  }

  function ActivateTx(d: Desired, an: u8): (e: Effect) {
    var d' := d.(tx := Activate(d.tx, an));
    Effect(d', [d'])
  }

  function WithSc(scs: seq<RxSc>, sci: u64): (r: seq<RxSc>)
    ensures FindSc(scs, sci) < |r| && r[FindSc(scs, sci)].sci == sci
  {
    if FindSc(scs, sci) < |scs| then scs else scs + [RxSc(sci, [])]
  }

  function SetSas(d: Desired, i: nat, sas: seq<Sa>): (r: Desired)
    requires i < |d.rx|
  {
    d.(rx := d.rx[i := d.rx[i].(sas := sas)])
  }

  function InstallRx(d: Desired, sci: u64, an: u8, ki: KeyId, key: bytes): (e: Effect) {
    var i := FindSc(d.rx, sci);
    var base := d.(rx := WithSc(d.rx, sci));
    var sas := base.rx[i].sas;
    if HasKey(sas, an, ki) then Effect(base, [base])
    else
      var without := Evict(sas, an);
      var with := without + [Sa(an, Some(1), true, ki, key)];
      Effect(SetSas(base, i, ForgetPn(with, an)),
             (if FindSa(sas, an) < |sas| then [SetSas(base, i, without)] else []) + [SetSas(base, i, with)])
  }

  function KeepSc(scs: seq<RxSc>, sci: u64): (r: seq<RxSc>)
    ensures forall sc | sc in r :: sc in scs && sc.sci != sci
  {
    if scs == [] then []
    else KeepSc(scs[..|scs| - 1], sci) + (if scs[|scs| - 1].sci != sci then [scs[|scs| - 1]] else [])
  }

  function RemoveRx(d: Desired, sci: u64): (e: Effect) {
    var d' := d.(rx := KeepSc(d.rx, sci));
    Effect(d', [d'])
  }

  function Clear(): (e: Effect) {
    Effect(Desired([], []), [Desired([], [])])
  }

  datatype Op =
    | OpInstallTx(an: u8, ki: KeyId, key: bytes, active: bool)
    | OpActivateTx(an: u8)
    | OpInstallRx(sci: u64, an: u8, ki: KeyId, key: bytes)
    | OpRemoveRx(sci: u64)
    | OpClear

  function Perform(d: Desired, op: Op): (e: Effect) {
    match op
    case OpInstallTx(an, ki, key, active) => InstallTx(d, an, ki, key, active)
    case OpActivateTx(an) => ActivateTx(d, an)
    case OpInstallRx(sci, an, ki, key) => InstallRx(d, sci, an, ki, key)
    case OpRemoveRx(sci) => RemoveRx(d, sci)
    case OpClear => Clear()
  }

  /** One device. `applied` records, oldest first, every configuration handed to the kernel. */
  class MacsecDevice {
    var desired: Desired
    ghost var applied: seq<Desired>
    /** The association number the netdev was last told to transmit with. */
    ghost var encodingSa: Option<u8>

    /** Clears the security associations a previous run may have left. */
    constructor ()
      ensures desired == Desired([], []) && applied == [Desired([], [])] && encodingSa == None
    {
      desired := Desired([], []);
      applied := [Desired([], [])];
      encodingSa := None;
    }

    method Apply()
      modifies this`applied
      ensures applied == old(applied) + [desired]
    {
      applied := applied + [desired];
    }

    method SetEncodingSa(an: u8)
      modifies this`encodingSa
      ensures encodingSa == Some(an)
    {
      encodingSa := Some(an);
    }

    method InstallTxSa(an: u8, ki: KeyId, key: bytes, active: bool)
      modifies this
      ensures var e := InstallTx(old(desired), an, ki, key, active);
        desired == e.desired && applied == old(applied) + e.applies
      ensures encodingSa == if active then Some(an) else old(encodingSa)
    {
      var pos := FindSa(desired.tx, an);
      if pos < |desired.tx| && desired.tx[pos].keyId == ki {
        if active {
          desired := desired.(tx := desired.tx[pos := desired.tx[pos].(active := true)]);
        }
        Apply();
        if active {
          SetEncodingSa(an);
        }
        return;
      }
      if pos < |desired.tx| {
        desired := desired.(tx := Without(desired.tx, pos));
        Apply();
      }
      desired := desired.(tx := desired.tx + [Sa(an, Some(1), active, ki, key)]);
      Apply();
      desired := desired.(tx := ForgetPn(desired.tx, an));
      if active {
        SetEncodingSa(an);
      }
    }

    method SetTxSaActive(an: u8)
      modifies this
      ensures var e := ActivateTx(old(desired), an);
        desired == e.desired && applied == old(applied) + e.applies
      ensures encodingSa == Some(an)
    {
      var pos := FindSa(desired.tx, an);
      if pos < |desired.tx| {
        desired := desired.(tx := desired.tx[pos := desired.tx[pos].(active := true)]);
      }
      Apply();
      SetEncodingSa(an);
    }

    method InstallRxSa(sci: u64, an: u8, ki: KeyId, key: bytes)
      modifies this`desired, this`applied
      ensures var e := InstallRx(old(desired), sci, an, ki, key);
        desired == e.desired && applied == old(applied) + e.applies
    {
      var index := FindSc(desired.rx, sci);
      if index == |desired.rx| {
        desired := desired.(rx := desired.rx + [RxSc(sci, [])]);
      }
      ghost var base := desired;
      assert base.rx == WithSc(old(desired).rx, sci);
      var pos := FindSa(desired.rx[index].sas, an);
      if pos < |desired.rx[index].sas| && desired.rx[index].sas[pos].keyId == ki {
        Apply();
        return;
      }
      if pos < |desired.rx[index].sas| {
        desired := SetSas(desired, index, Without(desired.rx[index].sas, pos));
        Apply();
      }
      assert desired == SetSas(base, index, Evict(base.rx[index].sas, an));
      desired := SetSas(desired, index, desired.rx[index].sas + [Sa(an, Some(1), true, ki, key)]);
      assert desired == SetSas(base, index, Evict(base.rx[index].sas, an) + [Sa(an, Some(1), true, ki, key)]);
      Apply();
      desired := SetSas(desired, index, ForgetPn(desired.rx[index].sas, an));
      assert desired == InstallRx(old(desired), sci, an, ki, key).desired;
    }

    method RemoveRxSc(sci: u64)
      modifies this`desired, this`applied
      ensures var e := RemoveRx(old(desired), sci);
        desired == e.desired && applied == old(applied) + e.applies
    {
      var kept: seq<RxSc> := [];
      for i := 0 to |desired.rx|
        invariant kept == KeepSc(desired.rx[..i], sci)
      {
        assert desired.rx[..i + 1][..i] == desired.rx[..i];
        if desired.rx[i].sci != sci {
          kept := kept + [desired.rx[i]];
        }
      }
      assert desired.rx[..|desired.rx|] == desired.rx;
      desired := desired.(rx := kept);
      Apply();
    }

    method ClearSas()
      modifies this`desired, this`applied
      ensures desired == Clear().desired && applied == old(applied) + Clear().applies
    {
      desired := Desired([], []);
      Apply();
    }
  }
}
