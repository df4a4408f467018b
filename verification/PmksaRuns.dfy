/** The PMKSA cache against an unbounded expiring map, over every run. */
module PmksaRuns {
  import opened Wire
  import opened Pmksa

  // --------------------------------------------------------------- membership

  predicate Unique(es: seq<Entry>) { forall i, j | 0 <= i < j < |es| :: es[i].key != es[j].key }

  lemma SameKey(es: seq<Entry>, x: Entry, y: Entry)
    requires Unique(es) && x in es && y in es && x.key == y.key
    ensures x == y
  {
  }

  lemma LastSplits(es: seq<Entry>)
    requires es != []
    ensures var n := |es| - 1;
      && (forall e :: e in es <==> e in es[..n] || e == es[n])
      && (Unique(es) ==> Unique(es[..n]) && forall e | e in es[..n] :: e.key != es[n].key)
  {
  }

  lemma AppendIs(es: seq<Entry>, e: Entry)
    ensures forall x :: x in es + [e] <==> x == e || x in es
    ensures Unique(es) && (forall x | x in es :: x.key != e.key) ==> Unique(es + [e])
  {
  }

  lemma {:induction false} UnexpiredIs(es: seq<Entry>, now: nat)
    ensures forall e :: e in Unexpired(es, now) <==> e in es && e.expires > now
    ensures Unique(es) ==> Unique(Unexpired(es, now))
    ensures |Unexpired(es, now)| <= |es|
  {
    if es != [] {
      var n := |es| - 1;
      UnexpiredIs(es[..n], now);
      LastSplits(es);
      AppendIs(Unexpired(es[..n], now), es[n]);
      hide Unique;
    }
  }

  lemma SwapRemoveIs(es: seq<Entry>, i: nat)
    requires Unique(es) && i < |es|
    ensures Unique(SwapRemove(es, i))
    ensures forall e :: e in SwapRemove(es, i) <==> e in es && e != es[i]
  {
    var r, n := SwapRemove(es, i), |es| - 1;
    forall e | e in es && e != es[i] ensures e in r {
      var k :| 0 <= k < |es| && es[k] == e;
      assert if k == n then r[i] == e else r[k] == e;
    }
    forall e | e in r ensures e in es && e != es[i] {
      var k :| 0 <= k < |r| && r[k] == e;
      assert e == if k == i then es[n] else es[k];
    }
  }

  lemma {:induction false} OldestIs(es: seq<Entry>)
    requires es != []
    ensures forall e | e in es :: es[Oldest(es)].expires <= e.expires
  {
    if |es| > 1 {
      var n := |es| - 1;
      OldestIs(es[..n]);
      assert forall e | e in es :: e in es[..n] || e == es[n];
    }
  }

  /** Inserting makes room at the cost of an unexpired entry. */
  predicate Evicts(es: seq<Entry>, key: Key, now: nat) {
    var live := Unexpired(es, now);
    |live| == MAX_ENTRIES && FindKey(live, key) == |live|
  }

  /** Keys stay unique, there are never more than 32 entries, the new entry is in, every other unexpired
      entry stays, except for one of minimal expiry when all 32 places are taken by other keys. */
  lemma InsertedIs(es: seq<Entry>, e: Entry, now: nat)
    requires Unique(es) && |es| <= MAX_ENTRIES
    ensures var r := Inserted(es, e, now); var live := Unexpired(es, now);
      && Unique(r) && |r| <= MAX_ENTRIES
      && (!Evicts(es, e.key, now) ==> forall x :: x in r <==> x == e || (x in live && x.key != e.key))
      && (Evicts(es, e.key, now) ==>
            var victim := live[Oldest(live)];
            && (forall x | x in live :: x.key != e.key && victim.expires <= x.expires)
            && (forall x :: x in r <==> x == e || (x in live && x != victim)))
  {
    UnexpiredIs(es, now);
    var r, live := Inserted(es, e, now), Unexpired(es, now);
    var i := FindKey(live, e.key);
    hide Unexpired;
    if i < |live| {
      ReplaceIs(live, i, e);
    } else {
      forall x | x in live ensures x.key != e.key {
        var k :| 0 <= k < |live| && live[k] == x;
      }
      if |live| == MAX_ENTRIES {
        OldestIs(live);
        SwapRemoveIs(live, Oldest(live));
        hide SwapRemove, Oldest;
        AppendIs(SwapRemove(live, Oldest(live)), e);
      } else {
        AppendIs(live, e);
      }
    }
  }

  lemma ReplaceIs(es: seq<Entry>, i: nat, e: Entry)
    requires Unique(es) && i < |es| && es[i].key == e.key
    ensures Unique(es[i := e])
    ensures forall x :: x in es[i := e] <==> x == e || (x in es && x.key != e.key)
  {
    var r := es[i := e];
    forall x | x in r ensures x == e || (x in es && x.key != e.key) {
      var k :| 0 <= k < |r| && r[k] == x;
    }
    forall x | x in es && x.key != e.key ensures x in r {
      var k :| 0 <= k < |es| && es[k] == x;
      assert r[k] == x;
    }
    assert r[i] == e;
  }

  lemma RemovedIs(es: seq<Entry>, key: Key)
    requires Unique(es)
    ensures Unique(Removed(es, key)) && |Removed(es, key)| <= |es|
    ensures forall e :: e in Removed(es, key) <==> e in es && e.key != key
  {
    var i := FindKey(es, key);
    if i < |es| {
      SwapRemoveIs(es, i);
      hide SwapRemove;
      forall e | e in es && e.key == key ensures e == es[i] {
        SameKey(es, e, es[i]);
      }
    }
  }

  lemma {:induction false} OfSsidIs(es: seq<Entry>, ssid: string, matching: bool)
    ensures forall e :: e in OfSsid(es, ssid, matching) <==> e in es && (e.key.ssid == ssid) == matching
    ensures Unique(es) ==> Unique(OfSsid(es, ssid, matching))
    ensures |OfSsid(es, ssid, matching)| <= |es|
  {
    if es != [] {
      var n := |es| - 1;
      OfSsidIs(es[..n], ssid, matching);
      LastSplits(es);
      AppendIs(OfSsid(es[..n], ssid, matching), es[n]);
      hide Unique;
    }
  }

  lemma {:induction false} FindSideIs(es: seq<Entry>, key: Key, now: nat, past: bool, e: Entry)
    requires Unique(es)
    ensures FindSide(es, key, now, past) == Some(e) <==> e in es && e.key == key && past == (now >= e.reauthAt)
  {
    if es != [] {
      assert Unique(es[1..]);
      FindSideIs(es[1..], key, now, past, e);
      assert e in es <==> e == es[0] || e in es[1..];
      if e in es && e.key == key && es[0].key == key {
        SameKey(es, e, es[0]);
      }
    }
  }

  // --------------------------------------------------------------------- runs

  /** Every operation comes with the instant at which it drops expired entries; the two lookups read the clock
      again, at `at`. */
  datatype Op =
    | Insert(entry: Entry)
    | Lookup(key: Key, at: nat)
    | PastReauth(key: Key, at: nat)
    | Contains(key: Key)
    | Invalidate(key: Key)
    | RemoveSsid(ssid: string)
    | Expire

  function Step(es: seq<Entry>, op: Op, now: nat): (r: seq<Entry>) {
    match op
    case Insert(e) => Inserted(es, e, now)
    case Invalidate(key) => Removed(es, key)
    case RemoveSsid(ssid) => OfSsid(es, ssid, false)
    case _ => Unexpired(es, now)
  }

  datatype Reply = Found(entry: Option<Entry>) | Present(yes: bool) | Silent

  function Answer(es: seq<Entry>, op: Op, now: nat): (r: Reply) {
    match op
    case Lookup(key, at) => Found(FindSide(Unexpired(es, now), key, at, false))
    case PastReauth(key, at) => Found(FindSide(Unexpired(es, now), key, at, true))
    case Contains(key) => Present(FindKey(Unexpired(es, now), key) < |Unexpired(es, now)|)
    case _ => Silent
  }

  function Run(ops: seq<(Op, nat)>): (es: seq<Entry>) {
    if ops == [] then [] else Step(Run(ops[..|ops| - 1]), ops[|ops| - 1].0, ops[|ops| - 1].1)
  }

  lemma StepGood(es: seq<Entry>, op: Op, now: nat)
    requires Unique(es) && |es| <= MAX_ENTRIES
    ensures Unique(Step(es, op, now)) && |Step(es, op, now)| <= MAX_ENTRIES
  {
    hide Inserted, Removed, OfSsid, Unexpired, Unique;
    match op
    case Insert(e) => InsertedIs(es, e, now);
    case Invalidate(key) => RemovedIs(es, key);
    case RemoveSsid(ssid) => OfSsidIs(es, ssid, false);
    case _ => UnexpiredIs(es, now);
  }

  /** In every run keys stay unique and there are at most 32 entries. */
  lemma {:induction false} RunGood(ops: seq<(Op, nat)>)
    ensures Unique(Run(ops)) && |Run(ops)| <= 32
  {
    if ops != [] {
      RunGood(ops[..|ops| - 1]);
      hide Step, Unique;
      StepGood(Run(ops[..|ops| - 1]), ops[|ops| - 1].0, ops[|ops| - 1].1);
    }
  }

  // ------------------------------------------------- the unbounded expiring map

  function MapStep(m: map<Key, Entry>, op: Op): (r: map<Key, Entry>) {
    match op
    case Insert(e) => m[e.key := e]
    case Invalidate(key) => map k | k in m && k != key :: m[k]
    case RemoveSsid(ssid) => map k | k in m && k.ssid != ssid :: m[k]
    case _ => m
  }

  function MapView(m: map<Key, Entry>, key: Key, now: nat): (r: Option<Entry>) {
    if key in m && m[key].expires > now then Some(m[key]) else None
  }

  function MapAnswer(m: map<Key, Entry>, op: Op, now: nat): (r: Reply) {
    match op
    case Lookup(key, at) =>
      var v := MapView(m, key, now);
      Found(if v.Some? && at < v.value.reauthAt then v else None)
    case PastReauth(key, at) =>
      var v := MapView(m, key, now);
      Found(if v.Some? && at >= v.value.reauthAt then v else None)
    case Contains(key) => Present(MapView(m, key, now).Some?)
    case _ => Silent
  }

  function MapRun(ops: seq<(Op, nat)>): (m: map<Key, Entry>) {
    if ops == [] then map[] else MapStep(MapRun(ops[..|ops| - 1]), ops[|ops| - 1].0)
  }

  predicate MapGood(m: map<Key, Entry>) { forall k | k in m :: m[k].key == k }

  /** The list and the map agree on the unexpired entries. */
  ghost predicate Relates(es: seq<Entry>, m: map<Key, Entry>, now: nat) {
    forall e: Entry :: e in es && e.expires > now <==> e.key in m && m[e.key] == e && e.expires > now
  }

  lemma RelatesLater(es: seq<Entry>, m: map<Key, Entry>, now: nat, later: nat)
    requires Relates(es, m, now) && now <= later
    ensures Relates(es, m, later)
  {
  }

  function LiveKeys(m: map<Key, Entry>, now: nat): (ks: set<Key>) { set k | k in m && m[k].expires > now }

  /** With the key to insert there are more unexpired keys than the cache holds. */
  predicate Crowded(m: map<Key, Entry>, key: Key, now: nat) { |LiveKeys(m, now) + {key}| > 32 }

  function KeySet(es: seq<Entry>): (ks: set<Key>) { set e | e in es :: e.key }

  lemma {:induction false} KeyCount(es: seq<Entry>)
    requires Unique(es)
    ensures |KeySet(es)| == |es|
  {
    if es != [] {
      var n := |es| - 1;
      KeyCount(es[..n]);
      assert KeySet(es) == KeySet(es[..n]) + {es[n].key} by {
        assert forall e :: e in es <==> e in es[..n] || e == es[n];
      }
      assert es[n].key !in KeySet(es[..n]) by {
        assert forall e | e in es[..n] :: e.key != es[n].key;
      }
    }
  }

  lemma LiveKeysAre(es: seq<Entry>, m: map<Key, Entry>, now: nat)
    requires Unique(es) && MapGood(m) && Relates(es, m, now)
    ensures LiveKeys(m, now) == KeySet(Unexpired(es, now)) && |LiveKeys(m, now)| == |Unexpired(es, now)|
  {
    UnexpiredIs(es, now);
    KeyCount(Unexpired(es, now));
    hide Unexpired;
    var live := Unexpired(es, now);
    forall k ensures k in LiveKeys(m, now) <==> k in KeySet(live) {
      if k in LiveKeys(m, now) {
        assert m[k] in live;
      }
      if k in KeySet(live) {
        var e :| e in live && e.key == k;
      }
    }
  }

  /** The cache evicts exactly when the key to insert is one too many. */
  lemma EvictsIffCrowded(es: seq<Entry>, m: map<Key, Entry>, key: Key, now: nat)
    requires Unique(es) && |es| <= MAX_ENTRIES && MapGood(m) && Relates(es, m, now)
    ensures Evicts(es, key, now) <==> Crowded(m, key, now)
  {
    UnexpiredIs(es, now);
    LiveKeysAre(es, m, now);
    hide Unexpired, Relates, Unique, LiveKeys;
    var live := Unexpired(es, now);
    FindIsMember(live, key);
    if key in KeySet(live) {
      assert LiveKeys(m, now) + {key} == LiveKeys(m, now);
    }
  }

  lemma FindIsMember(es: seq<Entry>, key: Key)
    ensures FindKey(es, key) == |es| <==> key !in KeySet(es)
  {
    if key in KeySet(es) {
      var e :| e in es && e.key == key;
    } else if FindKey(es, key) < |es| {
      assert es[FindKey(es, key)] in es;
    }
  }

  /** An insertion keeps list and map in agreement exactly when the key is not one too many. */
  lemma InsertRefines(es: seq<Entry>, m: map<Key, Entry>, e: Entry, now: nat)
    requires Unique(es) && |es| <= MAX_ENTRIES && MapGood(m) && Relates(es, m, now)
    ensures Relates(Inserted(es, e, now), m[e.key := e], now) <==> !Crowded(m, e.key, now)
  {
    EvictsIffCrowded(es, m, e.key, now);
    InsertedIs(es, e, now);
    UnexpiredIs(es, now);
    hide Inserted, Unexpired, Crowded, Unique;
    var live := Unexpired(es, now);
    var r, m' := Inserted(es, e, now), m[e.key := e];
    if Evicts(es, e.key, now) {
      var victim := live[Oldest(live)];
      assert victim in live && victim.key != e.key && victim !in r;
      hide Evicts;
      assert victim.key in m' && m'[victim.key] == victim;
    } else {
      hide Evicts;
      forall x: Entry ensures x in r && x.expires > now <==> x.key in m' && m'[x.key] == x && x.expires > now {
        assert x in live <==> x in es && x.expires > now;
      }
    }
  }

  lemma StepRefines(es: seq<Entry>, m: map<Key, Entry>, op: Op, now: nat)
    requires Unique(es) && |es| <= MAX_ENTRIES && MapGood(m) && Relates(es, m, now)
    requires op.Insert? ==> !Crowded(m, op.entry.key, now)
    ensures Relates(Step(es, op, now), MapStep(m, op), now) && MapGood(MapStep(m, op))
  {
    hide Inserted, Removed, OfSsid, Unexpired, Unique, Crowded;
    match op
    case Insert(e) => InsertRefines(es, m, e, now);
    case Invalidate(key) => RemovedIs(es, key);
    case RemoveSsid(ssid) => OfSsidIs(es, ssid, false);
    case _ => UnexpiredIs(es, now);
  }

  lemma AnswerRefines(es: seq<Entry>, m: map<Key, Entry>, op: Op, now: nat)
    requires Unique(es) && MapGood(m) && Relates(es, m, now)
    ensures Answer(es, op, now) == MapAnswer(m, op, now)
  {
    UnexpiredIs(es, now);
    hide Unexpired, Unique;
    var live := Unexpired(es, now);
    match op
    case Lookup(key, at) => SideRefines(es, live, m, key, now, at, false);
    case PastReauth(key, at) => SideRefines(es, live, m, key, now, at, true);
    case Contains(key) =>
      LiveKeysAre(es, m, now);
      FindIsMember(live, key);
    case _ =>
  }

  lemma SideRefines(es: seq<Entry>, live: seq<Entry>, m: map<Key, Entry>, key: Key, now: nat, at: nat, past: bool)
    requires Unique(live) && MapGood(m) && Relates(es, m, now)
    requires forall e :: e in live <==> e in es && e.expires > now
    ensures var v := MapView(m, key, now);
      FindSide(live, key, at, past) == if v.Some? && past == (at >= v.value.reauthAt) then v else None
  {
    hide Unique, FindSide;
    var v := MapView(m, key, now);
    var f := FindSide(live, key, at, past);
    if f.Some? {
      FindSideIs(live, key, at, past, f.value);
      assert f.value in es;
    }
    if v.Some? {
      FindSideIs(live, key, at, past, v.value);
    }
  }

  predicate Monotone(ops: seq<(Op, nat)>) { forall i, j | 0 <= i < j < |ops| :: ops[i].1 <= ops[j].1 }

  /** Every insertion leaves no more than 32 unexpired keys. */
  predicate NeverCrowded(ops: seq<(Op, nat)>) {
    forall i | 0 <= i < |ops| && ops[i].0.Insert? :: !Crowded(MapRun(ops[..i]), ops[i].0.entry.key, ops[i].1)
  }

  lemma PrefixFine(ops: seq<(Op, nat)>, n: nat)
    requires Monotone(ops) && NeverCrowded(ops) && n <= |ops|
    ensures Monotone(ops[..n]) && NeverCrowded(ops[..n])
  {
    forall i | 0 <= i < n && ops[..n][i].0.Insert?
      ensures !Crowded(MapRun(ops[..n][..i]), ops[..n][i].0.entry.key, ops[..n][i].1)
    {
      assert ops[..n][..i] == ops[..i];
    }
  }

  lemma {:induction false} RunRefines(ops: seq<(Op, nat)>, now: nat)
    requires Monotone(ops) && NeverCrowded(ops) && (ops != [] ==> ops[|ops| - 1].1 <= now)
    ensures Relates(Run(ops), MapRun(ops), now) && MapGood(MapRun(ops))
  {
    if ops != [] {
      var n := |ops| - 1;
      var (op, t) := ops[n];
      PrefixFine(ops, n);
      assert op.Insert? ==> !Crowded(MapRun(ops[..n]), op.entry.key, t);
      assert n > 0 ==> ops[..n][n - 1].1 <= t;
      RunRefines(ops[..n], t);
      RunGood(ops[..n]);
      hide Step, MapStep, Relates, Unique, Crowded, Monotone, NeverCrowded;
      StepRefines(Run(ops[..n]), MapRun(ops[..n]), op, t);
      RelatesLater(Run(ops), MapRun(ops), t, now);
    }
  }

  /** While no more than 32 unexpired keys exist, every lookup of every run answers as an unbounded map whose
      entries expire would. */
  lemma LookupsRefineMap(ops: seq<(Op, nat)>, i: nat)
    requires Monotone(ops) && NeverCrowded(ops) && i < |ops|
    ensures Answer(Run(ops[..i]), ops[i].0, ops[i].1) == MapAnswer(MapRun(ops[..i]), ops[i].0, ops[i].1)
  {
    PrefixFine(ops, i);
    assert i > 0 ==> ops[..i][i - 1].1 <= ops[i].1;
    hide Monotone, NeverCrowded, Answer, MapAnswer;
    RunRefines(ops[..i], ops[i].1);
    RunGood(ops[..i]);
    AnswerRefines(Run(ops[..i]), MapRun(ops[..i]), ops[i].0, ops[i].1);
  }

  // ------------------------------------------------------- a full cache, an entry too late

  function FullCache(): (es: seq<Entry>)
    ensures |es| == MAX_ENTRIES
  {
    seq(MAX_ENTRIES, i requires 0 <= i < MAX_ENTRIES => Entry(Key("", [], i), Secret([], [], 0), 20, 10))
  }

  lemma {:induction false} NoneExpired(es: seq<Entry>, now: nat)
    requires forall e | e in es :: e.expires > now
    ensures Unexpired(es, now) == es
  {
    if es != [] {
      NoneExpired(es[..|es| - 1], now);
      assert es == es[..|es| - 1] + [es[|es| - 1]];
    }
  }

  /** 32 unexpired keys, and an entry of another key that has already expired: there are never more than 32
      unexpired keys, yet inserting it costs an unexpired entry its place. */
  lemma ExpiredInsertCostsAnEntry()
    ensures var es, e := FullCache(), Entry(Key("", [], 99), Secret([], [], 0), 1, 1);
      && Unexpired(es, 2) == es && |es| == MAX_ENTRIES && e.expires <= 2
      && exists x | x in es :: x.expires > 2 && x !in Inserted(es, e, 2)
  {
    var es, e := FullCache(), Entry(Key("", [], 99), Secret([], [], 0), 1, 1);
    hide Inserted, Unexpired;
    NoneExpired(es, 2);
    FullLosesOne(es, e, 2);
  }

  lemma FullLosesOne(es: seq<Entry>, e: Entry, now: nat)
    requires Unique(es) && |es| == MAX_ENTRIES && (forall x | x in es :: x.expires > now && x.key != e.key)
    ensures exists x | x in es :: x.expires > now && x !in Inserted(es, e, now)
  {
    NoneExpired(es, now);
    hide Unexpired, Oldest, Inserted, Unique;
    FindIsMember(es, e.key);
    InsertedIs(es, e, now);
    var victim := es[Oldest(es)];
    assert victim in es && victim !in Inserted(es, e, now);
  }

  /** Between its two readings of the clock `lookup_past_reauth` may see an entry expire and still return it. */
  lemma PastReauthMayHaveExpired()
    ensures var e := Entry(Key("", [], 0), Secret([], [], 0), 20, 10);
      Answer([e], PastReauth(e.key, 21), 19) == Found(Some(e)) && e.expires <= 21
  {
    var e := Entry(Key("", [], 0), Secret([], [], 0), 20, 10);
    NoneExpired([e], 19);
    FindSideIs([e], e.key, 21, true, e);
  }

  // ---------------------------------------------------------------- freshness

  /** `e` is a new entry created no later than `now`. */
  predicate IsNew(e: Entry, now: nat) { exists c | 0 <= c <= now :: e == NewEntry(e.key, e.secret, c) }

  /** `e` was inserted as a new entry among the first `n` steps. */
  predicate Created(ops: seq<(Op, nat)>, n: nat, e: Entry)
    requires n <= |ops|
  {
    exists j | 0 <= j < n :: ops[j].0 == Insert(e) && IsNew(e, ops[j].1)
  }

  /** `e` was the answer of a lookup among the first `n` steps. */
  predicate LookedUp(ops: seq<(Op, nat)>, n: nat, e: Entry)
    requires n <= |ops|
  {
    exists j | 0 <= j < n :: ops[j].0.Lookup? && Answer(Run(ops[..j]), ops[j].0, ops[j].1) == Found(Some(e))
  }

  /** Only entries created before or obtained from an earlier lookup are inserted. */
  predicate Honest(ops: seq<(Op, nat)>) {
    forall i | 0 <= i < |ops| && ops[i].0.Insert? :: IsNew(ops[i].0.entry, ops[i].1) || LookedUp(ops, i, ops[i].0.entry)
  }

  lemma StepKeepsOrigin(es: seq<Entry>, op: Op, now: nat, e: Entry)
    requires Unique(es) && |es| <= MAX_ENTRIES && e in Step(es, op, now)
    ensures e in es || op == Insert(e)
  {
    hide Inserted, Removed, OfSsid, Unexpired, Unique;
    UnexpiredIs(es, now);
    match op
    case Insert(x) => InsertedIs(es, x, now);
    case Invalidate(key) => RemovedIs(es, key);
    case RemoveSsid(ssid) => OfSsidIs(es, ssid, false);
    case _ =>
  }

  lemma AnswerFromCache(es: seq<Entry>, key: Key, at: nat, now: nat, e: Entry)
    requires Unique(es) && Answer(es, Lookup(key, at), now) == Found(Some(e))
    ensures e in es && e.key == key && at < e.reauthAt && now < e.expires
  {
    UnexpiredIs(es, now);
    hide Unexpired, Unique;
    FindSideIs(Unexpired(es, now), key, at, false, e);
  }

  /** In an honest run everything in the cache was created by some earlier insertion. */
  lemma {:induction false} AllCreated(ops: seq<(Op, nat)>, n: nat, e: Entry)
    requires Honest(ops) && n <= |ops| && e in Run(ops[..n])
    ensures Created(ops, n, e)
    decreases n
  {
    hide Honest, Step, Answer, Unique, IsNew;
    if n > 0 {
      var (op, t) := ops[n - 1];
      assert ops[..n][..n - 1] == ops[..n - 1];
      RunGood(ops[..n - 1]);
      StepKeepsOrigin(Run(ops[..n - 1]), op, t, e);
      if e in Run(ops[..n - 1]) {
        AllCreated(ops, n - 1, e);
      } else {
        Origin(ops, n - 1, e);
        if LookedUp(ops, n - 1, e) {
          var j :| 0 <= j < n - 1 && ops[j].0.Lookup? && Answer(Run(ops[..j]), ops[j].0, ops[j].1) == Found(Some(e));
          RunGood(ops[..j]);
          AnswerFromCache(Run(ops[..j]), ops[j].0.key, ops[j].0.at, ops[j].1, e);
          AllCreated(ops, j, e);
        }
      }
    }
  }

  lemma Origin(ops: seq<(Op, nat)>, i: nat, e: Entry)
    requires Honest(ops) && i < |ops| && ops[i].0 == Insert(e)
    ensures IsNew(e, ops[i].1) || LookedUp(ops, i, e)
  {
  }

  /** In such a run every hit is an entry of the asked key, inserted as new by an earlier step and created less than
      30240 seconds before the hit: reuse never extends a PMKSA. */
  lemma HitsAreFresh(ops: seq<(Op, nat)>, i: nat, e: Entry)
    requires Honest(ops) && i < |ops| && ops[i].0.Lookup?
    requires Answer(Run(ops[..i]), ops[i].0, ops[i].1) == Found(Some(e))
    ensures e.key == ops[i].0.key && ops[i].0.at < e.expires
    ensures exists j, c | 0 <= j < i && 0 <= c <= ops[j].1 ::
      ops[j].0 == Insert(e) && e == NewEntry(e.key, e.secret, c) && ops[i].0.at < c + 30240 * SECOND
  {
    hide Honest, Answer, Run;
    RunGood(ops[..i]);
    AnswerFromCache(Run(ops[..i]), ops[i].0.key, ops[i].0.at, ops[i].1, e);
    AllCreated(ops, i, e);
    var j :| 0 <= j < i && ops[j].0 == Insert(e) && IsNew(e, ops[j].1);
    var c :| 0 <= c <= ops[j].1 && e == NewEntry(e.key, e.secret, c);
    assert e.reauthAt == c + 30240 * SECOND;
  }
}
