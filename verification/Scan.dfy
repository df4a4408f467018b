/** Rotation through hidden SSIDs within the driver's per-scan cap (src/wifi/scan.rs). */
module Scan {
  const MAX_SCAN_SSIDS: nat := 16
  /** The empty SSID asks every network to answer. */
  const WILDCARD: string := ""

  function Clamp(n: nat): (m: nat)
    ensures 1 <= m <= MAX_SCAN_SSIDS
  {
    if n < 1 then 1 else if n > MAX_SCAN_SSIDS then MAX_SCAN_SSIDS else n
  }

  function Min(a: nat, b: nat): (m: nat) { if a < b then a else b }

  function Mod(a: nat, n: nat): (r: nat)
    requires n >= 1
    ensures r < n
  {
    a % n
  }

  /** Where the rotation stands. */
  datatype Rotation = Rotation(cursor: nat, wildcardNext: bool)

  /** `count` SSIDs from `start` on, around the end of the list. */
  function Walk(hidden: seq<string>, start: nat, count: nat): (r: seq<string>)
    requires hidden != []
    ensures |r| == count
  {
    seq(count, i requires 0 <= i < count => hidden[Mod(start + i, |hidden|)])
  }

  /** How many SSIDs a request with room for `capacity` takes: one lap at most, from a place in the list. */
  function Used(n: nat, start: nat, capacity: nat): (u: nat) { if start < n then Min(capacity, n) else capacity }

  /** The SSIDs of the next scan and where the rotation stands afterwards. */
  function Next(hidden: seq<string>, s: Rotation, max: nat): (r: (seq<string>, Rotation)) {
    var m, n := Clamp(max), |hidden|;
    if m == 1 then
      if hidden == [] || s.wildcardNext then ([WILDCARD], s.(wildcardNext := false))
      else ([hidden[Mod(s.cursor, n)]], Rotation(Mod(Mod(s.cursor, n) + 1, n), true))
    else if hidden == [] then ([WILDCARD], s.(cursor := 0))
    else
      var used := Used(n, s.cursor, m - 1);
      (Walk(hidden, s.cursor, used) + [WILDCARD],
       s.(cursor := if used < m - 1 then 0 else Mod(s.cursor + used, n)))
  }

  // -------------------------------------------------------------- arithmetic

  /** `k` steps of `c`. */
  function Times(k: nat, c: nat): (r: nat) { if k == 0 then 0 else Times(k - 1, c) + c }

  lemma {:induction false} TimesMono(k: nat, l: nat, c: nat)
    requires k <= l
    ensures Times(k, c) <= Times(l, c)
  {
    if k < l {
      TimesMono(k, l - 1, c);
    }
  }

  lemma ModSmall(a: nat, n: nat)
    requires a < n
    ensures Mod(a, n) == a
  {
  }

  lemma ModBack(a: nat, n: nat)
    requires n >= 1
    ensures Mod(a + n, n) == Mod(a, n)
  {
    var q := (a + n) / n - a / n - 1;
    assert n * q == n * ((a + n) / n) - n * (a / n) - n;
    OnlyZero(n, q);
  }

  lemma OnlyZero(n: int, q: int)
    requires -n < n * q < n
    ensures q == 0
  {
  }

  lemma {:induction false} ModAdd(a: nat, b: nat, n: nat)
    requires n >= 1
    ensures Mod(Mod(a, n) + b, n) == Mod(a + b, n)
    decreases a
  {
    if a < n {
      ModSmall(a, n);
    } else {
      ModAdd(a - n, b, n);
      ModBack(a - n, n);
      ModBack(a - n + b, n);
    }
  }

  /** `n` steps of `c` are laps of `n`. */
  lemma {:induction false} LapsOf(n: nat, c: nat)
    requires n >= 1
    ensures Mod(Times(n, c), n) == 0
    decreases c
  {
    if c == 0 {
      TimesZero(n);
    } else {
      LapsOf(n, c - 1);
      TimesMore(n, c - 1);
      ModBack(Times(n, c - 1), n);
    }
  }

  lemma {:induction false} TimesZero(k: nat)
    ensures Times(k, 0) == 0
  {
    if k > 0 {
      TimesZero(k - 1);
    }
  }

  lemma {:induction false} TimesMore(k: nat, c: nat)
    ensures Times(k, c + 1) == Times(k, c) + k
  {
    if k > 0 {
      TimesMore(k - 1, c);
    }
  }

  // ------------------------------------------------------------------ method

  /** Within one lap the walk is back at its start only after all `n` places. */
  lemma BackAtStart(start: nat, used: nat, n: nat)
    requires start < n && 0 < used <= n
    ensures Mod(start + used, n) == start <==> used == n
  {
    if start + used >= n {
      ModBack(start + used - n, n);
      ModSmall(start + used - n, n);
    } else {
      ModSmall(start + used, n);
    }
  }

  /** The loop of `next_scan_ssids`: stops at the cap or back at the start. */
  method Collect(hidden: seq<string>, start: nat, capacity: nat) returns (ssids: seq<string>, used: nat)
    requires hidden != []
    ensures used == Used(|hidden|, start, capacity) && ssids == Walk(hidden, start, used)
  {
    hide Mod;
    var n := |hidden|;
    ssids, used := [], 0;
    var idx := Mod(start, n);
    while used < capacity
      invariant used <= capacity && (start < n ==> used < n)
      invariant idx == Mod(start + used, n) && ssids == Walk(hidden, start, used)
      decreases capacity - used
    {
      ssids := ssids + [hidden[idx]];
      used := used + 1;
      ModAdd(start + (used - 1), 1, n);
      idx := Mod(idx + 1, n);
      if start < n {
        BackAtStart(start, used, n);
      }
      if idx == start {
        break;
      }
    }
  }

  /** `next_scan_ssids`. */
  method NextScanSsids(hidden: seq<string>, cursor: nat, wildcardNext: bool, max: nat)
    returns (ssids: seq<string>, cursor': nat, wildcardNext': bool)
    ensures (ssids, Rotation(cursor', wildcardNext')) == Next(hidden, Rotation(cursor, wildcardNext), max)
  {
    hide Mod, Walk;
    var m := Clamp(max);
    cursor', wildcardNext' := cursor, wildcardNext;
    if m == 1 {
      if hidden == [] || wildcardNext {
        return [WILDCARD], cursor, false;
      }
      var idx := Mod(cursor, |hidden|);
      return [hidden[idx]], Mod(idx + 1, |hidden|), true;
    }
    var capacity := m - 1;
    ssids := [];
    var used: nat := 0;
    if hidden != [] {
      ssids, used := Collect(hidden, cursor, capacity);
    }
    if used < capacity || hidden == [] {
      cursor' := 0;
    } else {
      cursor' := Mod(cursor + used, |hidden|);
    }
    assert [] + [WILDCARD] == [WILDCARD];
    ssids := ssids + [WILDCARD];
  }

  // ---------------------------------------------------------------- coverage

  function After(hidden: seq<string>, s: Rotation, max: nat, k: nat): (r: Rotation) {
    if k == 0 then s else Next(hidden, After(hidden, s, max, k - 1), max).1
  }

  function ScanAt(hidden: seq<string>, s: Rotation, max: nat, k: nat): (ssids: seq<string>) {
    Next(hidden, After(hidden, s, max, k), max).0
  }

  /** `ssid` is probed by one of the first `k` scans. */
  predicate ProbedWithin(hidden: seq<string>, s: Rotation, max: nat, k: nat, ssid: string) {
    exists i | 0 <= i < k :: ssid in ScanAt(hidden, s, max, i)
  }

  /** A list longer than a request: the cursor advances by the request's room. */
  lemma LongStep(hidden: seq<string>, s: Rotation, max: nat)
    requires 2 <= Clamp(max) <= |hidden|
    ensures var cap := Clamp(max) - 1;
      Next(hidden, s, max)
      == (Walk(hidden, s.cursor, cap) + [WILDCARD], s.(cursor := Mod(s.cursor + cap, |hidden|)))
  {
    hide Walk, Mod;
  }

  lemma {:induction false} CursorAfter(hidden: seq<string>, s: Rotation, max: nat, k: nat)
    requires 2 <= Clamp(max) <= |hidden|
    ensures Mod(After(hidden, s, max, k).cursor, |hidden|) == Mod(s.cursor + Times(k, Clamp(max) - 1), |hidden|)
  {
    hide Next, Mod, Clamp;
    if k > 0 {
      var n, cap := |hidden|, Clamp(max) - 1;
      var before := After(hidden, s, max, k - 1);
      CursorAfter(hidden, s, max, k - 1);
      LongStep(hidden, before, max);
      ModAdd(before.cursor, cap, n);
      ModAdd(s.cursor + Times(k - 1, cap), cap, n);
      ModSmall(Mod(before.cursor + cap, n), n);
      assert s.cursor + Times(k - 1, cap) + cap == s.cursor + Times(k, cap);
    }
  }

  /** How far place `j` is ahead of the cursor. */
  function Ahead(n: nat, cursor: nat, j: nat): (o: nat)
    requires j < n
    ensures o < n && Mod(cursor + o, n) == j
  {
    var c := Mod(cursor, n);
    if j >= c then
      ModAdd(cursor, j - c, n);
      ModSmall(j, n);
      j - c
    else
      ModAdd(cursor, n + j - c, n);
      ModBack(j, n);
      ModSmall(j, n);
      n + j - c
  }

  lemma WalkHas(hidden: seq<string>, start: nat, count: nat, i: nat)
    requires hidden != [] && i < count
    ensures hidden[Mod(start + i, |hidden|)] in Walk(hidden, start, count) + [WILDCARD]
  {
    hide Mod;
    var w := Walk(hidden, start, count);
    assert (w + [WILDCARD])[i] == w[i];
  }

  /** Which of the scans reaches an offset. */
  lemma {:induction false} StepOf(k: nat, cap: nat, o: nat) returns (i: nat, r: nat)
    requires o < Times(k, cap)
    ensures i < k && r < cap && o == Times(i, cap) + r
  {
    if o >= Times(k - 1, cap) {
      i, r := k - 1, o - Times(k - 1, cap);
    } else {
      i, r := StepOf(k - 1, cap, o);
    }
  }

  /** From any cursor, as many scans as it takes `m - 1` at a time to make up the list probe all of it. */
  lemma Coverage(hidden: seq<string>, s: Rotation, max: nat, k: nat, j: nat)
    requires Clamp(max) >= 2 && Times(k, Clamp(max) - 1) >= |hidden| && j < |hidden|
    ensures ProbedWithin(hidden, s, max, k, hidden[j])
  {
    hide Mod, Clamp, Walk;
    var n, cap := |hidden|, Clamp(max) - 1;
    var o := Ahead(n, s.cursor, j);
    if n <= cap {
      WalkHas(hidden, s.cursor, Used(n, s.cursor, cap), o);
      assert hidden[j] in ScanAt(hidden, s, max, 0);
    } else {
      var i, r := StepOf(k, cap, o);
      var at := After(hidden, s, max, i);
      CursorAfter(hidden, s, max, i);
      ModAdd(at.cursor, r, n);
      ModAdd(s.cursor + Times(i, cap), r, n);
      assert s.cursor + Times(i, cap) + r == s.cursor + o;
      LongStep(hidden, at, max);
      WalkHas(hidden, at.cursor, cap, r);
      assert hidden[j] in ScanAt(hidden, s, max, i);
    }
  }

  function Ceil(n: nat, d: nat): (q: nat)
    requires d >= 1
  {
    (n + d - 1) / d
  }

  lemma {:induction false} TimesIs(k: nat, c: nat)
    ensures Times(k, c) == k * c
  {
    if k > 0 {
      TimesIs(k - 1, c);
    }
  }

  lemma CeilEnough(n: nat, d: nat)
    requires d >= 1
    ensures Times(Ceil(n, d), d) >= n
  {
    TimesIs(Ceil(n, d), d);
  }

  /** For n hidden SSIDs and a cap of m >= 2 per scan, any ceil(n / (m - 1)) consecutive scans, from any cursor,
      probe every hidden SSID, and each of them asks for visible networks too. */
  lemma RotationCovers(hidden: seq<string>, s: Rotation, max: nat, j: nat, i: nat)
    requires Clamp(max) >= 2 && j < |hidden|
    ensures ProbedWithin(hidden, s, max, Ceil(|hidden|, Clamp(max) - 1), hidden[j])
    ensures WILDCARD in ScanAt(hidden, s, max, i)
  {
    hide ProbedWithin, Ceil, Times, ScanAt, Clamp;
    CeilEnough(|hidden|, Clamp(max) - 1);
    Coverage(hidden, s, max, Ceil(|hidden|, Clamp(max) - 1), j);
    WildcardAt(hidden, s, max, i);
  }

  lemma WildcardAt(hidden: seq<string>, s: Rotation, max: nat, i: nat)
    requires Clamp(max) >= 2
    ensures WILDCARD in ScanAt(hidden, s, max, i)
  {
    WildcardAlways(hidden, After(hidden, s, max, i), max);
  }

  lemma WildcardAlways(hidden: seq<string>, s: Rotation, max: nat)
    requires Clamp(max) >= 2
    ensures WILDCARD in Next(hidden, s, max).0
  {
    hide Mod, Walk;
    var ssids := Next(hidden, s, max).0;
    assert ssids[|ssids| - 1] == WILDCARD;
  }

  // -------------------------------------------------------- one SSID per scan

  lemma TwoSteps(hidden: seq<string>, s: Rotation, max: nat, at: nat)
    requires hidden != [] && Clamp(max) == 1 && !After(hidden, s, max, at).wildcardNext
    ensures var c := After(hidden, s, max, at).cursor; var n := |hidden|;
      After(hidden, s, max, at + 2) == Rotation(Mod(Mod(c, n) + 1, n), false)
  {
    hide Mod;
    var now := After(hidden, s, max, at);
    var then_ := Next(hidden, now, max).1;
    assert After(hidden, s, max, at + 1) == then_;
    assert After(hidden, s, max, at + 2) == Next(hidden, then_, max).1;
  }

  lemma {:induction false} SingleAfter(hidden: seq<string>, s: Rotation, max: nat, k: nat)
    requires hidden != [] && Clamp(max) == 1
    ensures var lead := if s.wildcardNext then 1 else 0; var r := After(hidden, s, max, 2 * k + lead);
      Mod(r.cursor, |hidden|) == Mod(s.cursor + k, |hidden|) && !r.wildcardNext
  {
    hide Mod;
    var lead := if s.wildcardNext then 1 else 0;
    if k == 0 {
      assert After(hidden, s, max, 0) == s;
      assert After(hidden, s, max, 1) == Next(hidden, s, max).1;
    } else {
      SingleAfter(hidden, s, max, k - 1);
      var at := 2 * (k - 1) + lead;
      TwoSteps(hidden, s, max, at);
      hide After;
      var c, n := After(hidden, s, max, at).cursor, |hidden|;
      ModAdd(c, 1, n);
      ModAdd(s.cursor + (k - 1), 1, n);
      ModSmall(Mod(Mod(c, n) + 1, n), n);
    }
  }

  /** A driver that takes one SSID per scan sees every hidden SSID within 2n scans, from any state. */
  lemma SingleCovers(hidden: seq<string>, s: Rotation, max: nat, j: nat)
    requires Clamp(max) == 1 && j < |hidden|
    ensures ProbedWithin(hidden, s, max, 2 * |hidden|, hidden[j])
  {
    hide Mod, After;
    var lead := if s.wildcardNext then 1 else 0;
    var o := Ahead(|hidden|, s.cursor, j);
    SingleAfter(hidden, s, max, o);
    assert hidden[j] in ScanAt(hidden, s, max, 2 * o + lead);
  }

  /** It never leaves out the wildcard twice in a row. */
  lemma WildcardAlternates(hidden: seq<string>, s: Rotation, max: nat)
    requires Clamp(max) == 1
    ensures var (first, t) := Next(hidden, s, max); first == [WILDCARD] || Next(hidden, t, max).0 == [WILDCARD]
  {
    hide Mod;
  }

  // ---------------------------------------------------------------- scan loop

  predicate Asked(requests: seq<seq<string>>, ssid: string) { exists i | 0 <= i < |requests| :: ssid in requests[i] }

  lemma AskedMore(requests: seq<seq<string>>, more: seq<string>, ssid: string)
    ensures Asked(requests + [more], ssid) <==> Asked(requests, ssid) || ssid in more
  {
    var all := requests + [more];
    if Asked(requests, ssid) {
      var i :| 0 <= i < |requests| && ssid in requests[i];
      assert ssid in all[i];
    }
    if ssid in more {
      assert ssid in all[|requests|];
    }
  }

  /** The first `count` places of the list, or all of it, have been asked for. */
  predicate AskedFirst(hidden: seq<string>, requests: seq<seq<string>>, count: nat) {
    forall j | 0 <= j < |hidden| && j < count :: Asked(requests, hidden[j])
  }

  /** Before a round that starts at the list's beginning or, for a long list, where the last one stopped. */
  predicate InLap(hidden: seq<string>, max: nat, cursor: nat, requests: seq<seq<string>>) {
    var n, cap := |hidden|, Clamp(max) - 1;
    && AskedFirst(hidden, requests, Times(|requests|, cap))
    && (if requests == [] then cursor == 0 else cap < n && |requests| < n && cursor == Mod(Times(|requests|, cap), n))
  }

  lemma LongRound(hidden: seq<string>, s: Rotation, max: nat, requests: seq<seq<string>>)
    requires 2 <= Clamp(max) <= |hidden| && InLap(hidden, max, s.cursor, requests)
    ensures var (ssids, t) := Next(hidden, s, max); var all := requests + [ssids]; var cap := Clamp(max) - 1;
      t.cursor == Mod(Times(|all|, cap), |hidden|) && AskedFirst(hidden, all, Times(|all|, cap))
  {
    hide Mod, Clamp, Walk, Asked, Next;
    var n, cap, done := |hidden|, Clamp(max) - 1, Times(|requests|, Clamp(max) - 1);
    LongStep(hidden, s, max);
    if requests == [] {
      ModSmall(0, n);
    }
    assert s.cursor == Mod(done, n);
    ModAdd(done, cap, n);
    var ssids := Next(hidden, s, max).0;
    forall j | 0 <= j < n && j < done + cap ensures Asked(requests + [ssids], hidden[j]) {
      AskedMore(requests, ssids, hidden[j]);
      if j >= done {
        ModAdd(done, j - done, n);
        ModSmall(j, n);
        WalkHas(hidden, s.cursor, cap, j - done);
      }
    }
  }

  lemma ShortRound(hidden: seq<string>, s: Rotation, max: nat)
    requires 0 < |hidden| < Clamp(max) && s.cursor == 0
    ensures var (ssids, t) := Next(hidden, s, max); t.cursor == 0 && AskedFirst(hidden, [ssids], |hidden|)
  {
    hide Mod, Walk, Asked;
    var n := |hidden|;
    ModSmall(0, n);
    ModBack(0, n);
    var ssids := Next(hidden, s, max).0;
    forall j | 0 <= j < n ensures Asked([] + [ssids], hidden[j]) {
      AskedMore([], ssids, hidden[j]);
      ModSmall(j, n);
      WalkHas(hidden, 0, n, j);
    }
    assert [] + [ssids] == [ssids];
  }

  /** A lap that ends at the beginning of the list has passed all of it, and it ends within `n` rounds. */
  lemma LapEnds(k: nat, cap: nat, n: nat)
    requires 1 <= cap < n && 1 <= k <= n
    ensures Mod(Times(k, cap), n) == 0 ==> Times(k, cap) >= n
    ensures Mod(Times(k, cap), n) != 0 ==> k < n
  {
    hide Mod;
    LapsOf(n, cap);
    TimesMono(1, k, cap);
    assert Times(1, cap) == Times(0, cap) + cap;
    if Times(k, cap) < n {
      ModSmall(Times(k, cap), n);
    }
  }

  /** One turn of the loop: it goes on within the lap, or everything has been asked for. */
  lemma Turn(hidden: seq<string>, s: Rotation, max: nat, requests: seq<seq<string>>)
    requires Clamp(max) >= 2 && hidden != [] && InLap(hidden, max, s.cursor, requests)
    ensures var (ssids, t) := Next(hidden, s, max); var all := requests + [ssids];
      if t.cursor == 0 then |all| <= |hidden| && AskedFirst(hidden, all, |hidden|)
      else InLap(hidden, max, t.cursor, all)
  {
    hide Mod, Clamp, Next, Asked;
    var n, cap := |hidden|, Clamp(max) - 1;
    var (ssids, t) := Next(hidden, s, max);
    if cap < n {
      LongRound(hidden, s, max, requests);
      LapEnds(|requests| + 1, cap, n);
    } else {
      assert requests == [];
      ShortRound(hidden, s, max);
      assert requests + [ssids] == [ssids];
    }
  }

  /** The rotation loop of `WifiClient::scan` when a request has room for two SSIDs: within max(n, 1) rounds it
      ends with every hidden SSID probed, and every request carries the wildcard. */
  method ScanRounds(hidden: seq<string>, max: nat) returns (requests: seq<seq<string>>)
    requires Clamp(max) >= 2
    ensures 1 <= |requests| && (|requests| == 1 || |requests| <= |hidden|)
    ensures forall i | 0 <= i < |requests| :: WILDCARD in requests[i]
    ensures forall j | 0 <= j < |hidden| :: Asked(requests, hidden[j])
  {
    hide Mod, Clamp, Next, Asked, InLap;
    var cursor: nat, wildcardNext := 0, true;
    var maxRounds := |hidden| + 1;
    var rounds := 0;
    requests := [];
    LapStart(hidden, max);
    while true
      invariant rounds == |requests| && InLap(hidden, max, cursor, requests)
      invariant forall i | 0 <= i < |requests| :: WILDCARD in requests[i]
      invariant rounds > 0 ==> hidden != [] && rounds < |hidden|
      decreases |hidden| + 1 - rounds
    {
      ghost var from := Rotation(cursor, wildcardNext);
      WildcardAlways(hidden, from, max);
      if hidden != [] {
        Turn(hidden, from, max, requests);
      }
      var ssids;
      ssids, cursor, wildcardNext := NextScanSsids(hidden, cursor, wildcardNext, max);
      requests := requests + [ssids];
      rounds := rounds + 1;
      if hidden == [] || cursor == 0 || rounds >= maxRounds {
        break;
      }
      LapShort(hidden, max, cursor, requests);
    }
  }

  lemma LapStart(hidden: seq<string>, max: nat)
    ensures InLap(hidden, max, 0, [])
  {
  }

  lemma LapShort(hidden: seq<string>, max: nat, cursor: nat, requests: seq<seq<string>>)
    requires InLap(hidden, max, cursor, requests) && requests != []
    ensures |requests| < |hidden|
  {
  }
}
