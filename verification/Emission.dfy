/**
 The weight vector of the rolling king window: which share each slot carries, who
 gets it, and what is burned.  Shares are reals.
 */
module Emission {
  import opened Common

  /** `uids` lists the neurons; `uidByHotkey` may name uids that are not among them. */
  datatype Metagraph = Metagraph(uids: seq<int>, uidByHotkey: map<string, int>)

  datatype SkipReason = NoNeurons | BurnUidAbsent

  /** `kingShares` and `burn` are what the summary line reports. */
  datatype Plan =
    | Submit(uids: seq<int>, weights: seq<real>, kingShares: map<int, real>, burn: real)
    | Skip(reason: SkipReason)

  const REGULAR_SHARES: seq<real> := [0.40, 0.15, 0.15, 0.15, 0.15]

  function BootstrapShares(kings: int): seq<real>
    requires 1 <= kings <= 4
  {
    if kings == 1 then [1.00]
    else if kings == 2 then [0.60, 0.40]
    else if kings == 3 then [0.40, 0.30, 0.30]
    else [0.40, 0.20, 0.20, 0.20]
  }

  function FirstShares(slots: nat): seq<real> {
    if slots < |REGULAR_SHARES| then REGULAR_SHARES[..slots] else REGULAR_SHARES
  }

  function KingEmissionShares(window: int, kingCount: Option<int>): seq<real> {
    var slots := AtLeastZero(window);
    if kingCount.None? then FirstShares(slots)
    else
      var kings := AtLeastZero(kingCount.value);
      var filled := if kings < slots then kings else slots;
      if 1 <= filled <= 4 then BootstrapShares(filled) else FirstShares(slots)
  }

  function UidOf(meta: Metagraph, hotkey: string): Option<int> {
    if hotkey in meta.uidByHotkey then Some(meta.uidByHotkey[hotkey]) else None
  }

  /** The hotkeys of the kings that do not map to the burn uid, latest king first. */
  function NonBurnKings(kings: seq<string>, meta: Metagraph, burnUid: int): seq<string> {
    if kings == [] then []
    else (if UidOf(meta, kings[0]) != Some(burnUid) then [kings[0]] else []) + NonBurnKings(kings[1..], meta, burnUid)
  }

  /** The shares this window hands out. */
  function ChosenShares(kings: seq<string>, meta: Metagraph, window: int, burnUid: int): seq<real> {
    var eligible := |NonBurnKings(kings, meta, burnUid)|;
    var slots := AtLeastZero(window);
    KingEmissionShares(window, Some(if eligible < slots then eligible else slots))
  }

  // ---------------------------------------------------------------- who gets what

  /** The neuron a slot pays, if its king exists and is live. */
  function Payee(eligible: seq<string>, meta: Metagraph, slot: nat): Option<int> {
    if slot >= |eligible| then None
    else
      var uid := UidOf(meta, eligible[slot]);
      if uid.Some? && uid.value in meta.uids then uid else None
  }

  /** What the first n slots pay to `payee`; `None` stands for the slots nobody claims. */
  function Paid(shares: seq<real>, eligible: seq<string>, meta: Metagraph, payee: Option<int>, n: nat): real
    requires n <= |shares|
  {
    if n == 0 then 0.0
    else Paid(shares, eligible, meta, payee, n - 1) + if Payee(eligible, meta, n - 1) == payee then shares[n - 1] else 0.0
  }

  function Sum(xs: seq<real>): real {
    if xs == [] then 0.0 else Sum(xs[..|xs| - 1]) + xs[|xs| - 1]
  }

  ghost predicate AllPositive(shares: seq<real>) {
    forall s | 0 <= s < |shares| :: shares[s] > 0.0
  }

  lemma SharesArePositive(window: int, kingCount: Option<int>)
    ensures AllPositive(KingEmissionShares(window, kingCount))
  {
  }

  lemma {:induction false} PaidIsPositive(
    shares: seq<real>, eligible: seq<string>, meta: Metagraph, payee: Option<int>, n: nat)
    requires n <= |shares| && AllPositive(shares)
    ensures Paid(shares, eligible, meta, payee, n) >= 0.0
    ensures Paid(shares, eligible, meta, payee, n) == 0.0 <==> forall s: nat | s < n :: Payee(eligible, meta, s) != payee
  {
    if n > 0 {
      PaidIsPositive(shares, eligible, meta, payee, n - 1);
    }
  }

  /** The loop over the slots, with its dictionaries. */
  method SplitShares(shares: seq<real>, eligible: seq<string>, meta: Metagraph)
    returns (weights: map<int, real>, kingShares: map<int, real>, burn: real)
    ensures weights.Keys == set u | u in meta.uids
    ensures forall u | u in meta.uids :: weights[u] == Paid(shares, eligible, meta, Some(u), |shares|)
    ensures forall u :: u in kingShares <==> exists s: nat :: s < |shares| && Payee(eligible, meta, s) == Some(u)
    ensures forall u | u in kingShares :: kingShares[u] == Paid(shares, eligible, meta, Some(u), |shares|)
    ensures burn == Paid(shares, eligible, meta, None, |shares|)
  {
    weights := map u | u in meta.uids :: 0.0;
    kingShares := map[];
    burn := 0.0;
    for slot := 0 to |shares|
      invariant weights.Keys == set u | u in meta.uids
      invariant forall u | u in meta.uids :: weights[u] == Paid(shares, eligible, meta, Some(u), slot)
      invariant forall u :: u in kingShares <==> exists s: nat :: s < slot && Payee(eligible, meta, s) == Some(u)
      invariant forall u | u in kingShares :: u in meta.uids && kingShares[u] == weights[u]
      invariant forall u | u in meta.uids && u !in kingShares :: weights[u] == 0.0
      invariant burn == Paid(shares, eligible, meta, None, slot)
    {
      var share := shares[slot];
      var uid := if slot < |eligible| then UidOf(meta, eligible[slot]) else None;
      if uid.Some? && uid.value in weights {
        var u := uid.value;
        assert Payee(eligible, meta, slot) == Some(u);
        weights := weights[u := weights[u] + share];
        kingShares := kingShares[u := (if u in kingShares then kingShares[u] else 0.0) + share];
      } else {
        assert Payee(eligible, meta, slot) == None;
        burn := burn + share;
      }
    }
  }

  /** A neuron's weight: what its slots pay it and, for the burn uid, what nobody claims. */
  function WeightOf(shares: seq<real>, eligible: seq<string>, meta: Metagraph, burnUid: int, uid: int): real {
    Paid(shares, eligible, meta, Some(uid), |shares|)
    + if uid == burnUid then Paid(shares, eligible, meta, None, |shares|) else 0.0
  }

  function Weights(shares: seq<real>, eligible: seq<string>, meta: Metagraph, burnUid: int, uids: seq<int>): seq<real> {
    if uids == [] then []
    else
      var last := |uids| - 1;
      Weights(shares, eligible, meta, burnUid, uids[..last]) + [WeightOf(shares, eligible, meta, burnUid, uids[last])]
  }

  lemma {:induction false} PaidToNonBurn(
    shares: seq<real>, eligible: seq<string>, meta: Metagraph, burnUid: int, n: nat)
    requires n <= |shares| && forall s | 0 <= s < |eligible| :: UidOf(meta, eligible[s]) != Some(burnUid)
    ensures Paid(shares, eligible, meta, Some(burnUid), n) == 0.0
  {
    if n > 0 {
      PaidToNonBurn(shares, eligible, meta, burnUid, n - 1);
    }
  }

  lemma {:induction false} NonBurnKingsAvoidBurn(kings: seq<string>, meta: Metagraph, burnUid: int)
    ensures forall s | 0 <= s < |NonBurnKings(kings, meta, burnUid)| ::
      UidOf(meta, NonBurnKings(kings, meta, burnUid)[s]) != Some(burnUid)
  {
    if kings != [] {
      NonBurnKingsAvoidBurn(kings[1..], meta, burnUid);
    }
  }

  method ComputeWeights(kings: seq<string>, meta: Metagraph, window: int, burnUid: int) returns (plan: Plan)
    ensures var shares := ChosenShares(kings, meta, window, burnUid);
      var eligible := NonBurnKings(kings, meta, burnUid);
      var unclaimed := Paid(shares, eligible, meta, None, |shares|);
      && (plan == Skip(NoNeurons) <==> meta.uids == [])
      && (plan == Skip(BurnUidAbsent) <==> meta.uids != [] && unclaimed > 0.0 && burnUid !in meta.uids)
      && (plan.Submit? ==>
            && plan.uids == meta.uids
            && plan.weights == Weights(shares, eligible, meta, burnUid, meta.uids)
            && plan.burn == unclaimed
            && (forall u :: u in plan.kingShares <==> Paid(shares, eligible, meta, Some(u), |shares|) > 0.0)
            && forall u | u in plan.kingShares :: plan.kingShares[u] == Paid(shares, eligible, meta, Some(u), |shares|))
  {
    var eligible := NonBurnKings(kings, meta, burnUid);
    var shares := ChosenShares(kings, meta, window, burnUid);
    var weightOf, kingShares, burn := SplitShares(shares, eligible, meta);
    SharesArePositive(window, Some(if |eligible| < AtLeastZero(window) then |eligible| else AtLeastZero(window)));
    PaidIsPositive(shares, eligible, meta, None, |shares|);
    forall u ensures u in kingShares <==> Paid(shares, eligible, meta, Some(u), |shares|) > 0.0 {
      PaidIsPositive(shares, eligible, meta, Some(u), |shares|);
    }
    if meta.uids == [] {
      return Skip(NoNeurons);
    }
    if burn > 0.0 && burnUid !in weightOf {
      return Skip(BurnUidAbsent);
    }
    if burn > 0.0 {
      weightOf := weightOf[burnUid := weightOf[burnUid] + burn];
    }
    var weights: seq<real> := [];
    for i := 0 to |meta.uids|
      invariant weights == Weights(shares, eligible, meta, burnUid, meta.uids[..i])
    {
      assert meta.uids[..i + 1][..i] == meta.uids[..i];
      assert meta.uids[i] in weightOf;
      weights := weights + [weightOf[meta.uids[i]]];
    }
    assert meta.uids[..|meta.uids|] == meta.uids;
    return Submit(meta.uids, weights, kingShares, burn);
  }

  // ---------------------------------------------------------------- conservation

  /** What the first n slots pay to the neurons of a list together. */
  function PaidToAll(shares: seq<real>, eligible: seq<string>, meta: Metagraph, uids: seq<int>, n: nat): real
    requires n <= |shares|
  {
    if uids == [] then 0.0
    else
      var last := |uids| - 1;
      PaidToAll(shares, eligible, meta, uids[..last], n) + Paid(shares, eligible, meta, Some(uids[last]), n)
  }

  lemma {:induction false} OneMoreSlot(shares: seq<real>, eligible: seq<string>, meta: Metagraph, uids: seq<int>, n: nat)
    requires n < |shares| && Distinct(uids)
    ensures var payee := Payee(eligible, meta, n);
      PaidToAll(shares, eligible, meta, uids, n + 1)
      == PaidToAll(shares, eligible, meta, uids, n) + if payee.Some? && payee.value in uids then shares[n] else 0.0
  {
    if uids != [] {
      var last := |uids| - 1;
      OneMoreSlot(shares, eligible, meta, uids[..last], n);
      assert uids == uids[..last] + [uids[last]];
    }
  }

  lemma {:induction false} NoSlotsPayNothing(shares: seq<real>, eligible: seq<string>, meta: Metagraph, uids: seq<int>)
    ensures PaidToAll(shares, eligible, meta, uids, 0) == 0.0
  {
    if uids != [] {
      NoSlotsPayNothing(shares, eligible, meta, uids[..|uids| - 1]);
    }
  }

  /** Every share goes to exactly one neuron or stays unclaimed. */
  lemma {:induction false} SharesAreSplit(shares: seq<real>, eligible: seq<string>, meta: Metagraph, n: nat)
    requires n <= |shares| && Distinct(meta.uids)
    ensures PaidToAll(shares, eligible, meta, meta.uids, n) + Paid(shares, eligible, meta, None, n) == Sum(shares[..n])
  {
    if n == 0 {
      NoSlotsPayNothing(shares, eligible, meta, meta.uids);
    } else {
      SharesAreSplit(shares, eligible, meta, n - 1);
      OneMoreSlot(shares, eligible, meta, meta.uids, n - 1);
      assert shares[..n][..n - 1] == shares[..n - 1];
    }
  }

  lemma {:induction false} WeightsAddUp(
    shares: seq<real>, eligible: seq<string>, meta: Metagraph, burnUid: int, uids: seq<int>)
    requires Distinct(uids)
    ensures Sum(Weights(shares, eligible, meta, burnUid, uids))
         == PaidToAll(shares, eligible, meta, uids, |shares|)
          + if burnUid in uids then Paid(shares, eligible, meta, None, |shares|) else 0.0
  {
    if uids != [] {
      var last := |uids| - 1;
      WeightsAddUp(shares, eligible, meta, burnUid, uids[..last]);
      var before := Weights(shares, eligible, meta, burnUid, uids[..last]);
      assert Weights(shares, eligible, meta, burnUid, uids)[..|before|] == before;
      assert uids == uids[..last] + [uids[last]];
    }
  }

  /** Emission is conserved: whenever the plan is submittable its weights add up to the shares
      chosen for the window, no weight is negative, and the burn uid gets exactly the shares of
      the slots with no live neuron. */
  lemma EmissionIsConserved(kings: seq<string>, meta: Metagraph, window: int, burnUid: int)
    requires Distinct(meta.uids)
    requires var shares := ChosenShares(kings, meta, window, burnUid);
      burnUid in meta.uids || Paid(shares, NonBurnKings(kings, meta, burnUid), meta, None, |shares|) == 0.0
    ensures var shares := ChosenShares(kings, meta, window, burnUid);
      var eligible := NonBurnKings(kings, meta, burnUid);
      && Sum(Weights(shares, eligible, meta, burnUid, meta.uids)) == Sum(shares)
      && (forall u :: WeightOf(shares, eligible, meta, burnUid, u) >= 0.0)
      && WeightOf(shares, eligible, meta, burnUid, burnUid) == Paid(shares, eligible, meta, None, |shares|)
  {
    var shares := ChosenShares(kings, meta, window, burnUid);
    var eligible := NonBurnKings(kings, meta, burnUid);
    SharesArePositive(window, Some(if |eligible| < AtLeastZero(window) then |eligible| else AtLeastZero(window)));
    WeightsAddUp(shares, eligible, meta, burnUid, meta.uids);
    SharesAreSplit(shares, eligible, meta, |shares|);
    assert shares[..|shares|] == shares;
    NonBurnKingsAvoidBurn(kings, meta, burnUid);
    PaidToNonBurn(shares, eligible, meta, burnUid, |shares|);
    forall u ensures WeightOf(shares, eligible, meta, burnUid, u) >= 0.0 {
      PaidIsPositive(shares, eligible, meta, Some(u), |shares|);
      PaidIsPositive(shares, eligible, meta, None, |shares|);
    }
  }

  lemma SumOfTwo(a: real, b: real)
    ensures Sum([a, b]) == a + b
  {
    assert [a, b][..1] == [a];
    assert Sum([a]) == Sum([a][..0]) + a;
  }

  lemma SumOfThree(a: real, b: real, c: real)
    ensures Sum([a, b, c]) == a + b + c
  {
    SumOfTwo(a, b);
    assert [a, b, c][..2] == [a, b];
  }

  lemma SumOfFour(a: real, b: real, c: real, d: real)
    ensures Sum([a, b, c, d]) == a + b + c + d
  {
    SumOfThree(a, b, c);
    assert [a, b, c, d][..3] == [a, b, c];
  }

  lemma RegularSharesSum(slots: nat)
    ensures Sum(FirstShares(slots)) == if slots == 0 then 0.0 else if slots >= 5 then 1.0 else 0.25 + 0.15 * slots as real
  {
    SumOfTwo(0.40, 0.15);
    SumOfThree(0.40, 0.15, 0.15);
    SumOfFour(0.40, 0.15, 0.15, 0.15);
    var s := FirstShares(slots);
    if slots >= 5 {
      assert s[..4] == [0.40, 0.15, 0.15, 0.15];
    } else if slots == 4 {
      assert s == [0.40, 0.15, 0.15, 0.15];
    } else if slots == 3 {
      assert s == [0.40, 0.15, 0.15];
    } else if slots == 2 {
      assert s == [0.40, 0.15];
    } else if slots == 1 {
      assert s == [0.40];
    }
  }

  /** The whole emission is distributed exactly when the window covers all five slots, or has
      any slot at all and some king to put there. */
  lemma AllEmissionIsSharedOut(kings: seq<string>, meta: Metagraph, window: int, burnUid: int)
    ensures Sum(ChosenShares(kings, meta, window, burnUid)) == 1.0
      <==> window >= 5 || (window >= 1 && NonBurnKings(kings, meta, burnUid) != [])
  {
    RegularSharesSum(AtLeastZero(window));
    SumOfTwo(0.60, 0.40);
    SumOfThree(0.40, 0.30, 0.30);
    SumOfFour(0.40, 0.20, 0.20, 0.20);
  }

  // ---------------------------------------------------------------- slot by slot

  predicate IsBurnKing(hotkey: string, meta: Metagraph, burnUid: int) {
    hotkey in meta.uidByHotkey && meta.uidByHotkey[hotkey] == burnUid
  }

  /** `at` says where each of the listed kings stands among all of them: in order, each no burn king, and no
      such king left out. */
  ghost predicate Places(at: seq<nat>, listed: seq<string>, kings: seq<string>, meta: Metagraph, burnUid: int) {
    && |at| == |listed|
    && (forall s | 0 <= s < |at| :: at[s] < |kings| && listed[s] == kings[at[s]] && !IsBurnKing(kings[at[s]], meta, burnUid))
    && (forall s, t | 0 <= s < t < |at| :: at[s] < at[t])
    && forall i: nat | i < |kings| && !IsBurnKing(kings[i], meta, burnUid) :: i in at
  }

  lemma PlacesOneOn(later: seq<nat>, listed: seq<string>, kings: seq<string>, meta: Metagraph, burnUid: int)
    requires kings != [] && Places(later, listed, kings[1..], meta, burnUid) && IsBurnKing(kings[0], meta, burnUid)
    ensures Places(OneOn(later), listed, kings, meta, burnUid)
  {
    var at := OneOn(later);
    forall s | 0 <= s < |at|
      ensures at[s] < |kings| && listed[s] == kings[at[s]] && !IsBurnKing(kings[at[s]], meta, burnUid)
    {
      assert kings[1..][later[s]] == kings[at[s]];
    }
    forall i: nat | i < |kings| && !IsBurnKing(kings[i], meta, burnUid) ensures i in at {
      LaterIsMoved(later, kings, meta, burnUid, i);
    }
  }

  lemma LaterIsMoved(later: seq<nat>, kings: seq<string>, meta: Metagraph, burnUid: int, i: nat)
    requires 0 < i < |kings| && !IsBurnKing(kings[i], meta, burnUid)
    requires forall j: nat | j < |kings[1..]| && !IsBurnKing(kings[1..][j], meta, burnUid) :: j in later
    ensures i in OneOn(later)
  {
    assert kings[1..][i - 1] == kings[i];
    InOneOn(later, i - 1);
  }

  lemma PlacesFirst(later: seq<nat>, listed: seq<string>, kings: seq<string>, meta: Metagraph, burnUid: int)
    requires kings != [] && Places(later, listed, kings[1..], meta, burnUid) && !IsBurnKing(kings[0], meta, burnUid)
    ensures Places([0] + OneOn(later), [kings[0]] + listed, kings, meta, burnUid)
  {
    var at, all := [0] + OneOn(later), [kings[0]] + listed;
    forall s | 0 <= s < |at|
      ensures at[s] < |kings| && all[s] == kings[at[s]] && !IsBurnKing(kings[at[s]], meta, burnUid)
    {
      if s > 0 {
        assert at[s] == later[s - 1] + 1 && all[s] == listed[s - 1];
        assert kings[1..][later[s - 1]] == kings[at[s]];
      }
    }
    forall i: nat | i < |kings| && !IsBurnKing(kings[i], meta, burnUid) ensures i in at {
      FirstOrLater(later, kings, meta, burnUid, i);
    }
  }

  lemma FirstOrLater(later: seq<nat>, kings: seq<string>, meta: Metagraph, burnUid: int, i: nat)
    requires i < |kings| && !IsBurnKing(kings[i], meta, burnUid)
    requires forall j: nat | j < |kings[1..]| && !IsBurnKing(kings[1..][j], meta, burnUid) :: j in later
    ensures i in [0] + OneOn(later)
  {
    if i > 0 {
      LaterIsMoved(later, kings, meta, burnUid, i);
    }
  }

  /** The slots belong to the kings that do not map to the burn uid, in the order of the kings. */
  lemma {:induction false} SlotsFollowKings(kings: seq<string>, meta: Metagraph, burnUid: int) returns (at: seq<nat>)
    ensures Places(at, NonBurnKings(kings, meta, burnUid), kings, meta, burnUid)
  {
    if kings == [] {
      return [];
    }
    var later := SlotsFollowKings(kings[1..], meta, burnUid);
    var listed := NonBurnKings(kings[1..], meta, burnUid);
    if IsBurnKing(kings[0], meta, burnUid) {
      PlacesOneOn(later, listed, kings, meta, burnUid);
      assert NonBurnKings(kings, meta, burnUid) == listed;
      return OneOn(later);
    }
    PlacesFirst(later, listed, kings, meta, burnUid);
    assert NonBurnKings(kings, meta, burnUid) == [kings[0]] + listed;
    return [0] + OneOn(later);
  }

  /** Every position one further. */
  function OneOn(at: seq<nat>): (r: seq<nat>)
    ensures |r| == |at| && forall s | 0 <= s < |at| :: r[s] == at[s] + 1
  {
    seq(|at|, s requires 0 <= s < |at| => at[s] + 1)
  }

  lemma InOneOn(at: seq<nat>, i: nat)
    requires i in at
    ensures i + 1 in OneOn(at)
  {
    var s :| 0 <= s < |at| && at[s] == i;
    assert OneOn(at)[s] == i + 1;
  }

  /** The shares of a window: the latest king gets the table's first share and each other filled slot the
      same part of the rest while fewer than five kings hold slots; otherwise two fifths and 15 percent
      each, as far as the window goes. */
  lemma SharesOfWindow(kings: seq<string>, meta: Metagraph, window: int, burnUid: int)
    ensures var (shares, n) := (ChosenShares(kings, meta, window, burnUid), |NonBurnKings(kings, meta, burnUid)|);
      var filled := if n <= window then n else window;
      if 1 <= filled <= 4 then
        && |shares| == filled
        && shares[0] == (if filled == 1 then 1.0 else if filled == 2 then 0.6 else 0.4)
        && forall s | 1 <= s < filled :: shares[s] * (filled - 1) as real == 1.0 - shares[0]
      else
        && |shares| == (if window <= 0 then 0 else if window >= 5 then 5 else window)
        && forall s | 0 <= s < |shares| :: shares[s] == if s == 0 then 0.4 else 0.15
  {
  }

  /** A slot pays a neuron: its king's hotkey maps to the uid, and the neuron is there. */
  predicate Pays(eligible: seq<string>, meta: Metagraph, slot: int, uid: int) {
    && 0 <= slot < |eligible| && eligible[slot] in meta.uidByHotkey
    && meta.uidByHotkey[eligible[slot]] == uid && uid in meta.uids
  }

  /** The slots' shares where a condition holds, and nothing elsewhere. */
  ghost function SharesWhere(shares: seq<real>, n: nat, holds: nat -> bool): seq<real>
    requires n <= |shares|
  {
    seq(n, s requires 0 <= s < n => if holds(s) then shares[s] else 0.0)
  }

  lemma {:induction false} PaidIsSum(
    shares: seq<real>, eligible: seq<string>, meta: Metagraph, payee: Option<int>, holds: nat -> bool, n: nat)
    requires n <= |shares| && forall s: nat | s < n :: holds(s) <==> Payee(eligible, meta, s) == payee
    ensures Paid(shares, eligible, meta, payee, n) == Sum(SharesWhere(shares, n, holds))
  {
    if n > 0 {
      PaidIsSum(shares, eligible, meta, payee, holds, n - 1);
      var all := SharesWhere(shares, n, holds);
      assert all[..n - 1] == SharesWhere(shares, n - 1, holds);
    }
  }

  lemma {:induction false} WeightsInOrder(
    shares: seq<real>, eligible: seq<string>, meta: Metagraph, burnUid: int, uids: seq<int>)
    ensures var weights := Weights(shares, eligible, meta, burnUid, uids);
      && |weights| == |uids|
      && forall i | 0 <= i < |uids| :: weights[i] == WeightOf(shares, eligible, meta, burnUid, uids[i])
  {
    if uids != [] {
      WeightsInOrder(shares, eligible, meta, burnUid, uids[..|uids| - 1]);
    }
  }

  /** What the slots pay to a neuron, and what they pay to nobody. */
  ghost function PaidTo(shares: seq<real>, eligible: seq<string>, meta: Metagraph, uid: int): real {
    Sum(SharesWhere(shares, |shares|, s => Pays(eligible, meta, s, uid)))
  }

  ghost function PaidToNobody(shares: seq<real>, eligible: seq<string>, meta: Metagraph): real {
    Sum(SharesWhere(shares, |shares|, s => forall u :: !Pays(eligible, meta, s, u)))
  }

  /** The vector, neuron by neuron in metagraph order: a weight is the sum of the shares of the slots that pay
      the neuron and, for the burn uid, of the slots that pay nobody. */
  lemma WeightsBySlot(shares: seq<real>, eligible: seq<string>, meta: Metagraph, burnUid: int, i: nat)
    requires i < |meta.uids|
    ensures var weights := Weights(shares, eligible, meta, burnUid, meta.uids);
      && |weights| == |meta.uids|
      && weights[i] == PaidTo(shares, eligible, meta, meta.uids[i])
                       + if meta.uids[i] == burnUid then PaidToNobody(shares, eligible, meta) else 0.0
  {
    var uid := meta.uids[i];
    WeightsInOrder(shares, eligible, meta, burnUid, meta.uids);
    PaidIsSum(shares, eligible, meta, Some(uid), s => Pays(eligible, meta, s, uid), |shares|);
    forall s: nat ensures (forall u :: !Pays(eligible, meta, s, u)) <==> Payee(eligible, meta, s) == None {
      if Payee(eligible, meta, s).Some? {
        assert Pays(eligible, meta, s, Payee(eligible, meta, s).value);
      }
    }
    PaidIsSum(shares, eligible, meta, None, s => forall u :: !Pays(eligible, meta, s, u), |shares|);
  }
}
