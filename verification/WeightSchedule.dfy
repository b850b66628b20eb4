/**
 When the weight setter may set weights: inside a margin before each epoch
 boundary, and only when the chain's rate limit allows.  The closed form that
 predicts the next try is compared with polling block by block.
 */
module WeightSchedule {
  import opened Common

  datatype SetDecision = SetDecision(proceed: bool, rateOff: int, epochBlocks: int, nextTry: int)

  datatype Cadence = Cadence(tempo: int, netuid: nat, rateLimit: int, margin: int)

  /** The modulus is positive, so the source's remainder and Dafny's agree. */
  function BlocksUntilNextEpoch(block: int, tempo: int, netuid: int): int {
    if tempo <= 0 then 0 else tempo - (block + netuid + 1) % (tempo + 1)
  }

  function ShouldSet(c: Cadence, block: int, sinceUpdate: int): SetDecision {
    var rateOff := AtLeastZero(c.rateLimit - sinceUpdate);
    var epochBlocks := BlocksUntilNextEpoch(block, c.tempo, c.netuid);
    var rateClear := block + rateOff;
    var wait := AtLeastZero(BlocksUntilNextEpoch(rateClear, c.tempo, c.netuid) - c.margin);
    SetDecision(rateOff == 0 && epochBlocks <= c.margin, rateOff, epochBlocks, rateClear + wait)
  }

  /** The decision `d` blocks from now when nothing is set in between. */
  function Later(c: Cadence, block: int, sinceUpdate: int, d: nat): SetDecision {
    ShouldSet(c, block + d, sinceUpdate + d)
  }

  /** Epochs are runs of tempo + 1 blocks. */
  function Epoch(c: Cadence, block: int): int
    requires c.tempo > 0
  {
    (block + c.netuid + 1) / (c.tempo + 1)
  }

  // ---------------------------------------------------------------- the countdown

  /** Within an epoch the countdown drops by one each block; the next epoch starts after zero. */
  lemma CountdownWithin(c: Cadence, block: int, d: nat)
    requires c.tempo > 0
    ensures 0 <= BlocksUntilNextEpoch(block, c.tempo, c.netuid) <= c.tempo
    ensures d <= BlocksUntilNextEpoch(block, c.tempo, c.netuid) ==>
      && BlocksUntilNextEpoch(block + d, c.tempo, c.netuid) == BlocksUntilNextEpoch(block, c.tempo, c.netuid) - d
      && Epoch(c, block + d) == Epoch(c, block)
    ensures BlocksUntilNextEpoch(block, c.tempo, c.netuid) < d <= c.tempo + 1 ==> Epoch(c, block + d) == Epoch(c, block) + 1
  {
    var m := c.tempo + 1;
    var n := block + c.netuid + 1;
    var q, r := n / m, n % m;
    assert n == q * m + r;
    if d <= c.tempo - r {
      QuotientOf(n + d, q, r + d, m);
    } else if d <= m {
      assert (q + 1) * m == q * m + m;
      QuotientOf(n + d, q + 1, r + d - m, m);
    }
  }

  lemma EpochsGrow(c: Cadence, block: int, d: nat)
    requires c.tempo > 0
    ensures d > BlocksUntilNextEpoch(block, c.tempo, c.netuid) ==> Epoch(c, block + d) > Epoch(c, block)
  {
    var m := c.tempo + 1;
    var n := block + c.netuid + 1;
    assert n == n / m * m + n % m && n + d == (n + d) / m * m + (n + d) % m;
    assert (n + d) / m <= n / m ==> (n + d) / m * m <= n / m * m;
  }

  // ---------------------------------------------------------------- the closed form

  /** With one block passing at a time and no update, no block before the predicted one
      proceeds, and the predicted one does, exactly when the margin is not negative. */
  lemma NextTryIsFirst(c: Cadence, block: int, since: int)
    ensures ShouldSet(c, block, since).nextTry >= block
    ensures forall d: nat | block + d < ShouldSet(c, block, since).nextTry :: !Later(c, block, since, d).proceed
    ensures Later(c, block, since, ShouldSet(c, block, since).nextTry - block).proceed <==> c.margin >= 0
  {
    var now := ShouldSet(c, block, since);
    var clear := block + now.rateOff;
    var wait: nat := now.nextTry - clear;
    forall d: nat | block + d < now.nextTry ensures !Later(c, block, since, d).proceed {
      if d >= now.rateOff && c.tempo > 0 {
        CountdownWithin(c, clear, d - now.rateOff);
      }
    }
    if c.tempo > 0 {
      CountdownWithin(c, clear, wait);
      CountdownWithin(c, now.nextTry, 0);
    }
  }

  /** With a negative margin no block ever proceeds, so the prediction is never met. */
  lemma NegativeMarginNeverSets(c: Cadence, block: int, since: int)
    requires c.margin < 0
    ensures !ShouldSet(c, block, since).proceed
  {
    if c.tempo > 0 {
      CountdownWithin(c, block, 0);
    }
  }

  /** To proceed is to predict the current block, for every input. */
  lemma ProceedIsNow(c: Cadence, block: int, since: int)
    ensures ShouldSet(c, block, since).proceed <==> ShouldSet(c, block, since).nextTry == block
  {
    NextTryIsFirst(c, block, since);
    if c.margin < 0 {
      NegativeMarginNeverSets(c, block, since);
      if c.tempo > 0 {
        CountdownWithin(c, block + ShouldSet(c, block, since).rateOff, 0);
      }
    }
  }

  /** Polling again before the predicted block does not move the prediction. */
  lemma PredictionIsStable(c: Cadence, block: int, since: int, d: nat)
    requires c.margin >= 0 && block + d <= ShouldSet(c, block, since).nextTry
    ensures Later(c, block, since, d).nextTry == ShouldSet(c, block, since).nextTry
  {
    var n, later := ShouldSet(c, block, since).nextTry, Later(c, block, since, d);
    NextTryIsFirst(c, block, since);
    NextTryIsFirst(c, block + d, since + d);
    assert later.nextTry > n ==> !Later(c, block + d, since + d, n - block - d).proceed;
    assert later.nextTry < n ==> !Later(c, block, since, later.nextTry - block).proceed;
  }

  // ---------------------------------------------------------------- once per epoch

  /** A set at `block`, and another `d` blocks later with none in between. */
  ghost predicate SetTwice(c: Cadence, block: nat, since: int, d: nat) {
    d >= 1 && ShouldSet(c, block, since).proceed && ShouldSet(c, block + d, d).proceed
  }

  function Min(a: int, b: int): int {
    if a <= b then a else b
  }

  lemma SetsAreAnEpochApart(c: Cadence, block: nat, since: int, d: nat)
    requires c.tempo > 0 && SetTwice(c, block, since, d)
    requires c.rateLimit > Min(c.margin, c.tempo) || 1 > Min(c.margin, c.tempo)
    ensures Epoch(c, block) < Epoch(c, block + d)
  {
    CountdownWithin(c, block, 0);
    EpochsGrow(c, block, d);
  }

  /** When neither the rate limit nor the passing of a block keeps sets apart, some epoch sees two. */
  lemma TwoSetsInOneEpoch(c: Cadence) returns (block: nat, d: nat)
    requires c.tempo > 0
    requires 1 <= Min(c.margin, c.tempo) && c.rateLimit <= Min(c.margin, c.tempo)
    ensures SetTwice(c, block, c.rateLimit, d) && Epoch(c, block) == Epoch(c, block + d)
  {
    d := Min(c.margin, c.tempo);
    var m := c.tempo + 1;
    assert (c.netuid + 1) * m == (c.netuid + 1) * c.tempo + c.netuid + 1;
    assert (c.netuid + 1) * c.tempo >= 0;
    block := c.tempo - d + (c.netuid + 1) * c.tempo;
    QuotientOf(block + c.netuid + 1, c.netuid + 1, c.tempo - d, m);
    CountdownWithin(c, block, d);
  }

  /** Two sets in a row never fall in one epoch exactly when the rate limit, or one block where
      the limit is smaller, exceeds the margin (an epoch's length bounds a larger margin). */
  lemma OneSetPerEpoch(c: Cadence)
    requires c.tempo > 0
    ensures (forall block: nat, since: int, d: nat | SetTwice(c, block, since, d) :: Epoch(c, block) != Epoch(c, block + d))
      <==> c.rateLimit > Min(c.margin, c.tempo) || 1 > Min(c.margin, c.tempo)
  {
    if c.rateLimit > Min(c.margin, c.tempo) || 1 > Min(c.margin, c.tempo) {
      forall block: nat, since: int, d: nat | SetTwice(c, block, since, d) ensures Epoch(c, block) != Epoch(c, block + d) {
        SetsAreAnEpochApart(c, block, since, d);
      }
    } else {
      var block, d := TwoSetsInOneEpoch(c);
      assert SetTwice(c, block, c.rateLimit, d);
    }
  }

  /** A sequence of successful sets: each block proceeds, given the blocks since the one before. */
  ghost predicate SetRun(c: Cadence, sets: seq<nat>, since: int) {
    && (sets != [] ==> ShouldSet(c, sets[0], since).proceed)
    && forall i | 0 <= i < |sets| - 1 ::
      sets[i] < sets[i + 1] && ShouldSet(c, sets[i + 1], sets[i + 1] - sets[i]).proceed
  }

  /** The next try predicted right after a set. */
  function Predicted(c: Cadence, block: nat): int {
    ShouldSet(c, block + 1, 1).nextTry
  }

  /** The set comes before the epoch of its prediction is over. */
  predicate OnTime(c: Cadence, block: nat, next: nat) {
    next <= Predicted(c, block) + BlocksUntilNextEpoch(Predicted(c, block), c.tempo, c.netuid)
  }

  lemma PredictionIsInNextEpoch(c: Cadence, block: nat, since: int)
    requires c.tempo > 0 && 0 <= c.margin < c.rateLimit <= c.tempo + 1
    requires ShouldSet(c, block, since).proceed
    ensures Epoch(c, Predicted(c, block)) == Epoch(c, block) + 1 && Predicted(c, block) >= block + c.rateLimit
  {
    var next := Predicted(c, block);
    NextTryIsFirst(c, block + 1, 1);
    CountdownWithin(c, block, c.rateLimit);
    CountdownWithin(c, block + c.rateLimit, next - block - c.rateLimit);
  }

  /** A set never comes before its prediction, and lies in the very next epoch exactly when it is on
      time. */
  lemma NextSetIsInNextEpoch(c: Cadence, block: nat, since: int, next: nat)
    requires c.tempo > 0 && 0 <= c.margin < c.rateLimit <= c.tempo + 1
    requires ShouldSet(c, block, since).proceed && block < next && ShouldSet(c, next, next - block).proceed
    ensures Epoch(c, next) > Epoch(c, block)
    ensures Epoch(c, next) == Epoch(c, block) + 1 <==> OnTime(c, block, next)
  {
    var predicted := Predicted(c, block);
    PredictionIsInNextEpoch(c, block, since);
    NextTryIsFirst(c, block + 1, 1);
    assert next >= predicted by {
      assert Later(c, block + 1, 1, next - block - 1) == ShouldSet(c, next, next - block);
    }
    CountdownWithin(c, predicted, next - predicted);
    EpochsGrow(c, predicted, next - predicted);
  }

  /** With the margin below the rate limit and the rate limit within an epoch, no epoch ever sees two
      sets, and every epoch from the first set on sees one exactly when each set is made before the
      epoch of its prediction is over. */
  lemma {:induction false} EveryEpochIsServedOnce(c: Cadence, sets: seq<nat>, since: int, n: nat)
    requires c.tempo > 0 && 0 <= c.margin < c.rateLimit <= c.tempo + 1
    requires SetRun(c, sets, since) && n < |sets|
    ensures forall i | 0 <= i < n :: Epoch(c, sets[i]) < Epoch(c, sets[i + 1])
    ensures Epoch(c, sets[n]) >= Epoch(c, sets[0]) + n
    ensures Epoch(c, sets[n]) == Epoch(c, sets[0]) + n <==> forall i | 0 <= i < n :: OnTime(c, sets[i], sets[i + 1])
  {
    if n > 0 {
      var last := n - 1;
      EveryEpochIsServedOnce(c, sets, since, last);
      assert ShouldSet(c, sets[last], if last == 0 then since else sets[last] - sets[last - 1]).proceed by {
        if last > 0 {
          var before := last - 1;
          assert ShouldSet(c, sets[before + 1], sets[before + 1] - sets[before]).proceed;
        }
      }
      NextSetIsInNextEpoch(c, sets[last], if last == 0 then since else sets[last] - sets[last - 1], sets[last + 1]);
    }
  }

  // ---------------------------------------------------------------- in terms of epochs

  /** What proceeding means: the rate limit has passed since the last update, and an epoch boundary lies
      within the margin. */
  lemma ProceedsExactly(c: Cadence, block: int, since: int)
    requires c.tempo > 0 && 0 <= c.margin <= c.tempo
    ensures ShouldSet(c, block, since).proceed <==> since >= c.rateLimit && Epoch(c, block + c.margin + 1) > Epoch(c, block)
  {
    CountdownWithin(c, block, c.margin + 1);
  }
}
