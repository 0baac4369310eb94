/** The two lookup policies of the return engine: the monthly interest rate
    chosen by the term, and the service-fee rate chosen by the capital.
    Each is written the way the engine writes it (a switch, an if-chain) and
    is tied to a data-driven table that serves as its reference definition. */
module Rates {

  /* ---------------------------------------------------------------------- */
  /* Monthly rate by term                                                    */
  /* ---------------------------------------------------------------------- */

  /** A term together with the monthly rate (as a fraction) it earns. */
  datatype RateEntry = RateEntry(term: int, rate: real)

  /** The supported terms, in months, with their monthly rates. */
  const RateTable: seq<RateEntry> :=
    [RateEntry(3, 0.01), RateEntry(6, 0.02), RateEntry(9, 0.03), RateEntry(12, 0.04)]

  /** The rate used for any term the table does not list. */
  const FallbackRate: real := 0.01

  /** The rate of the first entry whose term matches, or the fallback. */
  function LookupRate(table: seq<RateEntry>, term: int, fallback: real): real
  {
    if |table| == 0 then fallback
    else if table[0].term == term then table[0].rate
    else LookupRate(table[1..], term, fallback)
  }

  /** A term listed nowhere in the table resolves to the fallback. */
  lemma {:induction false} LookupRateUnlisted(table: seq<RateEntry>, term: int, fallback: real)
    requires forall i :: 0 <= i < |table| ==> table[i].term != term
    ensures LookupRate(table, term, fallback) == fallback
  {
    if |table| > 0 {
      assert table[0].term != term;
      forall i | 0 <= i < |table[1..]| ensures table[1..][i].term != term {
        assert table[1..][i] == table[i + 1];
      }
      LookupRateUnlisted(table[1..], term, fallback);
    }
  }

  ghost predicate SupportedTerm(term: int) {
    exists i :: 0 <= i < |RateTable| && RateTable[i].term == term
  }

  /** The switch over the term. An unsupported term silently takes the
      3-month rate; no error is raised. */
  function MonthlyRate(term: int): (r: real)
    ensures r == LookupRate(RateTable, term, FallbackRate)
    ensures SupportedTerm(term) ==> r == term as real / 300.0
    ensures !SupportedTerm(term) ==> r == FallbackRate
    ensures 0.0 < r <= 0.04
  {
    match term
    case 3 => 0.01
    case 6 => 0.02
    case 9 => 0.03
    case 12 => 0.04
    case _ =>
      assert forall i :: 0 <= i < |RateTable| ==> RateTable[i].term != term;
      LookupRateUnlisted(RateTable, term, FallbackRate);
      0.01
  }

  /** Longer supported terms never earn a lower monthly rate, as the
      calculator's term options advertise. */
  lemma MonthlyRateGrowsWithSupportedTerm(t1: int, t2: int)
    requires SupportedTerm(t1) && SupportedTerm(t2)
    requires t1 <= t2
    ensures MonthlyRate(t1) <= MonthlyRate(t2)
  {
  }

  /* ---------------------------------------------------------------------- */
  /* Fee rate by capital                                                     */
  /* ---------------------------------------------------------------------- */

  /** A fee tier: capital up to and including `upTo` pays `rate`. */
  datatype Tier = Tier(upTo: real, rate: real)

  /** Fee tiers in ascending order of their inclusive upper bound. */
  const FeeTiers: seq<Tier> :=
    [Tier(1000.0, 0.02), Tier(10000.0, 0.01), Tier(35000.0, 0.005)]

  /** The fee rate for capital above every tier's bound. */
  const TopFeeRate: real := 0.0025

  /** The rate of the first tier whose bound is at least `capital`,
      or `top` when the capital exceeds every bound. */
  function TierRate(tiers: seq<Tier>, top: real, capital: real): real
  {
    if |tiers| == 0 then top
    else if capital <= tiers[0].upTo then tiers[0].rate
    else TierRate(tiers[1..], top, capital)
  }

  /** Capital above every bound pays the top rate. */
  lemma {:induction false} TierRateAboveAll(tiers: seq<Tier>, top: real, capital: real)
    requires forall i :: 0 <= i < |tiers| ==> tiers[i].upTo < capital
    ensures TierRate(tiers, top, capital) == top
  {
    if |tiers| > 0 {
      assert tiers[0].upTo < capital;
      forall i | 0 <= i < |tiers[1..]| ensures tiers[1..][i].upTo < capital {
        assert tiers[1..][i] == tiers[i + 1];
      }
      TierRateAboveAll(tiers[1..], top, capital);
    }
  }

  /** Bounds strictly ascend, rates strictly descend, and every tier rate
      lies above the rate for the top bracket. */
  ghost predicate WellFormedTiers(tiers: seq<Tier>, top: real) {
    && (forall i :: 0 <= i < |tiers| ==> top < tiers[i].rate)
    && (forall i, j :: 0 <= i < j < |tiers| ==>
          tiers[i].upTo < tiers[j].upTo && tiers[j].rate < tiers[i].rate)
  }

  lemma FeeTiersWellFormed()
    ensures WellFormedTiers(FeeTiers, TopFeeRate)
  {
  }

  /** A well-formed table never charges more than its first tier. */
  lemma {:induction false} TierRateAtMostFirst(tiers: seq<Tier>, top: real, capital: real)
    requires |tiers| > 0
    requires WellFormedTiers(tiers, top)
    ensures TierRate(tiers, top, capital) <= tiers[0].rate
  {
    if capital > tiers[0].upTo {
      var rest := tiers[1..];
      assert WellFormedTiers(rest, top) by {
        forall i | 0 <= i < |rest| ensures top < rest[i].rate {
          assert rest[i] == tiers[i + 1];
        }
        forall i, j | 0 <= i < j < |rest|
          ensures rest[i].upTo < rest[j].upTo && rest[j].rate < rest[i].rate
        {
          assert rest[i] == tiers[i + 1] && rest[j] == tiers[j + 1];
        }
      }
      if |rest| > 0 {
        TierRateAtMostFirst(rest, top, capital);
        assert rest[0] == tiers[1];
      }
    }
  }

  /** In a well-formed table the rate is a non-increasing step function of
      the capital. */
  lemma {:induction false} TierRateNonIncreasing(tiers: seq<Tier>, top: real, a: real, b: real)
    requires WellFormedTiers(tiers, top)
    requires a <= b
    ensures TierRate(tiers, top, b) <= TierRate(tiers, top, a)
  {
    if |tiers| > 0 {
      var rest := tiers[1..];
      assert WellFormedTiers(rest, top) by {
        forall i | 0 <= i < |rest| ensures top < rest[i].rate {
          assert rest[i] == tiers[i + 1];
        }
        forall i, j | 0 <= i < j < |rest|
          ensures rest[i].upTo < rest[j].upTo && rest[j].rate < rest[i].rate
        {
          assert rest[i] == tiers[i + 1] && rest[j] == tiers[j + 1];
        }
      }
      if a <= tiers[0].upTo {
        if b > tiers[0].upTo {
          if |rest| > 0 {
            TierRateAtMostFirst(rest, top, b);
            assert rest[0] == tiers[1];
          }
        }
      } else {
        TierRateNonIncreasing(rest, top, a, b);
      }
    }
  }

  /** The if-chain over the capital, with inclusive upper bounds: capital of
      exactly 1000, 10000 or 35000 takes the higher rate. */
  function FeeRate(capital: real): (r: real)
    ensures r == TierRate(FeeTiers, TopFeeRate, capital)
    ensures r == 0.02 <==> capital <= 1000.0
    ensures r == 0.01 <==> 1000.0 < capital <= 10000.0
    ensures r == 0.005 <==> 10000.0 < capital <= 35000.0
    ensures r == 0.0025 <==> 35000.0 < capital
  {
    if capital <= 1000.0 then 0.02
    else if capital <= 10000.0 then 0.01
    else if capital <= 35000.0 then
      var rest := FeeTiers[1..];
      assert TierRate(FeeTiers, TopFeeRate, capital) == TierRate(rest, TopFeeRate, capital);
      assert rest[1..] == [Tier(35000.0, 0.005)];
      0.005
    else
      TierRateAboveAll(FeeTiers, TopFeeRate, capital);
      0.0025
  }

  /** More capital never pays a higher fee rate. */
  lemma FeeRateNonIncreasing(a: real, b: real)
    requires a <= b
    ensures FeeRate(b) <= FeeRate(a)
  {
    FeeTiersWellFormed();
    TierRateNonIncreasing(FeeTiers, TopFeeRate, a, b);
  }

  /** Every fee rate is a proper fraction of at most 2%. */
  lemma FeeRateBounds(capital: real)
    ensures TopFeeRate <= FeeRate(capital) <= 0.02
  {
    FeeTiersWellFormed();
    TierRateAtMostFirst(FeeTiers, TopFeeRate, capital);
  }
}
