/** Result assembly of the return engine: resolve both rates, project the
    months, take the gross amount from the last month, deduct the tiered fee,
    and report the rates as percentages. */
module Calculation {
  import opened Rates
  import opened Schedule

  /** The value the engine returns. `monthlyRate` and `feeRate` are
      percentages (fraction times 100). */
  datatype SimulationResult = SimulationResult(
    initialCapital: real,
    term: int,
    benefitType: BenefitType,
    monthlyRate: real,
    feeRate: real,
    feeAmount: real,
    grossAmount: real,
    netAmount: real,
    monthlyResults: seq<MonthRow>
  )

  /** A term below 1 produces no month rows, and the engine then fails
      reading the total of the non-existent last row. */
  datatype CalcError = NoFinalMonth(term: int)

  datatype Result = Success(value: SimulationResult) | Failure(error: CalcError)

  /** The engine as a function of (capital, term, benefit mode). */
  function Simulate(capital: real, term: int, benefit: BenefitType): (r: Result)
    ensures r.Failure? <==> term < 1
    ensures r.Success? ==>
      var s := r.value;
      && s.initialCapital == capital && s.term == term && s.benefitType == benefit
      && s.monthlyResults == MonthlyRows(capital, MonthlyRate(term), benefit, term)
      && |s.monthlyResults| == term
      && s.grossAmount == s.monthlyResults[term - 1].totalAmount
      && s.netAmount + s.feeAmount == s.grossAmount
  {
    var monthlyRate := MonthlyRate(term);
    var feeRate := FeeRate(capital);
    var rows := MonthlyRows(capital, monthlyRate, benefit, term);
    if term < 1 then Failure(NoFinalMonth(term))
    else
      var gross := rows[term - 1].totalAmount;
      var fee := gross * feeRate;
      Success(SimulationResult(
        capital, term, benefit, monthlyRate * 100.0, feeRate * 100.0,
        fee, gross, gross - fee, rows))
  }

  /** The engine's statement sequence: rate switch, fee if-chain, monthly
      loop, then the read of the last row and the fee deduction. */
  method CalculateReturns(capital: real, term: int, benefit: BenefitType) returns (r: Result)
    ensures r == Simulate(capital, term, benefit)
  {
    var monthlyRate := MonthlyRate(term);
    var feeRate := FeeRate(capital);
    var monthlyResults := BuildMonthlyRows(capital, monthlyRate, benefit, term);
    if term < 1 {
      return Failure(NoFinalMonth(term));
    }
    var finalAmount := monthlyResults[term - 1].totalAmount;
    var feeAmount := finalAmount * feeRate;
    var netAmount := finalAmount - feeAmount;
    r := Success(SimulationResult(
      capital, term, benefit, monthlyRate * 100.0, feeRate * 100.0,
      feeAmount, finalAmount, netAmount, monthlyResults));
  }

  /* ---------------------------------------------------------------------- */
  /* Properties of the assembled result                                      */
  /* ---------------------------------------------------------------------- */

  /** The fee is the reported fee percentage of the gross amount, and the
      net amount is the rest of it. */
  lemma FeeDeduction(capital: real, term: int, benefit: BenefitType)
    requires term >= 1
    ensures var s := Simulate(capital, term, benefit).value;
      && s.feeAmount == s.grossAmount * s.feeRate / 100.0
      && s.netAmount == s.grossAmount * (1.0 - s.feeRate / 100.0)
      && s.netAmount + s.feeAmount == s.grossAmount
  {
    var s := Simulate(capital, term, benefit).value;
    var f := FeeRate(capital);
    assert s.feeRate / 100.0 == f;
    assert s.grossAmount * (1.0 - f) == s.grossAmount - s.grossAmount * f;
  }

  /** The reported percentages: a supported term reports term/3 percent, any
      other term 1 percent; the fee percentage follows the capital tiers. */
  lemma ReportedRates(capital: real, term: int, benefit: BenefitType)
    requires term >= 1
    ensures var s := Simulate(capital, term, benefit).value;
      && (SupportedTerm(term) ==> s.monthlyRate == term as real / 3.0)
      && (!SupportedTerm(term) ==> s.monthlyRate == 1.0)
      && (capital <= 1000.0 ==> s.feeRate == 2.0)
      && (1000.0 < capital <= 10000.0 ==> s.feeRate == 1.0)
      && (10000.0 < capital <= 35000.0 ==> s.feeRate == 0.5)
      && (35000.0 < capital ==> s.feeRate == 0.25)
  {
  }

  /** Simple mode: the gross amount is capital * (1 + rate * term). */
  lemma SimpleGross(capital: real, term: int)
    requires term >= 1
    ensures var s := Simulate(capital, term, Simple).value;
      s.grossAmount == capital * (1.0 + MonthlyRate(term) * term as real)
  {
    ScaleLinear(capital, MonthlyRate(term), term as real);
  }

  /** Compound mode: the gross amount is capital * (1 + rate)^term. */
  lemma CompoundGross(capital: real, term: int)
    requires term >= 1
    ensures var s := Simulate(capital, term, Compound).value;
      s.grossAmount == capital * Pow(1.0 + MonthlyRate(term), term)
  {
    BalanceClosedForm(capital, MonthlyRate(term), term);
  }

  /** With non-negative capital, neither mode ends below the capital. */
  lemma GrossAtLeastCapital(capital: real, term: int, benefit: BenefitType)
    requires 0.0 <= capital && term >= 1
    ensures capital <= Simulate(capital, term, benefit).value.grossAmount
  {
    var rate := MonthlyRate(term);
    var gross := Simulate(capital, term, benefit).value.grossAmount;
    assert gross == RowAt(capital, rate, benefit, term).totalAmount;
    match benefit
    case Simple =>
      SimpleTotalAtLeastCapital(capital, rate, term);
    case Compound =>
  }

  /** Deducting a fee rate in (0, 1/2) from a positive amount leaves
      0 < fee < net < amount. */
  lemma FeeSplitOrdered(gross: real, f: real)
    requires 0.0 < gross && 0.0 < f < 0.5
    ensures 0.0 < gross * f < gross - gross * f < gross
  {
    MulMonotone(gross, f, 0.5);
    assert 0.0 < gross * f;
  }

  /** For positive capital every amount is positive and the fee takes a
      strict part of the gross amount, so 0 < fee < net < gross. */
  lemma AmountsPositive(capital: real, term: int, benefit: BenefitType)
    requires 0.0 < capital && term >= 1
    ensures var s := Simulate(capital, term, benefit).value;
      0.0 < s.feeAmount < s.netAmount < s.grossAmount
  {
    var s := Simulate(capital, term, benefit).value;
    FeeRateBounds(capital);
    GrossAtLeastCapital(capital, term, benefit);
    FeeSplitOrdered(s.grossAmount, FeeRate(capital));
  }

  /** Compound mode with positive capital: the month totals strictly
      increase, since every rate the engine can pick is positive. */
  lemma CompoundResultsIncreasing(capital: real, term: int)
    requires 0.0 < capital
    ensures Simulate(capital, term, Compound).Success? ==>
      var rows := Simulate(capital, term, Compound).value.monthlyResults;
      forall i, j :: 0 <= i < j < |rows| ==> rows[i].totalAmount < rows[j].totalAmount
  {
    CompoundTotalStrictlyIncreasing(capital, MonthlyRate(term), term);
  }

  /** More capital never reports a higher fee percentage. */
  lemma FeePercentNonIncreasing(c1: real, c2: real, term: int, benefit: BenefitType)
    requires c1 <= c2 && term >= 1
    ensures Simulate(c2, term, benefit).value.feeRate <= Simulate(c1, term, benefit).value.feeRate
  {
    FeeRateNonIncreasing(c1, c2);
  }

  /* ---------------------------------------------------------------------- */
  /* Worked scenarios                                                        */
  /* ---------------------------------------------------------------------- */

  /** 1000 over 3 months, simple: 1% a month, 2% fee; 1030 gross, 20.6 fee,
      1009.4 net. */
  lemma ScenarioSimple1000()
    ensures var r := Simulate(1000.0, 3, Simple);
      && r.Success?
      && r.value.monthlyRate == 1.0 && r.value.feeRate == 2.0
      && r.value.monthlyResults == [
           MonthRow(1, 1000.0, 10.0, 10.0, 1010.0),
           MonthRow(2, 1000.0, 10.0, 20.0, 1020.0),
           MonthRow(3, 1000.0, 10.0, 30.0, 1030.0)]
      && r.value.grossAmount == 1030.0
      && r.value.feeAmount == 20.6
      && r.value.netAmount == 1009.4
  {
  }

  /** 1000 over 3 months, compound: totals 1010, 1020.1, 1030.301; fee
      20.60602, net 1009.69498. */
  lemma ScenarioCompound1000()
    ensures var r := Simulate(1000.0, 3, Compound);
      && r.Success?
      && r.value.monthlyRate == 1.0 && r.value.feeRate == 2.0
      && r.value.monthlyResults == [
           MonthRow(1, 1000.0, 10.0, 10.0, 1010.0),
           MonthRow(2, 1010.0, 10.1, 20.1, 1020.1),
           MonthRow(3, 1020.1, 10.201, 30.301, 1030.301)]
      && r.value.grossAmount == 1030.301
      && r.value.feeAmount == 20.60602
      && r.value.netAmount == 1009.69498
  {
  }

  /** The monthly percentage by term and the fee percentage by capital, as
      the engine's tests exercise them. */
  lemma ScenarioRatesAndTiers()
    ensures Simulate(5000.0, 3, Simple).value.monthlyRate == 1.0
    ensures Simulate(5000.0, 6, Simple).value.monthlyRate == 2.0
    ensures Simulate(5000.0, 9, Simple).value.monthlyRate == 3.0
    ensures Simulate(5000.0, 12, Simple).value.monthlyRate == 4.0
    ensures Simulate(1000.0, 3, Simple).value.feeRate == 2.0
    ensures Simulate(5000.0, 3, Simple).value.feeRate == 1.0
    ensures Simulate(20000.0, 3, Simple).value.feeRate == 0.5
    ensures Simulate(40000.0, 3, Simple).value.feeRate == 0.25
    ensures Simulate(40000.0, 12, Simple).value.feeRate == 0.25
  {
  }

  /** A term outside the table is not rejected: 5 months earns 1% a month. */
  lemma ScenarioUnsupportedTerm()
    ensures var r := Simulate(5000.0, 5, Simple);
      r.Success? && r.value.monthlyRate == 1.0 && |r.value.monthlyResults| == 5
  {
  }

  /** A term of zero reaches no final month. */
  lemma ScenarioZeroTerm()
    ensures Simulate(1000.0, 0, Compound) == Failure(NoFinalMonth(0))
  {
  }
}
