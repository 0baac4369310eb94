/** The month-by-month projection of the return engine. For months 1..term
    it produces one row per month, either by simple interest (profit always
    on the original capital) or by compound interest (profit on a running
    balance). The functions below define each row directly; the method
    `BuildMonthlyRows` performs the engine's own loop and is proved to
    produce exactly those rows. */
module Schedule {

  /** The benefit mode. The engine compares against "simple" only, so every
      other mode takes the compound branch; here the choice is closed. */
  datatype BenefitType = Simple | Compound

  /** One line of the projection. */
  datatype MonthRow = MonthRow(
    month: int,              // 1-based month number
    initialCapital: real,    // the basis this month's profit is earned on
    monthlyProfit: real,
    accumulatedProfit: real, // profit earned through this month
    totalAmount: real        // balance at the end of this month
  )

  function Pow(x: real, n: nat): real
  {
    if n == 0 then 1.0 else x * Pow(x, n - 1)
  }

  /** The running balance after `n` months of compound accrual: each month
      adds the current balance times the rate. */
  function Balance(capital: real, rate: real, n: nat): (b: real)
    ensures 0.0 <= capital && 0.0 <= rate ==> capital <= b
  {
    if n == 0 then capital
    else
      var prev := Balance(capital, rate, n - 1);
      prev + prev * rate
  }

  /** The simple-interest row for `month`: profit is always earned on the
      original capital, so it is the same every month. */
  function SimpleRow(capital: real, rate: real, month: int): MonthRow
  {
    var profit := capital * rate;
    MonthRow(month, capital, profit, profit * month as real, capital + profit * month as real)
  }

  /** The compound-interest row for `month`: profit on the balance left by
      the month before. */
  function CompoundRow(capital: real, rate: real, month: int): (r: MonthRow)
    requires month >= 1
    ensures r.month == month
    ensures r.initialCapital == Balance(capital, rate, month - 1)
    ensures r.totalAmount == Balance(capital, rate, month)
    ensures r.monthlyProfit == r.totalAmount - r.initialCapital
    ensures r.accumulatedProfit == r.totalAmount - capital
  {
    var before := Balance(capital, rate, month - 1);
    var after := Balance(capital, rate, month);
    MonthRow(month, before, before * rate, after - capital, after)
  }

  /** The row for `month` in the chosen mode: the simple branch keeps the
      original capital as basis, the compound branch the running balance. */
  function RowAt(capital: real, rate: real, benefit: BenefitType, month: int): (r: MonthRow)
    requires month >= 1
    ensures r.month == month
    ensures r.monthlyProfit == r.initialCapital * rate
    ensures r.totalAmount == capital + r.accumulatedProfit
    ensures benefit == Simple ==> r.initialCapital == capital
    ensures benefit == Compound ==> r.initialCapital == Balance(capital, rate, month - 1)
  {
    match benefit
    case Simple => SimpleRow(capital, rate, month)
    case Compound => CompoundRow(capital, rate, month)
  }

  /** The number of rows the loop `for month = 1 .. term` produces. */
  function RowCount(term: int): nat
  {
    if term < 1 then 0 else term
  }

  /** The projection: one row per month, in ascending month order with no
      gaps. A term below 1 yields no rows. */
  function MonthlyRows(capital: real, rate: real, benefit: BenefitType, term: int): (rows: seq<MonthRow>)
    ensures |rows| == RowCount(term)
    ensures forall i :: 0 <= i < |rows| ==> rows[i].month == i + 1
  {
    seq(RowCount(term), i requires 0 <= i => RowAt(capital, rate, benefit, i + 1))
  }

  /* ---------------------------------------------------------------------- */
  /* The engine's loop                                                       */
  /* ---------------------------------------------------------------------- */

  /** The engine's `for` loop over months 1..term. The running balance is
      advanced only in compound mode, and a compound row's basis is read back
      from the previously pushed row. */
  method BuildMonthlyRows(capital: real, rate: real, benefit: BenefitType, term: int)
    returns (rows: seq<MonthRow>)
    ensures rows == MonthlyRows(capital, rate, benefit, term)
  {
    var current := capital;
    rows := [];
    var month := 1;
    while month <= term
      invariant 1 <= month <= RowCount(term) + 1
      invariant |rows| == month - 1
      invariant forall i :: 0 <= i < |rows| ==> rows[i] == RowAt(capital, rate, benefit, i + 1)
      invariant benefit == Compound ==> current == Balance(capital, rate, month - 1)
      decreases term - month
    {
      if benefit == Simple {
        var profit := capital * rate;
        var accumulated := profit * month as real;
        var total := capital + accumulated;
        assert MonthRow(month, capital, profit, accumulated, total) == RowAt(capital, rate, benefit, month);
        rows := rows + [MonthRow(month, capital, profit, accumulated, total)];
      } else {
        var profit := current * rate;
        current := current + profit;
        var basis := if month == 1 then capital else rows[month - 2].totalAmount;
        assert basis == Balance(capital, rate, month - 1);
        assert current == Balance(capital, rate, month);
        rows := rows + [MonthRow(month, basis, profit, current - capital, current)];
      }
      month := month + 1;
    }
  }

  /* ---------------------------------------------------------------------- */
  /* Properties of the projection                                            */
  /* ---------------------------------------------------------------------- */

  /** In both modes a row's total is the original capital plus the profit
      accumulated so far. */
  lemma TotalIsCapitalPlusAccumulated(capital: real, rate: real, benefit: BenefitType, term: int)
    ensures var rows := MonthlyRows(capital, rate, benefit, term);
      forall i :: 0 <= i < |rows| ==> rows[i].totalAmount == capital + rows[i].accumulatedProfit
  {
  }

  /** Simple mode: every row is based on the original capital, the monthly
      profit is the same every month, and the total grows by that profit each
      month, reaching capital + capital*rate*month. */
  lemma SimpleRowsLinear(capital: real, rate: real, term: int)
    ensures var rows := MonthlyRows(capital, rate, Simple, term);
      && (forall i :: 0 <= i < |rows| ==>
            && rows[i].initialCapital == capital
            && rows[i].monthlyProfit == capital * rate
            && rows[i].accumulatedProfit == rows[i].monthlyProfit * rows[i].month as real
            && rows[i].totalAmount == capital + capital * rate * (i + 1) as real)
      && (forall i :: 0 < i < |rows| ==>
            rows[i].totalAmount == rows[i - 1].totalAmount + capital * rate)
  {
    var rows := MonthlyRows(capital, rate, Simple, term);
    forall i | 0 < i < |rows|
      ensures rows[i].totalAmount == rows[i - 1].totalAmount + capital * rate
    {
      SimpleRowStep(capital, rate, i);
    }
  }

  /** One more month of simple interest adds exactly capital * rate. */
  lemma SimpleRowStep(capital: real, rate: real, month: int)
    ensures SimpleRow(capital, rate, month + 1).totalAmount
         == SimpleRow(capital, rate, month).totalAmount + capital * rate
  {
    var profit := capital * rate;
    var k := month as real;
    assert (month + 1) as real == k + 1.0;
    assert profit * (k + 1.0) == profit * k + profit;
  }

  /** Compound mode: the first row is based on the original capital, every
      later row on the previous row's total, and each month's profit is its
      basis times the rate. */
  lemma CompoundRowsChain(capital: real, rate: real, term: int)
    ensures var rows := MonthlyRows(capital, rate, Compound, term);
      && (|rows| > 0 ==> rows[0].initialCapital == capital)
      && (forall i :: 0 < i < |rows| ==> rows[i].initialCapital == rows[i - 1].totalAmount)
      && (forall i :: 0 <= i < |rows| ==>
            && rows[i].monthlyProfit == rows[i].initialCapital * rate
            && rows[i].totalAmount == rows[i].initialCapital + rows[i].monthlyProfit
            && rows[i].accumulatedProfit == rows[i].totalAmount - capital)
  {
    var rows := MonthlyRows(capital, rate, Compound, term);
    forall i | 0 < i < |rows|
      ensures rows[i].initialCapital == rows[i - 1].totalAmount
    {
      assert rows[i] == CompoundRow(capital, rate, i + 1);
      assert rows[i - 1] == CompoundRow(capital, rate, i);
    }
  }

  /** Compound mode: each month's total is the previous total (the capital
      for month 1) times (1 + rate). */
  lemma CompoundRowsGrowth(capital: real, rate: real, term: int)
    ensures 0 < RowCount(term) ==>
      MonthlyRows(capital, rate, Compound, term)[0].totalAmount == capital * (1.0 + rate)
    ensures forall i :: 0 < i < RowCount(term) ==>
      MonthlyRows(capital, rate, Compound, term)[i].totalAmount
        == MonthlyRows(capital, rate, Compound, term)[i - 1].totalAmount * (1.0 + rate)
  {
    if 0 < RowCount(term) {
      CompoundRowsFirstGrowth(capital, rate, term);
    }
    forall i | 0 < i < RowCount(term) {
      CompoundRowsGrowthAt(capital, rate, term, i);
    }
  }

  /** The first compound month ends at capital * (1 + rate). */
  lemma CompoundRowsFirstGrowth(capital: real, rate: real, term: int)
    requires 0 < RowCount(term)
    ensures MonthlyRows(capital, rate, Compound, term)[0].totalAmount == capital * (1.0 + rate)
  {
    var rows := MonthlyRows(capital, rate, Compound, term);
    assert rows[0] == CompoundRow(capital, rate, 1);
    CompoundRowGrowth(capital, rate, 1);
  }

  /** Month i+1 of the compound projection ends at month i's total times
      (1 + rate). */
  lemma CompoundRowsGrowthAt(capital: real, rate: real, term: int, i: int)
    requires 0 < i < RowCount(term)
    ensures var rows := MonthlyRows(capital, rate, Compound, term);
      rows[i].totalAmount == rows[i - 1].totalAmount * (1.0 + rate)
  {
    var rows := MonthlyRows(capital, rate, Compound, term);
    var prev := rows[i - 1];
    var cur := rows[i];
    assert cur == CompoundRow(capital, rate, i + 1);
    assert prev == CompoundRow(capital, rate, i);
    CompoundRowGrowth(capital, rate, i + 1);
    assert cur.initialCapital == prev.totalAmount;
  }

  /** A compound month ends at its basis times (1 + rate). */
  lemma CompoundRowGrowth(capital: real, rate: real, month: int)
    requires month >= 1
    ensures var row := CompoundRow(capital, rate, month);
      row.totalAmount == row.initialCapital * (1.0 + rate)
  {
    var before := Balance(capital, rate, month - 1);
    ScaleByGrowth(before, Balance(capital, rate, month), rate);
  }

  /** Adding `prev * rate` to `prev` scales it by (1 + rate). */
  lemma ScaleByGrowth(prev: real, next: real, rate: real)
    requires next == prev + prev * rate
    ensures next == prev * (1.0 + rate)
  {
  }

  /** The balance after n months is capital * (1 + rate)^n. */
  lemma {:induction false} BalanceClosedForm(capital: real, rate: real, n: nat)
    ensures Balance(capital, rate, n) == capital * Pow(1.0 + rate, n)
  {
    if n > 0 {
      BalanceClosedForm(capital, rate, n - 1);
      GrowthStep(capital, rate, Pow(1.0 + rate, n - 1));
    }
  }

  lemma GrowthStep(c: real, r: real, q: real)
    ensures c * q + c * q * r == c * ((1.0 + r) * q)
  {
  }

  /** Compound mode: the total after month m is capital * (1 + rate)^m. */
  lemma CompoundTotalClosedForm(capital: real, rate: real, term: int)
    ensures var rows := MonthlyRows(capital, rate, Compound, term);
      forall i :: 0 <= i < |rows| ==> rows[i].totalAmount == capital * Pow(1.0 + rate, i + 1)
  {
    var rows := MonthlyRows(capital, rate, Compound, term);
    forall i | 0 <= i < |rows|
      ensures rows[i].totalAmount == capital * Pow(1.0 + rate, i + 1)
    {
      CompoundTotalClosedFormAt(capital, rate, term, i);
    }
  }

  /** Row i of the compound projection ends at capital * (1 + rate)^(i+1). */
  lemma CompoundTotalClosedFormAt(capital: real, rate: real, term: int, i: int)
    requires 0 <= i < RowCount(term)
    ensures MonthlyRows(capital, rate, Compound, term)[i].totalAmount == capital * Pow(1.0 + rate, i + 1)
  {
    var rows := MonthlyRows(capital, rate, Compound, term);
    assert rows[i] == CompoundRow(capital, rate, i + 1);
    BalanceClosedForm(capital, rate, i + 1);
  }

  /** With positive capital and rate the balance strictly grows. */
  lemma {:induction false} BalanceStrictlyIncreasing(capital: real, rate: real, m: nat, n: nat)
    requires 0.0 < capital && 0.0 < rate
    requires m < n
    ensures Balance(capital, rate, m) < Balance(capital, rate, n)
  {
    var prev := Balance(capital, rate, n - 1);
    assert 0.0 < prev * rate by {
      assert capital <= prev;
    }
    if m < n - 1 {
      BalanceStrictlyIncreasing(capital, rate, m, n - 1);
    }
  }

  /** Compound mode: with positive capital and rate, the total is strictly
      increasing from month to month. */
  lemma CompoundTotalStrictlyIncreasing(capital: real, rate: real, term: int)
    requires 0.0 < capital && 0.0 < rate
    ensures var rows := MonthlyRows(capital, rate, Compound, term);
      forall i, j :: 0 <= i < j < |rows| ==> rows[i].totalAmount < rows[j].totalAmount
  {
    var rows := MonthlyRows(capital, rate, Compound, term);
    forall i, j | 0 <= i < j < |rows|
      ensures rows[i].totalAmount < rows[j].totalAmount
    {
      BalanceStrictlyIncreasing(capital, rate, i + 1, j + 1);
    }
  }

  lemma ScaleLinear(c: real, r: real, k: real)
    ensures c * (1.0 + r * k) == c + c * r * k
  {
  }

  lemma MulMonotone(a: real, x: real, y: real)
    requires 0.0 <= a && x <= y
    ensures a * x <= a * y
  {
    assert a * y - a * x == a * (y - x);
  }

  lemma AddMonotone(a: real, b: real, c: real, d: real)
    requires a <= b && c <= d
    ensures a + c <= b + d
  {
  }

  lemma MulMonotoneRight(x: real, y: real, a: real)
    requires 0.0 <= a && x <= y
    ensures x * a <= y * a
  {
    assert y * a - x * a == (y - x) * a;
  }

  /** With non-negative capital and rate, simple interest never ends a month
      below the capital. */
  lemma {:induction false} SimpleTotalAtLeastCapital(capital: real, rate: real, m: nat)
    requires 0.0 <= capital && 0.0 <= rate
    ensures capital <= SimpleRow(capital, rate, m).totalAmount
  {
    if m > 0 {
      SimpleTotalAtLeastCapital(capital, rate, m - 1);
      SimpleRowStep(capital, rate, m - 1);
      MulMonotone(capital, 0.0, rate);
    }
  }

  /** Month by month, simple interest adds capital * rate while compound
      interest adds balance * rate, and the balance never falls below the
      capital. */
  lemma {:induction false} SimpleTotalAtMostBalance(capital: real, rate: real, m: nat)
    requires 0.0 <= capital && 0.0 <= rate
    ensures SimpleRow(capital, rate, m).totalAmount <= Balance(capital, rate, m)
  {
    if m > 0 {
      SimpleTotalAtMostBalance(capital, rate, m - 1);
      SimpleRowStep(capital, rate, m - 1);
      var prev := Balance(capital, rate, m - 1);
      MulMonotoneRight(capital, prev, rate);
      AddMonotone(SimpleRow(capital, rate, m - 1).totalAmount, prev, capital * rate, prev * rate);
    }
  }

  /** For non-negative capital and rate, compound interest never yields a
      lower total than simple interest in the same month. */
  lemma CompoundAtLeastSimple(capital: real, rate: real, term: int)
    requires 0.0 <= capital && 0.0 <= rate
    ensures var simple := MonthlyRows(capital, rate, Simple, term);
      var compound := MonthlyRows(capital, rate, Compound, term);
      forall i :: 0 <= i < |simple| ==> simple[i].totalAmount <= compound[i].totalAmount
  {
    var simple := MonthlyRows(capital, rate, Simple, term);
    var compound := MonthlyRows(capital, rate, Compound, term);
    forall i | 0 <= i < |simple|
      ensures simple[i].totalAmount <= compound[i].totalAmount
    {
      SimpleTotalAtMostBalance(capital, rate, i + 1);
    }
  }
}
