/*
 * The experiment loop of the forecast script: every experiment sums one
 * triangular pick per row of (low, high) bounds, and the script collects
 * `experiment_count` such outcomes.  The random draws are injected as a
 * table with one row of draws per experiment and one draw per bound row.
 */
module Experiment {
  import opened Triangular

  /** One row of the estimate table: the low and the high bound of a work item. */
  datatype Bound = Bound(low: real, high: real)

  /** The mode the script hard-codes when it builds its strategy. */
  const ForecastMode: real := 0.6

  /** Every row has its low bound at or below its high bound. */
  predicate ValidRows(rows: seq<Bound>) {
    forall j :: 0 <= j < |rows| ==> rows[j].low <= rows[j].high
  }

  /** Every draw is one the random generator can return. */
  predicate ValidDraws(draws: seq<real>) {
    forall j :: 0 <= j < |draws| ==> ValidDraw(draws[j])
  }

  /** Python's `sum`: start at 0 and add the items from left to right. */
  function Sum(xs: seq<real>): (s: real)
    ensures xs == [] ==> s == 0.0
    ensures |xs| == 1 ==> s == xs[0]
  {
    if xs == [] then 0.0 else Sum(xs[..|xs| - 1]) + xs[|xs| - 1]
  }

  /** The low bounds of the rows, in order. */
  function Lows(rows: seq<Bound>): seq<real> {
    seq(|rows|, j requires 0 <= j < |rows| => rows[j].low)
  }

  /** The high bounds of the rows, in order. */
  function Highs(rows: seq<Bound>): seq<real> {
    seq(|rows|, j requires 0 <= j < |rows| => rows[j].high)
  }

  /** The inner list of one experiment: one pick per row, row `j` using draw `j`. */
  function Picks(d: TriangularDistribution, rows: seq<Bound>, draws: seq<real>): (picks: seq<real>)
    requires |draws| == |rows|
    ensures |picks| == |rows|
  {
    seq(|rows|, j requires 0 <= j < |rows| => Pick(d, draws[j], rows[j].low, rows[j].high))
  }

  /** One outcome: the sum of the picks of one experiment. */
  function Outcome(d: TriangularDistribution, rows: seq<Bound>, draws: seq<real>): (outcome: real)
    requires |draws| == |rows|
    ensures rows == [] ==> outcome == 0.0
    ensures |rows| == 1 ==> outcome == Pick(d, draws[0], rows[0].low, rows[0].high)
  {
    Sum(Picks(d, rows, draws))
  }

  /** The number of iterations of `range(count)`: none when `count` is not positive. */
  function Iterations(count: int): nat {
    if count < 0 then 0 else count
  }

  /** The draw table supplies a full row of draws for every iteration. */
  predicate TableFits(rows: seq<Bound>, count: int, table: seq<seq<real>>) {
    && Iterations(count) <= |table|
    && forall i :: 0 <= i < Iterations(count) ==> |table[i]| == |rows|
  }

  /** Every draw the iterations use is one the random generator can return. */
  predicate ValidTable(count: int, table: seq<seq<real>>)
    requires Iterations(count) <= |table|
  {
    forall i :: 0 <= i < Iterations(count) ==> ValidDraws(table[i])
  }

  /** The outcome list: experiment `i` uses row `i` of the draw table. */
  function Outcomes(d: TriangularDistribution, rows: seq<Bound>, count: int, table: seq<seq<real>>): (outcomes: seq<real>)
    requires TableFits(rows, count, table)
    ensures |outcomes| == Iterations(count)
    ensures count >= 0 ==> |outcomes| == count
  {
    seq(Iterations(count), i requires 0 <= i < Iterations(count) => Outcome(d, rows, table[i]))
  }

  /** The outcome list of the script, whose strategy has mode 0.6. */
  function Forecast(rows: seq<Bound>, count: int, table: seq<seq<real>>): (outcomes: seq<real>)
    requires TableFits(rows, count, table)
    ensures |outcomes| == Iterations(count)
    ensures rows == [] ==> forall i :: 0 <= i < |outcomes| ==> outcomes[i] == 0.0
  {
    Outcomes(TriangularDistribution(ForecastMode), rows, count, table)
  }

  /** `Sum` adds the items of a concatenation part by part. */
  lemma {:induction false} SumAppend(a: seq<real>, b: seq<real>)
    ensures Sum(a + b) == Sum(a) + Sum(b)
    decreases |b|
  {
    if b == [] {
      assert a + b == a;
    } else {
      var n := |b| - 1;
      assert (a + b)[..|a + b| - 1] == a + b[..n];
      SumAppend(a, b[..n]);
    }
  }

  /** `Sum` is monotone in each item. */
  lemma {:induction false} SumMonotone(a: seq<real>, b: seq<real>)
    requires |a| == |b|
    requires forall j :: 0 <= j < |a| ==> a[j] <= b[j]
    ensures Sum(a) <= Sum(b)
    decreases |a|
  {
    if a != [] {
      var n := |a| - 1;
      SumMonotone(a[..n], b[..n]);
    }
  }

  /** Each outcome lies between the sum of the low bounds and the sum of the high bounds. */
  lemma OutcomeBounds(d: TriangularDistribution, rows: seq<Bound>, draws: seq<real>)
    requires ValidMode(d.mode) && ValidRows(rows) && ValidDraws(draws) && |draws| == |rows|
    ensures Sum(Lows(rows)) <= Outcome(d, rows, draws) <= Sum(Highs(rows))
  {
    var picks := Picks(d, rows, draws);
    forall j | 0 <= j < |rows|
      ensures Lows(rows)[j] <= picks[j] <= Highs(rows)[j]
    {
      PickInRange(d, draws[j], rows[j].low, rows[j].high);
    }
    SumMonotone(Lows(rows), picks);
    SumMonotone(picks, Highs(rows));
  }

  /** Every outcome of the list lies between the two bound sums. */
  lemma OutcomesBounds(d: TriangularDistribution, rows: seq<Bound>, count: int, table: seq<seq<real>>)
    requires ValidMode(d.mode) && ValidRows(rows)
    requires TableFits(rows, count, table) && ValidTable(count, table)
    ensures forall i :: 0 <= i < Iterations(count) ==>
      Sum(Lows(rows)) <= Outcomes(d, rows, count, table)[i] <= Sum(Highs(rows))
  {
    forall i | 0 <= i < Iterations(count)
      ensures Sum(Lows(rows)) <= Outcomes(d, rows, count, table)[i] <= Sum(Highs(rows))
    {
      OutcomeBounds(d, rows, table[i]);
    }
  }

  /** The script's own outcomes lie between the two bound sums, one per iteration. */
  lemma ForecastBounds(rows: seq<Bound>, count: int, table: seq<seq<real>>)
    requires ValidRows(rows) && TableFits(rows, count, table) && ValidTable(count, table)
    ensures |Forecast(rows, count, table)| == Iterations(count)
    ensures forall i :: 0 <= i < Iterations(count) ==>
      Sum(Lows(rows)) <= Forecast(rows, count, table)[i] <= Sum(Highs(rows))
  {
    OutcomesBounds(TriangularDistribution(ForecastMode), rows, count, table);
  }

  /** With no rows, every experiment sums an empty list, so every outcome is 0. */
  lemma EmptyRowsZero(d: TriangularDistribution, count: int, table: seq<seq<real>>)
    requires TableFits([], count, table)
    ensures forall i :: 0 <= i < Iterations(count) ==> Outcomes(d, [], count, table)[i] == 0.0
  {
    forall i | 0 <= i < Iterations(count)
      ensures Outcomes(d, [], count, table)[i] == 0.0
    {
      assert Picks(d, [], table[i]) == [];
    }
  }

  /** When every row has equal bounds, every outcome is exactly the sum of the low bounds, whatever the draws. */
  lemma DegenerateRowsExact(d: TriangularDistribution, rows: seq<Bound>, draws: seq<real>)
    requires |draws| == |rows|
    requires forall j :: 0 <= j < |rows| ==> rows[j].low == rows[j].high
    ensures Outcome(d, rows, draws) == Sum(Lows(rows))
  {
    forall j | 0 <= j < |rows|
      ensures Picks(d, rows, draws)[j] == Lows(rows)[j]
    {
      PickDegenerate(d, draws[j], rows[j].low);
    }
    assert Picks(d, rows, draws) == Lows(rows);
  }

  /** Splitting the rows (and their draws) into two parts splits the outcome into the two partial sums. */
  lemma OutcomeSplit(d: TriangularDistribution, rows1: seq<Bound>, draws1: seq<real>, rows2: seq<Bound>, draws2: seq<real>)
    requires |draws1| == |rows1| && |draws2| == |rows2|
    ensures Outcome(d, rows1 + rows2, draws1 + draws2) == Outcome(d, rows1, draws1) + Outcome(d, rows2, draws2)
  {
    assert Picks(d, rows1 + rows2, draws1 + draws2) == Picks(d, rows1, draws1) + Picks(d, rows2, draws2);
    SumAppend(Picks(d, rows1, draws1), Picks(d, rows2, draws2));
  }

  /** Larger draws, row by row, give a larger outcome. */
  lemma OutcomeMonotone(d: TriangularDistribution, rows: seq<Bound>, draws1: seq<real>, draws2: seq<real>)
    requires ValidMode(d.mode) && ValidRows(rows) && ValidDraws(draws1) && ValidDraws(draws2)
    requires |draws1| == |rows| && |draws2| == |rows|
    requires forall j :: 0 <= j < |rows| ==> draws1[j] <= draws2[j]
    ensures Outcome(d, rows, draws1) <= Outcome(d, rows, draws2)
  {
    forall j | 0 <= j < |rows|
      ensures Picks(d, rows, draws1)[j] <= Picks(d, rows, draws2)[j]
    {
      if rows[j].low < rows[j].high && draws1[j] < draws2[j] {
        PickStrictlyIncreasing(d, draws1[j], draws2[j], rows[j].low, rows[j].high);
      } else if rows[j].low == rows[j].high {
        PickDegenerate(d, draws1[j], rows[j].low);
        PickDegenerate(d, draws2[j], rows[j].low);
      }
    }
    SumMonotone(Picks(d, rows, draws1), Picks(d, rows, draws2));
  }
}
