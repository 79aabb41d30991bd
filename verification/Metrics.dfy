/** Performance metrics of a list of portfolio values. */
module Metrics {
  import opened Common
  import opened Decimals

  /** Returns and drawdowns in units of 1e-8. */
  type Ratio = int

  datatype MetricRow = MetricRow(totalReturn: Ratio, profitLoss: Money, trades: nat, maxDrawdown: Ratio)

  /** The rounded drop from a positive peak to a later value. */
  function Drop(peak: Money, value: Money): Ratio
    requires peak > 0
  {
    ToTick8(Div(Dollars(value - peak), Dollars(peak)))
  }

  function Peak(values: seq<Money>): Option<Money> {
    if values == [] then None
    else
      var before, last := Peak(values[..|values| - 1]), values[|values| - 1];
      if before.None? || last > before.value then Some(last) else before
  }

  function Drawdown(values: seq<Money>): Ratio {
    if values == [] then 0
    else
      var before, last, peak := Drawdown(values[..|values| - 1]), values[|values| - 1], Peak(values).GetOr(0);
      if peak > 0 && Drop(peak, last) < before then Drop(peak, last) else before
  }

  /** The one pass over the values, keeping a running peak. */
  method MaxDrawdown(values: seq<Money>) returns (worst: Ratio)
    ensures worst == Drawdown(values)
    ensures (forall i :: 0 <= i < |values| ==> values[i] >= 0) ==> WorstDrop(worst, values)
  {
    var peak: Option<Money> := None;
    worst := 0;
    for n := 0 to |values|
      invariant peak == Peak(values[..n])
      invariant worst == Drawdown(values[..n])
    {
      assert values[..n + 1][..n] == values[..n];
      var value := values[n];
      if peak.None? || value > peak.value {
        peak := Some(value);
      }
      if peak.value > 0 {
        var drawdown := Drop(peak.value, value);
        if drawdown < worst {
          worst := drawdown;
        }
      }
    }
    assert values[..|values|] == values;
    if forall i :: 0 <= i < |values| ==> values[i] >= 0 {
      DrawdownIsWorstDrop(values);
    }
  }

  /** The quadratic reading: the worst rounded drop between any two positions, or 0. */
  ghost predicate WorstDrop(worst: Ratio, values: seq<Money>) {
    && -100000000 <= worst <= 0
    && (forall i, j :: 0 <= i <= j < |values| && values[i] > 0 ==> worst <= Drop(values[i], values[j]))
    && (worst == 0 || exists i, j :: 0 <= i <= j < |values| && values[i] > 0 && worst == Drop(values[i], values[j]))
  }

  /** The drop is the relative change from the peak, to within its two roundings. */
  lemma DropIsNear(peak: Money, value: Money)
    requires peak > 0
    ensures NearTicks(Drop(peak, value), Dollars(value - peak) / Dollars(peak))
  {
    TicksNear(Dollars(value - peak) / Dollars(peak));
    hide Sig28;
  }

  lemma QuotientLessOne(v: real, b: real)
    requires b > 0.0
    ensures (v - b) / b == v / b - 1.0
  {
    var p, q := (v - b) / b, v / b;
    assert p * b == v - b && q * b == v;
    Distribute(q, 1.0, b);
    SameProduct(p, q - 1.0, b);
  }

  lemma QuotientOrder(a: real, b: real, v: real)
    requires 0.0 < a <= b && v >= 0.0
    ensures -1.0 <= (v - b) / b <= (v - a) / a
  {
    var x := v / b;
    assert x * b == v && x >= 0.0;
    ScaleMonotone(a, b, x);
    DivideMonotone(x * a, v, a);
    assert (x * a) / a == x;
    QuotientLessOne(v, a);
    QuotientLessOne(v, b);
  }

  /** A higher peak makes the drop to the same value no smaller, even after both roundings. */
  lemma DropMonotone(low: Money, high: Money, value: Money)
    requires 0 < low <= high && value >= 0
    ensures -100000000 <= Drop(high, value) <= Drop(low, value)
  {
    var a, b, v := Dollars(low), Dollars(high), Dollars(value);
    QuotientOrder(a, b, v);
    var x, y := Dollars(value - high) / b, Dollars(value - low) / a;
    assert Dollars(value - high) == v - b && Dollars(value - low) == v - a;
    SigMonotone(x, y);
    SigMonotone(-1.0, x);
    assert Pow10(0) == 1;
    SigExact(-1.0, 0, -1);
    RoundMonotone(Sig28(x) * 100000000.0, Sig28(y) * 100000000.0);
    RoundMonotone(-1.0 * 100000000.0, Sig28(x) * 100000000.0);
    RoundExact(-100000000);
  }

  lemma {:induction false} PeakIsMax(values: seq<Money>)
    requires values != []
    ensures Peak(values).Some? && Peak(values).value in values
    ensures forall i :: 0 <= i < |values| ==> values[i] <= Peak(values).value
  {
    if |values| > 1 {
      PeakIsMax(values[..|values| - 1]);
    }
  }

  lemma {:induction false} DrawdownBelowDrops(values: seq<Money>)
    requires forall i :: 0 <= i < |values| ==> values[i] >= 0
    ensures forall i, j :: 0 <= i <= j < |values| && values[i] > 0 ==> Drawdown(values) <= Drop(values[i], values[j])
  {
    if values != [] {
      var k := |values| - 1;
      var prefix := values[..k];
      DrawdownBelowDrops(prefix);
      forall i, j | 0 <= i <= j < |values| && values[i] > 0 ensures Drawdown(values) <= Drop(values[i], values[j]) {
        if j < k {
          assert prefix[i] == values[i] && prefix[j] == values[j];
        } else {
          PeakIsMax(values);
          DropMonotone(values[i], Peak(values).value, values[k]);
        }
      }
    }
  }

  lemma {:induction false} DrawdownAttained(values: seq<Money>)
    requires forall i :: 0 <= i < |values| ==> values[i] >= 0
    ensures -100000000 <= Drawdown(values) <= 0
    ensures Drawdown(values) == 0 ||
      exists i, j :: 0 <= i <= j < |values| && values[i] > 0 && Drawdown(values) == Drop(values[i], values[j])
  {
    if values != [] {
      var k := |values| - 1;
      var prefix := values[..k];
      DrawdownAttained(prefix);
      PeakIsMax(values);
      var peak := Peak(values).value;
      if peak > 0 && Drop(peak, values[k]) < Drawdown(prefix) {
        DropMonotone(peak, peak, values[k]);
        var p :| 0 <= p < |values| && values[p] == peak;
        assert Drawdown(values) == Drop(values[p], values[k]);
      } else if Drawdown(prefix) != 0 {
        var i, j :| 0 <= i <= j < k && prefix[i] > 0 && Drawdown(prefix) == Drop(prefix[i], prefix[j]);
        assert Drawdown(values) == Drop(values[i], values[j]);
      }
    }
  }

  lemma DrawdownIsWorstDrop(values: seq<Money>)
    requires forall i :: 0 <= i < |values| ==> values[i] >= 0
    ensures WorstDrop(Drawdown(values), values)
  {
    DrawdownBelowDrops(values);
    DrawdownAttained(values);
  }

  /** Appending a value never improves the recorded drawdown. */
  lemma DrawdownNeverImproves(values: seq<Money>, value: Money)
    ensures Drawdown(values + [value]) <= Drawdown(values)
  {
    assert (values + [value])[..|values|] == values;
  }

  /** Total returns are ordered as values are: 0 at the capital, -1 when all is lost. */
  lemma ReturnOrder(capital: Money, value: Money, larger: Money, previous: seq<Money>, trades: nat)
    requires capital > 0 && value <= larger
    ensures Calculate(capital, value, previous, trades).totalReturn
         <= Calculate(capital, larger, previous, trades).totalReturn
    ensures Calculate(capital, capital, previous, trades).totalReturn == 0
    ensures Calculate(capital, 0, previous, trades).totalReturn == -100000000
  {
    var a, b, c := Dollars(value - capital), Dollars(larger - capital), Dollars(capital);
    DivideMonotone(a, b, c);
    SigMonotone(a / c, b / c);
    RoundMonotone(Sig28(a / c) * 100000000.0, Sig28(b / c) * 100000000.0);
    assert Dollars(capital - capital) / c == 0.0;
    assert Dollars(0 - capital) / c == -1.0;
    assert Pow10(0) == 1;
    SigExact(-1.0, 0, -1);
    RoundExact(0);
    RoundExact(-100000000);
  }

  /** What the calculator records: profit, return, trades and the worst drop over all values, the last one included. */
  lemma CalculatesExactly(capital: Money, value: Money, previous: seq<Money>, trades: nat)
    requires capital > 0
    ensures var row := Calculate(capital, value, previous, trades);
      && row.profitLoss == value - capital && row.trades == trades
      && NearTicks(row.totalReturn, Dollars(value - capital) / Dollars(capital))
      && ((forall i :: 0 <= i < |previous| ==> previous[i] >= 0) && value >= 0 ==>
            WorstDrop(row.maxDrawdown, previous + [value]))
  {
    TicksNear(Dollars(value - capital) / Dollars(capital));
    if (forall i :: 0 <= i < |previous| ==> previous[i] >= 0) && value >= 0 {
      DrawdownIsWorstDrop(previous + [value]);
    }
    hide Sig28;
    hide Drawdown;
    hide WorstDrop;
    hide NearTicks;
  }

  function Calculate(initialCapital: Money, value: Money, previous: seq<Money>, trades: nat): MetricRow
    requires initialCapital > 0
  {
    var profitLoss := value - initialCapital;
    MetricRow(
      ToTick8(Div(Dollars(profitLoss), Dollars(initialCapital))),
      profitLoss, trades, Drawdown(previous + [value]))
  }
}
