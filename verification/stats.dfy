/** The statistics a data view shows under its formulas, and the column keys its editor offers.
    Values are read with JavaScript's `Number` conversion; a row that is `null` or `undefined`
    makes the property read throw, which the model reports as `None`. */
module Statistics {
  import opened Wrappers
  import opened Schema
  import opened JsValues

  /** The number a row contributes under `key`, if any (`Number(item[key])` when not NaN). */
  function RowNumber(row: Value, key: string): Option<int>
    requires !Throws(row)
  {
    ToNumber(Property(row, key).value)
  }

  /** `data.map(item => Number(item[key])).filter(val => !isNaN(val))`. */
  function NumericValues(data: seq<Value>, key: string): (r: Option<seq<int>>)
    ensures r.None? <==> exists i :: 0 <= i < |data| && Throws(data[i])
    ensures r.Some? ==> |r.value| <= |data|
    ensures r.Some? ==> forall v :: v in r.value <==>
              exists i :: 0 <= i < |data| && RowNumber(data[i], key) == Some(v)
  {
    if data == [] then Some([])
    else if Throws(data[0]) then None
    else
      var rest := NumericValues(data[1..], key);
      assert forall i :: 0 < i < |data| ==> data[i] == data[1..][i - 1];
      if rest.None? then None
      else
        var here := RowNumber(data[0], key);
        if here.Some? then Some([here.value] + rest.value) else rest
  }

  /** Appending a row: a row that cannot be read makes the whole read throw; otherwise its
      number, when it has one, is appended after the numbers of the rows before it. */
  lemma {:induction false} NumericValuesSnoc(data: seq<Value>, d: Value, key: string)
    ensures Throws(d) ==> NumericValues(data + [d], key).None?
    ensures !Throws(d) ==>
              var before := NumericValues(data, key);
              var n := RowNumber(d, key);
              NumericValues(data + [d], key) ==
                if before.None? then None else Some(before.value + if n.Some? then [n.value] else [])
    decreases |data|
  {
    assert (data + [d])[|data|] == d;
    if data == [] {
      assert data + [d] == [d];
      assert [d][1..] == [];
      assert NumericValues([], key) == Some([]);
      if !Throws(d) {
        assert [d][0] == d;
        if RowNumber(d, key).Some? {
          var n := RowNumber(d, key).value;
          assert NumericValues([d], key) == Some([n] + []);
          assert [n] + [] == [n] == [] + [n];
        } else {
          assert NumericValues([d], key) == Some([]);
          var empty: seq<int> := [];
          assert empty + [] == empty;
        }
      }
    } else {
      assert (data + [d])[0] == data[0];
      assert (data + [d])[1..] == data[1..] + [d];
      NumericValuesSnoc(data[1..], d, key);
      if !Throws(d) && !Throws(data[0]) && NumericValues(data[1..], key).Some? {
        var rest := NumericValues(data[1..], key).value;
        var tail := if RowNumber(d, key).Some? then [RowNumber(d, key).value] else [];
        if RowNumber(data[0], key).Some? {
          var h := RowNumber(data[0], key).value;
          assert [h] + (rest + tail) == ([h] + rest) + tail;
        }
      }
    }
  }

  function SumOf(vs: seq<int>): int {
    if vs == [] then 0 else vs[0] + SumOf(vs[1..])
  }

  function SumOfSquares(vs: seq<int>): int {
    if vs == [] then 0 else vs[0] * vs[0] + SumOfSquares(vs[1..])
  }

  /** `Math.min(...vs)`: a member of the list no greater than any member. */
  function MinOf(vs: seq<int>): (m: int)
    requires vs != []
    ensures m in vs && forall v :: v in vs ==> m <= v
  {
    if |vs| == 1 then vs[0]
    else
      var rest := MinOf(vs[1..]);
      assert forall v :: v in vs ==> v == vs[0] || v in vs[1..];
      if vs[0] <= rest then vs[0] else rest
  }

  /** `Math.max(...vs)`: a member of the list no smaller than any member. */
  function MaxOf(vs: seq<int>): (m: int)
    requires vs != []
    ensures m in vs && forall v :: v in vs ==> v <= m
  {
    if |vs| == 1 then vs[0]
    else
      var rest := MaxOf(vs[1..]);
      assert forall v :: v in vs ==> v == vs[0] || v in vs[1..];
      if vs[0] >= rest then vs[0] else rest
  }

  /** A statistic: an integer, or an exact quotient for the average and the variance. */
  datatype Stat = Whole(n: int) | Ratio(num: int, den: nat)

  /** The switch of `calculateStats` over a non-empty list of numbers. The average is `sum / n`
      and the variance is `(n * sum of squares - sum * sum) / (n * n)`, the population variance
      written over a common denominator. */
  function StatOf(vs: seq<int>, kind: string): Stat
    requires vs != []
  {
    var n := |vs|;
    if kind == "sum" then Whole(SumOf(vs))
    else if kind == "average" then Ratio(SumOf(vs), n)
    else if kind == "min" then Whole(MinOf(vs))
    else if kind == "max" then Whole(MaxOf(vs))
    else if kind == "variance" then Ratio(n * SumOfSquares(vs) - SumOf(vs) * SumOf(vs), n * n)
    else Whole(0)
  }

  /** `calculateStats(data, key, type)`: 0 for no rows or no numeric value, the statistic of
      the numeric values otherwise. `None` is the throw on a `null` or `undefined` row. */
  function CalculateStats(data: seq<Value>, key: string, kind: string): Option<Stat> {
    if |data| == 0 then Some(Whole(0))
    else
      var values := NumericValues(data, key);
      if values.None? then None
      else if |values.value| == 0 then Some(Whole(0))
      else Some(StatOf(values.value, kind))
  }

  /** The type tag a formula kind is stored under. */
  function KindTag(k: FormulaKind): string {
    match k
    case Average => "average"
    case Sum => "sum"
    case Variance => "variance"
    case Min => "min"
    case Max => "max"
  }

  /** Every value is at least `lo`, so the sum is at least `n * lo`. */
  lemma {:induction false} SumAtLeast(vs: seq<int>, lo: int)
    requires forall v :: v in vs ==> lo <= v
    ensures |vs| * lo <= SumOf(vs)
  {
    if vs != [] {
      assert vs[0] in vs;
      assert forall v :: v in vs[1..] ==> v in vs;
      SumAtLeast(vs[1..], lo);
      assert |vs| * lo == lo + |vs[1..]| * lo;
    }
  }

  /** Every value is at most `hi`, so the sum is at most `n * hi`. */
  lemma {:induction false} SumAtMost(vs: seq<int>, hi: int)
    requires forall v :: v in vs ==> v <= hi
    ensures SumOf(vs) <= |vs| * hi
  {
    if vs != [] {
      assert vs[0] in vs;
      assert forall v :: v in vs[1..] ==> v in vs;
      SumAtMost(vs[1..], hi);
      assert |vs| * hi == hi + |vs[1..]| * hi;
    }
  }

  /** The sum lies between `n` times the minimum and `n` times the maximum, so the average lies
      between the minimum and the maximum. */
  lemma SumBetween(vs: seq<int>)
    requires vs != []
    ensures |vs| * MinOf(vs) <= SumOf(vs) <= |vs| * MaxOf(vs)
  {
    SumAtLeast(vs, MinOf(vs));
    SumAtMost(vs, MaxOf(vs));
  }

  /** `sum of (v - x)^2 == sum of squares - 2 x sum + n x^2`, written without division. */
  lemma {:induction false} SquaredDistances(vs: seq<int>, x: int)
    ensures SumOfSquares(vs) - 2 * x * SumOf(vs) + |vs| * x * x >= 0
  {
    if vs != [] {
      SquaredDistances(vs[1..], x);
      var d := vs[0] - x;
      assert d * d >= 0;
      assert vs[0] * vs[0] - 2 * x * vs[0] + x * x == d * d;
    }
  }

  /** `n * sum of squares >= sum * sum`: the variance is never negative. */
  lemma {:induction false} VarianceNonNegative(vs: seq<int>)
    ensures |vs| * SumOfSquares(vs) - SumOf(vs) * SumOf(vs) >= 0
  {
    if vs != [] {
      var rest := vs[1..];
      var x := vs[0];
      var n := |rest|;
      var s := SumOf(rest);
      var q := SumOfSquares(rest);
      VarianceNonNegative(rest);
      SquaredDistances(rest, x);
      assert |vs| * SumOfSquares(vs) - SumOf(vs) * SumOf(vs)
             == (n * q - s * s) + (q - 2 * x * s + n * x * x);
    }
  }

  /** The statistic of a non-empty list of numbers, kind by kind. */
  lemma StatRules(vs: seq<int>, kind: string)
    requires vs != []
    ensures var r := StatOf(vs, kind);
            (kind == "sum" ==> r == Whole(SumOf(vs)))
            && (kind == "min" ==> r.Whole? && r.n in vs && forall v :: v in vs ==> r.n <= v)
            && (kind == "max" ==> r.Whole? && r.n in vs && forall v :: v in vs ==> v <= r.n)
            && (kind == "average" ==> r.Ratio? && r.den == |vs| > 0
                                       && r.den * MinOf(vs) <= r.num <= r.den * MaxOf(vs))
            && (kind == "variance" ==> r.Ratio? && r.den > 0 && r.num >= 0)
            && (kind !in {"sum", "average", "min", "max", "variance"} ==> r == Whole(0))
  {
    SumBetween(vs);
    VarianceNonNegative(vs);
    assert |vs| * |vs| > 0;
  }

  /** When `calculateStats` answers 0 and when it throws. */
  lemma StatsEdgeCases(data: seq<Value>, key: string, kind: string)
    ensures |data| == 0 ==> CalculateStats(data, key, kind) == Some(Whole(0))
    ensures |data| > 0 ==>
              (CalculateStats(data, key, kind).None? <==> exists i :: 0 <= i < |data| && Throws(data[i]))
    ensures NumericValues(data, key) == Some([]) ==> CalculateStats(data, key, kind) == Some(Whole(0))
    ensures |data| > 0 && NumericValues(data, key).Some? && NumericValues(data, key).value != [] ==>
              CalculateStats(data, key, kind) == Some(StatOf(NumericValues(data, key).value, kind))
  {
  }

  /** `getKeysFromData(data)`. */
  function KeysFromData(data: seq<Value>): Option<seq<string>> {
    if |data| == 0 then Some([]) else KeysOf(data[0])
  }

  /** No keys for no data; otherwise the keys of the first record and of no other. */
  lemma KeysFromFirstRecord(first: Value, rest: seq<Value>, other: seq<Value>)
    ensures KeysFromData([]) == Some([])
    ensures KeysFromData([first] + rest) == KeysFromData([first] + other)
    ensures first.Obj? ==> KeysFromData([first] + rest) == Some(FieldKeys(first.fields))
  {
  }
}
