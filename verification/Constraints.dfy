/** The checks a CSV table must pass before it is loaded: required columns, minima, maxima. */
module Constraints {
  import opened Common

  datatype Column = Column(required: bool, numeric: bool, min: Option<real>, max: Option<real>)

  /** The values of one column; an empty field is None. */
  type Values = seq<Option<real>>

  datatype Verdict =
    | Accepted
    | NoRows
    | HasNulls(column: nat, count: nat)
    | TooLow(column: nat, count: nat)
    | TooHigh(column: nat, count: nat)

  // ----- counting -----

  function Nulls(values: Values): nat
    decreases |values|
  {
    if values == [] then 0
    else Nulls(values[..|values| - 1]) + if values[|values| - 1].None? then 1 else 0
  }

  // A comparison with an empty field is empty, and a sum passes over it.
  function Below(values: Values, min: real): nat
    decreases |values|
  {
    if values == [] then 0
    else
      var last := values[|values| - 1];
      Below(values[..|values| - 1], min) + if last.Some? && last.value < min then 1 else 0
  }

  function Above(values: Values, max: real): nat
    decreases |values|
  {
    if values == [] then 0
    else
      var last := values[|values| - 1];
      Above(values[..|values| - 1], max) + if last.Some? && last.value > max then 1 else 0
  }

  // ----- what a good column is -----

  predicate Filled(c: Column, values: Values) {
    c.required ==> forall v :: v in values ==> v.Some?
  }

  predicate HighEnough(c: Column, values: Values) {
    c.min.Some? && c.numeric ==> forall v :: v in values && v.Some? ==> v.value >= c.min.value
  }

  predicate LowEnough(c: Column, values: Values) {
    c.max.Some? && c.numeric ==> forall v :: v in values && v.Some? ==> v.value <= c.max.value
  }

  predicate Good(c: Column, values: Values) {
    Filled(c, values) && HighEnough(c, values) && LowEnough(c, values)
  }

  // The rows of a column that are empty, too low, too high.
  function NullRows(values: Values): set<int> {
    set i | 0 <= i < |values| && values[i] == None
  }

  function LowRows(values: Values, min: real): set<int> {
    set i | 0 <= i < |values| && values[i].Some? && values[i].value < min
  }

  function HighRows(values: Values, max: real): set<int> {
    set i | 0 <= i < |values| && values[i].Some? && max < values[i].value
  }

  lemma {:induction false} NullsCount(values: Values)
    ensures Nulls(values) == |NullRows(values)|
    decreases |values|
  {
    if values != [] {
      var n, init := |values| - 1, values[..|values| - 1];
      NullsCount(init);
      assert forall i :: 0 <= i < n ==> init[i] == values[i];
      assert NullRows(values) == NullRows(init) + if n in NullRows(values) then {n} else {};
    }
  }

  lemma {:induction false} BelowCount(values: Values, min: real)
    ensures Below(values, min) == |LowRows(values, min)|
    decreases |values|
  {
    if values != [] {
      var n, init := |values| - 1, values[..|values| - 1];
      BelowCount(init, min);
      assert forall i :: 0 <= i < n ==> init[i] == values[i];
      assert LowRows(values, min) == LowRows(init, min) + if n in LowRows(values, min) then {n} else {};
    }
  }

  lemma {:induction false} AboveCount(values: Values, max: real)
    ensures Above(values, max) == |HighRows(values, max)|
    decreases |values|
  {
    if values != [] {
      var n, init := |values| - 1, values[..|values| - 1];
      AboveCount(init, max);
      assert forall i :: 0 <= i < n ==> init[i] == values[i];
      assert HighRows(values, max) == HighRows(init, max) + if n in HighRows(values, max) then {n} else {};
    }
  }

  lemma {:induction false} NoNullsIff(values: Values)
    ensures Nulls(values) == 0 <==> forall v :: v in values ==> v.Some?
    decreases |values|
  {
    if values != [] {
      var init, last := values[..|values| - 1], values[|values| - 1];
      NoNullsIff(init);
      assert last in values && forall v :: v in values <==> v == last || v in init;
    }
  }

  lemma {:induction false} NoneBelowIff(values: Values, min: real)
    ensures Below(values, min) == 0 <==> forall v :: v in values && v.Some? ==> v.value >= min
    decreases |values|
  {
    if values != [] {
      var init, last := values[..|values| - 1], values[|values| - 1];
      NoneBelowIff(init, min);
      assert last in values && forall v :: v in values <==> v == last || v in init;
    }
  }

  lemma {:induction false} NoneAboveIff(values: Values, max: real)
    ensures Above(values, max) == 0 <==> forall v :: v in values && v.Some? ==> v.value <= max
    decreases |values|
  {
    if values != [] {
      var init, last := values[..|values| - 1], values[|values| - 1];
      NoneAboveIff(init, max);
      assert last in values && forall v :: v in values <==> v == last || v in init;
    }
  }

  /** A table is accepted exactly when it has rows and every column is good. Otherwise the
      first bad column is reported, nulls before minima before maxima, with the number of
      rows in which its value is bad. */
  method ValidateConstraints(rows: nat, columns: seq<Column>, data: seq<Values>) returns (verdict: Verdict)
    requires |data| == |columns| && forall values :: values in data ==> |values| == rows
    ensures verdict.Accepted? <==> rows > 0 && forall i :: 0 <= i < |columns| ==> Good(columns[i], data[i])
    ensures verdict.NoRows? <==> rows == 0
    ensures verdict.HasNulls? || verdict.TooLow? || verdict.TooHigh? ==>
      && verdict.column < |columns|
      && (forall i :: 0 <= i < verdict.column ==> Good(columns[i], data[i]))
    ensures verdict.HasNulls? ==>
      columns[verdict.column].required && verdict.count == |NullRows(data[verdict.column])| > 0
    ensures verdict.TooLow? ==>
      var c := columns[verdict.column];
      && Filled(c, data[verdict.column])
      && c.numeric && c.min.Some? && verdict.count == |LowRows(data[verdict.column], c.min.value)| > 0
    ensures verdict.TooHigh? ==>
      var c := columns[verdict.column];
      && Filled(c, data[verdict.column]) && HighEnough(c, data[verdict.column])
      && c.numeric && c.max.Some? && verdict.count == |HighRows(data[verdict.column], c.max.value)| > 0
  {
    if rows == 0 {
      return NoRows;
    }
    for i := 0 to |columns|
      invariant forall k :: 0 <= k < i ==> Good(columns[k], data[k])
    {
      var c, values := columns[i], data[i];
      if c.required {
        NoNullsIff(values);
        NullsCount(values);
        var nulls := Nulls(values);
        if nulls > 0 {
          return HasNulls(i, nulls);
        }
      }
      if c.min.Some? && c.numeric {
        NoneBelowIff(values, c.min.value);
        BelowCount(values, c.min.value);
        var below := Below(values, c.min.value);
        if below > 0 {
          return TooLow(i, below);
        }
      }
      if c.max.Some? && c.numeric {
        NoneAboveIff(values, c.max.value);
        AboveCount(values, c.max.value);
        var above := Above(values, c.max.value);
        if above > 0 {
          return TooHigh(i, above);
        }
      }
      assert Good(c, values);
    }
    verdict := Accepted;
  }
}
