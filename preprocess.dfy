/**
  The preprocessing script: it reads the raw heart-disease records (13 features and a
  target, header-less, "?" for an unknown value), turns every cell into a number or a
  missing value, fills each column's missing cells with that column's median and
  reduces the target to presence (1) or absence (0) of disease.

  The frame is a two-dimensional array of rows by the 14 columns and is changed in
  place, step by step; the pure functions below state what each step produces.
 */
module Preprocess {
  import opened Wrappers
  import opened Statistics
  import FeatureEncoder

  /** Column names: the classifier's 13 features followed by the target. */
  const Columns: seq<string> := FeatureEncoder.Schema + ["target"]
  const Width: nat := 14
  const Target: nat := 13

  /** The marker the raw file uses for an unknown value. */
  const Sentinel: string := "?"

  /** A cell as the CSV reader delivers it: an empty field, a number, or text it could
      not read as a number. */
  datatype RawCell = Blank | Number(value: real) | Text(text: string)

  /** A parser for numeric text: `None` when the text is not a number. */
  type Parser = string -> Option<real>

  // ---------------------------------------------------------------------------
  // Specification of the steps, cell by cell and column by column

  /** Step 1: the sentinel becomes a missing value. */
  function ReplaceSentinel(c: RawCell): RawCell
  {
    if c == Text(Sentinel) then Blank else c
  }

  /** Step 2: numeric coercion; anything that is not a number becomes missing. */
  function ToNumeric(c: RawCell, parse: Parser): Option<real>
  {
    match c
    case Blank => None
    case Number(v) => Some(v)
    case Text(t) => parse(t)
  }

  /** The values present in a column, in row order: each value as many times as it
      occurs in the column. */
  function Present(col: seq<Option<real>>): (xs: seq<real>)
    ensures |xs| <= |col|
    ensures forall x :: multiset(xs)[x] == multiset(col)[Some(x)]
    ensures forall x :: x in xs <==> Some(x) in col
    ensures |xs| == 0 <==> forall i :: 0 <= i < |col| ==> col[i].None?
  {
    if col == [] then []
    else
      var rest := Present(col[1..]);
      var xs := if col[0].Some? then [col[0].value] + rest else rest;
      PresentStep(col, rest, xs);
      xs
  }

  /** One step of `Present`: the head cell adds its value, if any, to the values of
      the tail. */
  lemma PresentStep(col: seq<Option<real>>, rest: seq<real>, xs: seq<real>)
    requires |col| > 0
    requires |rest| <= |col| - 1
    requires forall x :: multiset(rest)[x] == multiset(col[1..])[Some(x)]
    requires |rest| == 0 <==> forall i :: 0 <= i < |col| - 1 ==> col[1..][i].None?
    requires xs == if col[0].Some? then [col[0].value] + rest else rest
    ensures |xs| <= |col|
    ensures forall x :: multiset(xs)[x] == multiset(col)[Some(x)]
    ensures forall x :: x in xs <==> Some(x) in col
    ensures |xs| == 0 <==> forall i :: 0 <= i < |col| ==> col[i].None?
  {
    assert col == [col[0]] + col[1..];
    assert multiset(col) == multiset{col[0]} + multiset(col[1..]);
    forall x
      ensures multiset(xs)[x] == multiset(col)[Some(x)]
    {
      if col[0].Some? {
        assert multiset(xs) == multiset{col[0].value} + multiset(rest);
      }
    }
    forall x
      ensures x in xs <==> Some(x) in col
    {
      assert x in xs <==> multiset(xs)[x] > 0;
      assert Some(x) in col <==> multiset(col)[Some(x)] > 0;
    }
    if |xs| == 0 {
      forall i | 0 <= i < |col|
        ensures col[i].None?
      {
        if i > 0 { assert col[i] == col[1..][i - 1]; }
      }
    }
  }

  /** A column's median over its present values; `None` (pandas' NaN) when the column
      has no value at all. */
  function ColumnMedian(col: seq<Option<real>>): (m: Option<real>)
    ensures m.Some? <==> HasValue(col)
    ensures m.Some? ==>
      && (exists i :: 0 <= i < |col| && col[i].Some? && col[i].value <= m.value)
      && (exists i :: 0 <= i < |col| && col[i].Some? && m.value <= col[i].value)
  {
    var xs := Present(col);
    if |xs| == 0 then None else Some(Median(xs))
  }

  /** Reordering a column's rows does not change its median: the present values keep
      their counts, and the median depends on nothing else. */
  lemma ColumnMedianRowOrder(c1: seq<Option<real>>, c2: seq<Option<real>>)
    requires multiset(c1) == multiset(c2)
    ensures ColumnMedian(c1) == ColumnMedian(c2)
  {
    var xs, ys := Present(c1), Present(c2);
    assert multiset(xs) == multiset(ys) by {
      assert forall x :: multiset(xs)[x] == multiset(ys)[x];
    }
    if |xs| > 0 {
      MedianPermutationInvariant(xs, ys);
    } else {
      assert |multiset(ys)| == 0;
    }
  }

  /** Step 3 for one cell: a missing cell takes the column's median. */
  function Fill(c: Option<real>, median: Option<real>): Option<real>
  {
    if c.Some? then c else median
  }

  /** Step 4: 1 when the value is greater than 0, else 0; a value that is still missing
      compares false and so gives 0. */
  function Binarise(c: Option<real>): real
  {
    if c.Some? && c.value > 0.0 then 1.0 else 0.0
  }

  ghost predicate WellFormed<T>(t: seq<seq<T>>)
  {
    forall i :: 0 <= i < |t| ==> |t[i]| == Width
  }

  /** Some cell of the column holds a value. */
  ghost predicate HasValue(col: seq<Option<real>>)
  {
    exists i :: 0 <= i < |col| && col[i].Some?
  }

  function Column<T>(t: seq<seq<T>>, j: nat): (col: seq<T>)
    requires WellFormed(t) && j < Width
    ensures |col| == |t|
  {
    seq(|t|, i requires 0 <= i < |t| => t[i][j])
  }

  /** The table after steps 1 and 2. */
  function Coerced(csv: seq<seq<RawCell>>, parse: Parser): (t: seq<seq<Option<real>>>)
    requires WellFormed(csv)
    ensures |t| == |csv| && WellFormed(t)
  {
    seq(|csv|, i requires 0 <= i < |csv| =>
      seq(Width, j requires 0 <= j < Width => ToNumeric(ReplaceSentinel(csv[i][j]), parse)))
  }

  /** One cell of the cleaned table, given the coerced table `t`: a present feature
      is kept, a missing one takes the column median, and the target is 0 or 1. */
  function CleanCell(t: seq<seq<Option<real>>>, i: nat, j: nat): (c: Option<real>)
    requires WellFormed(t) && i < |t| && j < Width
    ensures j != Target && t[i][j].Some? ==> c == t[i][j]
    ensures j != Target && t[i][j].None? ==> c == ColumnMedian(Column(t, j))
    ensures j == Target ==> c == Some(0.0) || c == Some(1.0)
  {
    var filled := Fill(t[i][j], ColumnMedian(Column(t, j)));
    if j == Target then Some(Binarise(filled)) else filled
  }

  /** The whole cleaned table. */
  function Clean(csv: seq<seq<RawCell>>, parse: Parser): (r: seq<seq<Option<real>>>)
    requires WellFormed(csv)
    ensures |r| == |csv| && WellFormed(r)
    ensures forall i, j :: 0 <= i < |csv| && 0 <= j < Target && Coerced(csv, parse)[i][j].Some? ==>
      r[i][j] == Coerced(csv, parse)[i][j]
    ensures forall i :: 0 <= i < |csv| ==> r[i][Target] == Some(0.0) || r[i][Target] == Some(1.0)
  {
    var t := Coerced(csv, parse);
    seq(|csv|, i requires 0 <= i < |csv| =>
      seq(Width, j requires 0 <= j < Width => CleanCell(t, i, j)))
  }

  // ---------------------------------------------------------------------------
  // The frame and the steps applied to it in place

  function Rows<T>(a: array2<T>): (t: seq<seq<T>>)
    reads a
    ensures |t| == a.Length0
    ensures forall i :: 0 <= i < |t| ==> |t[i]| == a.Length1
  {
    seq(a.Length0, i requires 0 <= i < a.Length0 reads a =>
      seq(a.Length1, j requires 0 <= j < a.Length1 reads a => a[i, j]))
  }

  function ColumnOf<T>(a: array2<T>, j: nat): (col: seq<T>)
    requires j < a.Length1
    reads a
    ensures |col| == a.Length0
  {
    seq(a.Length0, i requires 0 <= i < a.Length0 reads a => a[i, j])
  }

  /** Reads the records into a frame of the 14 named columns. */
  method ReadFrame(csv: seq<seq<RawCell>>) returns (raw: array2<RawCell>)
    requires WellFormed(csv)
    ensures fresh(raw)
    ensures raw.Length0 == |csv| && raw.Length1 == Width
    ensures forall i, j :: 0 <= i < |csv| && 0 <= j < Width ==> raw[i, j] == csv[i][j]
  {
    raw := new RawCell[|csv|, Width]((i, j) requires 0 <= i < |csv| && 0 <= j < Width => csv[i][j]);
  }

  /** Step 1, in place: every sentinel cell becomes blank. */
  method ReplaceSentinels(raw: array2<RawCell>)
    modifies raw
    ensures forall i, j :: 0 <= i < raw.Length0 && 0 <= j < raw.Length1 ==>
      raw[i, j] == ReplaceSentinel(old(raw[i, j]))
  {
    var i := 0;
    while i < raw.Length0
      invariant 0 <= i <= raw.Length0
      invariant forall r, j :: 0 <= r < raw.Length0 && 0 <= j < raw.Length1 ==>
        raw[r, j] == if r < i then ReplaceSentinel(old(raw[r, j])) else old(raw[r, j])
    {
      var j := 0;
      while j < raw.Length1
        invariant 0 <= j <= raw.Length1
        invariant forall r, k :: 0 <= r < raw.Length0 && 0 <= k < raw.Length1 ==>
          raw[r, k] == if r < i || (r == i && k < j) then ReplaceSentinel(old(raw[r, k])) else old(raw[r, k])
      {
        if raw[i, j] == Text(Sentinel) {
          raw[i, j] := Blank;
        }
        j := j + 1;
      }
      i := i + 1;
    }
  }

  /** Step 2: a new frame of numbers and missing values. */
  method CoerceNumeric(raw: array2<RawCell>, parse: Parser) returns (df: array2<Option<real>>)
    ensures fresh(df)
    ensures df.Length0 == raw.Length0 && df.Length1 == raw.Length1
    ensures forall i, j :: 0 <= i < raw.Length0 && 0 <= j < raw.Length1 ==>
      df[i, j] == ToNumeric(raw[i, j], parse)
  {
    df := new Option<real>[raw.Length0, raw.Length1];
    var i := 0;
    while i < raw.Length0
      invariant 0 <= i <= raw.Length0
      invariant forall r, j :: 0 <= r < i && 0 <= j < raw.Length1 ==> df[r, j] == ToNumeric(raw[r, j], parse)
    {
      var j := 0;
      while j < raw.Length1
        invariant 0 <= j <= raw.Length1
        invariant forall r, k :: 0 <= r < raw.Length0 && 0 <= k < raw.Length1 && (r < i || (r == i && k < j)) ==>
          df[r, k] == ToNumeric(raw[r, k], parse)
      {
        df[i, j] := ToNumeric(raw[i, j], parse);
        j := j + 1;
      }
      i := i + 1;
    }
  }

  /** Step 3, in place: each missing cell takes its column's median. */
  method FillMissing(df: array2<Option<real>>)
    modifies df
    ensures forall i, j :: 0 <= i < df.Length0 && 0 <= j < df.Length1 ==>
      df[i, j] == Fill(old(df[i, j]), ColumnMedian(old(ColumnOf(df, j))))
  {
    // Every column's median is computed before any cell is filled.
    var medians := seq(df.Length1, j requires 0 <= j < df.Length1 reads df => ColumnMedian(ColumnOf(df, j)));
    var i := 0;
    while i < df.Length0
      invariant 0 <= i <= df.Length0
      invariant forall r, j :: 0 <= r < df.Length0 && 0 <= j < df.Length1 ==>
        df[r, j] == if r < i then Fill(old(df[r, j]), medians[j]) else old(df[r, j])
    {
      FillRow(df, i, medians);
      i := i + 1;
    }
  }

  /** Fills the missing cells of row `i` from `medians`; other rows are untouched. */
  method FillRow(df: array2<Option<real>>, i: nat, medians: seq<Option<real>>)
    requires i < df.Length0 && |medians| == df.Length1
    modifies df
    ensures forall r, j :: 0 <= r < df.Length0 && 0 <= j < df.Length1 ==>
      df[r, j] == if r == i then Fill(old(df[r, j]), medians[j]) else old(df[r, j])
  {
    var j := 0;
    while j < df.Length1
      invariant 0 <= j <= df.Length1
      invariant forall r, k :: 0 <= r < df.Length0 && 0 <= k < df.Length1 ==>
        df[r, k] == if r == i && k < j then Fill(old(df[r, k]), medians[k]) else old(df[r, k])
    {
      if df[i, j].None? {
        df[i, j] := medians[j];
      }
      j := j + 1;
    }
  }

  /** Step 4, in place: the target column is overwritten with 0 or 1. */
  method BinariseTarget(df: array2<Option<real>>)
    requires df.Length1 == Width
    modifies df
    ensures forall i, j :: 0 <= i < df.Length0 && 0 <= j < Width ==>
      df[i, j] == if j == Target then Some(Binarise(old(df[i, j]))) else old(df[i, j])
  {
    var i := 0;
    while i < df.Length0
      invariant 0 <= i <= df.Length0
      invariant forall r, j :: 0 <= r < df.Length0 && 0 <= j < Width ==>
        df[r, j] == if j == Target && r < i then Some(Binarise(old(df[r, j]))) else old(df[r, j])
    {
      df[i, Target] := Some(Binarise(df[i, Target]));
      i := i + 1;
    }
  }

  /** The whole script on the records read from the raw file; the result is what it
      writes to the cleaned file. */
  method Run(csv: seq<seq<RawCell>>, parse: Parser) returns (cleaned: seq<seq<Option<real>>>)
    requires WellFormed(csv)
    ensures cleaned == Clean(csv, parse)
  {
    var raw := ReadFrame(csv);
    ReplaceSentinels(raw);
    var df := CoerceNumeric(raw, parse);
    ghost var t := Coerced(csv, parse);
    assert forall i, j :: 0 <= i < |csv| && 0 <= j < Width ==> df[i, j] == t[i][j];
    forall j | 0 <= j < Width
      ensures ColumnOf(df, j) == Column(t, j)
    {
    }
    FillMissing(df);
    BinariseTarget(df);
    cleaned := Rows(df);
    forall i | 0 <= i < |csv|
      ensures cleaned[i] == Clean(csv, parse)[i]
    {
    }
  }

  // ---------------------------------------------------------------------------
  // What the cleaned table promises

  /** Steps 1 and 2 on one cell: the sentinel and text that is not a number become
      missing, a number keeps its value. */
  lemma SentinelAndCoercion(c: RawCell, parse: Parser)
    ensures c == Text("?") ==> ToNumeric(ReplaceSentinel(c), parse) == None
    ensures c == Blank ==> ToNumeric(ReplaceSentinel(c), parse) == None
    ensures c.Number? ==> ToNumeric(ReplaceSentinel(c), parse) == Some(c.value)
    ensures c.Text? && c.text != "?" ==> ToNumeric(ReplaceSentinel(c), parse) == parse(c.text)
  {
  }

  /** The cleaned table keeps the row count and the 14 columns in their order: the
      classifier's features, then the target. */
  lemma CleanShape(csv: seq<seq<RawCell>>, parse: Parser)
    requires WellFormed(csv)
    ensures |Clean(csv, parse)| == |csv|
    ensures forall i :: 0 <= i < |csv| ==> |Clean(csv, parse)[i]| == Width
    ensures |Columns| == Width && Columns[..Target] == FeatureEncoder.Schema && Columns[Target] == "target"
  {
  }

  /** A feature cell that was present is left unchanged. */
  lemma PresentFeatureUnchanged(csv: seq<seq<RawCell>>, parse: Parser, i: nat, j: nat)
    requires WellFormed(csv) && i < |csv| && j < Target
    requires Coerced(csv, parse)[i][j].Some?
    ensures Clean(csv, parse)[i][j] == Coerced(csv, parse)[i][j]
  {
  }

  /** A missing feature cell takes the median of its column's present values, which
      lies between the smallest and the largest of them. */
  lemma MissingFeatureTakesMedian(csv: seq<seq<RawCell>>, parse: Parser, i: nat, j: nat)
    requires WellFormed(csv) && i < |csv| && j < Target
    requires Coerced(csv, parse)[i][j].None?
    ensures
      var present := Present(Column(Coerced(csv, parse), j));
      && Clean(csv, parse)[i][j] == ColumnMedian(Column(Coerced(csv, parse), j))
      && (|present| > 0 ==>
            && Clean(csv, parse)[i][j] == Some(Median(present))
            && (exists lo :: lo in present && lo <= Median(present))
            && (exists hi :: hi in present && Median(present) <= hi))
  {
    var present := Present(Column(Coerced(csv, parse), j));
    if |present| > 0 {
      var m := Median(present);
      var a :| 0 <= a < |present| && present[a] <= m;
      var b :| 0 <= b < |present| && m <= present[b];
      assert present[a] in present && present[b] in present;
    }
  }

  /** A feature column with no value at all keeps every cell missing (its median is
      NaN), so the cleaned table is not complete in that case. */
  lemma EmptyFeatureColumnStaysMissing(csv: seq<seq<RawCell>>, parse: Parser, j: nat)
    requires WellFormed(csv) && j < Target
    requires forall i :: 0 <= i < |csv| ==> Coerced(csv, parse)[i][j].None?
    ensures forall i :: 0 <= i < |csv| ==> Clean(csv, parse)[i][j] == None
  {
    var col := Column(Coerced(csv, parse), j);
    assert |Present(col)| == 0;
  }

  /** Every target is 0 or 1, and it is 1 exactly when the value after filling is
      greater than 0; a missing target is first given the target column's median. */
  lemma TargetBinarised(csv: seq<seq<RawCell>>, parse: Parser, i: nat)
    requires WellFormed(csv) && i < |csv|
    ensures
      var t := Coerced(csv, parse);
      var filled := Fill(t[i][Target], ColumnMedian(Column(t, Target)));
      && (Clean(csv, parse)[i][Target] == Some(1.0) || Clean(csv, parse)[i][Target] == Some(0.0))
      && (Clean(csv, parse)[i][Target] == Some(1.0) <==> filled.Some? && filled.value > 0.0)
      && (t[i][Target].Some? ==> (Clean(csv, parse)[i][Target] == Some(1.0) <==> t[i][Target].value > 0.0))
  {
  }

  /** When every column has at least one value, no cell of the cleaned table is
      missing. */
  lemma CleanComplete(csv: seq<seq<RawCell>>, parse: Parser)
    requires WellFormed(csv)
    requires forall j :: 0 <= j < Width ==> HasValue(Column(Coerced(csv, parse), j))
    ensures forall i, j :: 0 <= i < |csv| && 0 <= j < Width ==> Clean(csv, parse)[i][j].Some?
  {
    var t: seq<seq<Option<real>>> := Coerced(csv, parse);
    forall j | 0 <= j < Width
      ensures ColumnMedian(Column(t, j)).Some?
    {
      assert HasValue(Column(t, j));
    }
  }
}
