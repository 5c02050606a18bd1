/**
  `get_data_profile` (utils.py): the shape of the table, the share of
  missing cells, each column's dtype and the column lists by kind.
 */
module Profiling {
  import opened Wrappers
  import opened Tables

  datatype Profile = Profile(
    rows: nat,
    columns: nat,
    missingPct: Option<real>,  // None when the table has no cells (0/0 is NaN)
    dtypes: map<string, Kind>,
    numerical: seq<string>,
    categorical: seq<string>,
    datetime: seq<string>)

  /** `df.isna().sum().sum()`. */
  function TotalMissing(cols: seq<Column>): nat {
    if cols == [] then 0 else MissingCount(cols[0].cells) + TotalMissing(cols[1..])
  }

  /** `df.dtypes.astype(str).to_dict()`. */
  function Dtypes(cols: seq<Column>): (m: map<string, Kind>)
    ensures m.Keys == set i | 0 <= i < |cols| :: cols[i].name
  {
    if cols == [] then map[]
    else
      var init := cols[..|cols| - 1];
      var last := cols[|cols| - 1];
      var m := Dtypes(init)[last.name := last.kind];
      assert forall i :: 0 <= i < |init| ==> init[i] == cols[i];
      m
  }

  /** The names of the columns whose dtype satisfies `p`, in table order (`select_dtypes(...).columns`). */
  function KindNames(cols: seq<Column>, p: Kind -> bool): seq<string> {
    if cols == [] then [] else (if p(cols[0].kind) then [cols[0].name] else []) + KindNames(cols[1..], p)
  }

  /** `round(missing / (rows * columns) * 100, 2)`, without the rounding. */
  function MissingPct(t: Table): Option<real> {
    if t.rows * |t.cols| == 0 then None
    else Some((TotalMissing(t.cols) as real) / ((t.rows * |t.cols|) as real) * 100.0)
  }

  /** `get_data_profile(df)`. */
  function GetDataProfile(t: Table): (p: Profile)
    ensures p.rows == t.rows && p.columns == |t.cols|
  {
    Profile(
      t.rows,
      |t.cols|,
      MissingPct(t),
      Dtypes(t.cols),
      KindNames(t.cols, IsNumber),
      KindNames(t.cols, IsCategorical),
      KindNames(t.cols, IsDatetime))
  }

  predicate IsDatetime(k: Kind) {
    k == Datetime
  }

  /** `a` is `b` with some items left out, the rest in the same order. */
  predicate IsSubsequence(a: seq<string>, b: seq<string>)
    decreases |b|
  {
    a == [] || (b != [] && ((a[0] == b[0] && IsSubsequence(a[1..], b[1..])) || IsSubsequence(a, b[1..])))
  }

  /** A name is listed exactly when a column of that name has a matching dtype. */
  lemma {:induction false} KindNamesMember(cols: seq<Column>, p: Kind -> bool, n: string)
    ensures n in KindNames(cols, p) <==> exists i :: 0 <= i < |cols| && cols[i].name == n && p(cols[i].kind)
  {
    if cols != [] {
      KindNamesMember(cols[1..], p, n);
      if exists i :: 0 <= i < |cols| && cols[i].name == n && p(cols[i].kind) {
        var i :| 0 <= i < |cols| && cols[i].name == n && p(cols[i].kind);
        if i > 0 {
          assert cols[1..][i - 1] == cols[i];
        }
      }
      if n in KindNames(cols[1..], p) {
        var i :| 0 <= i < |cols[1..]| && cols[1..][i].name == n && p(cols[1..][i].kind);
        assert cols[i + 1] == cols[1..][i];
      }
    }
  }

  /** Each kind list keeps the table's column order. */
  lemma {:induction false} KindNamesInOrder(cols: seq<Column>, p: Kind -> bool)
    ensures IsSubsequence(KindNames(cols, p), Names(cols))
  {
    if cols != [] {
      KindNamesInOrder(cols[1..], p);
      assert Names(cols)[1..] == Names(cols[1..]);
      var rest := KindNames(cols[1..], p);
      if p(cols[0].kind) {
        assert KindNames(cols, p) == [cols[0].name] + rest;
        assert ([cols[0].name] + rest)[1..] == rest;
      } else {
        assert KindNames(cols, p) == rest;
      }
    }
  }

  /** With distinct names, a column's name is listed exactly when its own dtype matches. */
  lemma NameListedIffKind(cols: seq<Column>, p: Kind -> bool, i: int)
    requires 0 <= i < |cols|
    requires forall a, b :: 0 <= a < b < |cols| ==> cols[a].name != cols[b].name
    ensures cols[i].name in KindNames(cols, p) <==> p(cols[i].kind)
  {
    KindNamesMember(cols, p, cols[i].name);
    if cols[i].name in KindNames(cols, p) {
      var j :| 0 <= j < |cols| && cols[j].name == cols[i].name && p(cols[j].kind);
      assert j == i;
    }
  }

  /** With distinct names, two lists for dtype tests that never both hold share no name. */
  lemma KindNamesDisjoint(cols: seq<Column>, p: Kind -> bool, q: Kind -> bool, n: string)
    requires forall a, b :: 0 <= a < b < |cols| ==> cols[a].name != cols[b].name
    requires forall k :: !(p(k) && q(k))
    ensures !(n in KindNames(cols, p) && n in KindNames(cols, q))
  {
    KindNamesMember(cols, p, n);
    KindNamesMember(cols, q, n);
  }

  /**
    The three kind lists keep table order, are pairwise disjoint, and a
    column is listed exactly when its dtype is of that kind, so boolean and
    other-dtype columns are in none of them.
   */
  lemma KindListsPartition(t: Table)
    requires WellFormed(t)
    ensures var p := GetDataProfile(t);
      && IsSubsequence(p.numerical, Names(t.cols))
      && IsSubsequence(p.categorical, Names(t.cols))
      && IsSubsequence(p.datetime, Names(t.cols))
      && (forall n :: !(n in p.numerical && n in p.categorical))
      && (forall n :: !(n in p.numerical && n in p.datetime))
      && (forall n :: !(n in p.categorical && n in p.datetime))
      && (forall i :: 0 <= i < |t.cols| ==>
            (t.cols[i].name in p.numerical <==> t.cols[i].kind == Numeric)
            && (t.cols[i].name in p.categorical <==> t.cols[i].kind in {Object, Category})
            && (t.cols[i].name in p.datetime <==> t.cols[i].kind == Datetime))
  {
    var cols := t.cols;
    KindNamesInOrder(cols, IsNumber);
    KindNamesInOrder(cols, IsCategorical);
    KindNamesInOrder(cols, IsDatetime);
    forall n
      ensures !(n in KindNames(cols, IsNumber) && n in KindNames(cols, IsCategorical))
      ensures !(n in KindNames(cols, IsNumber) && n in KindNames(cols, IsDatetime))
      ensures !(n in KindNames(cols, IsCategorical) && n in KindNames(cols, IsDatetime))
    {
      KindNamesDisjoint(cols, IsNumber, IsCategorical, n);
      KindNamesDisjoint(cols, IsNumber, IsDatetime, n);
      KindNamesDisjoint(cols, IsCategorical, IsDatetime, n);
    }
    forall i | 0 <= i < |cols|
      ensures cols[i].name in KindNames(cols, IsNumber) <==> cols[i].kind == Numeric
      ensures cols[i].name in KindNames(cols, IsCategorical) <==> cols[i].kind in {Object, Category}
      ensures cols[i].name in KindNames(cols, IsDatetime) <==> cols[i].kind == Datetime
    {
      NameListedIffKind(cols, IsNumber, i);
      NameListedIffKind(cols, IsCategorical, i);
      NameListedIffKind(cols, IsDatetime, i);
    }
  }

  lemma {:induction false} TotalMissingBounds(cols: seq<Column>, rows: nat)
    requires forall i :: 0 <= i < |cols| ==> |cols[i].cells| == rows
    ensures TotalMissing(cols) <= rows * |cols|
    ensures TotalMissing(cols) == 0 <==> forall i :: 0 <= i < |cols| ==> None !in cols[i].cells
  {
    if cols != [] {
      var rest := cols[1..];
      assert forall i :: 0 <= i < |rest| ==> rest[i] == cols[i + 1];
      TotalMissingBounds(rest, rows);
      MissingWithinLength(cols[0].cells);
      MulSucc(rows, |rest|);
      if TotalMissing(cols) == 0 {
        forall i | 0 <= i < |cols| ensures None !in cols[i].cells {
          if i > 0 {
            assert cols[i] == rest[i - 1];
          }
        }
      } else if MissingCount(cols[0].cells) == 0 {
        var j :| 0 <= j < |rest| && None in rest[j].cells;
        assert None in cols[j + 1].cells;
      }
    }
  }

  lemma MulSucc(a: nat, b: nat)
    ensures a * (b + 1) == a * b + a
  {
  }

  /** A column has at most as many missing cells as cells, and none exactly when no cell is missing. */
  lemma MissingWithinLength(cells: Cells)
    ensures MissingCount(cells) <= |cells|
    ensures MissingCount(cells) == 0 <==> None !in cells
  {
    assert |multiset(cells)| == |cells|;
  }

  lemma ShareBounds(m: real, d: real)
    requires 0.0 <= m <= d && d > 0.0
    ensures 0.0 <= m / d * 100.0 <= 100.0
    ensures m / d * 100.0 == 0.0 <==> m == 0.0
  {
    assert (m / d) * d == m;
    assert m / d <= 1.0;
  }

  /**
    The missing share is defined exactly when the table has cells; it lies
    in [0, 100] and is 0 exactly when no cell is missing.
   */
  lemma MissingPctBounds(t: Table)
    requires WellFormed(t)
    ensures MissingPct(t).Some? <==> t.rows > 0 && |t.cols| > 0
    ensures MissingPct(t).Some? ==> 0.0 <= MissingPct(t).value <= 100.0
    ensures MissingPct(t).Some? ==>
      (MissingPct(t).value == 0.0 <==> forall i :: 0 <= i < |t.cols| ==> None !in t.cols[i].cells)
  {
    TotalMissingBounds(t.cols, t.rows);
    if t.rows > 0 && |t.cols| > 0 {
      ShareBounds(TotalMissing(t.cols) as real, (t.rows * |t.cols|) as real);
    }
  }
}
