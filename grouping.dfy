/** Table grouping as `DataFrame.groupby` does it: one group per distinct
    key, in first-seen order of the keys, each group holding its rows in
    table order; plus the column reductions the workflow applies to a
    group (sum, min, max, first). */
module Grouping {
  import opened Wrappers
  import opened Text

  /** One column of a table, or the key of each row. */
  function Column<R, K>(rows: seq<R>, key: R -> K): (ks: seq<K>)
    ensures |ks| == |rows|
    ensures forall i :: 0 <= i < |rows| ==> ks[i] == key(rows[i])
  {
    if rows == [] then [] else [key(rows[0])] + Column(rows[1..], key)
  }

  /** The distinct keys, in order of first appearance. */
  function GroupKeys<R, K(==)>(rows: seq<R>, key: R -> K): seq<K> {
    Dedup(Column(rows, key))
  }

  /** Each key once, and exactly the keys some row carries. */
  lemma GroupKeysSpec<R, K>(rows: seq<R>, key: R -> K)
    ensures Distinct(GroupKeys(rows, key))
    ensures forall k :: k in GroupKeys(rows, key) <==> k in Column(rows, key)
  {
    DedupSpec(Column(rows, key));
  }

  /** A group key is the key of some row. */
  lemma GroupKeyInColumn<R, K>(rows: seq<R>, key: R -> K, k: K)
    requires k in GroupKeys(rows, key)
    ensures k in Column(rows, key)
  {
    GroupKeysSpec(rows, key);
  }

  /** The rows of one group, in table order. */
  function Members<R, K(==)>(rows: seq<R>, key: R -> K, k: K): seq<R> {
    if rows == [] then []
    else (if key(rows[0]) == k then [rows[0]] else []) + Members(rows[1..], key, k)
  }

  /** A group holds exactly the rows with its key. */
  lemma {:induction false} MembersSpec<R, K>(rows: seq<R>, key: R -> K, k: K)
    ensures forall r :: r in Members(rows, key, k) <==> r in rows && key(r) == k
    ensures forall i :: 0 <= i < |Members(rows, key, k)| ==> key(Members(rows, key, k)[i]) == k
    ensures |Members(rows, key, k)| <= |rows|
  {
    if rows != [] {
      MembersSpec(rows[1..], key, k);
      assert rows == [rows[0]] + rows[1..];
      var m := Members(rows, key, k);
      forall i | 0 <= i < |m| ensures key(m[i]) == k {
        assert m[i] in m;
      }
    }
  }

  /** The key of a row is a group key. */
  lemma RowInGroupKeys<R, K>(rows: seq<R>, key: R -> K, r: R)
    requires r in rows
    ensures key(r) in GroupKeys(rows, key)
  {
    var i :| 0 <= i < |rows| && rows[i] == r;
    var k := key(r);
    assert Column(rows, key)[i] == k;
    var col := Column(rows, key);
    assert k in col;
    DedupSpec(col);
    assert k in Dedup(col);
  }

  /** A row belongs to its own group. */
  lemma RowInMembers<R, K>(rows: seq<R>, key: R -> K, r: R)
    requires r in rows
    ensures r in Members(rows, key, key(r))
  {
    MembersSpec(rows, key, key(r));
  }

  /** A non-empty group starts with a row of the table that has its key. */
  lemma MembersHead<R, K>(rows: seq<R>, key: R -> K, k: K)
    requires Members(rows, key, k) != []
    ensures Members(rows, key, k)[0] in rows && key(Members(rows, key, k)[0]) == k
  {
    MembersSpec(rows, key, k);
    assert Members(rows, key, k)[0] in Members(rows, key, k);
  }

  /** A group of one row is that row. */
  lemma SingleMember<R, K>(rows: seq<R>, key: R -> K, r: R)
    requires r in rows && |Members(rows, key, key(r))| == 1
    ensures Members(rows, key, key(r)) == [r]
  {
    RowInMembers(rows, key, r);
    var m := Members(rows, key, key(r));
    assert m == [m[0]];
  }

  /** Every group is non-empty and starts with the first row of its key. */
  lemma {:induction false} MembersFirst<R, K>(rows: seq<R>, key: R -> K, k: K)
    requires k in Column(rows, key)
    ensures Members(rows, key, k) != []
    ensures exists j ::
              0 <= j < |rows| && Members(rows, key, k)[0] == rows[j] && key(rows[j]) == k &&
              (forall i :: 0 <= i < j ==> key(rows[i]) != k)
  {
    if key(rows[0]) == k {
      assert Members(rows, key, k)[0] == rows[0];
    } else {
      assert Column(rows, key) == [key(rows[0])] + Column(rows[1..], key);
      MembersFirst(rows[1..], key, k);
      var j :| 0 <= j < |rows[1..]| && Members(rows[1..], key, k)[0] == rows[1..][j] && key(rows[1..][j]) == k &&
        (forall i :: 0 <= i < j ==> key(rows[1..][i]) != k);
      assert Members(rows, key, k)[0] == rows[j + 1];
      forall i | 0 <= i < j + 1 ensures key(rows[i]) != k {
        if i > 0 { assert rows[i] == rows[1..][i - 1]; }
      }
    }
  }

  /** A group after appending a row: the row joins its own group only. */
  /** A prefix grown by one element. */
  lemma PrefixSnoc<T>(xs: seq<T>, i: nat, x: T)
    requires i < |xs| && xs[i] == x
    ensures xs[..i + 1] == xs[..i] + [x]
  {
  }

  lemma MembersSnoc<R, K>(rows: seq<R>, x: R, key: R -> K, k: K)
    ensures Members(rows + [x], key, k) == Members(rows, key, k) + (if key(x) == k then [x] else [])
    decreases |rows|
  {
    if rows != [] {
      assert (rows + [x])[1..] == rows[1..] + [x];
      MembersSnoc(rows[1..], x, key, k);
    } else {
      assert rows + [x] == [x];
    }
  }

  /** The output rows of a row-by-row loop that appends `f(x)` for each
      input row `x`, in input order. */
  function Flatten<R, U>(xs: seq<R>, f: R -> seq<U>): seq<U> {
    if xs == [] then [] else Flatten(xs[..|xs| - 1], f) + f(xs[|xs| - 1])
  }

  lemma FlattenSnoc<R, U>(xs: seq<R>, f: R -> seq<U>, i: nat)
    requires i < |xs|
    ensures Flatten(xs[..i + 1], f) == Flatten(xs[..i], f) + f(xs[i])
  {
    assert xs[..i + 1][..i] == xs[..i];
  }

  /** Every output row comes from some input row, and the output is no
      longer than the input when each row appends at most one. */
  lemma {:induction false} FlattenFrom<R, U>(xs: seq<R>, f: R -> seq<U>)
    ensures forall u :: u in Flatten(xs, f) ==> exists x :: x in xs && u in f(x)
    ensures (forall x :: x in xs ==> |f(x)| <= 1) ==> |Flatten(xs, f)| <= |xs|
  {
    if xs != [] {
      var init := xs[..|xs| - 1];
      FlattenFrom(init, f);
      assert forall x :: x in init ==> x in xs;
      assert xs[|xs| - 1] in xs;
    }
  }

  /** An output row of one input row is an output row of the loop. */
  /** One output row comes from some input row. */
  lemma FlattenSource<R, U>(xs: seq<R>, f: R -> seq<U>, u: U)
    requires u in Flatten(xs, f)
    ensures exists x :: x in xs && u in f(x)
  {
    FlattenFrom(xs, f);
  }

  lemma {:induction false} FlattenContains<R, U>(xs: seq<R>, f: R -> seq<U>, x: R, u: U)
    requires x in xs && u in f(x)
    ensures u in Flatten(xs, f)
  {
    var init := xs[..|xs| - 1];
    if x != xs[|xs| - 1] {
      assert x in init by {
        var i :| 0 <= i < |xs| && xs[i] == x;
        assert init[i] == x;
      }
      FlattenContains(init, f, x, u);
    }
  }

  /** The keys of two tables placed one after the other. */
  lemma ColumnAppend<R, K>(a: seq<R>, b: seq<R>, key: R -> K)
    ensures Column(a + b, key) == Column(a, key) + Column(b, key)
  {
  }

  /** A key no row carries has an empty group. */
  lemma {:induction false} MembersAbsent<R, K>(rows: seq<R>, key: R -> K, k: K)
    requires k !in Column(rows, key)
    ensures Members(rows, key, k) == []
  {
    if rows != [] {
      assert Column(rows, key) == [key(rows[0])] + Column(rows[1..], key);
      MembersAbsent(rows[1..], key, k);
    }
  }

  /** With no key repeated, every group has at most one row. */
  lemma {:induction false} DistinctMembers<R, K>(rows: seq<R>, key: R -> K, k: K)
    requires Distinct(Column(rows, key))
    ensures |Members(rows, key, k)| <= 1
  {
    if rows != [] {
      var rest := rows[1..];
      var col := Column(rest, key);
      assert Column(rows, key) == [key(rows[0])] + col;
      if key(rows[0]) == k {
        assert k !in col by {
          forall i | 0 <= i < |col| ensures col[i] != k {
            assert Column(rows, key)[i + 1] == col[i];
          }
        }
        MembersAbsent(rest, key, k);
      } else {
        assert Distinct(col) by {
          forall i, j | 0 <= i < j < |col| ensures col[i] != col[j] {
            assert Column(rows, key)[i + 1] == col[i];
            assert Column(rows, key)[j + 1] == col[j];
          }
        }
        DistinctMembers(rest, key, k);
      }
    }
  }

  /** `counter[k] = counter.get(k, 0) + 1`. */
  function Bump<K>(m: map<K, nat>, k: K): (r: map<K, nat>)
    ensures r.Keys == m.Keys + {k}
  {
    m[k := (if k in m then m[k] else 0) + 1]
  }

  /** `counter.get(k, 0)`. */
  function CountOf<K>(m: map<K, nat>, k: K): nat {
    if k in m then m[k] else 0
  }

  function SumBy<R>(rows: seq<R>, f: R -> real): real {
    if rows == [] then 0.0 else f(rows[0]) + SumBy(rows[1..], f)
  }

  /** Summing a constant 1 counts the rows. */
  lemma {:induction false} SumOfOnes<R>(rows: seq<R>, f: R -> real)
    requires forall r :: f(r) == 1.0
    ensures SumBy(rows, f) == |rows| as real
  {
    if rows != [] {
      SumOfOnes(rows[1..], f);
    }
  }

  /** Sum over a list of keys of a per-key quantity. */
  function SumOver<K>(ks: seq<K>, g: K -> real): real {
    if ks == [] then 0.0 else g(ks[0]) + SumOver(ks[1..], g)
  }

  lemma {:induction false} SumOverIndicator<K>(ks: seq<K>, kx: K, v: real, g: K -> real, h: K -> real)
    requires Distinct(ks) && kx in ks
    requires forall k :: g(k) == (if k == kx then v else 0.0) + h(k)
    ensures SumOver(ks, g) == v + SumOver(ks, h)
  {
    if ks[0] == kx {
      assert kx !in ks[1..];
      SumOverNoIndicator(ks[1..], kx, v, g, h);
    } else {
      SumOverIndicator(ks[1..], kx, v, g, h);
    }
  }

  lemma {:induction false} SumOverNoIndicator<K>(ks: seq<K>, kx: K, v: real, g: K -> real, h: K -> real)
    requires kx !in ks
    requires forall k :: g(k) == (if k == kx then v else 0.0) + h(k)
    ensures SumOver(ks, g) == SumOver(ks, h)
  {
    if ks != [] {
      SumOverNoIndicator(ks[1..], kx, v, g, h);
    }
  }

  /** Summing each group and adding the group sums gives the table sum: a
      group-by sum neither loses nor double-counts a row. `total` is the
      per-key group sum. */
  lemma {:induction false} GroupSumsTotal<R, K>(rows: seq<R>, key: R -> K, f: R -> real, ks: seq<K>, total: K -> real)
    requires Distinct(ks) && forall i :: 0 <= i < |rows| ==> key(rows[i]) in ks
    requires forall k :: total(k) == SumBy(Members(rows, key, k), f)
    ensures SumOver(ks, total) == SumBy(rows, f)
  {
    if rows == [] {
      SumOverZero(ks, total);
    } else {
      var x := rows[0];
      var rest := rows[1..];
      var h := k => SumBy(Members(rest, key, k), f);
      GroupSumsTotal(rest, key, f, ks, h);
      forall k ensures total(k) == (if k == key(x) then f(x) else 0.0) + h(k) {
        assert Members(rows, key, k) == (if key(x) == k then [x] else []) + Members(rest, key, k);
        SumByAppend((if key(x) == k then [x] else []), Members(rest, key, k), f);
      }
      SumOverIndicator(ks, key(x), f(x), total, h);
    }
  }

  lemma {:induction false} SumOverZero<K>(ks: seq<K>, g: K -> real)
    requires forall k :: g(k) == 0.0
    ensures SumOver(ks, g) == 0.0
  {
    if ks != [] {
      SumOverZero(ks[1..], g);
    }
  }

  lemma {:induction false} SumByAppend<R>(a: seq<R>, b: seq<R>, f: R -> real)
    ensures SumBy(a + b, f) == SumBy(a, f) + SumBy(b, f)
  {
    if a == [] {
      assert a + b == b;
    } else {
      SumByAppend(a[1..], b, f);
      assert (a + b)[0] == a[0];
      assert (a + b)[1..] == a[1..] + b;
    }
  }

  /** The group-by sum over the table's own keys. */
  lemma GroupSumsTotalOwnKeys<R, K>(rows: seq<R>, key: R -> K, f: R -> real, total: K -> real)
    requires forall k :: total(k) == SumBy(Members(rows, key, k), f)
    ensures SumOver(GroupKeys(rows, key), total) == SumBy(rows, f)
  {
    GroupKeysSpec(rows, key);
    forall i | 0 <= i < |rows| ensures key(rows[i]) in GroupKeys(rows, key) {
      assert Column(rows, key)[i] == key(rows[i]);
      assert Column(rows, key)[i] in Column(rows, key);
      var ks := Column(rows, key);
      DedupSpec(ks);
      assert ks[i] in ks;
      assert ks[i] in Dedup(ks);
      assert GroupKeys(rows, key) == Dedup(ks);
    }
    GroupSumsTotal(rows, key, f, GroupKeys(rows, key), total);
  }

  function MinBy<R>(rows: seq<R>, f: R -> real): (m: real)
    requires rows != []
    ensures forall i :: 0 <= i < |rows| ==> m <= f(rows[i])
    ensures exists i :: 0 <= i < |rows| && m == f(rows[i])
  {
    if |rows| == 1 then f(rows[0])
    else
      var r := MinBy(rows[1..], f);
      assert forall i :: 1 <= i < |rows| ==> rows[i] == rows[1..][i - 1];
      var j :| 0 <= j < |rows[1..]| && r == f(rows[1..][j]);
      assert rows[j + 1] == rows[1..][j];
      if f(rows[0]) <= r then f(rows[0]) else r
  }

  function MaxBy<R>(rows: seq<R>, f: R -> real): (m: real)
    requires rows != []
    ensures forall i :: 0 <= i < |rows| ==> f(rows[i]) <= m
    ensures exists i :: 0 <= i < |rows| && m == f(rows[i])
  {
    if |rows| == 1 then f(rows[0])
    else
      var r := MaxBy(rows[1..], f);
      assert forall i :: 1 <= i < |rows| ==> rows[i] == rows[1..][i - 1];
      var j :| 0 <= j < |rows[1..]| && r == f(rows[1..][j]);
      assert rows[j + 1] == rows[1..][j];
      if f(rows[0]) >= r then f(rows[0]) else r
  }

  function MaxIntBy<R>(rows: seq<R>, f: R -> int): (m: int)
    requires rows != []
    ensures forall i :: 0 <= i < |rows| ==> f(rows[i]) <= m
    ensures exists i :: 0 <= i < |rows| && m == f(rows[i])
  {
    if |rows| == 1 then f(rows[0])
    else
      var r := MaxIntBy(rows[1..], f);
      assert forall i :: 1 <= i < |rows| ==> rows[i] == rows[1..][i - 1];
      var j :| 0 <= j < |rows[1..]| && r == f(rows[1..][j]);
      assert rows[j + 1] == rows[1..][j];
      if f(rows[0]) >= r then f(rows[0]) else r
  }

  /** pandas `max` skipping undefined values; undefined when all are. */
  function OptMax(xs: seq<Option<real>>): (m: Option<real>)
    ensures m.None? <==> forall i :: 0 <= i < |xs| ==> xs[i].None?
    ensures m.Some? ==> m in xs
    ensures m.Some? ==> forall i :: 0 <= i < |xs| && xs[i].Some? ==> xs[i].value <= m.value
  {
    if xs == [] then None
    else
      var r := OptMax(xs[1..]);
      assert forall i :: 1 <= i < |xs| ==> xs[i] == xs[1..][i - 1];
      if xs[0].None? then r
      else if r.None? || xs[0].value >= r.value then xs[0]
      else r
  }

  /** A row-wise step that may raise, over a whole table: all its results
      in order, or the error of the first row that raises. */
  function Collect<R, U>(xs: seq<R>, f: R -> Result<U>): Result<seq<U>>
    decreases |xs|
  {
    if xs == [] then Ok([])
    else
      var init := Collect(xs[..|xs| - 1], f);
      if init.Err? then init
      else
        var last := f(xs[|xs| - 1]);
        if last.Err? then Err(last.error) else Ok(init.value + [last.value])
  }

  lemma CollectSnoc<R, U>(xs: seq<R>, f: R -> Result<U>, k: nat)
    requires k < |xs|
    ensures Collect(xs[..k + 1], f) ==
      if Collect(xs[..k], f).Err? then Collect(xs[..k], f)
      else if f(xs[k]).Err? then Err(f(xs[k]).error)
      else Ok(Collect(xs[..k], f).value + [f(xs[k]).value])
  {
    assert xs[..k + 1][..k] == xs[..k];
  }

  /** Once a prefix has raised, so has the whole table, with that error. */
  lemma {:induction false} CollectErrSticks<R, U>(xs: seq<R>, f: R -> Result<U>, k: nat)
    requires k <= |xs| && Collect(xs[..k], f).Err?
    ensures Collect(xs, f) == Collect(xs[..k], f)
    decreases |xs| - k
  {
    if k < |xs| {
      CollectSnoc(xs, f, k);
      CollectErrSticks(xs, f, k + 1);
    } else {
      assert xs[..k] == xs;
    }
  }

  /** The table succeeds exactly when every row does, and then holds each
      row's result in order. */
  lemma {:induction false} CollectSpec<R, U>(xs: seq<R>, f: R -> Result<U>)
    ensures Collect(xs, f).Ok? <==> forall k :: 0 <= k < |xs| ==> f(xs[k]).Ok?
    ensures Collect(xs, f).Ok? ==>
      |Collect(xs, f).value| == |xs| &&
      forall k :: 0 <= k < |xs| ==> Ok(Collect(xs, f).value[k]) == f(xs[k])
    decreases |xs|
  {
    if xs != [] {
      var n := |xs| - 1;
      var init := xs[..n];
      CollectSpec(init, f);
      assert forall k :: 0 <= k < n ==> init[k] == xs[k];
    }
  }

  /** A dict filled row by row, `d[key(r)] = value(r)`: a later row with
      the same key overwrites an earlier one. */
  function LastWins<R, K, V>(rows: seq<R>, key: R -> K, value: R -> V): map<K, V>
    decreases |rows|
  {
    if rows == [] then map[]
    else
      var last := rows[|rows| - 1];
      LastWins(rows[..|rows| - 1], key, value)[key(last) := value(last)]
  }

  lemma LastWinsSnoc<R, K, V>(rows: seq<R>, key: R -> K, value: R -> V, i: nat)
    requires i < |rows|
    ensures LastWins(rows[..i + 1], key, value) == LastWins(rows[..i], key, value)[key(rows[i]) := value(rows[i])]
  {
    assert rows[..i + 1][..i] == rows[..i];
  }

  /** The dict holds exactly the keys of the rows, each with the value of
      the last row carrying it. */
  lemma {:induction false} LastWinsSpec<R, K, V>(rows: seq<R>, key: R -> K, value: R -> V, k: K)
    ensures k in LastWins(rows, key, value) <==> exists i :: 0 <= i < |rows| && key(rows[i]) == k
    ensures forall i :: (0 <= i < |rows| && key(rows[i]) == k &&
      (forall j :: i < j < |rows| ==> key(rows[j]) != k)) ==>
      LastWins(rows, key, value)[k] == value(rows[i])
    decreases |rows|
  {
    if rows != [] {
      var init := rows[..|rows| - 1];
      LastWinsSpec(init, key, value, k);
      assert forall i :: 0 <= i < |init| ==> init[i] == rows[i];
    }
  }
}
