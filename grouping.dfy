/** The group-by-and-sum that four of the chart builders run over
    `filteredData` (script.js:93-99, 146-152, 167-173, 188-194): an object
    from group key to points, filled in a `forEach`, whose keys come out in
    insertion order. */
module Grouping {
  import opened Seqs
  import opened Rows

  function Sum(s: seq<int>): int
  {
    if s == [] then 0 else Sum(s[..|s| - 1]) + s[|s| - 1]
  }

  /** The total points of the rows. */
  function Total(rows: seq<Row>): int
  {
    if rows == [] then 0 else Total(rows[..|rows| - 1]) + rows[|rows| - 1].points
  }

  /** The total points of the rows whose key is `k`. */
  function GroupTotal(rows: seq<Row>, key: Row -> string, k: string): int
  {
    if rows == [] then 0
    else
      var last := rows[|rows| - 1];
      GroupTotal(rows[..|rows| - 1], key, k) + (if key(last) == k then last.points else 0)
  }

  /** The keys present, in first-seen order: the accumulator's `Object.keys`. */
  function GroupKeys(rows: seq<Row>, key: Row -> string): seq<string>
  {
    Distinct(Map(rows, key))
  }

  /** The group totals of the keys `ks`, in the order of `ks`. */
  function Totals(ks: seq<string>, rows: seq<Row>, key: Row -> string): seq<int>
  {
    seq(|ks|, i requires 0 <= i < |ks| => GroupTotal(rows, key, ks[i]))
  }

  // ------------------------------------------------------------ arithmetic

  lemma SumAppendOne(s: seq<int>, x: int)
    ensures Sum(s + [x]) == Sum(s) + x
  {
    assert (s + [x])[..|s|] == s;
  }

  /** The sum of a longer prefix adds the next number. */
  lemma SumPrefixStep(s: seq<int>, i: int)
    requires 0 <= i < |s|
    ensures Sum(s[..i + 1]) == Sum(s[..i]) + s[i]
  {
    assert s[..i + 1] == s[..i] + [s[i]];
    SumAppendOne(s[..i], s[i]);
  }

  lemma {:induction false} SumConcat(a: seq<int>, b: seq<int>)
    ensures Sum(a + b) == Sum(a) + Sum(b)
    decreases |b|
  {
    if b == [] {
      assert a + b == a;
    } else {
      var b', y := b[..|b| - 1], b[|b| - 1];
      assert a + b == (a + b') + [y];
      assert b == b' + [y];
      SumAppendOne(a + b', y);
      SumAppendOne(b', y);
      SumConcat(a, b');
    }
  }

  lemma TotalsConcat(a: seq<string>, b: seq<string>, rows: seq<Row>, key: Row -> string)
    ensures Totals(a + b, rows, key) == Totals(a, rows, key) + Totals(b, rows, key)
  {
    var l, r := Totals(a + b, rows, key), Totals(a, rows, key) + Totals(b, rows, key);
    assert |l| == |r|;
    forall i | 0 <= i < |l|
      ensures l[i] == r[i]
    {
      if i < |a| {
        assert (a + b)[i] == a[i];
      } else {
        assert (a + b)[i] == b[i - |a|];
      }
    }
  }

  // -------------------------------------------------------------- grouping

  lemma GroupKeysAppendOne(rows: seq<Row>, r: Row, key: Row -> string)
    ensures GroupKeys(rows + [r], key) ==
            if key(r) in GroupKeys(rows, key) then GroupKeys(rows, key) else GroupKeys(rows, key) + [key(r)]
  {
    MapAppendOne(rows, r, key);
    DistinctAppendOne(Map(rows, key), key(r));
  }

  lemma GroupTotalAppendOne(rows: seq<Row>, r: Row, key: Row -> string, k: string)
    ensures GroupTotal(rows + [r], key, k) == GroupTotal(rows, key, k) + (if key(r) == k then r.points else 0)
  {
    assert (rows + [r])[..|rows|] == rows;
  }

  /** The keys are distinct and are exactly the keys of the rows. */
  lemma GroupKeysElements(rows: seq<Row>, key: Row -> string)
    ensures NoDup(GroupKeys(rows, key))
    ensures forall k :: k in GroupKeys(rows, key) ==> exists r :: r in rows && key(r) == k
    ensures forall r :: r in rows ==> key(r) in GroupKeys(rows, key)
  {
    var col := Map(rows, key);
    DistinctElements(col);
    forall k | k in GroupKeys(rows, key)
      ensures exists r :: r in rows && key(r) == k
    {
      var i :| 0 <= i < |col| && col[i] == k;
      assert rows[i] in rows;
    }
    forall r | r in rows
      ensures key(r) in GroupKeys(rows, key)
    {
      var i :| 0 <= i < |rows| && rows[i] == r;
      assert col[i] == key(r);
    }
  }

  lemma {:induction false} GroupTotalOfAbsentKey(rows: seq<Row>, key: Row -> string, k: string)
    requires k !in GroupKeys(rows, key)
    ensures GroupTotal(rows, key, k) == 0
  {
    if rows != [] {
      var init, last := rows[..|rows| - 1], rows[|rows| - 1];
      assert rows == init + [last];
      GroupKeysAppendOne(init, last, key);
      GroupKeysElements(init, key);
      GroupTotalOfAbsentKey(init, key, k);
    }
  }

  /** Adding a row adds its points to its own group's total, once. */
  lemma {:induction false} SumTotalsAddRow(ks: seq<string>, rows: seq<Row>, r: Row, key: Row -> string)
    requires NoDup(ks)
    ensures Sum(Totals(ks, rows + [r], key)) ==
            Sum(Totals(ks, rows, key)) + (if key(r) in ks then r.points else 0)
  {
    if ks != [] {
      var ks', k := ks[..|ks| - 1], ks[|ks| - 1];
      assert ks == ks' + [k];
      assert NoDup(ks');
      assert k !in ks';
      SumTotalsAddRow(ks', rows, r, key);
      TotalsConcat(ks', [k], rows + [r], key);
      TotalsConcat(ks', [k], rows, key);
      SumConcat(Totals(ks', rows + [r], key), Totals([k], rows + [r], key));
      SumConcat(Totals(ks', rows, key), Totals([k], rows, key));
      GroupTotalAppendOne(rows, r, key, k);
      assert Sum(Totals([k], rows + [r], key)) == GroupTotal(rows + [r], key, k);
      assert Sum(Totals([k], rows, key)) == GroupTotal(rows, key, k);
    }
  }

  /** Conservation: the group totals add up to the total points. */
  lemma {:induction false} GroupTotalsConserve(rows: seq<Row>, key: Row -> string)
    ensures Sum(Totals(GroupKeys(rows, key), rows, key)) == Total(rows)
  {
    if rows != [] {
      var init, last := rows[..|rows| - 1], rows[|rows| - 1];
      assert rows == init + [last];
      var ks := GroupKeys(init, key);
      GroupTotalsConserve(init, key);
      GroupKeysAppendOne(init, last, key);
      GroupKeysElements(init, key);
      SumTotalsAddRow(ks, init, last, key);
      if key(last) !in ks {
        TotalsConcat(ks, [key(last)], rows, key);
        SumConcat(Totals(ks, rows, key), Totals([key(last)], rows, key));
        GroupTotalAppendOne(init, last, key, key(last));
        GroupTotalOfAbsentKey(init, key, key(last));
        assert Sum(Totals([key(last)], rows, key)) == GroupTotal(rows, key, key(last));
      }
    }
  }

  lemma {:induction false} SumTotalsInsert(x: string, s: seq<string>, le: (string, string) -> bool,
                                              rows: seq<Row>, key: Row -> string)
    ensures Sum(Totals(Insert(x, s, le), rows, key)) == GroupTotal(rows, key, x) + Sum(Totals(s, rows, key))
  {
    if s == [] || le(x, s[0]) {
      TotalsConcat([x], s, rows, key);
      SumConcat(Totals([x], rows, key), Totals(s, rows, key));
      assert Sum(Totals([x], rows, key)) == GroupTotal(rows, key, x);
    } else {
      var s0, rest := s[0], s[1..];
      assert s == [s0] + rest;
      SumTotalsInsert(x, rest, le, rows, key);
      TotalsConcat([s0], Insert(x, rest, le), rows, key);
      SumConcat(Totals([s0], rows, key), Totals(Insert(x, rest, le), rows, key));
      TotalsConcat([s0], rest, rows, key);
      SumConcat(Totals([s0], rows, key), Totals(rest, rows, key));
    }
  }

  /** Listing the groups in another order does not change their sum. */
  lemma {:induction false} SumTotalsSorted(ks: seq<string>, le: (string, string) -> bool,
                                           rows: seq<Row>, key: Row -> string)
    ensures Sum(Totals(Sort(ks, le), rows, key)) == Sum(Totals(ks, rows, key))
  {
    if ks != [] {
      SumTotalsSorted(ks[1..], le, rows, key);
      SumTotalsInsert(ks[0], Sort(ks[1..], le), le, rows, key);
      assert ks == [ks[0]] + ks[1..];
      TotalsConcat([ks[0]], ks[1..], rows, key);
      SumConcat(Totals([ks[0]], rows, key), Totals(ks[1..], rows, key));
    }
  }

  /** With only positive points every group present has a positive total. */
  lemma {:induction false} GroupTotalPositive(rows: seq<Row>, key: Row -> string, k: string)
    requires forall r :: r in rows ==> r.points > 0
    requires k in GroupKeys(rows, key)
    ensures GroupTotal(rows, key, k) > 0
  {
    var init, last := rows[..|rows| - 1], rows[|rows| - 1];
    assert rows == init + [last];
    GroupKeysAppendOne(init, last, key);
    if k in GroupKeys(init, key) {
      GroupTotalPositive(init, key, k);
    } else {
      GroupTotalOfAbsentKey(init, key, k);
    }
  }

  /** The object-filling loop: `if (!acc[k]) acc[k] = 0; acc[k] += points`
      for every row, the keys kept in insertion order. */
  method GroupSums(rows: seq<Row>, key: Row -> string) returns (keys: seq<string>, sums: map<string, int>)
    ensures keys == GroupKeys(rows, key)
    ensures forall k :: k in sums <==> k in keys
    ensures forall k :: k in sums ==> sums[k] == GroupTotal(rows, key, k)
  {
    keys, sums := [], map[];
    for i := 0 to |rows|
      invariant keys == GroupKeys(rows[..i], key)
      invariant forall k :: k in sums <==> k in keys
      invariant forall k :: k in sums ==> sums[k] == GroupTotal(rows[..i], key, k)
    {
      var k := key(rows[i]);
      if k !in keys {
        GroupTotalOfAbsentKey(rows[..i], key, k);
      }
      assert rows[..i + 1] == rows[..i] + [rows[i]];
      GroupKeysAppendOne(rows[..i], rows[i], key);
      forall k' ensures GroupTotal(rows[..i + 1], key, k') ==
                        GroupTotal(rows[..i], key, k') + (if k == k' then rows[i].points else 0)
      {
        GroupTotalAppendOne(rows[..i], rows[i], key, k');
      }
      if k !in sums || sums[k] == 0 {
        if k !in sums {
          keys := keys + [k];
        }
        sums := sums[k := 0];
      }
      assert sums[k] == GroupTotal(rows[..i], key, k);
      sums := sums[k := sums[k] + rows[i].points];
    }
    assert rows[..|rows|] == rows;
  }
}
