/** The read-only handlers: product listing, the low-stock filter, the dashboard
    summary and the most recent restock events. */
module Queries {
  import opened Wrappers
  import opened Records

  // ---------------------------------------------------------------- listing

  /** The smallest primary key of a non-empty key set. */
  function MinKey(s: set<int>): (k: int)
    requires s != {}
    ensures k in s && forall j :: j in s ==> k <= j
  {
    MinKeyExists(s);
    var k :| k in s && forall j :: j in s ==> k <= j; k
  }

  lemma {:induction false} MinKeyExists(s: set<int>)
    requires s != {}
    ensures exists k :: k in s && forall j :: j in s ==> k <= j
    decreases |s|
  {
    var x := Member(s);
    if s == {x} {
      assert forall j :: j in s ==> x <= j;
    } else {
      MinKeyExists(s - {x});
      var m :| m in s - {x} && forall j :: j in s - {x} ==> m <= j;
      var k := if x < m then x else m;
      LowerOfTwo(s, x, m, k);
    }
  }

  lemma LowerOfTwo(s: set<int>, x: int, m: int, k: int)
    requires x in s && m in s - {x} && forall j :: j in s - {x} ==> m <= j
    requires k == if x < m then x else m
    ensures k in s && forall j :: j in s ==> k <= j
  {
    forall j | j in s ensures k <= j {
      if j != x { assert j in s - {x}; }
    }
  }

  /** Some element of a non-empty set. The explicit emptiness test gives the
      solver the witness that a bare `var y :| y in s` does not find here. */
  ghost function Member(s: set<int>): (x: int)
    requires s != {}
    ensures x in s
  {
    if forall y :: y !in s then
      assert false; 0
    else
      var y :| y in s; y
  }

  /** The keys of a table in ascending order: each key exactly once. */
  function SortedKeys(s: set<int>): (r: seq<int>)
    ensures |r| == |s|
    ensures forall k :: k in r <==> k in s
    ensures forall i, j :: 0 <= i < j < |r| ==> r[i] < r[j]
    decreases |s|
  {
    if s == {} then []
    else
      var k := MinKey(s);
      [k] + SortedKeys(s - {k})
  }

  /** The rows stored under the keys `ks`, in that order. */
  function RowsAt(t: Table, ks: seq<int>): (r: seq<Product>)
    requires forall i :: 0 <= i < |ks| ==> ks[i] in t
    ensures |r| == |ks|
    ensures forall i :: 0 <= i < |ks| ==> r[i] == t[ks[i]]
  {
    if ks == [] then [] else [t[ks[0]]] + RowsAt(t, ks[1..])
  }

  /** `p` is a row of the table. */
  ghost predicate Stored(t: Table, p: Product) {
    exists k :: k in t && t[k] == p
  }

  /** `Product.query.all()`: every row once, in ascending primary-key order. */
  function AllProducts(t: Table): (r: seq<Product>)
    ensures |r| == |t|
    ensures forall p :: p in r <==> Stored(t, p)
    ensures WellKeyed(t) ==> forall i, j :: 0 <= i < j < |r| ==> r[i].id < r[j].id
  {
    var ks := SortedKeys(t.Keys);
    assert |t.Keys| == |t|;
    RowsAtStored(t, ks);
    RowsAt(t, ks)
  }

  lemma {:induction false} RowsAtStored(t: Table, ks: seq<int>)
    requires forall i :: 0 <= i < |ks| ==> ks[i] in t
    requires forall k :: k in t ==> k in ks
    ensures forall p :: p in RowsAt(t, ks) <==> Stored(t, p)
  {
    var r := RowsAt(t, ks);
    forall p | Stored(t, p) ensures p in r {
      var k :| k in t && t[k] == p;
      assert k in ks;
      var i :| 0 <= i < |ks| && ks[i] == k;
      assert r[i] == p;
    }
    forall p | p in r ensures Stored(t, p) {
      var i :| 0 <= i < |r| && r[i] == p;
      var k := ks[i];
      assert k in t && t[k] == p;
    }
  }

  // -------------------------------------------------------------- low stock

  ghost predicate IsLow(p: Product) {
    p.stockLevel < LowStockThreshold
  }

  /** The rows of `ps` whose stock is below the threshold, in their order. */
  function FilterLow(ps: seq<Product>): (r: seq<Product>)
    ensures |r| <= |ps|
    ensures forall p :: p in r <==> p in ps && IsLow(p)
  {
    if ps == [] then []
    else if ps[0].stockLevel < LowStockThreshold then [ps[0]] + FilterLow(ps[1..])
    else FilterLow(ps[1..])
  }

  /** `GET /api/products/low-stock`: exactly the products whose stock is below 10. */
  function LowStock(t: Table): (r: seq<Product>)
    ensures forall p :: p in r <==> Stored(t, p) && IsLow(p)
  {
    FilterLow(AllProducts(t))
  }

  // ---------------------------------------------------------------- summary

  function SumStock(ps: seq<Product>): int {
    if ps == [] then 0 else ps[0].stockLevel + SumStock(ps[1..])
  }

  /** The worth of one row: a missing price counts as 0. */
  function RowValue(p: Product): int {
    p.price.GetOr(0) * p.stockLevel
  }

  function SumValue(ps: seq<Product>): int {
    if ps == [] then 0 else RowValue(ps[0]) + SumValue(ps[1..])
  }

  /** The sum of the stock levels of all products. */
  function TotalStock(t: Table): int {
    SumStock(AllProducts(t))
  }

  /** The sum of price times stock level over all products. */
  function TotalValue(t: Table): int {
    SumValue(AllProducts(t))
  }

  /** The number of restock events at or after `since`. */
  function CountSince(logs: seq<RestockLog>, since: int): (n: nat)
    ensures n <= |logs|
  {
    if logs == [] then 0
    else (if logs[0].timestamp >= since then 1 else 0) + CountSince(logs[1..], since)
  }

  datatype DashboardSummary = DashboardSummary(
    totalProducts: int,
    totalValue: int,
    lowStockProducts: int,
    restocksPending: int)

  /** `GET /api/dashboard/summary` at time `now`. */
  function Summary(t: Table, logs: seq<RestockLog>, now: int): (s: DashboardSummary)
    ensures s.totalProducts == |t|
    ensures s.totalValue == TotalValue(t)
    ensures s.lowStockProducts == |LowStock(t)| <= |t|
    ensures 0 <= s.restocksPending <= |logs|
  {
    var ps := AllProducts(t);
    DashboardSummary(
      |ps|,
      SumValue(ps),
      |FilterLow(ps)|,
      CountSince(logs, now - SecondsPerDay))
  }

  /** No restock event occurs twice (each row has its own primary key). */
  ghost predicate DistinctLogs(logs: seq<RestockLog>) {
    forall i, j :: 0 <= i < j < |logs| ==> logs[i] != logs[j]
  }

  /** The summary's counts are the sizes of the sets of rows they describe. */
  lemma SummaryCounts(t: Table, logs: seq<RestockLog>, now: int)
    requires DistinctLogs(logs)
    ensures Summary(t, logs, now).lowStockProducts == |set id | id in t && IsLow(t[id])|
    ensures Summary(t, logs, now).restocksPending
         == |set l | l in logs && l.timestamp >= now - SecondsPerDay|
  {
    LowCount(t);
    PendingCount(logs, now - SecondsPerDay);
  }

  /** The low-stock list holds each low product once. */
  lemma LowCount(t: Table)
    ensures |LowStock(t)| == |set id | id in t && IsLow(t[id])|
  {
    var ks := SortedKeys(t.Keys);
    LowRowsCount(t, ks);
    LowKeys(t, ks);
  }

  lemma LowKeys(t: Table, ks: seq<int>)
    requires forall k :: k in ks <==> k in t
    ensures (set k | k in ks && LowAt(t, k)) == (set id | id in t && IsLow(t[id]))
  {
    var a := set k | k in ks && LowAt(t, k);
    var b := set id | id in t && IsLow(t[id]);
    forall k | k in b ensures k in a {
      assert k in ks;
    }
    forall k | k in a ensures k in b {
      assert k in t;
    }
  }

  ghost predicate LowAt(t: Table, k: int) {
    k in t && IsLow(t[k])
  }

  lemma {:induction false} LowRowsCount(t: Table, ks: seq<int>)
    requires forall i :: 0 <= i < |ks| ==> ks[i] in t
    requires forall i, j :: 0 <= i < j < |ks| ==> ks[i] != ks[j]
    ensures |FilterLow(RowsAt(t, ks))| == |set k | k in ks && LowAt(t, k)|
  {
    if ks == [] {
      assert (set k | k in ks && LowAt(t, k)) == {};
    } else {
      var rest := ks[1..];
      assert forall i, j :: 0 <= i < j < |rest| ==> rest[i] != rest[j] by {
        forall i, j | 0 <= i < j < |rest| ensures rest[i] != rest[j] {
          assert rest[i] == ks[i + 1] && rest[j] == ks[j + 1];
        }
      }
      LowRowsCount(t, rest);
      LowRowsStep(t, ks);
      LowSetStep(t, ks);
    }
  }

  lemma LowRowsStep(t: Table, ks: seq<int>)
    requires ks != [] && forall i :: 0 <= i < |ks| ==> ks[i] in t
    ensures |FilterLow(RowsAt(t, ks))|
         == |FilterLow(RowsAt(t, ks[1..]))| + (if IsLow(t[ks[0]]) then 1 else 0)
  {
    var rows := RowsAt(t, ks);
    assert rows[0] == t[ks[0]] && rows[1..] == RowsAt(t, ks[1..]);
  }

  lemma LowSetStep(t: Table, ks: seq<int>)
    requires ks != [] && ks[0] !in ks[1..]
    ensures |set k | k in ks && LowAt(t, k)|
         == |set k | k in ks[1..] && LowAt(t, k)| + (if LowAt(t, ks[0]) then 1 else 0)
  {
    var low := set k | k in ks && LowAt(t, k);
    var lowRest := set k | k in ks[1..] && LowAt(t, k);
    assert ks == [ks[0]] + ks[1..];
    if LowAt(t, ks[0]) {
      assert low == {ks[0]} + lowRest;
    } else {
      assert low == lowRest;
    }
  }

  lemma {:induction false} PendingCount(logs: seq<RestockLog>, since: int)
    requires DistinctLogs(logs)
    ensures CountSince(logs, since) == |set l | l in logs && l.timestamp >= since|
  {
    if logs == [] {
      assert (set l | l in logs && l.timestamp >= since) == {};
    } else {
      DistinctTail(logs);
      PendingCount(logs[1..], since);
      PendingStep(logs, since);
    }
  }

  lemma DistinctTail(logs: seq<RestockLog>)
    requires logs != [] && DistinctLogs(logs)
    ensures DistinctLogs(logs[1..]) && logs[0] !in logs[1..]
  {
    var rest := logs[1..];
    forall i | 0 <= i < |rest| ensures rest[i] != logs[0] { assert logs[i + 1] == rest[i]; }
    forall i, j | 0 <= i < j < |rest| ensures rest[i] != rest[j] {
      assert rest[i] == logs[i + 1] && rest[j] == logs[j + 1];
    }
  }

  lemma PendingStep(logs: seq<RestockLog>, since: int)
    requires logs != [] && logs[0] !in logs[1..]
    ensures |set l | l in logs && l.timestamp >= since|
         == |set l | l in logs[1..] && l.timestamp >= since| + (if logs[0].timestamp >= since then 1 else 0)
  {
    var recent := set l | l in logs && l.timestamp >= since;
    var recentRest := set l | l in logs[1..] && l.timestamp >= since;
    assert logs == [logs[0]] + logs[1..];
    if logs[0].timestamp >= since {
      assert recent == {logs[0]} + recentRest;
    } else {
      assert recent == recentRest;
    }
  }

  // ------------------------------------------------------- stock aggregates

  /** Changing one stored row changes the sum over the rows by the difference. */
  lemma {:induction false} SumAfterReplace(t: Table, ks: seq<int>, id: int, p: Product)
    requires id in t
    requires forall i :: 0 <= i < |ks| ==> ks[i] in t
    requires forall i, j :: 0 <= i < j < |ks| ==> ks[i] != ks[j]
    ensures SumStock(RowsAt(t[id := p], ks))
         == SumStock(RowsAt(t, ks)) + (if id in ks then p.stockLevel - t[id].stockLevel else 0)
    ensures SumValue(RowsAt(t[id := p], ks))
         == SumValue(RowsAt(t, ks)) + (if id in ks then RowValue(p) - RowValue(t[id]) else 0)
  {
    if ks != [] {
      var rest := ks[1..];
      assert forall i, j :: 0 <= i < j < |rest| ==> rest[i] != rest[j] by {
        forall i, j | 0 <= i < j < |rest| ensures rest[i] != rest[j] {
          assert rest[i] == ks[i + 1] && rest[j] == ks[j + 1];
        }
      }
      SumAfterReplace(t, rest, id, p);
      assert RowsAt(t, ks)[1..] == RowsAt(t, rest);
      assert RowsAt(t[id := p], ks)[1..] == RowsAt(t[id := p], rest);
      if ks[0] == id {
        assert id !in rest by {
          forall i | 0 <= i < |rest| ensures rest[i] != id { assert ks[i + 1] == rest[i]; }
        }
      } else {
        assert id in ks <==> id in rest;
      }
    }
  }

  /** Replacing one row changes the total stock, and the total value, by that row's difference. */
  lemma ReplaceRow(t: Table, id: int, p: Product)
    requires id in t
    ensures TotalStock(t[id := p]) == TotalStock(t) + p.stockLevel - t[id].stockLevel
    ensures TotalValue(t[id := p]) == TotalValue(t) + RowValue(p) - RowValue(t[id])
  {
    assert t[id := p].Keys == t.Keys;
    var ks := SortedKeys(t.Keys);
    SumAfterReplace(t, ks, id, p);
  }

  /** Adding `q` to one product's stock adds `q` to the total stock. */
  lemma RestockTotalStock(t: Table, id: int, q: int)
    requires id in t
    ensures TotalStock(t[id := Restocked(t[id], q)]) == TotalStock(t) + q
  {
    ReplaceRow(t, id, Restocked(t[id], q));
  }

  /** Adding `q` to one product's stock adds its price times `q` to the total value. */
  lemma RestockTotalValue(t: Table, id: int, q: int)
    requires id in t
    ensures TotalValue(t[id := Restocked(t[id], q)]) == TotalValue(t) + t[id].price.GetOr(0) * q
  {
    var p := Restocked(t[id], q);
    ReplaceRow(t, id, p);
    RowValueAdd(t[id], q);
  }

  lemma RowValueAdd(p: Product, q: int)
    ensures RowValue(Restocked(p, q)) == RowValue(p) + p.price.GetOr(0) * q
  {
    var c := p.price.GetOr(0);
    assert c * (p.stockLevel + q) == c * p.stockLevel + c * q;
  }

  lemma {:induction false} SumsConcat(x: seq<Product>, y: seq<Product>)
    ensures SumStock(x + y) == SumStock(x) + SumStock(y)
    ensures SumValue(x + y) == SumValue(x) + SumValue(y)
  {
    if x != [] {
      SumsConcat(x[1..], y);
      assert (x + y)[1..] == x[1..] + y;
    } else {
      assert x + y == y;
    }
  }

  // The short set and sequence facts below (RowsAtSame, MinKeyIs, SortedKeysStep,
  // AddThenRemove, ConsSnoc, TotalsOver, RemoveTwice, WithoutCons, KeepOther) are
  // proof steps, not claims about the store: each is stated on its own so that the
  // lemmas using it stay small enough for the solver.

  lemma RowsAtSame(t: Table, t': Table, ks: seq<int>)
    requires forall i :: 0 <= i < |ks| ==> ks[i] in t && ks[i] in t' && t[ks[i]] == t'[ks[i]]
    ensures RowsAt(t, ks) == RowsAt(t', ks)
  {
  }

  /** Any element below or equal to all others is the smallest key. */
  lemma MinKeyIs(s: set<int>, m: int)
    requires m in s && forall j :: j in s ==> m <= j
    ensures MinKey(s) == m
  {
  }

  /** One step of the ascending order: the smallest key, then the rest. */
  lemma SortedKeysStep(s: set<int>)
    requires s != {}
    ensures SortedKeys(s) == [MinKey(s)] + SortedKeys(s - {MinKey(s)})
  {
  }

  /** A key above every stored key goes to the end of the ascending order. */
  lemma {:induction false} AddKey(s: set<int>, n: int)
    requires forall k :: k in s ==> k < n
    ensures SortedKeys(s + {n}) == SortedKeys(s) + [n]
    decreases |s|
  {
    var s' := s + {n};
    SortedKeysStep(s');
    if s == {} {
      assert s' == {n};
      MinKeyIs(s', n);
      assert s' - {n} == {};
    } else {
      var m := MinKey(s);
      var r := s - {m};
      assert m in s' && forall j :: j in s' ==> m <= j;
      MinKeyIs(s', m);
      SortedKeysStep(s);
      AddThenRemove(s, n, m);
      AddKey(r, n);
      ConsSnoc(m, SortedKeys(r), n);
    }
  }

  lemma AddThenRemove(s: set<int>, n: int, m: int)
    requires m != n
    ensures (s + {n}) - {m} == (s - {m}) + {n}
  {
  }

  lemma ConsSnoc(m: int, ks: seq<int>, n: int)
    ensures [m] + (ks + [n]) == ([m] + ks) + [n]
  {
  }

  lemma {:induction false} RowsAtConcat(t: Table, a: seq<int>, b: seq<int>)
    requires forall i :: 0 <= i < |a| ==> a[i] in t
    requires forall i :: 0 <= i < |b| ==> b[i] in t
    ensures forall i :: 0 <= i < |a + b| ==> (a + b)[i] in t
    ensures RowsAt(t, a + b) == RowsAt(t, a) + RowsAt(t, b)
  {
    assert forall i :: 0 <= i < |a + b| ==> (a + b)[i] in t by {
      forall i | 0 <= i < |a + b| ensures (a + b)[i] in t {
        if i < |a| { assert (a + b)[i] == a[i]; } else { assert (a + b)[i] == b[i - |a|]; }
      }
    }
  }

  /** The totals are sums over the rows in ascending key order. */
  lemma TotalsOver(t: Table)
    ensures TotalStock(t) == SumStock(RowsAt(t, SortedKeys(t.Keys)))
    ensures TotalValue(t) == SumValue(RowsAt(t, SortedKeys(t.Keys)))
  {
  }

  /** A product created with an id above every stored one adds its stock and its value to the totals. */
  lemma AddRowTotals(t: Table, p: Product)
    requires forall k :: k in t ==> k < p.id
    ensures TotalStock(t[p.id := p]) == TotalStock(t) + p.stockLevel
    ensures TotalValue(t[p.id := p]) == TotalValue(t) + RowValue(p)
  {
    AddRows(t, p);
    SumsSnoc(AllProducts(t), p);
  }

  lemma SumsSnoc(x: seq<Product>, p: Product)
    ensures SumStock(x + [p]) == SumStock(x) + p.stockLevel
    ensures SumValue(x + [p]) == SumValue(x) + RowValue(p)
  {
    SumsConcat(x, [p]);
    assert [p][1..] == [];
  }

  /** A product with an id above every stored one is listed last. */
  lemma AddRows(t: Table, p: Product)
    requires forall k :: k in t ==> k < p.id
    ensures AllProducts(t[p.id := p]) == AllProducts(t) + [p]
  {
    var t' := t[p.id := p];
    var ks := SortedKeys(t.Keys);
    assert t'.Keys == t.Keys + {p.id};
    AddKey(t.Keys, p.id);
    AppendRow(t, p, ks);
  }

  lemma AppendRow(t: Table, p: Product, ks: seq<int>)
    requires forall i :: 0 <= i < |ks| ==> ks[i] in t && ks[i] != p.id
    ensures forall i :: 0 <= i < |ks + [p.id]| ==> (ks + [p.id])[i] in t[p.id := p]
    ensures RowsAt(t[p.id := p], ks + [p.id]) == RowsAt(t, ks) + [p]
  {
    var t' := t[p.id := p];
    RowsAtSame(t, t', ks);
    RowsAtConcat(t', ks, [p.id]);
    assert RowsAt(t', [p.id]) == [p];
  }

  /** `ks` without its entry at position `i`. */
  function Without(ks: seq<int>, i: nat): (r: seq<int>)
    requires i < |ks|
    ensures |r| == |ks| - 1
    ensures forall j :: 0 <= j < i ==> r[j] == ks[j]
    ensures forall j :: i <= j < |r| ==> r[j] == ks[j + 1]
  {
    ks[..i] + ks[i + 1..]
  }

  /** Removing a key removes its one position from the ascending order. */
  lemma {:induction false} RemoveKey(s: set<int>, x: int) returns (i: nat)
    requires x in s
    ensures i < |SortedKeys(s)| && SortedKeys(s)[i] == x
    ensures SortedKeys(s - {x}) == Without(SortedKeys(s), i)
    decreases |s|
  {
    var m := MinKey(s);
    var ks := SortedKeys(s);
    SortedKeysStep(s);
    if x == m {
      i := 0;
      assert Without(ks, 0) == ks[1..];
    } else {
      var j := RemoveKey(s - {m}, x);
      i := j + 1;
      RemoveOther(s, x, m);
      WithoutCons(m, SortedKeys(s - {m}), j);
    }
  }

  lemma RemoveOther(s: set<int>, x: int, m: int)
    requires x in s && m == MinKey(s) && x != m
    ensures SortedKeys(s - {x}) == [m] + SortedKeys((s - {m}) - {x})
  {
    var s' := s - {x};
    assert m in s' && forall j :: j in s' ==> m <= j;
    MinKeyIs(s', m);
    SortedKeysStep(s');
    RemoveTwice(s, x, m);
  }

  lemma RemoveTwice(s: set<int>, x: int, m: int)
    ensures (s - {x}) - {m} == (s - {m}) - {x}
  {
  }

  lemma WithoutCons(m: int, ks: seq<int>, j: nat)
    requires j < |ks|
    ensures Without([m] + ks, j + 1) == [m] + Without(ks, j)
  {
  }

  /** Summing over the rows at `ks` without position `i`, in a table that agrees
      elsewhere, leaves out exactly the row at `ks[i]`. */
  lemma SumWithout(t: Table, t': Table, ks: seq<int>, i: nat)
    requires i < |ks|
    requires forall j :: 0 <= j < |ks| ==> ks[j] in t
    requires forall j :: 0 <= j < |ks| && j != i ==> ks[j] in t' && t'[ks[j]] == t[ks[j]]
    ensures forall j :: 0 <= j < |Without(ks, i)| ==> Without(ks, i)[j] in t'
    ensures SumStock(RowsAt(t, ks)) == SumStock(RowsAt(t', Without(ks, i))) + t[ks[i]].stockLevel
    ensures SumValue(RowsAt(t, ks)) == SumValue(RowsAt(t', Without(ks, i))) + RowValue(t[ks[i]])
  {
    var x := RowsAt(t, ks);
    RowsWithout(t, t', ks, i);
    SumsDrop(x, i);
  }

  lemma RowsWithout(t: Table, t': Table, ks: seq<int>, i: nat)
    requires i < |ks|
    requires forall j :: 0 <= j < |ks| ==> ks[j] in t
    requires forall j :: 0 <= j < |ks| && j != i ==> ks[j] in t' && t'[ks[j]] == t[ks[j]]
    ensures forall j :: 0 <= j < |Without(ks, i)| ==> Without(ks, i)[j] in t'
    ensures RowsAt(t', Without(ks, i)) == RowsAt(t, ks)[..i] + RowsAt(t, ks)[i + 1..]
  {
    var w := Without(ks, i);
    assert forall j :: 0 <= j < |w| ==> w[j] in t' by {
      forall j | 0 <= j < |w| ensures w[j] in t' {
        if j < i { assert w[j] == ks[j]; } else { assert w[j] == ks[j + 1]; }
      }
    }
  }

  /** Dropping one row from a sequence drops its share of each sum. */
  lemma SumsDrop(x: seq<Product>, i: nat)
    requires i < |x|
    ensures SumStock(x) == SumStock(x[..i] + x[i + 1..]) + x[i].stockLevel
    ensures SumValue(x) == SumValue(x[..i] + x[i + 1..]) + RowValue(x[i])
  {
    assert x == x[..i] + ([x[i]] + x[i + 1..]);
    SumsConcat(x[..i], [x[i]] + x[i + 1..]);
    SumsConcat(x[..i], x[i + 1..]);
    assert ([x[i]] + x[i + 1..])[1..] == x[i + 1..];
  }

  /** Deleting a product removes its stock and its value from the totals. */
  lemma DeleteRowTotals(t: Table, id: int)
    requires id in t
    ensures TotalStock(t - {id}) == TotalStock(t) - t[id].stockLevel
    ensures TotalValue(t - {id}) == TotalValue(t) - RowValue(t[id])
  {
    var ks := SortedKeys(t.Keys);
    var i := DeleteKeys(t, id);
    SumWithout(t, t - {id}, ks, i);
    TotalsOver(t);
    TotalsOver(t - {id});
  }

  lemma DeleteKeys(t: Table, id: int) returns (i: nat)
    requires id in t
    ensures i < |SortedKeys(t.Keys)| && SortedKeys(t.Keys)[i] == id
    ensures SortedKeys((t - {id}).Keys) == Without(SortedKeys(t.Keys), i)
    ensures forall j :: 0 <= j < |SortedKeys(t.Keys)| && j != i ==>
      SortedKeys(t.Keys)[j] in t - {id} && (t - {id})[SortedKeys(t.Keys)[j]] == t[SortedKeys(t.Keys)[j]]
  {
    assert (t - {id}).Keys == t.Keys - {id};
    i := RemoveKey(t.Keys, id);
    var ks := SortedKeys(t.Keys);
    forall j | 0 <= j < |ks| && j != i
      ensures ks[j] in t - {id} && (t - {id})[ks[j]] == t[ks[j]]
    {
      assert ks[j] != id by {
        if j < i { assert ks[j] < ks[i]; } else { assert ks[i] < ks[j]; }
      }
      KeepOther(t, id, ks[j]);
    }
  }

  lemma KeepOther(t: Table, id: int, k: int)
    requires k in t && k != id
    ensures k in t - {id} && (t - {id})[k] == t[k]
  {
  }

  // ------------------------------------------------------- recent restocks

  /** Newest first: timestamps never increase along the sequence. */
  ghost predicate NewestFirst(s: seq<RestockLog>) {
    forall i, j :: 0 <= i < j < |s| ==> s[i].timestamp >= s[j].timestamp
  }

  /** Inserts `x` before the first entry that is not newer than it. */
  function InsertByTime(x: RestockLog, s: seq<RestockLog>): (r: seq<RestockLog>)
    ensures multiset(r) == multiset(s) + multiset{x}
    ensures forall y :: y in r ==> y == x || y in s
    ensures NewestFirst(s) ==> NewestFirst(r)
  {
    if s == [] || x.timestamp >= s[0].timestamp then [x] + s
    else
      var rest := InsertByTime(x, s[1..]);
      HeadIsNewest(x, s, rest);
      [s[0]] + rest
  }

  /** Putting the head back in front of the insertion into the tail keeps the order. */
  lemma HeadIsNewest(x: RestockLog, s: seq<RestockLog>, rest: seq<RestockLog>)
    requires s != [] && x.timestamp < s[0].timestamp
    requires multiset(rest) == multiset(s[1..]) + multiset{x}
    requires forall y :: y in rest ==> y == x || y in s[1..]
    requires NewestFirst(s[1..]) ==> NewestFirst(rest)
    ensures multiset([s[0]] + rest) == multiset(s) + multiset{x}
    ensures forall y :: y in [s[0]] + rest ==> y == x || y in s
    ensures NewestFirst(s) ==> NewestFirst([s[0]] + rest)
  {
    assert s == [s[0]] + s[1..];
    if NewestFirst(s) {
      TailOfNewest(s);
      forall y | y in rest ensures s[0].timestamp >= y.timestamp {
        if y != x { HeadNewerThanTail(s, y); }
      }
      ConsNewest(s[0], rest);
    }
  }

  lemma TailOfNewest(s: seq<RestockLog>)
    requires s != [] && NewestFirst(s)
    ensures NewestFirst(s[1..])
  {
    forall i, j | 0 <= i < j < |s[1..]| ensures s[1..][i].timestamp >= s[1..][j].timestamp {
      assert s[1..][i] == s[i + 1] && s[1..][j] == s[j + 1];
    }
  }

  lemma HeadNewerThanTail(s: seq<RestockLog>, y: RestockLog)
    requires s != [] && NewestFirst(s) && y in s[1..]
    ensures s[0].timestamp >= y.timestamp
  {
    var j :| 0 <= j < |s[1..]| && s[1..][j] == y;
    assert s[j + 1] == y;
  }

  lemma ConsNewest(h: RestockLog, rest: seq<RestockLog>)
    requires NewestFirst(rest)
    requires forall y :: y in rest ==> h.timestamp >= y.timestamp
    ensures NewestFirst([h] + rest)
  {
    var r := [h] + rest;
    forall i, j | 0 <= i < j < |r| ensures r[i].timestamp >= r[j].timestamp {
      assert r[j] == rest[j - 1];
      if i > 0 { assert r[i] == rest[i - 1]; }
    }
  }

  /** The log sorted newest first; among equal timestamps the later row comes first. */
  function ByRecency(logs: seq<RestockLog>): (r: seq<RestockLog>)
    ensures multiset(r) == multiset(logs)
    ensures NewestFirst(r)
  {
    if logs == [] then []
    else
      var n := |logs| - 1;
      assert logs == logs[..n] + [logs[n]];
      InsertByTime(logs[n], ByRecency(logs[..n]))
  }

  /** `GET /api/restocks`: the five most recent restock events, newest first. */
  function RecentLogs(logs: seq<RestockLog>): (r: seq<RestockLog>)
    ensures |r| == if |logs| < RecentLogLimit then |logs| else RecentLogLimit
    ensures multiset(r) <= multiset(logs)
    ensures NewestFirst(r)
    ensures forall a, b :: a in r && b in multiset(logs) - multiset(r) ==> a.timestamp >= b.timestamp
  {
    var sorted := ByRecency(logs);
    assert |sorted| == |multiset(sorted)| == |logs|;
    var k := if |logs| < RecentLogLimit then |logs| else RecentLogLimit;
    PrefixIsNewest(sorted, k);
    sorted[..k]
  }

  /** In a newest-first sequence, every entry of a prefix is at least as new as every entry left out. */
  lemma PrefixIsNewest(s: seq<RestockLog>, k: nat)
    requires NewestFirst(s) && k <= |s|
    ensures multiset(s[..k]) <= multiset(s)
    ensures forall a, b :: a in s[..k] && b in multiset(s) - multiset(s[..k]) ==> a.timestamp >= b.timestamp
  {
    assert s == s[..k] + s[k..];
    assert multiset(s) == multiset(s[..k]) + multiset(s[k..]);
    forall a, b | a in s[..k] && b in multiset(s) - multiset(s[..k])
      ensures a.timestamp >= b.timestamp
    {
      assert b in multiset(s[k..]);
      var i :| 0 <= i < k && s[..k][i] == a;
      var j :| 0 <= j < |s[k..]| && s[k..][j] == b;
      assert s[i] == a && s[k + j] == b;
    }
  }
}
