/** A deposit table: rows carry a unique key, immutable columns and a status.
    Both deposit tables of the relayer are instances (Bitcoin rows are keyed by
    txid, BNB rows by chain and txid), and both are written only by a batch insert
    that skips known keys and by a status update on one key. */
module Table {
  import opened Common

  datatype Status = Pending | Success | Invalid | NotBelongToAgent

  datatype Row<K, D> = Row(key: K, data: D, status: Status)

  predicate Has<K(==), D>(t: seq<Row<K, D>>, k: K) {
    exists i | 0 <= i < |t| :: t[i].key == k
  }

  ghost predicate Unique<K, D>(t: seq<Row<K, D>>) {
    forall i, j | 0 <= i < j < |t| :: t[i].key != t[j].key
  }

  ghost predicate AllPending<K, D>(t: seq<Row<K, D>>) {
    forall i | 0 <= i < |t| :: t[i].status == Pending
  }

  /** The row with key `k` left the pending state. */
  ghost predicate Terminal<K, D>(t: seq<Row<K, D>>, k: K) {
    exists i | 0 <= i < |t| :: t[i].key == k && t[i].status != Pending
  }

  ghost function Keys<K, D>(t: seq<Row<K, D>>): set<K> {
    set i | 0 <= i < |t| :: t[i].key
  }

  // ---------------------------------------------------------------------------
  // Insert: one check-then-create per row, run inside a transaction.

  function InsertOne<K(==), D>(t: seq<Row<K, D>>, d: Row<K, D>): seq<Row<K, D>> {
    if Has(t, d.key) then t else t + [d]
  }

  function InsertAll<K(==), D>(t: seq<Row<K, D>>, ds: seq<Row<K, D>>): seq<Row<K, D>> {
    if ds == [] then t else InsertOne(InsertAll(t, ds[..|ds| - 1]), ds[|ds| - 1])
  }

  /** The rows of `ds` that are the first of their key and whose key `t` lacks, in order.
      Independent of any intermediate table. */
  function NewRows<K(==), D>(t: seq<Row<K, D>>, ds: seq<Row<K, D>>): seq<Row<K, D>> {
    if ds == [] then []
    else
      var n := |ds| - 1;
      NewRows(t, ds[..n]) + if Has(t, ds[n].key) || Has(ds[..n], ds[n].key) then [] else [ds[n]]
  }

  lemma {:induction false} NewRowsHas<K, D>(t: seq<Row<K, D>>, ds: seq<Row<K, D>>, k: K)
    ensures Has(NewRows(t, ds), k) <==> Has(ds, k) && !Has(t, k)
  {
    if ds != [] {
      var n := |ds| - 1;
      NewRowsHas(t, ds[..n], k);
      HasAppend(ds[..n], [ds[n]], k);
      assert ds[..n] + [ds[n]] == ds;
      var added := if Has(t, ds[n].key) || Has(ds[..n], ds[n].key) then [] else [ds[n]];
      HasAppend(NewRows(t, ds[..n]), added, k);
      assert Has([ds[n]], k) <==> ds[n].key == k by { assert Has([ds[n]], k) <==> [ds[n]][0].key == k; }
    }
  }

  lemma HasAppend<K, D>(a: seq<Row<K, D>>, b: seq<Row<K, D>>, k: K)
    ensures Has(a + b, k) <==> Has(a, k) || Has(b, k)
  {
    if Has(a, k) {
      var i :| 0 <= i < |a| && a[i].key == k;
      assert (a + b)[i].key == k;
    }
    if Has(b, k) {
      var i :| 0 <= i < |b| && b[i].key == k;
      assert (a + b)[|a| + i].key == k;
    }
  }

  /** The insert transaction is a union that keeps every existing row in place and
      appends exactly the unknown keys, each once, in list order. */
  lemma {:induction false} InsertIsUnion<K, D>(t: seq<Row<K, D>>, ds: seq<Row<K, D>>)
    ensures InsertAll(t, ds) == t + NewRows(t, ds)
  {
    if ds != [] {
      var n := |ds| - 1;
      InsertIsUnion(t, ds[..n]);
      HasAppend(t, NewRows(t, ds[..n]), ds[n].key);
      NewRowsHas(t, ds[..n], ds[n].key);
    } else {
      assert t + [] == t;
    }
  }

  lemma {:induction false} InsertHas<K, D>(t: seq<Row<K, D>>, ds: seq<Row<K, D>>, k: K)
    ensures Has(InsertAll(t, ds), k) <==> Has(t, k) || Has(ds, k)
  {
    InsertIsUnion(t, ds);
    NewRowsHas(t, ds, k);
    HasAppend(t, NewRows(t, ds), k);
  }

  lemma {:induction false} InsertKeepsUnique<K, D>(t: seq<Row<K, D>>, ds: seq<Row<K, D>>)
    requires Unique(t)
    ensures Unique(InsertAll(t, ds))
  {
    if ds != [] {
      InsertKeepsUnique(t, ds[..|ds| - 1]);
    }
  }

  /** Every row the insert adds is a row of the list. */
  lemma {:induction false} InsertAddsOnly<K, D>(t: seq<Row<K, D>>, ds: seq<Row<K, D>>)
    ensures t <= InsertAll(t, ds)
    ensures forall i | |t| <= i < |InsertAll(t, ds)| :: InsertAll(t, ds)[i] in ds && !Has(t, InsertAll(t, ds)[i].key)
  {
    if ds != [] {
      var n := |ds| - 1;
      InsertAddsOnly(t, ds[..n]);
      InsertHas(t, ds[..n], ds[n].key);
    }
  }

  /** Inserting a list and then another is inserting their concatenation. */
  lemma {:induction false} InsertAppend<K, D>(t: seq<Row<K, D>>, a: seq<Row<K, D>>, b: seq<Row<K, D>>)
    ensures InsertAll(t, a + b) == InsertAll(InsertAll(t, a), b)
  {
    if b == [] {
      assert a + b == a;
    } else {
      var n := |b| - 1;
      InsertAppend(t, a, b[..n]);
      assert (a + b)[..|a + b| - 1] == a + b[..n];
    }
  }

  /** Rerunning an insert, on any list whose keys are already known, whatever the
      statuses the rows have reached since, changes nothing. */
  lemma {:induction false} InsertIdempotent<K, D>(t: seq<Row<K, D>>, ds: seq<Row<K, D>>)
    ensures InsertAll(t, ds) == t <==> forall i | 0 <= i < |ds| :: Has(t, ds[i].key)
  {
    InsertIsUnion(t, ds);
    if forall i | 0 <= i < |ds| :: Has(t, ds[i].key) {
      if NewRows(t, ds) != [] {
        var k := NewRows(t, ds)[0].key;
        assert Has(NewRows(t, ds), k);
        NewRowsHas(t, ds, k);
        assert false;
      }
    } else {
      var i :| 0 <= i < |ds| && !Has(t, ds[i].key);
      assert Has(ds, ds[i].key);
      InsertHas(t, ds, ds[i].key);
    }
  }

  /** A list without repeated keys contributes exactly its rows with unknown keys. */
  lemma {:induction false} NewRowsCount<K, D>(t: seq<Row<K, D>>, ds: seq<Row<K, D>>, r: Row<K, D>)
    requires Unique(ds)
    ensures multiset(NewRows(t, ds))[r] == if Has(t, r.key) then 0 else multiset(ds)[r]
  {
    if ds != [] {
      var n := |ds| - 1;
      NewRowsCount(t, ds[..n], r);
      assert ds == ds[..n] + [ds[n]];
      assert !Has(ds[..n], ds[n].key);
    }
  }

  /** The order of a list without repeated keys does not matter: the table ends up
      with the same rows, row order (hence row ids) apart. */
  lemma InsertOrderIrrelevant<K, D>(t: seq<Row<K, D>>, a: seq<Row<K, D>>, b: seq<Row<K, D>>)
    requires Unique(a) && Unique(b) && multiset(a) == multiset(b)
    ensures multiset(InsertAll(t, a)) == multiset(InsertAll(t, b))
  {
    InsertIsUnion(t, a);
    InsertIsUnion(t, b);
    NewRowsOrder(t, a, b);
  }

  lemma NewRowsOrder<K, D>(t: seq<Row<K, D>>, a: seq<Row<K, D>>, b: seq<Row<K, D>>)
    requires Unique(a) && Unique(b) && multiset(a) == multiset(b)
    ensures multiset(NewRows(t, a)) == multiset(NewRows(t, b))
  {
    forall r: Row<K, D> {
      NewRowsSameCount(t, a, b, r);
    }
    MultisetExtensional(multiset(NewRows(t, a)), multiset(NewRows(t, b)));
  }

  lemma NewRowsSameCount<K, D>(t: seq<Row<K, D>>, a: seq<Row<K, D>>, b: seq<Row<K, D>>, r: Row<K, D>)
    requires Unique(a) && Unique(b) && multiset(a) == multiset(b)
    ensures multiset(NewRows(t, a))[r] == multiset(NewRows(t, b))[r]
  {
    NewRowsCount(t, a, r);
    NewRowsCount(t, b, r);
  }

  lemma MultisetExtensional<T>(a: multiset<T>, b: multiset<T>)
    requires forall x :: a[x] == b[x]
    ensures a == b
  {
  }

  /** Statements executed by the transaction before `txs[n]`: a count per row, a create per new row. */
  function StatementsBefore<K(==), D>(t: seq<Row<K, D>>, txs: seq<Row<K, D>>, n: nat): nat
    requires n <= |txs|
  {
    if n == 0 then 0
    else StatementsBefore(t, txs, n - 1) + if Has(InsertAll(t, txs[..n - 1]), txs[n - 1].key) then 1 else 2
  }

  /** The transaction reaches the statement that fails. */
  predicate Aborts<K(==), D>(t: seq<Row<K, D>>, txs: seq<Row<K, D>>, failAt: Option<nat>) {
    failAt.Some? && failAt.value < StatementsBefore(t, txs, |txs|)
  }

  lemma {:induction false} StatementsGrow<K, D>(t: seq<Row<K, D>>, txs: seq<Row<K, D>>, n: nat, m: nat)
    requires n <= m <= |txs|
    ensures StatementsBefore(t, txs, n) + (m - n) <= StatementsBefore(t, txs, m)
    decreases m
  {
    if n < m {
      StatementsGrow(t, txs, n, m - 1);
    }
  }

  /** The transaction body: the table to commit, or nothing if a statement failed. */
  method InsertTransaction<K(==), D>(rows: seq<Row<K, D>>, txs: seq<Row<K, D>>, failAt: Option<nat>)
    returns (r: Option<seq<Row<K, D>>>)
    ensures r == if Aborts(rows, txs, failAt) then None else Some(InsertAll(rows, txs))
  {
    var dbtx := rows;
    var executed := 0;
    for i := 0 to |txs|
      invariant dbtx == InsertAll(rows, txs[..i])
      invariant executed == StatementsBefore(rows, txs, i) && (failAt.Some? ==> executed <= failAt.value)
    {
      StatementsGrow(rows, txs, i + 1, |txs|);
      assert txs[..i + 1][..i] == txs[..i];
      if failAt == Some(executed) {
        return None;
      }
      executed := executed + 1;
      if !Has(dbtx, txs[i].key) {
        if failAt == Some(executed) {
          return None;
        }
        executed := executed + 1;
        dbtx := dbtx + [txs[i]];
      }
    }
    assert txs[..|txs|] == txs;
    r := Some(dbtx);
  }

  // ---------------------------------------------------------------------------
  // Status update on one key.

  function SetStatus<K(==), D>(t: seq<Row<K, D>>, k: K, st: Status): (r: seq<Row<K, D>>)
    ensures |r| == |t|
    ensures forall i | 0 <= i < |t| :: r[i] == if t[i].key == k then t[i].(status := st) else t[i]
  {
    seq(|t|, i requires 0 <= i < |t| => if t[i].key == k then t[i].(status := st) else t[i])
  }

  /** A table grew and moved forward: rows stay where they are with the same columns,
      and a row that left the pending state keeps its status. */
  ghost predicate Evolves<K, D>(t: seq<Row<K, D>>, u: seq<Row<K, D>>) {
    && |t| <= |u|
    && forall i | 0 <= i < |t| ::
         && u[i].key == t[i].key
         && u[i].data == t[i].data
         && (t[i].status != Pending ==> u[i].status == t[i].status)
  }

  lemma EvolvesTrans<K, D>(t: seq<Row<K, D>>, u: seq<Row<K, D>>, v: seq<Row<K, D>>)
    requires Evolves(t, u) && Evolves(u, v)
    ensures Evolves(t, v)
  {
    forall i | 0 <= i < |t|
      ensures v[i].key == t[i].key && v[i].data == t[i].data && (t[i].status != Pending ==> v[i].status == t[i].status)
    {
      assert u[i].key == t[i].key;
    }
  }

  lemma EvolvesHas<K, D>(t: seq<Row<K, D>>, u: seq<Row<K, D>>, k: K)
    requires Evolves(t, u)
    ensures Has(t, k) ==> Has(u, k)
    ensures Terminal(t, k) ==> Terminal(u, k)
  {
    if Has(t, k) {
      var i :| 0 <= i < |t| && t[i].key == k;
      assert u[i].key == k;
    }
    if Terminal(t, k) {
      var i :| 0 <= i < |t| && t[i].key == k && t[i].status != Pending;
      assert u[i].key == k && u[i].status != Pending;
    }
  }

  /** With unique keys a terminal key has no pending row. */
  lemma TerminalNotPending<K, D>(t: seq<Row<K, D>>, i: nat)
    requires Unique(t) && i < |t|
    ensures Terminal(t, t[i].key) <==> t[i].status != Pending
  {
    if Terminal(t, t[i].key) {
      var j :| 0 <= j < |t| && t[j].key == t[i].key && t[j].status != Pending;
      assert !(i < j) && !(j < i);
    }
  }

  lemma KeysNext<K, D>(t: seq<Row<K, D>>, r: Row<K, D>)
    ensures Keys(t + [r]) == Keys(t) + {r.key}
  {
    var u := t + [r];
    forall k ensures k in Keys(u) <==> k in Keys(t) + {r.key} {
      if k in Keys(u) {
        var i :| 0 <= i < |u| && u[i].key == k;
        assert i < |t| ==> t[i].key == k;
      }
      if k in Keys(t) {
        var i :| 0 <= i < |t| && t[i].key == k;
        assert u[i].key == k;
      }
      assert u[|t|].key == r.key;
    }
  }

  /** A list without repeated keys has as many keys as rows. */
  lemma {:induction false} KeysSize<K, D>(t: seq<Row<K, D>>)
    requires Unique(t)
    ensures |Keys(t)| == |t|
  {
    if t != [] {
      var front, last := t[..|t| - 1], t[|t| - 1];
      KeysSize(front);
      assert t == front + [last];
      KeysNext(front, last);
      assert last.key !in Keys(front);
    }
  }

  /** The key has a row, and it is still pending. */
  ghost predicate Open<K, D>(t: seq<Row<K, D>>, k: K) {
    Has(t, k) && !Terminal(t, k)
  }

  lemma MarkEvolves<K, D>(t: seq<Row<K, D>>, k: K, st: Status)
    requires Unique(t) && !Terminal(t, k)
    ensures Evolves(t, SetStatus(t, k, st))
  {
    forall i | 0 <= i < |t| && t[i].key == k
      ensures t[i].status == Pending
    {
      TerminalNotPending(t, i);
    }
  }

  lemma InsertEvolves<K, D>(t: seq<Row<K, D>>, ds: seq<Row<K, D>>)
    ensures Evolves(t, InsertAll(t, ds))
  {
    InsertAddsOnly(t, ds);
  }

  lemma InsertKeepsOpen<K, D>(t: seq<Row<K, D>>, ds: seq<Row<K, D>>, k: K)
    requires Open(t, k)
    ensures Open(InsertAll(t, ds), k)
  {
    InsertAddsOnly(t, ds);
    InsertHas(t, ds, k);
  }

  /** Marking one key does not touch another. */
  lemma MarkOthers<K, D>(t: seq<Row<K, D>>, k: K, st: Status, other: K)
    requires k != other
    ensures Open(t, other) ==> Open(SetStatus(t, k, st), other)
  {
    var u := SetStatus(t, k, st);
    if Open(t, other) {
      var i :| 0 <= i < |t| && t[i].key == other;
      assert u[i].key == other;
    }
  }

  lemma OneRow<K, D>(t: seq<Row<K, D>>, k: K) returns (i: nat)
    requires Unique(t) && Has(t, k)
    ensures i < |t| && t[i].key == k
    ensures forall j | 0 <= j < |t| :: t[j].key == k ==> j == i
  {
    i :| 0 <= i < |t| && t[i].key == k;
    assert forall j | 0 <= j < |t| :: t[j].key == k ==> !(i < j) && !(j < i);
  }

  lemma {:induction false} SubsetSize<T>(a: set<T>, b: set<T>)
    requires a <= b
    ensures |a| <= |b|
  {
    assert |b| == |a| + |b - a| by { assert b == a + (b - a); }
  }
}
