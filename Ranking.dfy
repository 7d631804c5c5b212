/** `header_df.groupby(supplier_col)[chave_acesso_col].nunique()`, then
    `.sort_values(ascending=False).head(10)`, over rows reduced to the two cells
    that matter: the supplier and the access key. */
module Ranking {
  import opened Basics
  import opened Tables

  /** One header row, projected onto the supplier and access-key columns. */
  datatype KeyedRow = KeyedRow(supplier: Cell, key: Cell)

  /** One supplier with its number of distinct invoices. */
  datatype Entry = Entry(supplier: string, count: nat)

  /** The header rows projected onto the two discovered columns. */
  function KeyedRows(t: Table, supplierColumn: string, keyColumn: string): (rows: seq<KeyedRow>)
    ensures |rows| == |t.rows|
    ensures forall i :: 0 <= i < |rows| ==>
              rows[i] == KeyedRow(CellAt(t.rows[i], ColumnIndex(t.columns, supplierColumn)),
                                  CellAt(t.rows[i], ColumnIndex(t.columns, keyColumn)))
  {
    var s, k := ColumnIndex(t.columns, supplierColumn), ColumnIndex(t.columns, keyColumn);
    seq(|t.rows|, i requires 0 <= i < |t.rows| => KeyedRow(CellAt(t.rows[i], s), CellAt(t.rows[i], k)))
  }

  /** The groups: every supplier value that is present (groupby drops missing keys). */
  function GroupNames(rows: seq<KeyedRow>): set<string>
  {
    set i | 0 <= i < |rows| && rows[i].supplier.Some? :: rows[i].supplier.value
  }

  /** The access keys present in the rows of supplier s (nunique skips missing keys). */
  function KeysOf(rows: seq<KeyedRow>, s: string): set<string>
  {
    set i | 0 <= i < |rows| && rows[i].supplier == Some(s) && rows[i].key.Some? :: rows[i].key.value
  }

  /** The groups and keys of the projected rows are those of the table itself:
      the present cells of the supplier column, and for each supplier the present
      cells of the access-key column on that supplier's rows. */
  lemma KeyedRowsGroups(t: Table, supplierColumn: string, keyColumn: string, s: string)
    ensures var sc := ColumnIndex(t.columns, supplierColumn);
            GroupNames(KeyedRows(t, supplierColumn, keyColumn))
              == set i | 0 <= i < |t.rows| && CellAt(t.rows[i], sc).Some? :: CellAt(t.rows[i], sc).value
    ensures var sc, kc := ColumnIndex(t.columns, supplierColumn), ColumnIndex(t.columns, keyColumn);
            KeysOf(KeyedRows(t, supplierColumn, keyColumn), s)
              == set i | 0 <= i < |t.rows| && CellAt(t.rows[i], sc) == Some(s) && CellAt(t.rows[i], kc).Some?
                   :: CellAt(t.rows[i], kc).value
  {
    var rows := KeyedRows(t, supplierColumn, keyColumn);
    var sc, kc := ColumnIndex(t.columns, supplierColumn), ColumnIndex(t.columns, keyColumn);
    forall i | 0 <= i < |t.rows|
      ensures rows[i].supplier == CellAt(t.rows[i], sc) && rows[i].key == CellAt(t.rows[i], kc)
    {
    }
  }

  /** The reference count: the number of distinct access keys of supplier s. */
  function DistinctKeyCount(rows: seq<KeyedRow>, s: string): nat
  {
    |KeysOf(rows, s)|
  }

  predicate DistinctSuppliers(es: seq<Entry>)
  {
    forall i, j :: 0 <= i < j < |es| ==> es[i].supplier != es[j].supplier
  }

  predicate SortedByCount(es: seq<Entry>)
  {
    forall i, j :: 0 <= i < j < |es| ==> es[i].count >= es[j].count
  }

  /** What the source promises of the top-n ranking, tie order left open: at most n
      entries, each a group with its distinct-key count, no group twice, counts
      non-increasing, and a group is left out only when the ranking is full and
      every entry in it counts at least as many invoices. */
  ghost predicate IsRanking(rows: seq<KeyedRow>, ranked: seq<Entry>, n: nat)
  {
    && |ranked| <= n
    && (forall i :: 0 <= i < |ranked| ==>
          ranked[i].supplier in GroupNames(rows) && ranked[i].count == DistinctKeyCount(rows, ranked[i].supplier))
    && DistinctSuppliers(ranked)
    && SortedByCount(ranked)
    && (forall s :: s in GroupNames(rows) && (forall i :: 0 <= i < |ranked| ==> ranked[i].supplier != s) ==>
          |ranked| == n && forall i :: 0 <= i < |ranked| ==> DistinctKeyCount(rows, s) <= ranked[i].count)
  }

  lemma GroupNamesSnoc(rows: seq<KeyedRow>, r: KeyedRow)
    ensures GroupNames(rows + [r]) == GroupNames(rows) + (if r.supplier.Some? then {r.supplier.value} else {})
  {
    var all := rows + [r];
    forall s | s in GroupNames(rows)
      ensures s in GroupNames(all)
    {
      var i :| 0 <= i < |rows| && rows[i].supplier.Some? && rows[i].supplier.value == s;
      assert all[i] == rows[i];
    }
    if r.supplier.Some? {
      assert all[|rows|] == r;
    }
    forall s | s in GroupNames(all)
      ensures s in GroupNames(rows) || (r.supplier.Some? && s == r.supplier.value)
    {
      var i :| 0 <= i < |all| && all[i].supplier.Some? && all[i].supplier.value == s;
      if i < |rows| {
        assert rows[i] == all[i];
      }
    }
  }

  /** The groups in order of first appearance, each once. */
  function GroupOrder(rows: seq<KeyedRow>): (order: seq<string>)
    ensures forall i, j :: 0 <= i < j < |order| ==> order[i] != order[j]
    ensures forall s :: s in order <==> s in GroupNames(rows)
  {
    if |rows| == 0 then []
    else
      var init, last := rows[..|rows| - 1], rows[|rows| - 1];
      var prev := GroupOrder(init);
      assert init + [last] == rows;
      GroupNamesSnoc(init, last);
      if last.supplier.Some? && last.supplier.value !in prev then prev + [last.supplier.value] else prev
  }

  /** Every group with its distinct-key count, in group order. */
  function GroupCounts(rows: seq<KeyedRow>): (g: seq<Entry>)
    ensures DistinctSuppliers(g)
    ensures forall i :: 0 <= i < |g| ==>
              g[i].supplier in GroupNames(rows) && g[i].count == DistinctKeyCount(rows, g[i].supplier)
    ensures forall s :: s in GroupNames(rows) ==> Entry(s, DistinctKeyCount(rows, s)) in g
  {
    var order := GroupOrder(rows);
    var g := seq(|order|, i requires 0 <= i < |order| => Entry(order[i], DistinctKeyCount(rows, order[i])));
    assert forall s :: s in GroupNames(rows) ==> Entry(s, DistinctKeyCount(rows, s)) in g by {
      forall s | s in GroupNames(rows)
        ensures Entry(s, DistinctKeyCount(rows, s)) in g
      {
        var i :| 0 <= i < |order| && order[i] == s;
        assert g[i] == Entry(s, DistinctKeyCount(rows, s));
      }
    }
    g
  }

  /** Insert e before the first entry with a smaller-or-equal count. */
  function InsertByCount(e: Entry, es: seq<Entry>): (r: seq<Entry>)
    ensures multiset(r) == multiset(es) + multiset{e}
  {
    if |es| == 0 then [e]
    else if e.count >= es[0].count then [e] + es
    else
      assert es == [es[0]] + es[1..];
      [es[0]] + InsertByCount(e, es[1..])
  }

  lemma MemberOfInsert(e: Entry, es: seq<Entry>, x: Entry)
    requires x in InsertByCount(e, es)
    ensures x == e || x in es
  {
    assert x in multiset(InsertByCount(e, es));
  }

  lemma {:induction false} InsertKeepsSorted(e: Entry, es: seq<Entry>)
    requires SortedByCount(es)
    ensures SortedByCount(InsertByCount(e, es))
  {
    if |es| > 0 && e.count < es[0].count {
      var rest := InsertByCount(e, es[1..]);
      InsertKeepsSorted(e, es[1..]);
      forall x | x in rest
        ensures es[0].count >= x.count
      {
        MemberOfInsert(e, es[1..], x);
      }
      var r := [es[0]] + rest;
      forall i, j | 0 <= i < j < |r|
        ensures r[i].count >= r[j].count
      {
        if i == 0 {
          assert r[j] in rest;
        } else {
          assert r[i] == rest[i - 1] && r[j] == rest[j - 1];
        }
      }
    }
  }

  lemma {:induction false} InsertKeepsDistinct(e: Entry, es: seq<Entry>)
    requires DistinctSuppliers(es)
    requires forall k :: 0 <= k < |es| ==> es[k].supplier != e.supplier
    ensures DistinctSuppliers(InsertByCount(e, es))
  {
    if |es| > 0 && e.count < es[0].count {
      var rest := InsertByCount(e, es[1..]);
      InsertKeepsDistinct(e, es[1..]);
      forall x | x in rest
        ensures es[0].supplier != x.supplier
      {
        MemberOfInsert(e, es[1..], x);
      }
      var r := [es[0]] + rest;
      forall i, j | 0 <= i < j < |r|
        ensures r[i].supplier != r[j].supplier
      {
        if i == 0 {
          assert r[j] in rest;
        } else {
          assert r[i] == rest[i - 1] && r[j] == rest[j - 1];
        }
      }
    }
  }

  /** Insertion sort by count, largest first. */
  function SortByCount(es: seq<Entry>): (r: seq<Entry>)
    ensures multiset(r) == multiset(es)
  {
    if |es| == 0 then []
    else
      assert es == [es[0]] + es[1..];
      InsertByCount(es[0], SortByCount(es[1..]))
  }

  /** The sort orders by count and, given distinct suppliers, keeps them distinct. */
  lemma {:induction false} SortIsOrderedAndDistinct(es: seq<Entry>)
    requires DistinctSuppliers(es)
    ensures SortedByCount(SortByCount(es))
    ensures DistinctSuppliers(SortByCount(es))
  {
    if |es| > 0 {
      var rest := SortByCount(es[1..]);
      SortIsOrderedAndDistinct(es[1..]);
      InsertKeepsSorted(es[0], rest);
      forall k | 0 <= k < |rest|
        ensures rest[k].supplier != es[0].supplier
      {
        assert rest[k] in multiset(es[1..]);
        var j :| 0 <= j < |es[1..]| && es[1..][j] == rest[k];
        assert es[j + 1] == rest[k];
      }
      InsertKeepsDistinct(es[0], rest);
    }
  }

  /** Every entry of a rearrangement of the group counts is a group with its count. */
  lemma EntriesAreGroups(rows: seq<KeyedRow>, sorted: seq<Entry>, x: Entry)
    requires multiset(sorted) == multiset(GroupCounts(rows))
    requires x in sorted
    ensures x.supplier in GroupNames(rows) && x.count == DistinctKeyCount(rows, x.supplier)
  {
    var g := GroupCounts(rows);
    assert x in multiset(g);
    var j :| 0 <= j < |g| && g[j] == x;
  }

  /** Every group has its entry somewhere in a rearrangement of the group counts. */
  lemma GroupHasEntry(rows: seq<KeyedRow>, sorted: seq<Entry>, s: string) returns (k: nat)
    requires multiset(sorted) == multiset(GroupCounts(rows))
    requires s in GroupNames(rows)
    ensures k < |sorted| && sorted[k] == Entry(s, DistinctKeyCount(rows, s))
  {
    var e := Entry(s, DistinctKeyCount(rows, s));
    assert e in multiset(GroupCounts(rows));
    assert e in multiset(sorted);
    k :| 0 <= k < |sorted| && sorted[k] == e;
  }

  /** Any sort of the group counts that keeps them distinct, cut to its first n
      entries, is a ranking. */
  lemma RankingFromSorted(rows: seq<KeyedRow>, sorted: seq<Entry>, n: nat)
    requires multiset(sorted) == multiset(GroupCounts(rows))
    requires SortedByCount(sorted) && DistinctSuppliers(sorted)
    ensures IsRanking(rows, sorted[..Min(n, |sorted|)], n)
  {
    var ranked := sorted[..Min(n, |sorted|)];
    forall i | 0 <= i < |ranked|
      ensures ranked[i].supplier in GroupNames(rows) && ranked[i].count == DistinctKeyCount(rows, ranked[i].supplier)
    {
      EntriesAreGroups(rows, sorted, ranked[i]);
    }
    forall s | s in GroupNames(rows) && (forall i :: 0 <= i < |ranked| ==> ranked[i].supplier != s)
      ensures |ranked| == n && forall i :: 0 <= i < |ranked| ==> DistinctKeyCount(rows, s) <= ranked[i].count
    {
      var k := GroupHasEntry(rows, sorted, s);
      forall i | 0 <= i < |ranked|
        ensures DistinctKeyCount(rows, s) <= ranked[i].count
      {
        assert ranked[i] == sorted[i];
      }
    }
  }

  /** The top-n suppliers by number of distinct invoices. */
  function TopSuppliers(rows: seq<KeyedRow>, n: nat): (ranked: seq<Entry>)
    ensures IsRanking(rows, ranked, n)
  {
    var sorted := SortByCount(GroupCounts(rows));
    SortIsOrderedAndDistinct(GroupCounts(rows));
    RankingFromSorted(rows, sorted, n);
    sorted[..Min(n, |sorted|)]
  }

  /** The ranking is empty exactly when no row has a supplier: pandas' `.empty` on
      the head of the sorted counts. */
  lemma EmptyRankingIffNoGroups(rows: seq<KeyedRow>, n: nat)
    requires n > 0
    ensures TopSuppliers(rows, n) == [] <==> GroupNames(rows) == {}
  {
    var ranked := TopSuppliers(rows, n);
    if ranked != [] {
      assert ranked[0].supplier in GroupNames(rows);
    }
    if GroupNames(rows) != {} {
      var s :| s in GroupNames(rows);
    }
  }

  /** Repeating a header row changes no supplier's key set. */
  /** The rows with a copy of row k inserted at position p. */
  function WithDuplicate(rows: seq<KeyedRow>, k: nat, p: nat): (all: seq<KeyedRow>)
    requires k < |rows| && p <= |rows|
    ensures |all| == |rows| + 1 && all[p] == rows[k]
    ensures forall i :: 0 <= i < |all| && i != p ==> all[i] == rows[if i < p then i else i - 1]
  {
    rows[..p] + [rows[k]] + rows[p..]
  }

  /** Repeating a row, wherever the copy lands, adds no supplier and no access key. */
  lemma DuplicateRowKeepsKeys(rows: seq<KeyedRow>, k: nat, p: nat, s: string)
    requires k < |rows| && p <= |rows|
    ensures GroupNames(WithDuplicate(rows, k, p)) == GroupNames(rows)
    ensures KeysOf(WithDuplicate(rows, k, p), s) == KeysOf(rows, s)
  {
    var all := WithDuplicate(rows, k, p);
    forall x | x in GroupNames(all)
      ensures x in GroupNames(rows)
    {
      var i :| 0 <= i < |all| && all[i].supplier.Some? && all[i].supplier.value == x;
      var j := if i == p then k else if i < p then i else i - 1;
      assert rows[j] == all[i];
    }
    forall x | x in GroupNames(rows)
      ensures x in GroupNames(all)
    {
      var i :| 0 <= i < |rows| && rows[i].supplier.Some? && rows[i].supplier.value == x;
      var j := if i < p then i else i + 1;
      assert all[j] == rows[i];
    }
    forall x | x in KeysOf(all, s)
      ensures x in KeysOf(rows, s)
    {
      var i :| 0 <= i < |all| && all[i].supplier == Some(s) && all[i].key.Some? && all[i].key.value == x;
      var j := if i == p then k else if i < p then i else i - 1;
      assert rows[j] == all[i];
    }
    forall x | x in KeysOf(rows, s)
      ensures x in KeysOf(all, s)
    {
      var i :| 0 <= i < |rows| && rows[i].supplier == Some(s) && rows[i].key.Some? && rows[i].key.value == x;
      var j := if i < p then i else i + 1;
      assert all[j] == rows[i];
    }
  }

  /** Wherever a repeated row is inserted, the rankings allowed for the rows are
      exactly the rankings allowed before. */
  lemma DuplicateRowSameRankings(rows: seq<KeyedRow>, k: nat, p: nat, ranked: seq<Entry>, n: nat)
    requires k < |rows| && p <= |rows|
    ensures IsRanking(WithDuplicate(rows, k, p), ranked, n) <==> IsRanking(rows, ranked, n)
  {
    var all := WithDuplicate(rows, k, p);
    forall s
      ensures DistinctKeyCount(all, s) == DistinctKeyCount(rows, s)
    {
      DuplicateRowKeepsKeys(rows, k, p, s);
    }
    DuplicateRowKeepsKeys(rows, k, p, "");
  }

  /** Duplicate header rows sharing an access key do not inflate any count: the
      ranking of the rows with one row repeated is the ranking of the rows. */
  lemma DuplicateRowCountsOnce(rows: seq<KeyedRow>, k: nat, n: nat)
    requires k < |rows|
    ensures TopSuppliers(rows + [rows[k]], n) == TopSuppliers(rows, n)
  {
    var all := rows + [rows[k]];
    assert all == WithDuplicate(rows, k, |rows|);
    assert all[..|all| - 1] == rows;
    GroupNamesSnoc(rows, rows[k]);
    if rows[k].supplier.Some? {
      assert rows[k].supplier.value in GroupNames(rows);
    }
    assert GroupOrder(all) == GroupOrder(rows);
    forall s
      ensures DistinctKeyCount(all, s) == DistinctKeyCount(rows, s)
    {
      DuplicateRowKeepsKeys(rows, k, |rows|, s);
    }
    assert GroupCounts(all) == GroupCounts(rows);
  }

  /** The suppliers named in a list of entries. */
  function SupplierSet(es: seq<Entry>): set<string>
  {
    set i | 0 <= i < |es| :: es[i].supplier
  }

  lemma {:induction false} DistinctSupplierCount(es: seq<Entry>)
    requires DistinctSuppliers(es)
    ensures |SupplierSet(es)| == |es|
  {
    if |es| > 0 {
      var init, last := es[..|es| - 1], es[|es| - 1];
      DistinctSupplierCount(init);
      forall x | x in SupplierSet(es)
        ensures x in SupplierSet(init) || x == last.supplier
      {
        var i :| 0 <= i < |es| && es[i].supplier == x;
        if i < |init| {
          assert init[i] == es[i];
        }
      }
      forall x | x in SupplierSet(init)
        ensures x in SupplierSet(es)
      {
        var i :| 0 <= i < |init| && init[i].supplier == x;
        assert es[i] == init[i];
      }
      assert SupplierSet(es) == SupplierSet(init) + {last.supplier};
      assert last.supplier !in SupplierSet(init);
    }
  }

  lemma {:induction false} SubsetCard(a: set<string>, b: set<string>)
    requires a <= b
    ensures |a| <= |b|
    decreases |b|
  {
    if b != {} {
      var x :| x in b;
      SubsetCard(a - {x}, b - {x});
    }
  }

  /** With at most n groups, head(n) keeps all of them: the ranking names exactly
      the groups. */
  lemma AllGroupsRankedWhenFew(rows: seq<KeyedRow>, ranked: seq<Entry>, n: nat)
    requires IsRanking(rows, ranked, n)
    requires |GroupNames(rows)| <= n
    ensures SupplierSet(ranked) == GroupNames(rows)
    ensures |ranked| == |GroupNames(rows)|
  {
    DistinctSupplierCount(ranked);
    assert SupplierSet(ranked) <= GroupNames(rows);
    forall s | s in GroupNames(rows)
      ensures s in SupplierSet(ranked)
    {
      if s !in SupplierSet(ranked) {
        assert forall i :: 0 <= i < |ranked| ==> ranked[i].supplier != s;
        assert |ranked| == n;
        assert SupplierSet(ranked) <= GroupNames(rows) - {s};
        SubsetCard(SupplierSet(ranked), GroupNames(rows) - {s});
        assert false;
      }
    }
  }

  /** Two rows of supplier A sharing key k1 and one row of supplier B with key k2. */
  const ExampleRows: seq<KeyedRow> :=
    [KeyedRow(Some("A"), Some("k1")), KeyedRow(Some("A"), Some("k1")), KeyedRow(Some("B"), Some("k2"))]

  lemma ExampleGroups()
    ensures GroupNames(ExampleRows) == {"A", "B"}
    ensures DistinctKeyCount(ExampleRows, "A") == 1 && DistinctKeyCount(ExampleRows, "B") == 1
  {
    var rows := ExampleRows;
    forall x | x in KeysOf(rows, "A") ensures x == "k1" {
      var i :| 0 <= i < |rows| && rows[i].supplier == Some("A") && rows[i].key.Some? && rows[i].key.value == x;
    }
    assert rows[0].key.value in KeysOf(rows, "A");
    assert KeysOf(rows, "A") == {"k1"};
    forall x | x in KeysOf(rows, "B") ensures x == "k2" {
      var i :| 0 <= i < |rows| && rows[i].supplier == Some("B") && rows[i].key.Some? && rows[i].key.value == x;
    }
    assert rows[2].key.value in KeysOf(rows, "B");
    assert KeysOf(rows, "B") == {"k2"};
    forall x | x in GroupNames(rows) ensures x == "A" || x == "B" {
      var i :| 0 <= i < |rows| && rows[i].supplier.Some? && rows[i].supplier.value == x;
    }
    assert rows[0].supplier.value in GroupNames(rows);
    assert rows[2].supplier.value in GroupNames(rows);
  }

  lemma PairMultiset(es: seq<Entry>, a: Entry, b: Entry)
    requires |es| == 2 && a in es && b in es && a != b
    ensures multiset(es) == multiset{a, b}
  {
    if es[0] == a {
      assert es == [a, b];
    } else {
      assert es == [b, a];
    }
  }

  /** The duplicate row of A counts once: every top-2 ranking of the example, whatever
      its tie order, holds both suppliers with one invoice each. */
  lemma TwoSuppliersExample(ranked: seq<Entry>)
    requires IsRanking(ExampleRows, ranked, 2)
    ensures |ranked| == 2
    ensures multiset(ranked) == multiset{Entry("A", 1), Entry("B", 1)}
  {
    ExampleGroups();
    AllGroupsRankedWhenFew(ExampleRows, ranked, 2);
    assert "A" in SupplierSet(ranked) && "B" in SupplierSet(ranked);
    var i :| 0 <= i < |ranked| && ranked[i].supplier == "A";
    var j :| 0 <= j < |ranked| && ranked[j].supplier == "B";
    var a, b := Entry("A", 1), Entry("B", 1);
    assert ranked[i] == a && ranked[j] == b;
    PairMultiset(ranked, a, b);
  }
}
