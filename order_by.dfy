/**
 * The ORDER BY sorter of the SELECT translator.
 *
 * A row goes into the sorter as one record: the sort keys first, in ORDER BY
 * order, then the SELECT result columns, except those that are exact
 * duplicates of a sort key. A result column that is skipped this way is read
 * back from the sort key it duplicates. `result_column_indexes_in_orderby_sorter`
 * says, for each result column, which sorter column it is read back from, so
 * that rows come out in SELECT order.
 *
 * `exprs_are_equivalent` is a parameter of type `Equivalence`: the model
 * assumes nothing about it (not even symmetry). `CollationSeq::new` is a
 * parameter of type `CollationLookup`.
 */
module OrderBy {
  import opened Wrappers
  import opened Ast
  import opened Plan
  import Vdbe

  type OrderByTerm = (Expr, SortOrder)

  /** `exprs_are_equivalent(order_by_expr, result_column_expr)`. */
  type Equivalence = (Expr, Expr) -> bool

  /** `CollationSeq::new`: a collating sequence by name, or the error for an unknown name. */
  type CollationLookup = string -> Result<CollationSeq, Error>

  /** Pairs (skipped result-column index, index of the sort key it is read back from). */
  type Remap = seq<(nat, nat)>

  /** `SortMetadata`: the sorter's cursor and the register its records pass through. */
  datatype SortMetadata = SortMetadata(sortCursor: nat, regSorterData: nat)

  /** The fields of the translation context that the ORDER BY code reads and writes. */
  class TranslateCtx {
    var metaSort: Option<SortMetadata>
    var regResultColsStart: Option<nat>
    var resultColumnIndexesInOrderBySorter: seq<nat>
    var resultColumnsToSkipInOrderBySorter: Option<Remap>
  }

  // ---------------------------------------------------------------------------
  // Collating sequence of each ORDER BY term (init_order_by)
  // ---------------------------------------------------------------------------

  /** Every bare column term names a table the query references (the `unwrap` cannot fail). */
  predicate ColumnTablesResolved(orderBy: seq<OrderByTerm>, refs: TableReferences)
  {
    forall k :: 0 <= k < |orderBy| && orderBy[k].0.Column? ==> orderBy[k].0.table in refs.tables
  }

  /** The collating sequence chosen for one ORDER BY term, or the error that aborts the translation. */
  function TermCollation(e: Expr, refs: TableReferences, lookup: CollationLookup)
    : (r: Result<Option<CollationSeq>, Error>)
    requires e.Column? ==> e.table in refs.tables
    ensures e.Collate? ==> (r.Err? <==> lookup(e.collationName).Err?)
    ensures e.Collate? && r.Err? ==> r.error == lookup(e.collationName).error
    ensures e.Collate? && r.Ok? ==> r.value == Some(lookup(e.collationName).value)
    ensures e.Column? ==> (r.Err? <==> e.column >= |refs.tables[e.table].columns|)
    ensures e.Column? && r.Err? ==> r.error == ParseError("column index out of bounds")
    ensures e.Column? && r.Ok? ==> r.value == refs.tables[e.table].columns[e.column].collation
    ensures e.Other? ==> r == Ok(Some(Binary))
  {
    match e
    case Collate(_, name) =>
      (match lookup(name)
       case Ok(c) => Ok(Some(c))
       case Err(err) => Err(err))
    case Column(table, column) =>
      (match GetColumnAt(refs.tables[table], column)
       case None => Err(ParseError("column index out of bounds"))
       case Some(col) => Ok(col.collation))
    case Other(_) => Ok(Some(DefaultCollation()))
  }

  /**
   * The collating sequence rule, stated case by case: an explicit COLLATE
   * uses the named sequence, a bare column uses its declared collation, and
   * anything else uses BINARY.
   */
  predicate FollowsCollationRule(e: Expr, refs: TableReferences, lookup: CollationLookup, c: Option<CollationSeq>)
    requires e.Column? ==> e.table in refs.tables
  {
    match e
    case Collate(_, name) => lookup(name).Ok? && c == Some(lookup(name).value)
    case Column(table, column) =>
      column < |refs.tables[table].columns| && c == refs.tables[table].columns[column].collation
    case Other(_) => c == Some(Binary)
  }

  /**
   * `order_by.iter().map(..).collect::<Result<Vec<_>>>()`: one collating
   * sequence per term, in order, or the error of the first term that fails.
   */
  function Collations(orderBy: seq<OrderByTerm>, refs: TableReferences, lookup: CollationLookup)
    : (r: Result<seq<Option<CollationSeq>>, Error>)
    requires ColumnTablesResolved(orderBy, refs)
    ensures r.Ok? <==> forall k :: 0 <= k < |orderBy| ==> TermCollation(orderBy[k].0, refs, lookup).Ok?
    ensures r.Ok? ==> |r.value| == |orderBy|
    ensures r.Ok? ==> forall k :: 0 <= k < |orderBy| ==> r.value[k] == TermCollation(orderBy[k].0, refs, lookup).value
  {
    if orderBy == [] then Ok([])
    else
      match TermCollation(orderBy[0].0, refs, lookup)
      case Err(e) => Err(e)
      case Ok(c) =>
        assert forall k :: 0 <= k < |orderBy[1..]| ==> orderBy[1..][k] == orderBy[k + 1];
        match Collations(orderBy[1..], refs, lookup)
        case Err(e) => Err(e)
        case Ok(cs) => Ok([c] + cs)
  }

  /** A failing collation selection reports the error of the first term that fails. */
  lemma {:induction false} CollationsFirstError(orderBy: seq<OrderByTerm>, refs: TableReferences, lookup: CollationLookup)
    requires ColumnTablesResolved(orderBy, refs)
    requires Collations(orderBy, refs, lookup).Err?
    ensures exists k ::
      && 0 <= k < |orderBy|
      && TermCollation(orderBy[k].0, refs, lookup) == Err(Collations(orderBy, refs, lookup).error)
      && (forall k' :: 0 <= k' < k ==> TermCollation(orderBy[k'].0, refs, lookup).Ok?)
  {
    var head := TermCollation(orderBy[0].0, refs, lookup);
    if head.Ok? {
      var tail := orderBy[1..];
      assert forall k :: 0 <= k < |tail| ==> tail[k] == orderBy[k + 1];
      CollationsFirstError(tail, refs, lookup);
      var k :| 0 <= k < |tail|
        && TermCollation(tail[k].0, refs, lookup) == Err(Collations(tail, refs, lookup).error)
        && forall k' :: 0 <= k' < k ==> TermCollation(tail[k'].0, refs, lookup).Ok?;
      assert TermCollation(orderBy[k + 1].0, refs, lookup) == Err(Collations(orderBy, refs, lookup).error);
      forall k' | 0 <= k' < k + 1
        ensures TermCollation(orderBy[k'].0, refs, lookup).Ok?
      {
        if k' > 0 { assert orderBy[k'] == tail[k' - 1]; }
      }
    }
  }

  /** A successful collation selection follows the rule for every term. */
  lemma {:induction false} CollationsFollowRule(orderBy: seq<OrderByTerm>, refs: TableReferences, lookup: CollationLookup)
    requires ColumnTablesResolved(orderBy, refs)
    requires Collations(orderBy, refs, lookup).Ok?
    ensures forall k :: 0 <= k < |orderBy| ==>
      FollowsCollationRule(orderBy[k].0, refs, lookup, Collations(orderBy, refs, lookup).value[k])
  {
    var cs := Collations(orderBy, refs, lookup).value;
    forall k | 0 <= k < |orderBy|
      ensures FollowsCollationRule(orderBy[k].0, refs, lookup, cs[k])
    {
      var t := TermCollation(orderBy[k].0, refs, lookup);
      assert t.Ok? && cs[k] == t.value;
    }
  }

  /** The sort direction of every term, in clause order. */
  function Directions(orderBy: seq<OrderByTerm>): (r: seq<SortOrder>)
    ensures |r| == |orderBy|
    ensures forall k :: 0 <= k < |orderBy| ==> r[k] == orderBy[k].1
  {
    seq(|orderBy|, k requires 0 <= k < |orderBy| => orderBy[k].1)
  }

  /**
   * `init_order_by`: records the sorter's cursor and data register in the
   * context, then opens a sorter with one key column per ORDER BY term.
   * The cursor and the register are allocated by the program builder and are
   * parameters here.
   */
  method InitOrderBy(ctx: TranslateCtx, sortCursor: nat, regSorterData: nat,
                     orderBy: seq<OrderByTerm>, refs: TableReferences, lookup: CollationLookup)
    returns (r: Result<Vdbe.Insn, Error>)
    requires ColumnTablesResolved(orderBy, refs)
    modifies ctx`metaSort
    ensures ctx.metaSort == Some(SortMetadata(sortCursor, regSorterData))
    ensures r.Ok? <==> forall k :: 0 <= k < |orderBy| ==> TermCollation(orderBy[k].0, refs, lookup).Ok?
    ensures r.Err? ==> r.error == Collations(orderBy, refs, lookup).error
    ensures r.Ok? ==> r.value.SorterOpen? && r.value.cursorId == sortCursor && r.value.columns == |orderBy|
    ensures r.Ok? ==> |r.value.order| == |orderBy| && forall k :: 0 <= k < |orderBy| ==> r.value.order[k] == orderBy[k].1
    ensures r.Ok? ==> |r.value.collations| == |orderBy|
    ensures r.Ok? ==>
      forall k :: 0 <= k < |orderBy| ==> FollowsCollationRule(orderBy[k].0, refs, lookup, r.value.collations[k])
  {
    ctx.metaSort := Some(SortMetadata(sortCursor, regSorterData));
    var collations := Collations(orderBy, refs, lookup);
    if collations.Err? {
      return Err(collations.error);
    }
    CollationsFollowRule(orderBy, refs, lookup);
    r := Ok(Vdbe.SorterOpen(sortCursor, |orderBy|, Directions(orderBy), collations.value));
  }

  // ---------------------------------------------------------------------------
  // Result columns that duplicate a sort key (order_by_deduplicate_result_columns)
  // ---------------------------------------------------------------------------

  /** The index of the first sort key at or after `from` that is equivalent to `e`, if any. */
  function FirstEquivalentFrom(orderBy: seq<OrderByTerm>, e: Expr, equiv: Equivalence, from: nat): (r: Option<nat>)
    ensures r.Some? ==> from <= r.value < |orderBy| && equiv(orderBy[r.value].0, e)
    decreases |orderBy| - from
  {
    if from >= |orderBy| then None
    else if equiv(orderBy[from].0, e) then Some(from)
    else FirstEquivalentFrom(orderBy, e, equiv, from + 1)
  }

  /** The search from `from` finds the first equivalent key at or after `from`, and fails only when there is none. */
  lemma {:induction false} FirstEquivalentFromIsFirst(orderBy: seq<OrderByTerm>, e: Expr, equiv: Equivalence, from: nat)
    ensures var r := FirstEquivalentFrom(orderBy, e, equiv, from);
      r.Some? ==> forall j :: from <= j < r.value ==> !equiv(orderBy[j].0, e)
    ensures FirstEquivalentFrom(orderBy, e, equiv, from).None? <==>
      forall j :: from <= j < |orderBy| ==> !equiv(orderBy[j].0, e)
    decreases |orderBy| - from
  {
    if from < |orderBy| && !equiv(orderBy[from].0, e) {
      FirstEquivalentFromIsFirst(orderBy, e, equiv, from + 1);
    }
  }

  /**
   * `order_by.iter().enumerate().find(..)`: the index of the first sort key
   * equivalent to `e`, if any.
   */
  function FirstEquivalent(orderBy: seq<OrderByTerm>, e: Expr, equiv: Equivalence): (r: Option<nat>)
    ensures r.Some? ==> r.value < |orderBy| && equiv(orderBy[r.value].0, e)
    ensures r.Some? ==> forall j :: 0 <= j < r.value ==> !equiv(orderBy[j].0, e)
    ensures r.None? <==> forall j :: 0 <= j < |orderBy| ==> !equiv(orderBy[j].0, e)
  {
    FirstEquivalentFromIsFirst(orderBy, e, equiv, 0);
    FirstEquivalentFrom(orderBy, e, equiv, 0)
  }

  /**
   * The pairs (i, j) the deduplication collects from the first n result
   * columns: one for each column i that is equivalent to some sort key, with
   * j its first such key, in increasing order of i.
   */
  function RemapPairs(orderBy: seq<OrderByTerm>, resultColumns: seq<ResultSetColumn>, equiv: Equivalence, n: nat)
    : (r: Remap)
    requires n <= |resultColumns|
    ensures |r| <= n
  {
    if n == 0 then [] else RemapPairs(orderBy, resultColumns, equiv, n - 1) + PairFor(orderBy, resultColumns, equiv, n - 1)
  }

  /** Every pair (i, j) of `r` names one of the first n result columns and its first equivalent sort key. */
  predicate PairsFound(orderBy: seq<OrderByTerm>, resultColumns: seq<ResultSetColumn>, equiv: Equivalence,
                       r: Remap, n: nat)
    requires n <= |resultColumns|
  {
    forall k :: 0 <= k < |r| ==>
      r[k].0 < n && FirstEquivalent(orderBy, resultColumns[r[k].0].expr, equiv) == Some(r[k].1)
  }

  /** The result-column indexes of `r` strictly increase. */
  predicate Increasing(r: Remap)
  {
    forall k, k' :: 0 <= k < k' < |r| ==> r[k].0 < r[k'].0
  }

  /**
   * Every collected pair (i, j) names one of the first n result columns and
   * its first equivalent sort key, and the pairs come in increasing order of i.
   */
  lemma {:induction false} RemapPairsSound(orderBy: seq<OrderByTerm>, resultColumns: seq<ResultSetColumn>,
                                           equiv: Equivalence, n: nat)
    requires n <= |resultColumns|
    ensures PairsFound(orderBy, resultColumns, equiv, RemapPairs(orderBy, resultColumns, equiv, n), n)
    ensures Increasing(RemapPairs(orderBy, resultColumns, equiv, n))
  {
    if n > 0 {
      RemapPairsSound(orderBy, resultColumns, equiv, n - 1);
      var prefix := RemapPairs(orderBy, resultColumns, equiv, n - 1);
      var last := PairFor(orderBy, resultColumns, equiv, n - 1);
      var r := RemapPairs(orderBy, resultColumns, equiv, n);
      assert r == prefix + last;
      assert forall k :: 0 <= k < |last| ==>
        last[k].0 == n - 1 && FirstEquivalent(orderBy, resultColumns[n - 1].expr, equiv) == Some(last[k].1);
      forall k | 0 <= k < |r|
        ensures r[k].0 < n && FirstEquivalent(orderBy, resultColumns[r[k].0].expr, equiv) == Some(r[k].1)
      {
        if k < |prefix| {
          assert r[k] == prefix[k];
        } else {
          assert r[k] == last[k - |prefix|];
        }
      }
      forall k, k' | 0 <= k < k' < |r|
        ensures r[k].0 < r[k'].0
      {
        assert r[k] == prefix[k];
        if k' < |prefix| {
          assert r[k'] == prefix[k'];
        } else {
          assert r[k'] == last[k' - |prefix|];
        }
      }
    }
  }

  /** The pair result column i contributes to the remapping: none, or one with its first equivalent key. */
  function PairFor(orderBy: seq<OrderByTerm>, resultColumns: seq<ResultSetColumn>, equiv: Equivalence, i: nat)
    : (r: Remap)
    requires i < |resultColumns|
  {
    match FirstEquivalent(orderBy, resultColumns[i].expr, equiv)
    case Some(j) => [(i, j)]
    case None => []
  }

  /** What `order_by_deduplicate_result_columns` returns: `None` rather than an empty list. */
  function Deduplicated(orderBy: seq<OrderByTerm>, resultColumns: seq<ResultSetColumn>, equiv: Equivalence)
    : (r: Option<Remap>)
    ensures r != Some([])
    ensures r.Some? ==> |r.value| <= |resultColumns|
  {
    AsRemapping(RemapPairs(orderBy, resultColumns, equiv, |resultColumns|))
  }

  /** The collected pairs as the optional list the deduplication builds: `None` until the first pair. */
  function AsRemapping(pairs: Remap): (r: Option<Remap>)
    ensures r.None? <==> pairs == []
    ensures r.Some? ==> r.value == pairs
  {
    if pairs == [] then None else Some(pairs)
  }

  /** `order_by_deduplicate_result_columns`. */
  method DeduplicateResultColumns(orderBy: seq<OrderByTerm>, resultColumns: seq<ResultSetColumn>, equiv: Equivalence)
    returns (resultColumnRemapping: Option<Remap>)
    ensures resultColumnRemapping == Deduplicated(orderBy, resultColumns, equiv)
  {
    resultColumnRemapping := None;
    for i := 0 to |resultColumns|
      invariant resultColumnRemapping == AsRemapping(RemapPairs(orderBy, resultColumns, equiv, i))
    {
      DedupStep(orderBy, resultColumns, equiv, i);
      var found := FirstEquivalent(orderBy, resultColumns[i].expr, equiv);
      if found.Some? {
        if resultColumnRemapping.Some? {
          resultColumnRemapping := Some(resultColumnRemapping.value + [(i, found.value)]);
        } else {
          resultColumnRemapping := Some([(i, found.value)]);
        }
      }
    }
  }

  /**
   * One turn of the deduplication loop: a result column with no equivalent
   * sort key leaves the remapping as it is, and one with a first equivalent
   * key j adds the pair (i, j), starting the list if there was none.
   */
  lemma DedupStep(orderBy: seq<OrderByTerm>, resultColumns: seq<ResultSetColumn>, equiv: Equivalence, i: nat)
    requires i < |resultColumns|
    ensures FirstEquivalent(orderBy, resultColumns[i].expr, equiv).None? ==>
      AsRemapping(RemapPairs(orderBy, resultColumns, equiv, i + 1))
        == AsRemapping(RemapPairs(orderBy, resultColumns, equiv, i))
    ensures FirstEquivalent(orderBy, resultColumns[i].expr, equiv).Some? ==>
      var pair := (i, FirstEquivalent(orderBy, resultColumns[i].expr, equiv).value);
      var before := AsRemapping(RemapPairs(orderBy, resultColumns, equiv, i));
      AsRemapping(RemapPairs(orderBy, resultColumns, equiv, i + 1))
        == Some(if before.Some? then before.value + [pair] else [pair])
  {
    var pairs := RemapPairs(orderBy, resultColumns, equiv, i);
    assert RemapPairs(orderBy, resultColumns, equiv, i + 1) == pairs + PairFor(orderBy, resultColumns, equiv, i);
    match FirstEquivalent(orderBy, resultColumns[i].expr, equiv)
    case None =>
      assert pairs + [] == pairs;
    case Some(j) =>
      assert PairFor(orderBy, resultColumns, equiv, i) == [(i, j)];
      if pairs == [] {
        assert pairs + [(i, j)] == [(i, j)];
      }
  }

  /** No remapping comes back exactly when no result column is equivalent to any sort key. */
  lemma DeduplicatedNoneIff(orderBy: seq<OrderByTerm>, resultColumns: seq<ResultSetColumn>, equiv: Equivalence)
    ensures Deduplicated(orderBy, resultColumns, equiv).None? <==>
      forall i, j :: 0 <= i < |resultColumns| && 0 <= j < |orderBy| ==> !equiv(orderBy[j].0, resultColumns[i].expr)
  {
    var d := Deduplicated(orderBy, resultColumns, equiv);
    if d.None? {
      forall i, j | 0 <= i < |resultColumns| && 0 <= j < |orderBy|
        ensures !equiv(orderBy[j].0, resultColumns[i].expr)
      {
        SkipLookupFindsFirstEquivalent(orderBy, resultColumns, equiv, i);
      }
    } else {
      var pairs := RemapPairs(orderBy, resultColumns, equiv, |resultColumns|);
      RemapPairsSound(orderBy, resultColumns, equiv, |resultColumns|);
      assert d.value == pairs != [];
      var p := pairs[0];
      assert p.0 < |resultColumns| && FirstEquivalent(orderBy, resultColumns[p.0].expr, equiv) == Some(p.1)
        by { assert PairsFound(orderBy, resultColumns, equiv, pairs, |resultColumns|); }
      assert equiv(orderBy[p.1].0, resultColumns[p.0].expr);
    }
  }

  // ---------------------------------------------------------------------------
  // Looking a result column up in the remapping (order_by_sorter_insert)
  // ---------------------------------------------------------------------------

  /** The sort-key index of the first pair of `v` at or after position `from` whose result-column index is i. */
  function FindSkippedFrom(v: Remap, i: nat, from: nat): (r: Option<nat>)
    ensures r.None? <==> forall k :: from <= k < |v| ==> v[k].0 != i
    ensures r.Some? ==> (i, r.value) in v
    decreases |v| - from
  {
    if from >= |v| then None
    else if v[from].0 == i then Some(v[from].1)
    else FindSkippedFrom(v, i, from + 1)
  }

  /** `v.iter().find(|(skipped_idx, _)| *skipped_idx == i)`, giving the sort-key index of the pair. */
  function FindSkipped(v: Remap, i: nat): (r: Option<nat>)
    ensures r.None? <==> forall k :: 0 <= k < |v| ==> v[k].0 != i
    ensures r.Some? ==> (i, r.value) in v
  {
    FindSkippedFrom(v, i, 0)
  }

  lemma {:induction false} FindSkippedFromAppend(a: Remap, b: Remap, i: nat, from: nat)
    requires from <= |a|
    ensures FindSkippedFrom(a + b, i, from)
      == if FindSkippedFrom(a, i, from).Some? then FindSkippedFrom(a, i, from) else FindSkippedFrom(b, i, 0)
    decreases |a| - from
  {
    if from < |a| {
      assert (a + b)[from] == a[from];
      FindSkippedFromAppend(a, b, i, from + 1);
    } else {
      FindSkippedFromShift(a, b, i, 0);
    }
  }

  lemma {:induction false} FindSkippedFromShift(a: Remap, b: Remap, i: nat, from: nat)
    requires from <= |b|
    ensures FindSkippedFrom(a + b, i, |a| + from) == FindSkippedFrom(b, i, from)
    decreases |b| - from
  {
    if from < |b| {
      assert (a + b)[|a| + from] == b[from];
      FindSkippedFromShift(a, b, i, from + 1);
    }
  }

  /** The search takes the first matching pair: a match in the front part wins. */
  lemma FindSkippedAppend(a: Remap, b: Remap, i: nat)
    ensures FindSkipped(a + b, i) == if FindSkipped(a, i).Some? then FindSkipped(a, i) else FindSkipped(b, i)
  {
    FindSkippedFromAppend(a, b, i, 0);
  }

  /** Where result column i is read back from according to the optional remapping, if it is skipped. */
  function SkipLookup(skip: Option<Remap>, i: nat): (r: Option<nat>)
    ensures skip.None? ==> r.None?
  {
    match skip
    case None => None
    case Some(v) => FindSkipped(v, i)
  }

  lemma {:induction false} FindSkippedRemapPairs(orderBy: seq<OrderByTerm>, resultColumns: seq<ResultSetColumn>,
                                                 equiv: Equivalence, n: nat, i: nat)
    requires i < n <= |resultColumns|
    ensures FindSkipped(RemapPairs(orderBy, resultColumns, equiv, n), i)
      == FirstEquivalent(orderBy, resultColumns[i].expr, equiv)
  {
    var prefix := RemapPairs(orderBy, resultColumns, equiv, n - 1);
    var last := PairFor(orderBy, resultColumns, equiv, n - 1);
    FindSkippedAppend(prefix, last, i);
    if i < n - 1 {
      FindSkippedRemapPairs(orderBy, resultColumns, equiv, n - 1, i);
    } else {
      RemapPairsSound(orderBy, resultColumns, equiv, n - 1);
      assert FindSkipped(prefix, i).None?;
    }
  }

  /**
   * Result column i is skipped exactly when there is a remapping and one of
   * its pairs names i, and then it is read back from that pair's sort key.
   */
  lemma SkipLookupSpec(skip: Option<Remap>, i: nat)
    ensures SkipLookup(skip, i).None? <==> (skip.None? || forall k :: 0 <= k < |skip.value| ==> skip.value[k].0 != i)
    ensures SkipLookup(skip, i).Some? ==> skip.Some? && (i, SkipLookup(skip, i).value) in skip.value
  {
  }

  /**
   * The remapping the insert side searches agrees with the first-match
   * search over the sort keys: result column i is skipped exactly when it is
   * equivalent to some sort key, and then it is read back from the first one.
   */
  lemma SkipLookupFindsFirstEquivalent(orderBy: seq<OrderByTerm>, resultColumns: seq<ResultSetColumn>,
                                       equiv: Equivalence, i: nat)
    requires i < |resultColumns|
    ensures SkipLookup(Deduplicated(orderBy, resultColumns, equiv), i)
      == FirstEquivalent(orderBy, resultColumns[i].expr, equiv)
  {
    FindSkippedRemapPairs(orderBy, resultColumns, equiv, |resultColumns|, i);
  }

  // ---------------------------------------------------------------------------
  // The sorter record layout
  // ---------------------------------------------------------------------------

  /** The number of result columns the sorter does not store (0 when there is no remapping). */
  function SkipLen(skip: Option<Remap>): (r: nat)
    ensures skip.None? ==> r == 0
    ensures skip.Some? ==> r == |skip.value|
  {
    match skip
    case None => 0
    case Some(v) => |v|
  }

  /**
   * `order_by_len + result_columns.len() - skipped`: the width of a sorter
   * record. The subtraction is on `usize`: below zero it panics when overflow
   * checks are on and wraps otherwise. The model excludes that case.
   */
  function SorterColumnCount(orderByLen: nat, resultColumnsLen: nat, skip: Option<Remap>): (r: nat)
    requires SkipLen(skip) <= orderByLen + resultColumnsLen
    ensures r + SkipLen(skip) == orderByLen + resultColumnsLen
  {
    orderByLen + resultColumnsLen - SkipLen(skip)
  }

  /** The sort-key expressions, in ORDER BY order. */
  function Keys(orderBy: seq<OrderByTerm>): (r: seq<Expr>)
  {
    seq(|orderBy|, k requires 0 <= k < |orderBy| => orderBy[k].0)
  }

  /** The result columns among the first n that the sorter stores, in SELECT order. */
  function Stored(resultColumns: seq<ResultSetColumn>, skip: Option<Remap>, n: nat): (r: seq<Expr>)
    requires n <= |resultColumns|
  {
    if n == 0 then []
    else Stored(resultColumns, skip, n - 1) + (if SkipLookup(skip, n - 1).None? then [resultColumns[n - 1].expr] else [])
  }

  /** What one sorter record holds, column by column: the sort keys, then the stored result columns. */
  function SorterRecord(orderBy: seq<OrderByTerm>, resultColumns: seq<ResultSetColumn>, skip: Option<Remap>)
    : (r: seq<Expr>)
  {
    Keys(orderBy) + Stored(resultColumns, skip, |resultColumns|)
  }

  /** The sorter column result column i is read back from. */
  function SlotOf(orderBy: seq<OrderByTerm>, resultColumns: seq<ResultSetColumn>, skip: Option<Remap>, i: nat)
    : (r: nat)
    requires i < |resultColumns|
  {
    match SkipLookup(skip, i)
    case Some(j) => j
    case None => |orderBy| + |Stored(resultColumns, skip, i)|
  }

  /** `res_col_indexes_in_orderby_sorter` as the insert loop builds it: one entry per result column. */
  function SlotIndexes(orderBy: seq<OrderByTerm>, resultColumns: seq<ResultSetColumn>, skip: Option<Remap>, n: nat)
    : (r: seq<nat>)
    requires n <= |resultColumns|
    ensures |r| == n
  {
    if n == 0 then [] else SlotIndexes(orderBy, resultColumns, skip, n - 1) + [SlotOf(orderBy, resultColumns, skip, n - 1)]
  }

  /** Entry i of the index vector is the sorter column result column i is read back from. */
  lemma {:induction false} SlotIndexesAt(orderBy: seq<OrderByTerm>, resultColumns: seq<ResultSetColumn>,
                                         skip: Option<Remap>, n: nat, i: nat)
    requires i < n <= |resultColumns|
    ensures SlotIndexes(orderBy, resultColumns, skip, n)[i] == SlotOf(orderBy, resultColumns, skip, i)
  {
    if i < n - 1 {
      SlotIndexesAt(orderBy, resultColumns, skip, n - 1, i);
    }
  }

  /** The stored columns among the first m come first among those of the first n. */
  lemma {:induction false} StoredPrefix(resultColumns: seq<ResultSetColumn>, skip: Option<Remap>, m: nat, n: nat)
    requires m <= n <= |resultColumns|
    ensures Stored(resultColumns, skip, m) <= Stored(resultColumns, skip, n)
  {
    if m < n {
      StoredPrefix(resultColumns, skip, m, n - 1);
    }
  }

  /** Each of the first n result columns is either skipped or stored. */
  lemma {:induction false} StoredCount(orderBy: seq<OrderByTerm>, resultColumns: seq<ResultSetColumn>,
                                       equiv: Equivalence, skip: Option<Remap>, n: nat)
    requires n <= |resultColumns|
    requires forall i :: 0 <= i < n ==>
      SkipLookup(skip, i) == FirstEquivalent(orderBy, resultColumns[i].expr, equiv)
    ensures |Stored(resultColumns, skip, n)| + |RemapPairs(orderBy, resultColumns, equiv, n)| == n
  {
    if n > 0 {
      StoredCount(orderBy, resultColumns, equiv, skip, n - 1);
    }
  }

  /**
   * With the deduplication's remapping, the sorter width computed from the
   * remapping's length is the length of a sorter record, and it is
   * also the DISTINCT register count `order_by_len + translated_result_col_count`.
   */
  lemma SorterWidthMatchesRecord(orderBy: seq<OrderByTerm>, resultColumns: seq<ResultSetColumn>, equiv: Equivalence)
    ensures var skip := Deduplicated(orderBy, resultColumns, equiv);
      SkipLen(skip) <= |resultColumns|
      && SorterColumnCount(|orderBy|, |resultColumns|, skip) == |SorterRecord(orderBy, resultColumns, skip)|
      && |orderBy| + |Stored(resultColumns, skip, |resultColumns|)| == SorterColumnCount(|orderBy|, |resultColumns|, skip)
  {
    var skip := Deduplicated(orderBy, resultColumns, equiv);
    forall i | 0 <= i < |resultColumns|
      ensures SkipLookup(skip, i) == FirstEquivalent(orderBy, resultColumns[i].expr, equiv)
    {
      SkipLookupFindsFirstEquivalent(orderBy, resultColumns, equiv, i);
    }
    StoredCount(orderBy, resultColumns, equiv, skip, |resultColumns|);
  }

  /**
   * Read-back agrees with insertion: the sorter column result column i is read
   * back from lies inside the record, and holds either result column i itself
   * (placed after the sort keys) or, when i is skipped, the first sort key
   * equivalent to it.
   */
  lemma ReadBackAgrees(orderBy: seq<OrderByTerm>, resultColumns: seq<ResultSetColumn>, equiv: Equivalence, i: nat)
    requires i < |resultColumns|
    ensures var skip := Deduplicated(orderBy, resultColumns, equiv);
      var slot := SlotOf(orderBy, resultColumns, skip, i);
      var record := SorterRecord(orderBy, resultColumns, skip);
      slot < |record|
      && match FirstEquivalent(orderBy, resultColumns[i].expr, equiv)
         case Some(j) => slot == j && record[slot] == orderBy[j].0 && equiv(record[slot], resultColumns[i].expr)
         case None => |orderBy| <= slot && record[slot] == resultColumns[i].expr
  {
    var skip := Deduplicated(orderBy, resultColumns, equiv);
    SkipLookupFindsFirstEquivalent(orderBy, resultColumns, equiv, i);
    if SkipLookup(skip, i).None? {
      StoredPrefix(resultColumns, skip, i + 1, |resultColumns|);
    }
  }

  /** Every entry of the index vector the insert side builds names a column inside the sorter record. */
  lemma IndexVectorInBounds(orderBy: seq<OrderByTerm>, resultColumns: seq<ResultSetColumn>, equiv: Equivalence)
    ensures forall i :: 0 <= i < |resultColumns| ==>
      SlotIndexes(orderBy, resultColumns, Deduplicated(orderBy, resultColumns, equiv), |resultColumns|)[i]
        < SorterColumnCount(|orderBy|, |resultColumns|, Deduplicated(orderBy, resultColumns, equiv))
  {
    var skip := Deduplicated(orderBy, resultColumns, equiv);
    SorterWidthMatchesRecord(orderBy, resultColumns, equiv);
    forall i | 0 <= i < |resultColumns|
      ensures SlotIndexes(orderBy, resultColumns, skip, |resultColumns|)[i]
        < SorterColumnCount(|orderBy|, |resultColumns|, skip)
    {
      SlotIndexesAt(orderBy, resultColumns, skip, |resultColumns|, i);
      ReadBackAgrees(orderBy, resultColumns, equiv, i);
    }
  }

  /** Stored result columns take strictly increasing sorter columns, in SELECT order. */
  lemma NonSkippedSlotsIncrease(orderBy: seq<OrderByTerm>, resultColumns: seq<ResultSetColumn>, skip: Option<Remap>,
                                i: nat, i': nat)
    requires i < i' < |resultColumns|
    requires SkipLookup(skip, i).None? && SkipLookup(skip, i').None?
    ensures SlotOf(orderBy, resultColumns, skip, i) < SlotOf(orderBy, resultColumns, skip, i')
  {
    StoredPrefix(resultColumns, skip, i + 1, i');
  }

  /** Every sorter column after the sort keys holds some stored result column: the stored columns are contiguous. */
  lemma {:induction false} NonSkippedSlotsCover(orderBy: seq<OrderByTerm>, resultColumns: seq<ResultSetColumn>,
                                                skip: Option<Remap>, n: nat, k: nat)
    requires n <= |resultColumns|
    requires |orderBy| <= k < |orderBy| + |Stored(resultColumns, skip, n)|
    ensures exists i ::
      && 0 <= i < n
      && SkipLookup(skip, i).None?
      && SlotOf(orderBy, resultColumns, skip, i) == k
  {
    if k < |orderBy| + |Stored(resultColumns, skip, n - 1)| {
      NonSkippedSlotsCover(orderBy, resultColumns, skip, n - 1, k);
    } else {
      assert SkipLookup(skip, n - 1).None? && SlotOf(orderBy, resultColumns, skip, n - 1) == k;
    }
  }

  // ---------------------------------------------------------------------------
  // Emitting the insert (order_by_sorter_insert, sorter_insert)
  // ---------------------------------------------------------------------------

  /** Evaluate expression k of `exprs` into register `startReg + k`, for every k. */
  function Writes(startReg: nat, exprs: seq<Expr>): (r: seq<Vdbe.Insn>)
    decreases |exprs|
  {
    if exprs == [] then []
    else
      var n := |exprs| - 1;
      Writes(startReg, exprs[..n]) + [Vdbe.TranslateExpr(exprs[n], startReg + n)]
  }

  lemma WritesSnoc(startReg: nat, exprs: seq<Expr>, e: Expr)
    ensures Writes(startReg, exprs + [e]) == Writes(startReg, exprs) + [Vdbe.TranslateExpr(e, startReg + |exprs|)]
  {
    assert (exprs + [e])[..|exprs|] == exprs;
  }

  lemma {:induction false} WritesAppend(startReg: nat, front: seq<Expr>, back: seq<Expr>)
    ensures Writes(startReg, front + back) == Writes(startReg, front) + Writes(startReg + |front|, back)
    decreases |back|
  {
    if back == [] {
      assert front + back == front;
    } else {
      var n := |back| - 1;
      assert front + back == (front + back[..n]) + [back[n]];
      WritesSnoc(startReg, front + back[..n], back[n]);
      WritesAppend(startReg, front, back[..n]);
    }
  }

  /** Write k of `Writes` evaluates expression k into register `startReg + k`. */
  lemma {:induction false} WritesAt(startReg: nat, exprs: seq<Expr>, k: nat)
    requires k < |exprs|
    ensures |Writes(startReg, exprs)| == |exprs|
    ensures Writes(startReg, exprs)[k] == Vdbe.TranslateExpr(exprs[k], startReg + k)
    decreases |exprs|
  {
    var n := |exprs| - 1;
    if k < n {
      WritesAt(startReg, exprs[..n], k);
    } else if n > 0 {
      WritesAt(startReg, exprs[..n], 0);
    }
  }

  /** Writing a sorter record writes the sort keys, then the stored result columns right after them. */
  lemma WritesRecord(startReg: nat, orderBy: seq<OrderByTerm>, resultColumns: seq<ResultSetColumn>, skip: Option<Remap>)
    ensures Writes(startReg, SorterRecord(orderBy, resultColumns, skip))
      == Writes(startReg, Keys(orderBy)) + Writes(startReg + |orderBy|, Stored(resultColumns, skip, |resultColumns|))
  {
    WritesAppend(startReg, Keys(orderBy), Stored(resultColumns, skip, |resultColumns|));
  }

  /** `sorter_insert`: pack `columnCount` registers into a record and insert it into the sorter. */
  function SorterInsertInsns(startReg: nat, columnCount: nat, cursorId: nat, recordReg: nat): (r: seq<Vdbe.Insn>)
    ensures |r| == 2 && r[0].MakeRecord? && r[1].SorterInsert?
    ensures r[0].startReg == startReg && r[0].count == columnCount
    ensures r[1].cursorId == cursorId && r[1].recordReg == r[0].destReg == recordReg
  {
    [Vdbe.MakeRecord(startReg, columnCount, recordReg), Vdbe.SorterInsert(cursorId, recordReg)]
  }

  /** `Vec::insert(i, x)`. */
  function VecInsert(v: seq<nat>, i: nat, x: nat): (r: seq<nat>)
    requires i <= |v|
  {
    v[..i] + [x] + v[i..]
  }

  /** `Vec::insert` puts x at position i and shifts the entries from i on one place right, keeping the rest. */
  lemma VecInsertShifts(v: seq<nat>, i: nat, x: nat)
    requires i <= |v|
    ensures var r := VecInsert(v, i, x);
      |r| == |v| + 1 && r[i] == x && r[..i] == v[..i] && r[i + 1..] == v[i..]
  {
    var r := VecInsert(v, i, x);
    assert r[..i] == v[..i];
    assert r[i + 1..] == v[i..];
  }

  /** Inserting at the end of a front part of length i extends that front part. */
  lemma VecInsertAfterFront(front: seq<nat>, rest: seq<nat>, x: nat)
    ensures VecInsert(front + rest, |front|, x) == front + [x] + rest
  {
    var v := front + rest;
    assert v[..|front|] == front && v[|front|..] == rest;
  }

  /**
   * One turn of the result-column loop: result column i is stored exactly when
   * the remapping does not skip it, and inserting its sorter column at
   * position i of the index vector extends the computed front part.
   */
  lemma ResultColumnStep(orderBy: seq<OrderByTerm>, resultColumns: seq<ResultSetColumn>, skip: Option<Remap>,
                         i: nat, rest: seq<nat>)
    requires i < |resultColumns|
    ensures SkipLookup(skip, i).Some? ==>
      && Stored(resultColumns, skip, i + 1) == Stored(resultColumns, skip, i)
      && VecInsert(SlotIndexes(orderBy, resultColumns, skip, i) + rest, i, SkipLookup(skip, i).value)
         == SlotIndexes(orderBy, resultColumns, skip, i + 1) + rest
    ensures SkipLookup(skip, i).None? ==>
      && Stored(resultColumns, skip, i + 1) == Stored(resultColumns, skip, i) + [resultColumns[i].expr]
      && VecInsert(SlotIndexes(orderBy, resultColumns, skip, i) + rest, i,
                   |orderBy| + |Stored(resultColumns, skip, i)|)
         == SlotIndexes(orderBy, resultColumns, skip, i + 1) + rest
  {
    var slots := SlotIndexes(orderBy, resultColumns, skip, i);
    VecInsertAfterFront(slots, rest, SlotOf(orderBy, resultColumns, skip, i));
    assert Stored(resultColumns, skip, i) + [] == Stored(resultColumns, skip, i);
  }

  /**
   * The result-column loop of `order_by_sorter_insert`: every result column
   * that the remapping does not skip is evaluated into the next register after
   * the sort keys, and every result column gets its sorter column inserted at
   * its own position of the index vector.
   */
  method TranslateResultColumns(ctx: TranslateCtx, orderBy: seq<OrderByTerm>, resultColumns: seq<ResultSetColumn>,
                                resultColumnsToSkip: Option<Remap>, startReg: nat)
    returns (insns: seq<Vdbe.Insn>, translatedResultColCount: nat)
    modifies ctx`resultColumnIndexesInOrderBySorter
    ensures translatedResultColCount == |Stored(resultColumns, resultColumnsToSkip, |resultColumns|)|
    ensures insns == Writes(startReg + |orderBy|, Stored(resultColumns, resultColumnsToSkip, |resultColumns|))
    ensures ctx.resultColumnIndexesInOrderBySorter
      == SlotIndexes(orderBy, resultColumns, resultColumnsToSkip, |resultColumns|)
        + old(ctx.resultColumnIndexesInOrderBySorter)
  {
    var orderByLen := |orderBy|;
    insns := [];
    var curReg := startReg + orderByLen;
    var curIdxInOrderBySorter := orderByLen;
    translatedResultColCount := 0;
    ghost var oldIndexes := ctx.resultColumnIndexesInOrderBySorter;
    ghost var stored: seq<Expr> := [];
    for i := 0 to |resultColumns|
      invariant stored == Stored(resultColumns, resultColumnsToSkip, i)
      invariant translatedResultColCount == |stored|
      invariant curIdxInOrderBySorter == orderByLen + translatedResultColCount
      invariant curReg == startReg + curIdxInOrderBySorter
      invariant insns == Writes(startReg + orderByLen, stored)
      invariant ctx.resultColumnIndexesInOrderBySorter
        == SlotIndexes(orderBy, resultColumns, resultColumnsToSkip, i) + oldIndexes
    {
      ResultColumnTurn(orderBy, resultColumns, resultColumnsToSkip, i, oldIndexes);
      WritesSnoc(startReg + orderByLen, stored, resultColumns[i].expr);
      if resultColumnsToSkip.Some? {
        var found := FindSkipped(resultColumnsToSkip.value, i);
        if found.Some? {
          ctx.resultColumnIndexesInOrderBySorter := VecInsert(ctx.resultColumnIndexesInOrderBySorter, i, found.value);
          continue;
        }
      }
      insns := insns + [Vdbe.TranslateExpr(resultColumns[i].expr, curReg)];
      stored := stored + [resultColumns[i].expr];
      translatedResultColCount := translatedResultColCount + 1;
      ctx.resultColumnIndexesInOrderBySorter := VecInsert(ctx.resultColumnIndexesInOrderBySorter, i, curIdxInOrderBySorter);
      curIdxInOrderBySorter := curIdxInOrderBySorter + 1;
      curReg := curReg + 1;
    }
  }

  /**
   * One whole turn of the result-column loop, stated on the loop's own
   * variables: a column the remapping skips leaves the record and the
   * emitted code as they are and inserts its remapped key; any other column
   * is evaluated into the next register and inserts the next sorter column.
   */
  lemma ResultColumnTurn(orderBy: seq<OrderByTerm>, resultColumns: seq<ResultSetColumn>, skip: Option<Remap>,
                         i: nat, rest: seq<nat>)
    requires i < |resultColumns|
    ensures var stored := Stored(resultColumns, skip, i);
      var slots := SlotIndexes(orderBy, resultColumns, skip, i) + rest;
      var slotsNext := SlotIndexes(orderBy, resultColumns, skip, i + 1) + rest;
      (skip.Some? && FindSkipped(skip.value, i).Some?) ==>
        && Stored(resultColumns, skip, i + 1) == stored
        && VecInsert(slots, i, FindSkipped(skip.value, i).value) == slotsNext
    ensures var stored := Stored(resultColumns, skip, i);
      var slots := SlotIndexes(orderBy, resultColumns, skip, i) + rest;
      var slotsNext := SlotIndexes(orderBy, resultColumns, skip, i + 1) + rest;
      !(skip.Some? && FindSkipped(skip.value, i).Some?) ==>
        && Stored(resultColumns, skip, i + 1) == stored + [resultColumns[i].expr]
        && VecInsert(slots, i, |orderBy| + |stored|) == slotsNext
  {
    ResultColumnStep(orderBy, resultColumns, skip, i, rest);
  }

  /** The sort-key loop of `order_by_sorter_insert`: sort key k is evaluated into register `startReg + k`. */
  method TranslateKeys(orderBy: seq<OrderByTerm>, startReg: nat) returns (insns: seq<Vdbe.Insn>)
    ensures insns == Writes(startReg, Keys(orderBy))
  {
    insns := [];
    for i := 0 to |orderBy|
      invariant insns == Writes(startReg, Keys(orderBy)[..i])
    {
      assert Keys(orderBy)[..i + 1] == Keys(orderBy)[..i] + [orderBy[i].0];
      WritesSnoc(startReg, Keys(orderBy)[..i], orderBy[i].0);
      insns := insns + [Vdbe.TranslateExpr(orderBy[i].0, startReg + i)];
    }
    assert Keys(orderBy)[..|orderBy|] == Keys(orderBy);
  }

  /**
   * `order_by_sorter_insert`. The registers of the record start at `startReg`,
   * which the program builder allocates. The context's
   * `result_column_indexes_in_orderby_sorter` gains, at its front, the sorter
   * column of every result column.
   */
  method OrderBySorterInsert(ctx: TranslateCtx, sortMetadata: SortMetadata, plan: SelectPlan,
                             equiv: Equivalence, startReg: nat)
    returns (insns: seq<Vdbe.Insn>)
    requires plan.orderBy.Some?
    requires plan.distinctness.Distinct? ==> plan.distinctness.hasCtx
    modifies ctx`resultColumnIndexesInOrderBySorter
    ensures var orderBy := plan.orderBy.value;
      var skip := Deduplicated(orderBy, plan.resultColumns, equiv);
      ctx.resultColumnIndexesInOrderBySorter
        == SlotIndexes(orderBy, plan.resultColumns, skip, |plan.resultColumns|)
          + old(ctx.resultColumnIndexesInOrderBySorter)
    ensures var orderBy := plan.orderBy.value;
      var skip := Deduplicated(orderBy, plan.resultColumns, equiv);
      var width := SorterColumnCount(|orderBy|, |plan.resultColumns|, skip);
      var record := SorterRecord(orderBy, plan.resultColumns, skip);
      |record| == width
      && insns == Writes(startReg, record)
           + (if plan.distinctness.Distinct? then [Vdbe.Deduplicate(width, startReg)] else [])
           + SorterInsertInsns(startReg, width, sortMetadata.sortCursor, sortMetadata.regSorterData)
  {
    var orderBy := plan.orderBy.value;
    var orderByLen := |orderBy|;
    var resultColumns := plan.resultColumns;
    var resultColumnsToSkip := DeduplicateResultColumns(orderBy, resultColumns, equiv);
    var resultColumnsToSkipLen := if resultColumnsToSkip.Some? then |resultColumnsToSkip.value| else 0;
    var orderBySorterColumnCount := orderByLen + |resultColumns| - resultColumnsToSkipLen;

    insns := TranslateKeys(orderBy, startReg);
    var columnInsns, translatedResultColCount :=
      TranslateResultColumns(ctx, orderBy, resultColumns, resultColumnsToSkip, startReg);
    insns := insns + columnInsns;
    WritesRecord(startReg, orderBy, resultColumns, resultColumnsToSkip);
    ghost var front := Writes(startReg, SorterRecord(orderBy, resultColumns, resultColumnsToSkip));
    assert insns == front;
    SorterWidthMatchesRecord(orderBy, resultColumns, equiv);
    ghost var width := SorterColumnCount(orderByLen, |resultColumns|, resultColumnsToSkip);
    assert orderBySorterColumnCount == width == orderByLen + translatedResultColCount;

    ghost var dedup: seq<Vdbe.Insn> := if plan.distinctness.Distinct? then [Vdbe.Deduplicate(width, startReg)] else [];
    if plan.distinctness.Distinct? {
      var numRegs := orderByLen + translatedResultColCount;
      insns := insns + [Vdbe.Deduplicate(numRegs, startReg)];
    } else {
      assert insns == front + dedup;
    }
    insns := insns + SorterInsertInsns(startReg, orderBySorterColumnCount,
                                       sortMetadata.sortCursor, sortMetadata.regSorterData);
    assert insns == front + dedup + SorterInsertInsns(startReg, width, sortMetadata.sortCursor, sortMetadata.regSorterData);
  }

  // ---------------------------------------------------------------------------
  // Reading rows back (emit_order_by)
  // ---------------------------------------------------------------------------

  /**
   * `emit_order_by`, the part that lays out the read-back: a pseudo cursor as
   * wide as a sorter record, then one column read per result column, from the
   * sorter column the context's index vector names into the result register
   * of that column. The pseudo cursor is allocated by the program builder and
   * is a parameter here; `emit_offset` and `emit_result_row_and_limit` are not
   * part of this model.
   */
  method EmitOrderBy(ctx: TranslateCtx, plan: SelectPlan, pseudoCursor: nat) returns (insns: seq<Vdbe.Insn>)
    requires plan.orderBy.Some?
    requires ctx.metaSort.Some? && ctx.regResultColsStart.Some?
    requires SkipLen(ctx.resultColumnsToSkipInOrderBySorter) <= |plan.orderBy.value| + |plan.resultColumns|
    requires |plan.resultColumns| <= |ctx.resultColumnIndexesInOrderBySorter|
    ensures var meta := ctx.metaSort.value;
      var width := SorterColumnCount(|plan.orderBy.value|, |plan.resultColumns|, ctx.resultColumnsToSkipInOrderBySorter);
      |insns| == |plan.resultColumns| + 4
      && insns[0] == Vdbe.OpenPseudo(pseudoCursor, meta.regSorterData, width)
      && insns[1] == Vdbe.SorterSort(meta.sortCursor)
      && insns[2] == Vdbe.SorterData(meta.sortCursor, meta.regSorterData, pseudoCursor)
      && insns[|insns| - 1] == Vdbe.SorterNext(meta.sortCursor)
    ensures forall i :: 0 <= i < |plan.resultColumns| ==>
      insns[3 + i] == Vdbe.Column(pseudoCursor, ctx.resultColumnIndexesInOrderBySorter[i], ctx.regResultColsStart.value + i)
  {
    var orderBy := plan.orderBy.value;
    var resultColumns := plan.resultColumns;
    var sorterColumnCount := |orderBy| + |resultColumns| - SkipLen(ctx.resultColumnsToSkipInOrderBySorter);
    var meta := ctx.metaSort.value;
    insns := [Vdbe.OpenPseudo(pseudoCursor, meta.regSorterData, sorterColumnCount),
              Vdbe.SorterSort(meta.sortCursor),
              Vdbe.SorterData(meta.sortCursor, meta.regSorterData, pseudoCursor)];
    var startReg := ctx.regResultColsStart.value;
    for i := 0 to |resultColumns|
      invariant |insns| == 3 + i
      invariant insns[0] == Vdbe.OpenPseudo(pseudoCursor, meta.regSorterData, sorterColumnCount)
      invariant insns[1] == Vdbe.SorterSort(meta.sortCursor)
      invariant insns[2] == Vdbe.SorterData(meta.sortCursor, meta.regSorterData, pseudoCursor)
      invariant forall k :: 0 <= k < i ==>
        insns[3 + k] == Vdbe.Column(pseudoCursor, ctx.resultColumnIndexesInOrderBySorter[k], startReg + k)
    {
      var reg := startReg + i;
      insns := insns + [Vdbe.Column(pseudoCursor, ctx.resultColumnIndexesInOrderBySorter[i], reg)];
    }
    insns := insns + [Vdbe.SorterNext(meta.sortCursor)];
  }

  // ---------------------------------------------------------------------------
  // Insert and read-back together
  // ---------------------------------------------------------------------------

  /**
   * The insert side followed by the read-back, on a context whose skip list is
   * the deduplication's result. The pseudo cursor is exactly as wide as the
   * record `MakeRecord` packs. Each result column is read from a column inside
   * that record, and that column holds the result column's own expression or
   * an equivalent sort key.
   */
  method InsertThenReadBack(ctx: TranslateCtx, sortMetadata: SortMetadata, plan: SelectPlan,
                            equiv: Equivalence, startReg: nat, pseudoCursor: nat)
    returns (insertInsns: seq<Vdbe.Insn>, readInsns: seq<Vdbe.Insn>)
    requires plan.orderBy.Some?
    requires plan.distinctness.Distinct? ==> plan.distinctness.hasCtx
    requires ctx.metaSort == Some(sortMetadata) && ctx.regResultColsStart.Some?
    requires ctx.resultColumnsToSkipInOrderBySorter == Deduplicated(plan.orderBy.value, plan.resultColumns, equiv)
    modifies ctx`resultColumnIndexesInOrderBySorter
    ensures var record := SorterRecord(plan.orderBy.value, plan.resultColumns, ctx.resultColumnsToSkipInOrderBySorter);
      insertInsns == Writes(startReg, record)
        + (if plan.distinctness.Distinct? then [Vdbe.Deduplicate(|record|, startReg)] else [])
        + SorterInsertInsns(startReg, |record|, sortMetadata.sortCursor, sortMetadata.regSorterData)
      && |insertInsns| >= 2 && |readInsns| == |plan.resultColumns| + 4
      && insertInsns[|insertInsns| - 2] == Vdbe.MakeRecord(startReg, |record|, sortMetadata.regSorterData)
      && readInsns[0] == Vdbe.OpenPseudo(pseudoCursor, sortMetadata.regSorterData, |record|)
    ensures forall i :: 0 <= i < |plan.resultColumns| ==>
      var slot := SlotOf(plan.orderBy.value, plan.resultColumns, ctx.resultColumnsToSkipInOrderBySorter, i);
      var record := SorterRecord(plan.orderBy.value, plan.resultColumns, ctx.resultColumnsToSkipInOrderBySorter);
      readInsns[3 + i] == Vdbe.Column(pseudoCursor, slot, ctx.regResultColsStart.value + i)
      && slot < |record|
      && (record[slot] == plan.resultColumns[i].expr || equiv(record[slot], plan.resultColumns[i].expr))
  {
    var orderBy := plan.orderBy.value;
    var resultColumns := plan.resultColumns;
    ghost var skip := Deduplicated(orderBy, resultColumns, equiv);
    insertInsns := OrderBySorterInsert(ctx, sortMetadata, plan, equiv, startReg);
    SorterWidthMatchesRecord(orderBy, resultColumns, equiv);
    IndexVectorReadsRecord(orderBy, resultColumns, equiv, ctx.resultColumnIndexesInOrderBySorter);
    readInsns := EmitOrderBy(ctx, plan, pseudoCursor);
  }

  /**
   * An index vector that starts with the loop's entries names, for every
   * result column, a column inside the record holding that result column's
   * expression or an equivalent sort key.
   */
  lemma IndexVectorReadsRecord(orderBy: seq<OrderByTerm>, resultColumns: seq<ResultSetColumn>,
                               equiv: Equivalence, v: seq<nat>)
    requires var skip := Deduplicated(orderBy, resultColumns, equiv);
      |resultColumns| <= |v| && v[..|resultColumns|] == SlotIndexes(orderBy, resultColumns, skip, |resultColumns|)
    ensures forall i :: 0 <= i < |resultColumns| ==>
      var skip := Deduplicated(orderBy, resultColumns, equiv);
      var record := SorterRecord(orderBy, resultColumns, skip);
      v[i] == SlotOf(orderBy, resultColumns, skip, i) && v[i] < |record|
      && (record[v[i]] == resultColumns[i].expr || equiv(record[v[i]], resultColumns[i].expr))
  {
    var skip := Deduplicated(orderBy, resultColumns, equiv);
    forall i | 0 <= i < |resultColumns|
      ensures v[i] == SlotOf(orderBy, resultColumns, skip, i)
    {
      assert v[i] == v[..|resultColumns|][i];
      SlotIndexesAt(orderBy, resultColumns, skip, |resultColumns|, i);
    }
    forall i | 0 <= i < |resultColumns|
      ensures var record := SorterRecord(orderBy, resultColumns, skip);
        var slot := SlotOf(orderBy, resultColumns, skip, i);
        slot < |record| && (record[slot] == resultColumns[i].expr || equiv(record[slot], resultColumns[i].expr))
    {
      ReadBackAgrees(orderBy, resultColumns, equiv, i);
    }
  }

  // ---------------------------------------------------------------------------
  // Worked layouts
  // ---------------------------------------------------------------------------

  /**
   * ORDER BY a, b over SELECT b, c, a, with equivalence taken as syntactic
   * equality: result column 0 (b) is read from key 1, column 2 (a) from key 0,
   * and only c is stored, after the keys. The record is a, b, c.
   */
  lemma ExampleReorderedColumns()
    ensures var a, b, c := Column(0, 0), Column(0, 1), Column(0, 2);
      var orderBy: seq<OrderByTerm> := [(a, Asc), (b, Asc)];
      var resultColumns := [ResultSetColumn(b, None), ResultSetColumn(c, None), ResultSetColumn(a, None)];
      var equiv: Equivalence := (x, y) => x == y;
      var skip := Deduplicated(orderBy, resultColumns, equiv);
      skip == Some([(0, 1), (2, 0)])
      && SorterRecord(orderBy, resultColumns, skip) == [a, b, c]
      && SlotIndexes(orderBy, resultColumns, skip, 3) == [1, 2, 0]
      && SorterColumnCount(2, 3, skip) == 3
  {
    var a, b, c := Column(0, 0), Column(0, 1), Column(0, 2);
    var orderBy: seq<OrderByTerm> := [(a, Asc), (b, Asc)];
    var resultColumns := [ResultSetColumn(b, None), ResultSetColumn(c, None), ResultSetColumn(a, None)];
    var equiv: Equivalence := (x, y) => x == y;
    assert FirstEquivalent(orderBy, b, equiv) == Some(1) by {
      assert FirstEquivalentFrom(orderBy, b, equiv, 1) == Some(1);
    }
    assert FirstEquivalent(orderBy, c, equiv) == None by {
      assert FirstEquivalentFrom(orderBy, c, equiv, 2) == None;
    }
    assert FirstEquivalent(orderBy, a, equiv) == Some(0);
    assert RemapPairs(orderBy, resultColumns, equiv, 3) == [(0, 1), (2, 0)] by {
      assert RemapPairs(orderBy, resultColumns, equiv, 1) == [(0, 1)];
      assert RemapPairs(orderBy, resultColumns, equiv, 2) == [(0, 1)];
    }
    var skip := Deduplicated(orderBy, resultColumns, equiv);
    var v: Remap := [(0, 1), (2, 0)];
    assert SkipLookup(skip, 0) == Some(1);
    assert SkipLookup(skip, 1) == None by {
      assert FindSkippedFrom(v, 1, 1) == None;
    }
    assert SkipLookup(skip, 2) == Some(0) by {
      assert FindSkippedFrom(v, 2, 1) == Some(0);
    }
    assert Stored(resultColumns, skip, 1) == [];
    assert Stored(resultColumns, skip, 2) == [c];
    assert Stored(resultColumns, skip, 3) == [c];
    assert SlotIndexes(orderBy, resultColumns, skip, 2) == [1, 2];
  }

  /**
   * SELECT a, a ORDER BY a: both result columns are read from key 0, nothing
   * is stored besides the key, and the record is one column wide.
   */
  lemma ExampleRepeatedColumn()
    ensures var a := Column(0, 0);
      var orderBy: seq<OrderByTerm> := [(a, Desc)];
      var resultColumns := [ResultSetColumn(a, None), ResultSetColumn(a, None)];
      var equiv: Equivalence := (x, y) => x == y;
      var skip := Deduplicated(orderBy, resultColumns, equiv);
      skip == Some([(0, 0), (1, 0)])
      && SorterRecord(orderBy, resultColumns, skip) == [a]
      && SlotIndexes(orderBy, resultColumns, skip, 2) == [0, 0]
      && SorterColumnCount(1, 2, skip) == 1
  {
    var a := Column(0, 0);
    var orderBy: seq<OrderByTerm> := [(a, Desc)];
    var resultColumns := [ResultSetColumn(a, None), ResultSetColumn(a, None)];
    var equiv: Equivalence := (x, y) => x == y;
    assert FirstEquivalent(orderBy, a, equiv) == Some(0);
    assert RemapPairs(orderBy, resultColumns, equiv, 2) == [(0, 0), (1, 0)] by {
      assert RemapPairs(orderBy, resultColumns, equiv, 1) == [(0, 0)];
    }
    var skip := Deduplicated(orderBy, resultColumns, equiv);
    var v: Remap := [(0, 0), (1, 0)];
    assert SkipLookup(skip, 0) == Some(0);
    assert SkipLookup(skip, 1) == Some(0) by {
      assert FindSkippedFrom(v, 1, 1) == Some(0);
    }
    assert Stored(resultColumns, skip, 1) == [];
    assert Stored(resultColumns, skip, 2) == [];
  }
}
