/**
 * Properties of the filter, the sort keys and the row wrapping.
 */
module MongoQueryProps {
  import opened Wrappers
  import opened Types
  import opened Json
  import opened RowCodec
  import opened RowCodecProps
  import opened MongoQuery

  /** The indices of the columns with a non-empty search value, in increasing order. */
  function SearchedIndices(cs: seq<Column>): seq<nat>
  {
    if |cs| == 0 then []
    else
      SearchedIndices(cs[..|cs| - 1]) + if cs[|cs| - 1].search.value != "" then [|cs| - 1] else []
  }

  /** The searched indices are in range, strictly increasing, and list exactly the columns with a search value. */
  lemma {:induction false} SearchedIndicesSpec(cs: seq<Column>)
    ensures forall k :: 0 <= k < |SearchedIndices(cs)| ==> SearchedIndices(cs)[k] < |cs|
    ensures forall k1, k2 :: 0 <= k1 < k2 < |SearchedIndices(cs)| ==> SearchedIndices(cs)[k1] < SearchedIndices(cs)[k2]
    ensures forall i :: 0 <= i < |cs| ==> (i in SearchedIndices(cs) <==> cs[i].search.value != "")
  {
    if |cs| > 0 {
      var n := |cs| - 1;
      var front := cs[..n];
      SearchedIndicesSpec(front);
      assert forall i :: 0 <= i < n ==> front[i] == cs[i];
    }
  }

  /** Without a column search value there is no searched index. */
  lemma {:induction false} NoSearchedIndices(cs: seq<Column>)
    requires forall i :: 0 <= i < |cs| ==> cs[i].search.value == ""
    ensures SearchedIndices(cs) == []
  {
    if |cs| > 0 {
      NoSearchedIndices(cs[..|cs| - 1]);
    }
  }

  /**
   * The per-column clauses are one clause per searched column, in column
   * order: the k-th clause belongs to the k-th column with a search value.
   */
  lemma {:induction false} ColumnClausesSpec(cs: seq<Column>, quote: string -> string)
    ensures |ColumnClauses(cs, quote)| == |SearchedIndices(cs)|
    ensures forall k :: 0 <= k < |SearchedIndices(cs)| ==>
      && SearchedIndices(cs)[k] < |cs|
      && ColumnClauses(cs, quote)[k]
         == Clause(cs[SearchedIndices(cs)[k]].data, Pattern(cs[SearchedIndices(cs)[k]].search, quote))
  {
    SearchedIndicesSpec(cs);
    if |cs| > 0 {
      var n := |cs| - 1;
      var front := cs[..n];
      ColumnClausesSpec(front, quote);
      SearchedIndicesSpec(front);
      var idx := SearchedIndices(front);
      assert forall k :: 0 <= k < |idx| ==> cs[idx[k]] == front[idx[k]];
    }
  }

  /** The filter is the bare disjunction exactly when no column has a search value of its own. */
  lemma FilterShape(r: Request, quote: string -> string)
    ensures (forall i :: 0 <= i < |r.columns| ==> r.columns[i].search.value == "") ==>
      Filter(r, quote) == BDoc(map["$or" := BList(GlobalClauses(r, quote))])
    ensures (exists i :: 0 <= i < |r.columns| && r.columns[i].search.value != "") ==>
      Filter(r, quote) == BDoc(map["$and" := BList([
        BDoc(map["$or" := BList(GlobalClauses(r, quote))]),
        BDoc(map["$and" := BList(ColumnClauses(r.columns, quote))])])])
  {
    ColumnClausesSpec(r.columns, quote);
    SearchedIndicesSpec(r.columns);
    if exists i :: 0 <= i < |r.columns| && r.columns[i].search.value != "" {
      var i :| 0 <= i < |r.columns| && r.columns[i].search.value != "";
      assert i in SearchedIndices(r.columns);
    } else {
      NoSearchedIndices(r.columns);
    }
  }

  /** Two column lists that agree on every column's data field and search. */
  ghost predicate SameSearches(cs1: seq<Column>, cs2: seq<Column>)
  {
    |cs1| == |cs2| && forall i :: 0 <= i < |cs1| ==> cs1[i].data == cs2[i].data && cs1[i].search == cs2[i].search
  }

  lemma {:induction false} ColumnClausesOnlySearches(cs1: seq<Column>, cs2: seq<Column>, quote: string -> string)
    requires SameSearches(cs1, cs2)
    ensures ColumnClauses(cs1, quote) == ColumnClauses(cs2, quote)
  {
    if |cs1| > 0 {
      var n := |cs1| - 1;
      ColumnClausesOnlySearches(cs1[..n], cs2[..n], quote);
    }
  }

  /**
   * The filter reads only the global search and each column's data field and
   * search: the searchable and orderable flags, the column names, the
   * ordering and the paging have no effect on it.
   */
  lemma FilterOnlySearches(r1: Request, r2: Request, quote: string -> string)
    requires r1.search == r2.search
    requires SameSearches(r1.columns, r2.columns)
    ensures Filter(r1, quote) == Filter(r2, quote)
  {
    ColumnClausesOnlySearches(r1.columns, r2.columns, quote);
    assert GlobalClauses(r1, quote) == GlobalClauses(r2, quote);
  }

  /** An unset direction sorts like "asc"; "desc" is the same key with a "-" in front. */
  lemma SortKeyDirections(c: int, cs: seq<Column>)
    requires 0 <= c < |cs|
    ensures SortKey(Order(c, Unset), cs) == SortKey(Order(c, Ascending), cs) == cs[c].data
    ensures SortKey(Order(c, Descending), cs) == "-" + cs[c].data
  {
    assert "" + cs[c].data == cs[c].data;
  }

  /**
   * A wrapped result encodes as exactly its own fields, and one none of
   * whose keys names a metadata field decodes back to the same row.
   */
  lemma WrappedRowTravels(m: map<string, string>, prev: Row, j: Json)
    requires forall k :: k in m ==> !MetaName(k)
    requires PrintedAs(EncodeRow(Row(m, "", "", map[], map[])), j)
    ensures EncodeRow(Row(m, "", "", map[], map[])) == DataFields(m)
    ensures DecodeRow(prev, j) == Some(Row(m, "", "", map[], map[]))
  {
    RoundTrip(Row(m, "", "", map[], map[]), prev, j);
  }
}
