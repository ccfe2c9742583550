/**
 * The MongoDB adapter's pure constructions (mongo/mongo.go): the filter
 * document built from a request's searches, the sort keys built from its
 * ordering, and the wrapping of query results into rows. The database
 * driver, HTTP handling and paging calls are not modelled; the query results
 * are a parameter, and regexp.QuoteMeta is the parameter `quote`.
 */
module MongoQuery {
  import opened Types

  /** The BSON values the filter uses: documents, arrays and regular expressions. */
  datatype Bson =
    | BDoc(fields: map<string, Bson>)
    | BList(items: seq<Bson>)
    | BRegEx(pattern: string, options: string)

  /** The pattern a search contributes: its value as is when it is a regex, quoted otherwise. */
  function Pattern(s: Search, quote: string -> string): string
  {
    if s.regex then s.value else quote(s.value)
  }

  /** `{field: /pattern/}`; the options are never set. */
  function Clause(field: string, pattern: string): Bson
  {
    BDoc(map[field := BRegEx(pattern, "")])
  }

  /** The global search applied to every column, one clause per column. */
  function GlobalClauses(r: Request, quote: string -> string): seq<Bson>
  {
    seq(|r.columns|, i requires 0 <= i < |r.columns| => Clause(r.columns[i].data, Pattern(r.search, quote)))
  }

  /** The per-column clauses, one for each column with a non-empty search value, in column order. */
  function ColumnClauses(cs: seq<Column>, quote: string -> string): seq<Bson>
  {
    if |cs| == 0 then []
    else
      var c := cs[|cs| - 1];
      ColumnClauses(cs[..|cs| - 1], quote)
        + if c.search.value != "" then [Clause(c.data, Pattern(c.search, quote))] else []
  }

  /** `{$or: global}`, conjoined with `{$and: column}` when there are column clauses. */
  function Filter(r: Request, quote: string -> string): Bson
  {
    var any := BDoc(map["$or" := BList(GlobalClauses(r, quote))]);
    var column := ColumnClauses(r.columns, quote);
    if |column| == 0 then any
    else BDoc(map["$and" := BList([any, BDoc(map["$and" := BList(column)])])])
  }

  /** The `$or` list of a document, if it has one. */
  function OrList(d: Bson): seq<Bson>
  {
    if d.BDoc? && "$or" in d.fields && d.fields["$or"].BList? then d.fields["$or"].items else []
  }

  /** The global disjunction of a filter: its own `$or`, or that of the first conjunct of its `$and`. */
  function Disjuncts(q: Bson): seq<Bson>
  {
    if q.BDoc? && "$and" in q.fields && q.fields["$and"].BList? && |q.fields["$and"].items| > 0
    then OrList(q.fields["$and"].items[0])
    else OrList(q)
  }

  /**
   * CreateFilter: fill the global clauses in place, append the column clauses,
   * then combine. The global disjunction holds one clause per column, in column
   * order, keyed by the column's data field whatever its searchable flag.
   */
  method CreateFilter(r: Request, quote: string -> string) returns (q: Bson)
    ensures q == Filter(r, quote)
    ensures |Disjuncts(q)| == |r.columns|
    ensures forall i :: 0 <= i < |r.columns| ==>
      Disjuncts(q)[i] == BDoc(map[r.columns[i].data := BRegEx(Pattern(r.search, quote), "")])
  {
    ghost var g := GlobalClauses(r, quote);
    var global := new Bson[|r.columns|];
    var column: seq<Bson> := [];
    for i := 0 to |r.columns|
      invariant forall j :: 0 <= j < i ==> global[j] == g[j]
      invariant column == ColumnClauses(r.columns[..i], quote)
    {
      var c := r.columns[i];
      if r.search.regex {
        global[i] := BDoc(map[c.data := BRegEx(r.search.value, "")]);
        assert global[i] == g[i];
      } else {
        global[i] := BDoc(map[c.data := BRegEx(quote(r.search.value), "")]);
        assert global[i] == g[i];
      }
      ColumnClausesStep(r.columns, i, quote);
      if c.search.value != "" {
        var m: Bson;
        if c.search.regex {
          m := BDoc(map[c.data := BRegEx(c.search.value, "")]);
          assert m == Clause(c.data, Pattern(c.search, quote));
        } else {
          m := BDoc(map[c.data := BRegEx(quote(c.search.value), "")]);
          assert m == Clause(c.data, Pattern(c.search, quote));
        }
        column := column + [m];
      }
    }
    assert r.columns[..|r.columns|] == r.columns;
    assert global[..] == g;
    q := BDoc(map["$or" := BList(global[..])]);
    if |column| > 0 {
      q := BDoc(map["$and" := BList([q, BDoc(map["$and" := BList(column)])])]);
    }
    FilterDisjuncts(r, quote);
  }

  /** One more column adds its clause to the column clauses exactly when its search value is non-empty. */
  lemma ColumnClausesStep(cs: seq<Column>, i: nat, quote: string -> string)
    requires i < |cs|
    ensures ColumnClauses(cs[..i + 1], quote) == ColumnClauses(cs[..i], quote)
      + if cs[i].search.value != "" then [Clause(cs[i].data, Pattern(cs[i].search, quote))] else []
  {
    assert cs[..i + 1][..i] == cs[..i];
  }

  /** The global disjunction of the filter is the list of global clauses. */
  lemma FilterDisjuncts(r: Request, quote: string -> string)
    ensures Disjuncts(Filter(r, quote)) == GlobalClauses(r, quote)
  {
  }

  /** The sort key of one ordering: the column's data field, prefixed by "-" when descending. */
  function SortKey(o: Order, cs: seq<Column>): string
    requires 0 <= o.column < |cs|
  {
    (if o.dir == Descending then "-" else "") + cs[o.column].data
  }

  /** The ordering refers only to existing columns (SortQuery indexes the columns without a check). */
  predicate OrderInRange(r: Request)
  {
    forall i :: 0 <= i < |r.order| ==> 0 <= r.order[i].column < |r.columns|
  }

  /** The sort keys SortQuery hands to the driver: one per ordering, in order. */
  method SortKeys(r: Request) returns (keys: seq<string>)
    requires OrderInRange(r)
    ensures |keys| == |r.order|
    ensures forall i :: 0 <= i < |keys| ==> keys[i] == SortKey(r.order[i], r.columns)
  {
    var sort := new string[|r.order|];
    for i := 0 to |r.order|
      invariant forall j :: 0 <= j < i ==> sort[j] == SortKey(r.order[j], r.columns)
    {
      var o := r.order[i];
      var prefix := "";
      if o.dir == Descending {
        prefix := "-";
      }
      sort[i] := prefix + r.columns[o.column].data;
    }
    keys := sort[..];
  }

  /** ResponseData: one row per result, carrying the result as its data and no metadata. */
  method WrapRows(results: seq<map<string, string>>) returns (data: seq<Row>)
    ensures |data| == |results|
    ensures forall i :: 0 <= i < |data| ==> data[i] == Row(results[i], "", "", map[], map[])
  {
    var rows := new Row[|results|](_ => ZeroRow);
    for i := 0 to |results|
      invariant forall j :: 0 <= j < i ==> rows[j] == Row(results[j], "", "", map[], map[])
      invariant forall j :: i <= j < |results| ==> rows[j] == ZeroRow
    {
      rows[i] := rows[i].(data := results[i]);
    }
    data := rows[..];
  }
}
