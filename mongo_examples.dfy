/** The filter and sort keys of two documented requests (regular-expression options are never set). */
module MongoQueryExamples {
  import opened Types
  import opened MongoQuery
  import opened MongoQueryProps

  const Columns1 := [
    Column("foo", "", true, true, Search("", false)),
    Column("bar", "", false, false, ZeroSearch)]

  const Request1 := Request(1, 5, 10, Search("test", false), [], Columns1)

  const Columns2 := [
    Column("foo", "", true, false, Search("test", false)),
    Column("bar", "", true, true, Search("^test$", true))]

  const Request2 := Request(10, 25, 100, Search("^test$", true), [Order(1, Descending)], Columns2)

  /** No column searches: the global search over both columns, quoted, is the whole filter. */
  lemma GlobalSearchOnly(quote: string -> string)
    ensures Filter(Request1, quote)
         == BDoc(map["$or" := BList([Clause("foo", quote("test")), Clause("bar", quote("test"))])])
  {
    FilterShape(Request1, quote);
    assert GlobalClauses(Request1, quote) == [Clause("foo", quote("test")), Clause("bar", quote("test"))];
  }

  /** Both columns search: the global disjunction is conjoined with one clause per column. */
  lemma GlobalAndColumnSearches(quote: string -> string)
    ensures Filter(Request2, quote) == BDoc(map["$and" := BList([
      BDoc(map["$or" := BList([Clause("foo", "^test$"), Clause("bar", "^test$")])]),
      BDoc(map["$and" := BList([Clause("foo", quote("test")), Clause("bar", "^test$")])])])])
  {
    FilterShape(Request2, quote);
    assert Columns2[1].search.value != "";
    assert GlobalClauses(Request2, quote) == [Clause("foo", "^test$"), Clause("bar", "^test$")];
    assert Columns2[..1][..0] == [];
    assert ColumnClauses(Columns2, quote) == [Clause("foo", quote("test")), Clause("bar", "^test$")];
  }

  /** A descending order on column 1 sorts by "-bar". */
  lemma DescendingSortKey()
    ensures SortKey(Request2.order[0], Request2.columns) == "-bar"
  {
    SortKeyDirections(1, Columns2);
  }
}
