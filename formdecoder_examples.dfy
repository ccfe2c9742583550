/** Concrete keys and one whole form, decoded. */
module FormDecoderExamples {
  import opened Wrappers
  import opened Decimal
  import opened Types
  import opened FormKeys
  import opened FormDecoder
  import opened FormDecoderProps

  /** A non-numeric index fails the column pattern, so it is ErrNotEnoughFields, not an Atoi error. */
  lemma NonNumericColumnIndex(r: Request, v: string)
    ensures Route(r, "columns[abc][data]", v) == Err(ErrNotEnoughFields)
  {
    var k := "columns[abc][data]";
    assert k[0] == 'c' && k[1] == 'o' && k[2] == 'l';
    assert !HasPrefix(k, "search") && !HasPrefix(k, "order") && HasPrefix(k, "column");
    assert k[..8] == "columns[";
    var t := k[8..];
    assert t[0] == 'a' && !IsDigit(t[0]);
    assert DigitRun(t) == 0;
    assert MatchColumn(k) == None;
  }

  /** `columns[0][search]` reaches parseSearch as the bare "search", which is refused. */
  lemma ColumnSearchWithoutSubfield(r: Request, v: string)
    ensures Route(r, "columns[0][search]", v) == Err(ErrNotEnoughFields)
  {
    var k := "columns[0][search]";
    assert k[0] == 'c' && k[1] == 'o' && k[2] == 'l';
    assert !HasPrefix(k, "search") && !HasPrefix(k, "order") && HasPrefix(k, "column");
    ColumnSearchRefused(r.columns, v);
  }

  lemma ColumnSearchRefused(cs: seq<Column>, v: string)
    ensures ColumnUpdate(cs, "columns[0][search]", v) == Err(ErrNotEnoughFields)
  {
    ColumnSearchKey();
    AtoiItoa(0);
    assert Itoa(0) == "0";
    var c := Grow(cs, 0, ZeroColumn)[0];
    assert "search" + "" == "search";
    assert MatchSearch("search") == None;
    assert ParseSearch(c.search, "search", v) == Err(ErrNotEnoughFields);
  }

  lemma ColumnSearchKey()
    ensures MatchColumn("columns[0][search]") == Some(("0", "search", ""))
  {
    var k := "columns[0][search]";
    assert "columns[" + "0" == "columns[0";
    assert "columns[0" + "][" == "columns[0][";
    assert "columns[0][" + "search" == "columns[0][search";
    assert "columns[0][search" + "]" == k;
    assert k + "" == k;
    assert IsDigits("0");
    ColumnKeyMatches(k, "0", "search", "");
  }

  /** The cache-busting key "_" is ignored. */
  lemma UnderscoreIgnored(r: Request, v: string)
    ensures Route(r, "_", v) == Ok(r)
  {
  }

  /** `columns[0][data]` and `columns[00][data]` both name column 0. */
  lemma ZeroDataKeys(digits: string)
    requires digits == "0" || digits == "00"
    ensures MatchColumn("columns[" + digits + "][data]") == Some((digits, "data", ""))
    ensures Atoi(digits) == Some(0)
  {
    var k := "columns[" + digits + "][data]";
    assert k == "columns[" + digits + "][" + "data" + "]" + "";
    assert IsDigits(digits);
    ColumnKeyMatches(k, digits, "data", "");
    assert DigitsValue("0") == 0 by { assert "0"[..0] == ""; }
    if digits == "00" {
      assert digits[..1] == "0";
    }
  }

  lemma SetColumnZeroData(r: Request, digits: string, v: string)
    requires digits == "0" || digits == "00"
    requires |r.columns| <= 1
    ensures Route(r, "columns[" + digits + "][data]", v)
         == Ok(r.(columns := [Previous(r.columns, 0, ZeroColumn).(data := v)]))
  {
    var k := "columns[" + digits + "][data]";
    assert k[0] == 'c' && k[1] == 'o' && k[2] == 'l';
    assert !HasPrefix(k, "search") && !HasPrefix(k, "order") && HasPrefix(k, "column");
    ZeroDataKeys(digits);
    var out := Grow(r.columns, 0, ZeroColumn);
    assert |out| == 1 && out[0] == Previous(r.columns, 0, ZeroColumn);
    assert out[0 := out[0].(data := v)] == [Previous(r.columns, 0, ZeroColumn).(data := v)];
  }

  /**
   * Two keys that alias the same column: the value that survives is the one
   * visited last, so the result depends on the map's iteration order.
   */
  lemma EntryOrderMatters()
    ensures DecodeFrom(ZeroRequest, [("columns[0][data]", ["a"]), ("columns[00][data]", ["b"])])
         == Ok(ZeroRequest.(columns := [ZeroColumn.(data := "b")]))
    ensures DecodeFrom(ZeroRequest, [("columns[00][data]", ["b"]), ("columns[0][data]", ["a"])])
         == Ok(ZeroRequest.(columns := [ZeroColumn.(data := "a")]))
  {
    assert "columns[" + "0" + "][data]" == "columns[0][data]";
    assert "columns[" + "00" + "][data]" == "columns[00][data]";
    Visit2(ZeroRequest, "0", "a", "00", "b");
    Visit2(ZeroRequest, "00", "b", "0", "a");
  }

  lemma Visit2(r: Request, d1: string, v1: string, d2: string, v2: string)
    requires r.columns == []
    requires d1 == "0" || d1 == "00"
    requires d2 == "0" || d2 == "00"
    ensures DecodeFrom(r, [("columns[" + d1 + "][data]", [v1]), ("columns[" + d2 + "][data]", [v2])])
         == Ok(r.(columns := [ZeroColumn.(data := v2)]))
  {
    var k1 := "columns[" + d1 + "][data]";
    var k2 := "columns[" + d2 + "][data]";
    var u: Values := [(k1, [v1]), (k2, [v2])];
    SetColumnZeroData(r, d1, v1);
    var r1 := r.(columns := [ZeroColumn.(data := v1)]);
    SetColumnZeroData(r1, d2, v2);
    assert u == [(k1, [v1])] + [(k2, [v2])];
    DecodeEntry(r, k1, [v1], [(k2, [v2])]);
    DecodeEntry(r1, k2, [v2], []);
    assert [(k2, [v2])] == [(k2, [v2])] + [];
  }

  lemma DrawKey(r: Request)
    ensures Route(r, "draw", "2") == Ok(r.(draw := 2))
  {
    AtoiItoa(2);
    assert Itoa(2) == "2";
  }

  lemma SearchValueKey(r: Request, v: string)
    ensures Route(r, "search[value]", v) == Ok(r.(search := r.search.(value := v)))
  {
    var k := "search[value]";
    assert k == "search[" + "value" + "]";
    assert SearchKey(k, "value");
    ParseSearchFields(r.search, k, "value", v);
  }

  lemma SearchRegexKey(r: Request, v: string)
    ensures Route(r, "search[regex]", v) == Ok(r.(search := r.search.(regex := v == "true")))
  {
    var k := "search[regex]";
    assert k == "search[" + "regex" + "]";
    assert SearchKey(k, "regex");
    ParseSearchFields(r.search, k, "regex", v);
  }

  lemma FirstOrderDirKey(r: Request)
    requires r.order == []
    ensures Route(r, "order[0][dir]", "asc") == Ok(r.(order := [Order(0, Ascending)]))
  {
    var k := "order[0][dir]";
    assert k[0] == 'o' && k[1] == 'r';
    assert !HasPrefix(k, "search") && HasPrefix(k, "order");
    assert k == "order[" + "0" + "][" + "dir" + "]";
    assert IsDigits("0") && DigitsValue("0") == 0 by { assert "0"[..0] == ""; }
    assert OrderKey(k, "0", "dir");
    OrderUpdateSpec(r.order, k, "0", "dir", "asc");
    var out := OrderUpdate(r.order, k, "asc").value;
    assert |out| == 1 && out[0] == Order(0, Ascending);
    assert out == [Order(0, Ascending)];
  }

  /**
   * Part of a DataTables form: the draw counter, the global search, one
   * ordering, the ignored cache-buster "_" and a key without values.
   */
  lemma SmallForm()
    ensures DecodeFrom(ZeroRequest, [
        ("draw", ["2"]), ("search[value]", ["t"]), ("search[regex]", ["false"]),
        ("order[0][dir]", ["asc"]), ("_", ["1495876460828"]), ("length", [])])
      == Ok(ZeroRequest.(draw := 2, search := Search("t", false), order := [Order(0, Ascending)]))
  {
    var r0 := ZeroRequest;
    var r1 := r0.(draw := 2);
    var r2 := r1.(search := Search("t", false));
    var r3 := r2.(search := Search("t", false));
    var r4 := r3.(order := [Order(0, Ascending)]);
    DrawKey(r0);
    SearchValueKey(r1, "t");
    SearchRegexKey(r2, "false");
    FirstOrderDirKey(r3);
    UnderscoreIgnored(r4, "1495876460828");
    var e5: Values := [("length", [])];
    var e4: Values := [("_", ["1495876460828"])] + e5;
    var e3: Values := [("order[0][dir]", ["asc"])] + e4;
    var e2: Values := [("search[regex]", ["false"])] + e3;
    var e1: Values := [("search[value]", ["t"])] + e2;
    var e0: Values := [("draw", ["2"])] + e1;
    DecodeEntry(r4, "length", [], []);
    assert e5 == [("length", [])] + [];
    DecodeEntry(r4, "_", ["1495876460828"], e5);
    DecodeEntry(r3, "order[0][dir]", ["asc"], e4);
    DecodeEntry(r2, "search[regex]", ["false"], e3);
    DecodeEntry(r1, "search[value]", ["t"], e2);
    DecodeEntry(r0, "draw", ["2"], e1);
  }
}
