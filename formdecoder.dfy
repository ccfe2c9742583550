/**
 * The form decoder (types/encoding.go:87-207): flat, bracket-indexed form
 * keys become a structured Request. The Go `url.Values` map is a sequence of
 * (key, values) entries here; the order of that sequence is the order in
 * which the Go loop happens to visit the map.
 */
module FormDecoder {
  import opened Wrappers
  import opened Decimal
  import opened Types
  import opened FormKeys

  /** ErrNotEnoughFields, or the *strconv.NumError of a failed Atoi on `num`. */
  datatype DecodeError = ErrNotEnoughFields | ErrAtoi(num: string)

  type Values = seq<(string, seq<string>)>

  function AtoiResult(s: string): Result<int, DecodeError>
  {
    match Atoi(s)
    case Some(n) => Ok(n)
    case None => Err(ErrAtoi(s))
  }

  /** Only the literal "true" is truthy. */
  predicate Truthy(v: string)
  {
    v == "true"
  }

  /** `dir` coercion: "asc" and "desc" set the direction, anything else keeps it. */
  function ApplyDir(d: OrderDirection, v: string): OrderDirection
  {
    if v == "asc" then Ascending else if v == "desc" then Descending else d
  }

  /** `make` + `copy`: grow to id + 1 entries, keeping the old ones. */
  function Grow<T>(xs: seq<T>, id: nat, zero: T): (out: seq<T>)
    ensures |out| == if id + 1 > |xs| then id + 1 else |xs|
    ensures forall j :: 0 <= j < |out| ==> out[j] == if j < |xs| then xs[j] else zero
  {
    if id + 1 > |xs| then xs + seq(id + 1 - |xs|, _ => zero) else xs
  }

  // ------------------------------------------------------------ parseSearch

  /** parseSearch: copy the Search and set the one field the key names. */
  function ParseSearch(s: Search, k: string, v: string): Result<Search, DecodeError>
  {
    match MatchSearch(k)
    case None => Err(ErrNotEnoughFields)
    case Some(field) =>
      if field == "value" then Ok(s.(value := v))
      else if field == "regex" then Ok(s.(regex := Truthy(v)))
      else Ok(s)
  }

  // ------------------------------------------------------------ parseOrder

  /** What parseOrder computes. */
  function OrderUpdate(o: seq<Order>, k: string, v: string): Result<seq<Order>, DecodeError>
  {
    match MatchOrder(k)
    case None => Err(ErrNotEnoughFields)
    case Some((digits, field)) =>
      match Atoi(digits)
      case None => Err(ErrAtoi(digits))
      case Some(id) =>
        var out := Grow(o, id, ZeroOrder);
        if field == "column" then
          match AtoiResult(v)
          case Err(e) => Err(e)
          case Ok(n) => Ok(out[id := out[id].(column := n)])
        else if field == "dir" then Ok(out[id := out[id].(dir := ApplyDir(out[id].dir, v))])
        else Ok(out)
  }

  /** parseOrder: grow the slice when needed, then set one field of `out[id]`. */
  method ParseOrder(o: seq<Order>, k: string, v: string) returns (res: Result<seq<Order>, DecodeError>)
    ensures res == OrderUpdate(o, k, v)
  {
    var m := MatchOrder(k);
    if m.None? {
      return Err(ErrNotEnoughFields);
    }
    var (digits, field) := m.value;
    var parsed := Atoi(digits);
    if parsed.None? {
      return Err(ErrAtoi(digits));
    }
    var id: nat := parsed.value;
    var out: seq<Order>;
    if id + 1 > |o| {
      out := o + seq(id + 1 - |o|, _ => ZeroOrder);
    } else {
      out := o;
    }
    if field == "column" {
      var n := AtoiResult(v);
      if n.Err? {
        return Err(n.error);
      }
      out := out[id := out[id].(column := n.value)];
    } else if field == "dir" {
      if v == "asc" {
        out := out[id := out[id].(dir := Ascending)];
      } else if v == "desc" {
        out := out[id := out[id].(dir := Descending)];
      } else {
        assert out[id := out[id].(dir := ApplyDir(out[id].dir, v))] == out;
      }
    }
    return Ok(out);
  }

  // ------------------------------------------------------------ parseColumn

  /** What parseColumn computes. */
  function ColumnUpdate(cs: seq<Column>, k: string, v: string): Result<seq<Column>, DecodeError>
  {
    match MatchColumn(k)
    case None => Err(ErrNotEnoughFields)
    case Some((digits, field, rest)) =>
      match Atoi(digits)
      case None => Err(ErrAtoi(digits))
      case Some(id) =>
        var out := Grow(cs, id, ZeroColumn);
        var c := out[id];
        if field == "data" then Ok(out[id := c.(data := v)])
        else if field == "name" then Ok(out[id := c.(name := v)])
        else if field == "searchable" then Ok(out[id := c.(searchable := Truthy(v))])
        else if field == "orderable" then Ok(out[id := c.(orderable := Truthy(v))])
        else if field == "search" then
          match ParseSearch(c.search, "search" + rest, v)
          case Err(e) => Err(e)
          case Ok(s) => Ok(out[id := c.(search := s)])
        else Ok(out)
  }

  /** parseColumn: grow the slice when needed, then set one field of `out[id]`. */
  method ParseColumn(cs: seq<Column>, k: string, v: string) returns (res: Result<seq<Column>, DecodeError>)
    ensures res == ColumnUpdate(cs, k, v)
  {
    var m := MatchColumn(k);
    if m.None? {
      return Err(ErrNotEnoughFields);
    }
    var (digits, field, rest) := m.value;
    var parsed := Atoi(digits);
    if parsed.None? {
      return Err(ErrAtoi(digits));
    }
    var id: nat := parsed.value;
    var out: seq<Column>;
    if id + 1 > |cs| {
      out := cs + seq(id + 1 - |cs|, _ => ZeroColumn);
    } else {
      out := cs;
    }
    if field == "data" {
      out := out[id := out[id].(data := v)];
    } else if field == "name" {
      out := out[id := out[id].(name := v)];
    } else if field == "searchable" {
      out := out[id := out[id].(searchable := v == "true")];
    } else if field == "orderable" {
      out := out[id := out[id].(orderable := v == "true")];
    } else if field == "search" {
      var s := ParseSearch(out[id].search, "search" + rest, v);
      if s.Err? {
        return Err(s.error);
      }
      out := out[id := out[id].(search := s.value)];
    }
    return Ok(out);
  }

  // ------------------------------------------------------------ ParseURLValues

  /** One turn of the ParseURLValues loop, for a key and its first value. */
  function Route(r: Request, k: string, v: string): Result<Request, DecodeError>
  {
    if k == "draw" then
      match AtoiResult(v) case Err(e) => Err(e) case Ok(n) => Ok(r.(draw := n))
    else if k == "start" then
      match AtoiResult(v) case Err(e) => Err(e) case Ok(n) => Ok(r.(start := n))
    else if k == "length" then
      match AtoiResult(v) case Err(e) => Err(e) case Ok(n) => Ok(r.(length := n))
    else if HasPrefix(k, "search") then
      match ParseSearch(r.search, k, v) case Err(e) => Err(e) case Ok(s) => Ok(r.(search := s))
    else if HasPrefix(k, "order") then
      match OrderUpdate(r.order, k, v) case Err(e) => Err(e) case Ok(o) => Ok(r.(order := o))
    else if HasPrefix(k, "column") then
      match ColumnUpdate(r.columns, k, v) case Err(e) => Err(e) case Ok(c) => Ok(r.(columns := c))
    else Ok(r)
  }

  /** The loop of ParseURLValues from request r over the entries u. */
  function DecodeFrom(r: Request, u: Values): Result<Request, DecodeError>
    decreases |u|
  {
    if |u| == 0 then Ok(r)
    else if |u[0].1| < 1 then DecodeFrom(r, u[1..])
    else
      match Route(r, u[0].0, u[0].1[0])
      case Err(e) => Err(e)
      case Ok(r') => DecodeFrom(r', u[1..])
  }

  /** ParseURLValues: start from the zero Request, visit every entry, stop at the first error. */
  method ParseURLValues(u: Values) returns (res: Result<Request, DecodeError>)
    ensures res == DecodeFrom(ZeroRequest, u)
  {
    var r := ZeroRequest;
    for i := 0 to |u|
      invariant DecodeFrom(r, u[i..]) == DecodeFrom(ZeroRequest, u)
    {
      var (k, vs) := u[i];
      assert u[i..][1..] == u[i + 1..];
      if |vs| < 1 {
        continue;
      }
      var v := vs[0];
      if k == "draw" {
        var n := AtoiResult(v);
        if n.Err? { return Err(n.error); }
        r := r.(draw := n.value);
      } else if k == "start" {
        var n := AtoiResult(v);
        if n.Err? { return Err(n.error); }
        r := r.(start := n.value);
      } else if k == "length" {
        var n := AtoiResult(v);
        if n.Err? { return Err(n.error); }
        r := r.(length := n.value);
      } else if HasPrefix(k, "search") {
        var s := ParseSearch(r.search, k, v);
        if s.Err? { return Err(s.error); }
        r := r.(search := s.value);
      } else if HasPrefix(k, "order") {
        var o := ParseOrder(r.order, k, v);
        if o.Err? { return Err(o.error); }
        r := r.(order := o.value);
      } else if HasPrefix(k, "column") {
        var c := ParseColumn(r.columns, k, v);
        if c.Err? { return Err(c.error); }
        r := r.(columns := c.value);
      }
    }
    assert u[|u|..] == [];
    return Ok(r);
  }
}
