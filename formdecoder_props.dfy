/**
 * Properties of the form decoder: what each key family does to the request,
 * which keys are refused, how the slices grow, and how the loop composes.
 */
module FormDecoderProps {
  import opened Wrappers
  import opened Decimal
  import opened Types
  import opened FormKeys
  import opened FormDecoder

  /**
   * `out` is `before` grown to hold index `id`, with `entry` at `id` and every
   * other position unchanged (new positions hold `zero`).
   */
  ghost predicate UpdatedAt<T>(before: seq<T>, out: seq<T>, id: nat, zero: T, entry: T)
  {
    && |out| == (if id + 1 > |before| then id + 1 else |before|)
    && out[id] == entry
    && forall j :: 0 <= j < |out| && j != id ==> out[j] == (if j < |before| then before[j] else zero)
  }

  /** The entry at `id` before the update (the zero value when the slice is too short). */
  function Previous<T>(xs: seq<T>, id: nat, zero: T): T
  {
    if id < |xs| then xs[id] else zero
  }

  // ------------------------------------------------------------ parseSearch

  /** A key that starts like a search key but does not fit `search[<field>]` is refused. */
  lemma ParseSearchRejects(s: Search, k: string, v: string)
    requires forall f :: !SearchKey(k, f)
    ensures ParseSearch(s, k, v) == Err(ErrNotEnoughFields)
  {
    if MatchSearch(k).Some? {
      MatchSearchIff(k, MatchSearch(k).value);
    }
  }

  /** `search[value]` copies the value; `search[regex]` is true iff the value is "true"; other fields change nothing. */
  lemma ParseSearchFields(s: Search, k: string, field: string, v: string)
    requires SearchKey(k, field)
    ensures field == "value" ==> ParseSearch(s, k, v) == Ok(Search(v, s.regex))
    ensures field == "regex" ==> ParseSearch(s, k, v) == Ok(Search(s.value, v == "true"))
    ensures field != "value" && field != "regex" ==> ParseSearch(s, k, v) == Ok(s)
  {
    MatchSearchIff(k, field);
  }

  // ------------------------------------------------------------ parseOrder

  lemma OrderUpdateRejects(o: seq<Order>, k: string, v: string)
    requires forall id, f :: !OrderKey(k, id, f)
    ensures OrderUpdate(o, k, v) == Err(ErrNotEnoughFields)
  {
    if MatchOrder(k).Some? {
      MatchOrderIff(k, MatchOrder(k).value.0, MatchOrder(k).value.1);
    }
  }

  /**
   * For a well-formed `order[<digits>][<field>]` key: an index beyond the
   * 64-bit range and a non-numeric `column` value are Atoi errors; otherwise
   * the slice grows to hold the index, only `out[id]` changes, and only in the
   * field named (`column` by Atoi, `dir` by the asc/desc coercion; an unknown
   * field still grows the slice).
   */
  lemma OrderUpdateSpec(o: seq<Order>, k: string, digits: string, field: string, v: string)
    requires OrderKey(k, digits, field)
    ensures DigitsValue(digits) > MaxInt ==> OrderUpdate(o, k, v) == Err(ErrAtoi(digits))
    ensures DigitsValue(digits) <= MaxInt && field == "column" && Atoi(v).None? ==>
      OrderUpdate(o, k, v) == Err(ErrAtoi(v))
    ensures DigitsValue(digits) <= MaxInt && (field != "column" || Atoi(v).Some?) ==>
      var id := DigitsValue(digits);
      var prev := Previous(o, id, ZeroOrder);
      && OrderUpdate(o, k, v).Ok?
      && UpdatedAt(o, OrderUpdate(o, k, v).value, id, ZeroOrder,
           if field == "column" then Order(Atoi(v).value, prev.dir)
           else if field == "dir" then Order(prev.column, ApplyDir(prev.dir, v))
           else prev)
  {
    MatchOrderIff(k, digits, field);
  }

  /** `dir` takes exactly the two wire values and keeps the previous direction otherwise. */
  lemma ApplyDirSpec(d: OrderDirection, v: string)
    ensures ApplyDir(d, v) != d ==> v in {"asc", "desc"}
    ensures forall e :: e != Unset ==> ApplyDir(d, Wire(e)) == e
    ensures ApplyDir(d, Wire(Unset)) == d
  {
  }

  // ------------------------------------------------------------ parseColumn

  lemma ColumnUpdateRejects(cs: seq<Column>, k: string, v: string)
    requires forall id, f, rest :: !ColumnKey(k, id, f, rest)
    ensures ColumnUpdate(cs, k, v) == Err(ErrNotEnoughFields)
  {
    if MatchColumn(k).Some? {
      MatchColumnSound(k);
    }
  }

  /**
   * For a well-formed `columns[<digits>][<field>]<rest>` key: the slice grows
   * to hold the index and only the named field of `out[id]` changes (strings
   * verbatim, flags true iff "true", `search` through parseSearch on
   * "search" + rest, whose refusal aborts); unknown fields still grow it.
   */
  lemma ColumnUpdateSpec(cs: seq<Column>, k: string, digits: string, field: string, rest: string, v: string)
    requires ColumnKey(k, digits, field, rest)
    ensures DigitsValue(digits) > MaxInt ==> ColumnUpdate(cs, k, v) == Err(ErrAtoi(digits))
    ensures DigitsValue(digits) <= MaxInt ==>
      var id := DigitsValue(digits);
      var prev := Previous(cs, id, ZeroColumn);
      var sub := ParseSearch(prev.search, "search" + rest, v);
      if field == "search" && sub.Err? then
        ColumnUpdate(cs, k, v) == Err(sub.error)
      else
        && ColumnUpdate(cs, k, v).Ok?
        && UpdatedAt(cs, ColumnUpdate(cs, k, v).value, id, ZeroColumn,
             if field == "data" then prev.(data := v)
             else if field == "name" then prev.(name := v)
             else if field == "searchable" then prev.(searchable := v == "true")
             else if field == "orderable" then prev.(orderable := v == "true")
             else if field == "search" then prev.(search := sub.value)
             else prev)
  {
    ColumnKeyMatches(k, digits, field, rest);
    if DigitsValue(digits) <= MaxInt {
      var id := DigitsValue(digits);
      assert Atoi(digits) == Some(id);
      var out := Grow(cs, id, ZeroColumn);
      var prev := out[id];
      assert prev == Previous(cs, id, ZeroColumn);
      var sub := ParseSearch(prev.search, "search" + rest, v);
      if !(field == "search" && sub.Err?) {
        var entry :=
          if field == "data" then prev.(data := v)
          else if field == "name" then prev.(name := v)
          else if field == "searchable" then prev.(searchable := v == "true")
          else if field == "orderable" then prev.(orderable := v == "true")
          else if field == "search" then prev.(search := sub.value)
          else prev;
        if field !in {"data", "name", "searchable", "orderable", "search"} {
          assert out[id := entry] == out;
        }
        assert ColumnUpdate(cs, k, v) == Ok(out[id := entry]);
        GrowUpdate(cs, id, ZeroColumn, entry);
      }
    }
  }

  /** Growing and then setting index `id` is an update at `id`. */
  lemma GrowUpdate<T>(xs: seq<T>, id: nat, zero: T, entry: T)
    ensures UpdatedAt(xs, Grow(xs, id, zero)[id := entry], id, zero, entry)
  {
  }

  // ------------------------------------------------------------ ParseURLValues

  /** Keys outside the six routing cases are ignored. */
  lemma RouteIgnoresUnknownKeys(r: Request, k: string, v: string)
    requires k != "draw" && k != "start" && k != "length"
    requires !HasPrefix(k, "search") && !HasPrefix(k, "order") && !HasPrefix(k, "column")
    ensures Route(r, k, v) == Ok(r)
  {
  }

  /** draw, start and length are set by Atoi, whose failure aborts with its error. */
  lemma RouteIntegers(r: Request, k: string, v: string)
    requires k in {"draw", "start", "length"}
    ensures Atoi(v).None? ==> Route(r, k, v) == Err(ErrAtoi(v))
    ensures Atoi(v).Some? ==> var n := Atoi(v).value;
      Route(r, k, v) == Ok(if k == "draw" then r.(draw := n) else if k == "start" then r.(start := n) else r.(length := n))
  {
  }

  /** A key with a family prefix that fails the family's full pattern aborts with ErrNotEnoughFields. */
  lemma RouteRejectsMalformed(r: Request, k: string, v: string)
    requires
      || (HasPrefix(k, "search") && forall f :: !SearchKey(k, f))
      || (HasPrefix(k, "order") && forall id, f :: !OrderKey(k, id, f))
      || (HasPrefix(k, "column") && forall id, f, rest :: !ColumnKey(k, id, f, rest))
    ensures Route(r, k, v) == Err(ErrNotEnoughFields)
  {
    if HasPrefix(k, "search") {
      assert k[0] == 's' && k[1] == 'e';
      ParseSearchRejects(r.search, k, v);
    } else if HasPrefix(k, "order") {
      assert k[0] == 'o';
      OrderUpdateRejects(r.order, k, v);
    } else {
      assert k[0] == 'c';
      ColumnUpdateRejects(r.columns, k, v);
    }
  }

  /** Go on decoding u from a successful intermediate result; an error stays. */
  function ContinueWith(res: Result<Request, DecodeError>, u: Values): Result<Request, DecodeError>
  {
    match res
    case Err(e) => Err(e)
    case Ok(r) => DecodeFrom(r, u)
  }

  /**
   * The loop visits entries one after another: decoding u1 + u2 is decoding
   * u1 and then, unless it failed, u2 from where u1 left off. In particular
   * the first error aborts the decode whatever follows.
   */
  lemma {:induction false} DecodeAppend(r: Request, u1: Values, u2: Values)
    decreases |u1|
    ensures DecodeFrom(r, u1 + u2) == ContinueWith(DecodeFrom(r, u1), u2)
  {
    if |u1| > 0 {
      assert (u1 + u2)[0] == u1[0];
      assert (u1 + u2)[1..] == u1[1..] + u2;
      if |u1[0].1| < 1 {
        DecodeAppend(r, u1[1..], u2);
      } else if Route(r, u1[0].0, u1[0].1[0]).Ok? {
        DecodeAppend(Route(r, u1[0].0, u1[0].1[0]).value, u1[1..], u2);
      }
    } else {
      assert u1 + u2 == u2;
    }
  }

  /** An entry with no values is skipped; otherwise only its first value is used. */
  lemma DecodeEntry(r: Request, k: string, vs: seq<string>, u: Values)
    ensures |vs| == 0 ==> DecodeFrom(r, [(k, vs)] + u) == DecodeFrom(r, u)
    ensures |vs| > 0 ==> DecodeFrom(r, [(k, vs)] + u) == ContinueWith(Route(r, k, vs[0]), u)
  {
    assert ([(k, vs)] + u)[1..] == u;
  }
}
