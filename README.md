# godatatables in Dafny

A model of the transcoding layer of godatatables, a Go library for the
server-side processing protocol of the DataTables table widget, and of the
filter and sort builder of its MongoDB adapter.

- **Request decoding.** A browser sends a DataTables request as flat form keys
  such as `draw`, `search[value]`, `order[0][dir]` and
  `columns[1][search][regex]`. `ParseURLValues` turns them into a structured
  `Request`. The model states the three key grammars as hand-written matchers,
  each with a declarative description. It also keeps the decoder's coercions
  and its slice growth, and it shows that the first error aborts the decode
  (`ErrNotEnoughFields` or an `Atoi` failure).
- **Row codec.** A table `Row` travels as JSON, either as an array of strings or
  as a flat object whose reserved keys `DT_RowId`, `DT_RowClass`, `DT_RowData`
  and `DT_RowAttr` carry row metadata. The model decodes from a parsed JSON
  value. It follows how Go's `encoding/json` decodes into `[]string`, into the
  metadata struct and into `map[string]string`. Encoding is modelled up to the
  map handed to `json.Marshal`, and `PrintedAs` relates that map to any object
  the marshaller may print.
- **MongoDB queries.** From a `Request` the adapter builds the `$or`/`$and`
  filter document, the list of sort keys, and one row per query result.

Modules:

| file | module | models |
|---|---|---|
| wrappers.dfy | `Wrappers` | `Option`, `Result` |
| types.dfy | `Types` | types/types.go |
| decimal.dfy | `Decimal` | `strconv.Atoi` / `strconv.Itoa` as used by the decoder |
| formkeys.dfy | `FormKeys` | the key regexps, types/encoding.go:14-18 |
| formdecoder.dfy, formdecoder_props.dfy, formdecoder_examples.dfy | `FormDecoder`, `FormDecoderProps`, `FormDecoderExamples` | `ParseURLValues`, `parseOrder`, `parseSearch`, `parseColumn` |
| json.dfy | `Json` | JSON values and the `encoding/json` decoding rules the codec relies on |
| rowcodec.dfy, rowcodec_props.dfy, rowcodec_examples.dfy | `RowCodec`, `RowCodecProps`, `RowCodecExamples` | `Row.UnmarshalJSON`, `Row.MarshalJSON` |
| mongo.dfy, mongo_props.dfy, mongo_examples.dfy | `MongoQuery`, `MongoQueryProps`, `MongoQueryExamples` | `CreateFilter`, the keys of `SortQuery`, `ResponseData` |

Representation choices:

- Go structs are datatypes.
- A Go map is a Dafny `map`, and a nil map is the same value as an empty one.
- `url.Values` is a sequence of (key, values) entries. Its order is the order
  in which Go's `range` happens to visit the map.
- `OrderDirection` has a third case, `Unset`, for Go's zero value `""`.
- Integers are unbounded. `Atoi` enforces the 64-bit range of Go's `int`.
- `regexp.QuoteMeta` is a function parameter `quote`.
- JSON objects are member lists in document order, duplicates included.
  `encoding/json` visits members in that order, matches struct fields up to
  case, and lets a later member overwrite an earlier one.

## Model

| member | source | states |
|---|---|---|
| Types.WireValues | types/types.go:5-12 | only `Ascending` and `Descending` carry the wire values "asc" and "desc"; the zero direction carries neither |
| Decimal.Atoi | types/encoding.go:95-99 | succeeds only on one or more digits, optionally after a single '+' or '-', whose value lies in the 64-bit range; then yields that value, negated for "-" and unchanged for "+"; a bare sign, a leading non-digit other than a sign, or a sign followed by a non-digit fails |
| Decimal.ItoaReadsBack | types/encoding.go:33-35 | `strconv.Itoa` of an index renders a non-empty digit string that reads back as the index |
| Decimal.AtoiItoa | types/encoding.go:33-35 | Atoi inverts Itoa on every index up to the largest 64-bit int |
| Decimal.ItoaInjective | types/encoding.go:33-35 | distinct array positions get distinct keys |
| FormKeys.MatchSearchIff | types/encoding.go:16 | the search matcher returns field f exactly when the key is `search[` f `]` with f non-empty and without a newline |
| FormKeys.MatchOrder | types/encoding.go:18 | a matched order index is a non-empty digit string |
| FormKeys.MatchOrderIff | types/encoding.go:18 | the order matcher returns (id, f) exactly when the key is `order[` id `][` f `]`, id being digits and f non-empty without a newline |
| FormKeys.MatchColumn | types/encoding.go:14 | a matched column index is a non-empty digit string |
| FormKeys.ColumnKeyMatches | types/encoding.go:14 | every key of the shape `columns[` id `][` f `]` rest, with f the shortest non-empty text before a `]`, is matched with exactly those groups |
| FormKeys.MatchColumnSound | types/encoding.go:14 | every match the column matcher reports has that shape |
| FormKeys.MatchColumnIff | types/encoding.go:14 | the column matcher and the lazy column pattern agree in both directions |
| FormDecoder.Grow | types/encoding.go:125-130 | the slice grows to `max(len, id+1)`, keeping old entries and filling new ones with zero values |
| FormDecoder.ParseOrder | types/encoding.go:116-142 | the in-place update computes `OrderUpdate`, whose meaning `OrderUpdateSpec` states |
| FormDecoder.ParseColumn | types/encoding.go:168-207 | the in-place update computes `ColumnUpdate`, whose meaning `ColumnUpdateSpec` states |
| FormDecoder.ParseURLValues | types/encoding.go:88-112 | the loop computes `DecodeFrom` from the zero request over all entries |
| FormDecoderProps.ParseSearchRejects | types/encoding.go:146-150 | a key that does not fit `search[f]` gives ErrNotEnoughFields |
| FormDecoderProps.ParseSearchFields | types/encoding.go:151-163 | `value` copies the value, `regex` is true iff the value is "true", any other field leaves the search unchanged |
| FormDecoderProps.OrderUpdateRejects | types/encoding.go:117-120 | a key that does not fit `order[i][f]` gives ErrNotEnoughFields |
| FormDecoderProps.OrderUpdateSpec | types/encoding.go:121-141 | an index beyond 64 bits and a non-numeric `column` value are Atoi errors; otherwise only `out[id]` changes, in the named field only, and an unknown field still grows the slice |
| FormDecoderProps.ApplyDirSpec | types/encoding.go:134-140 | `dir` changes only on "asc" and "desc", which set those directions; any other value keeps the previous one |
| FormDecoderProps.ColumnUpdateRejects | types/encoding.go:169-172 | a key that does not fit the column pattern gives ErrNotEnoughFields |
| FormDecoderProps.ColumnUpdateSpec | types/encoding.go:173-206 | an index beyond 64 bits is an Atoi error; otherwise only `out[id]` changes, in the named field only: strings verbatim, flags true iff "true", `search` through parseSearch on "search" + rest, whose error aborts |
| FormDecoderProps.RouteIgnoresUnknownKeys | types/encoding.go:93-106 | a key outside the six routing cases leaves the request unchanged |
| FormDecoderProps.RouteIntegers | types/encoding.go:94-99 | draw, start and length take the Atoi value, and an Atoi failure is the error |
| FormDecoderProps.RouteRejectsMalformed | types/encoding.go:100-109 | a key with a `search`, `order` or `column` prefix that fails its family's pattern gives ErrNotEnoughFields |
| FormDecoderProps.DecodeAppend | types/encoding.go:89-111 | decoding u1 + u2 is decoding u1 and then, unless it failed, u2 from that result; the first error aborts |
| FormDecoderProps.DecodeEntry | types/encoding.go:89-93 | an entry without values is skipped; otherwise only its first value is used |
| FormDecoderExamples.NonNumericColumnIndex | types/encoding.go:169-172 | `columns[abc][data]` gives ErrNotEnoughFields, not an Atoi error |
| FormDecoderExamples.ColumnSearchWithoutSubfield | types/encoding.go:201-204 | `columns[0][search]` gives ErrNotEnoughFields, because parseSearch sees the bare "search" |
| FormDecoderExamples.UnderscoreIgnored | types/encoding.go:93-106 | the cache-busting key `_` leaves the request unchanged |
| FormDecoderExamples.EntryOrderMatters | types/encoding.go:89-111 | `columns[0][data]` and `columns[00][data]` name the same column, and the value visited last wins |
| FormDecoderExamples.SmallForm | types/encoding.go:88-112 | a form with draw, global search, one ordering, `_` and a key without values decodes to the expected request |
| Json.StringElems | types/encoding.go:28-29 | array elements decode iff each is a string or null, and each yields its string or "" for null |
| Json.UnmarshalStrings | types/encoding.go:28-29 | null decodes as the empty slice; besides null, only an array of strings and nulls decodes |
| Json.MergeStringsFails | types/encoding.go:54-58 | decoding into `map[string]string` fails iff some member value is neither a string nor null |
| Json.MergeStringsDistinct | types/encoding.go:54-58 | with distinct keys, the string map gains exactly the members' keys with their values and keeps other entries |
| RowCodec.UnmarshalRow | types/encoding.go:26-64 | the fill and delete loops compute `DecodeRow`, whose meaning the lemmas below state |
| RowCodec.EncodeRow | types/encoding.go:67-85 | the encoded keys are the data keys plus each reserved key whose field is non-empty; a reserved entry carries its field and overwrites a same-named data entry; every data entry not so overwritten keeps its value, including one under a reserved key whose field is empty |
| RowCodec.MarshalRow | types/encoding.go:67-85 | the copy loop and the conditional assignments compute `EncodeRow` |
| RowCodecProps.PositionalSpec | types/encoding.go:31-35 | the positional map has exactly the keys Itoa(0..n-1), and key Itoa(i) holds element i |
| RowCodecProps.DecodeArray | types/encoding.go:28-36 | an array decodes iff every element is a string or null; only the data changes, key Itoa(i) holding element i ("" for null); the metadata is not assigned |
| RowCodecProps.DecodeNull | types/encoding.go:28-36 | null decodes through the array shape and empties the data only |
| RowCodecProps.MetaFoldStrings | types/encoding.go:38-52 | when every member is a string and only the exact reserved keys name metadata, the struct pass takes those keys' values |
| RowCodecProps.MetaFoldScalars | types/encoding.go:38-52 | when every member is a string or null, the struct pass never fills RowData or RowAttr |
| RowCodecProps.MetaFoldStringsFails | types/encoding.go:38-48 | when every member is a string, the struct pass fails exactly when some member names DT_RowData or DT_RowAttr up to case |
| RowCodecProps.DecodeObject | types/encoding.go:38-63 | an object with distinct keys, string values and exactly spelled DT_RowId/DT_RowClass decodes iff no member names DT_RowData or DT_RowAttr; then the data is the object less the four reserved keys, each with its member's value, RowId and RowClass are their members' values ("" when absent), and RowData and RowAttr are empty |
| RowCodecProps.DecodedObjectShape | types/encoding.go:38-63 | every row decoded from an object has empty RowData and RowAttr and no reserved key in its data |
| RowCodecProps.ObjectNeedsStringMap | types/encoding.go:54-58 | an object with a member that is neither a string nor null does not decode |
| RowCodecProps.NestedMetaDoesNotDecode | types/encoding.go:54-58 | a row whose RowData or RowAttr is non-empty cannot be decoded from any printing of its own encoding |
| RowCodecProps.PlainMeta | types/encoding.go:38-52 | over a printed plain row the struct pass recovers RowId and RowClass |
| RowCodecProps.PlainData | types/encoding.go:54-63 | over a printed plain row, the string map minus the reserved keys is the row's data |
| RowCodecProps.RoundTrip | types/encoding.go:26-85 | a row with empty RowData and RowAttr and no data key naming a metadata field (up to case) decodes from every printing of its encoding, into any previous row, back to itself |
| RowCodecExamples.ArrayRow | types/encoding_test.go:19-52 | `["Airi","Satou"]` decodes to data {"0": "Airi", "1": "Satou"} with no metadata |
| RowCodecExamples.ObjectRowWithIdAndClass | types/encoding_test.go:92-135 | an object with DT_RowId and DT_RowClass decodes to that metadata, and the rest of the object becomes the data |
| RowCodecExamples.CaseVariantReservedKey | types/encoding.go:38-63 | a member `dt_rowid` sets RowId and also stays in the data |
| MongoQuery.CreateFilter | mongo/mongo.go:86-122 | the loop with the in-place global array and the appended column clauses computes `Filter`; its global `$or` list has one clause per column, in column order, keyed by the column's data field whatever its searchable flag, with the global search's pattern |
| MongoQuery.SortKeys | mongo/mongo.go:65-76 | one sort key per ordering, in order: the data field of the ordered column, with "-" in front exactly when descending |
| MongoQuery.WrapRows | mongo/mongo.go:54-62 | one row per result, in order, carrying the result as data and empty metadata |
| MongoQueryProps.SearchedIndicesSpec | mongo/mongo.go:102-114 | the searched indices are in range, strictly increasing, and list exactly the columns with a non-empty search value |
| MongoQueryProps.ColumnClausesSpec | mongo/mongo.go:102-114 | the k-th column clause belongs to the k-th column with a non-empty search value, keyed by its data field, with its own pattern |
| MongoQueryProps.FilterShape | mongo/mongo.go:116-121 | without column search values the filter is `{$or: global}`; otherwise it is `{$and: [{$or: global}, {$and: column}]}` |
| MongoQueryProps.FilterOnlySearches | mongo/mongo.go:89-114 | the filter depends only on the global search and on each column's data field and search |
| MongoQueryProps.SortKeyDirections | mongo/mongo.go:68-72 | an unset direction sorts like "asc"; "desc" gives the same key with "-" in front |
| MongoQueryProps.WrappedRowTravels | mongo/mongo.go:58-60 | a wrapped result encodes as exactly its own fields, and one with no key naming a metadata field decodes back to the same row |
| MongoQueryExamples.GlobalSearchOnly | mongo/mongo_test.go:29-97 | a request without column searches yields the quoted global search over both columns, and nothing else |
| MongoQueryExamples.GlobalAndColumnSearches | mongo/mongo_test.go:101-198 | a regex global search plus two column searches yields the `$and` of the global `$or` and both column clauses, in column order |
| MongoQueryExamples.DescendingSortKey | mongo/mongo_test.go:101-138 | a descending order on column 1 sorts by "-bar" |

## Where the code and its description differ

The model follows the code:

- **Unknown `dir`.** A `dir` value other than "asc" or "desc" keeps the previous
  direction. For a new ordering that is the unset zero value, not "ascending".
- **Non-numeric column index.** `columns[abc][data]` fails the column pattern,
  so it gives `ErrNotEnoughFields`, not a number-parsing error.
- **Entry order.** The decode result can depend on the order in which the form
  map is visited. `columns[0][data]` and `columns[00][data]` name the same
  column, and the one visited last wins (`EntryOrderMatters`).
- **Case of reserved keys.** The metadata struct matches reserved keys up to
  case, but the deletion from the data is exact. So a key such as `dt_rowid`
  ends up both in the metadata and in the data (`CaseVariantReservedKey`).
  The round trip therefore needs the data keys not to name a metadata field
  up to case, not only "no reserved key".
- **Regex options.** The MongoDB adapter's tests expect the option `i` on every
  regular expression. The code never sets options, so the model's regular
  expressions have empty options.

## Left out

- Byte-level JSON parsing and printing are not modelled. Decoding starts from
  a parsed `Json` value, and printing is the relation `PrintedAs`: any member
  order for an object, each key once. So Go's sorted key order is not fixed,
  and neither are string escaping, HTML escaping or number formatting.
- Struct-tag reflection for `Request` and `Response` is not modelled: the JSON
  names of their fields and the omission of an empty `Response.Error` belong to
  `encoding/json`. That `Row.Data` never goes through the struct tags holds
  by construction, since only `EncodeRow` emits it.
- `RowCodecProps.RoundTrip` relies on a Dafny string holding only valid
  characters. A Go string can hold invalid UTF-8, which `json.Marshal` and the
  decoder replace with U+FFFD, so a Go `Row` whose data holds such bytes (for
  example `{"k": "\xff"}`) does not survive the round trip.
- Go returns a partially updated value together with an error: a `Request` with
  some fields already set, or a `Row` whose metadata was replaced before the
  string-map pass failed. The model returns only the error.
- Panics are not modelled. These are an index so large that `id+1` overflows, an
  allocation of `id+1` entries that the runtime cannot satisfy, and an ordering
  whose column is out of range in `SortQuery`. `SortKeys` requires every
  ordering's column to be in range.
- `Decimal.Atoi` does not tell a syntax error from a range error. Both give
  `ErrAtoi` carrying the offending text.
- An `OrderDirection` other than the three values (possible only through
  JSON decoding of `Request`) is not representable.
- `ServeHTTP`, `ParseForm`, HTTP status codes, `json.NewEncoder`, `RangeQuery`
  and the driver calls `Find`, `Count`, `Sort`, `Skip`, `Limit` and `All` are
  I/O and are not modelled. The query results that `ResponseData` wraps are a
  parameter of `WrapRows`, and a failure of `All` is not modelled.
- `regexp.QuoteMeta` is an uninterpreted parameter. The examples state their
  filters in terms of it.
- The adapter tests' `Query`/`Collection` interfaces and mocks, and
  `ExampleCollectionHandler`, are not part of the model.
