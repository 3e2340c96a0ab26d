/** Persisting a filter list in the `filters` URL parameter and restoring it.

    The text layer (JSON serialisation followed by URI percent-encoding, and the reverse)
    is a foreign library. It enters the model as two functions the caller supplies:
    `serialize` turns a row list into the parameter text, and `parse` reads a parameter
    text back, either failing, producing an array of rows, or producing some other JSON value.
    The lemmas state, as hypotheses, only the two facts of that library they rely on. */
module Codec {
  import opened Wrappers
  import opened Types
  import opened Catalog

  /** What reading the parameter text can give. */
  datatype Parsed =
    | ParseError                            // malformed percent-encoding or malformed JSON
    | JsonArray(items: seq<FilterField>)    // an array; its elements are taken as rows as they are
    | JsonOther                             // well-formed JSON that is not an array

  /** A row survives filtering when it has a key and at least one value. */
  predicate IsComplete(f: FilterField) {
    f.key != "" && |f.values| > 0
  }

  /** The complete rows of `filters`, in their original order. */
  function ValidFilters(filters: seq<FilterField>): (r: seq<FilterField>)
    ensures |r| <= |filters|
    ensures forall f :: f in r <==> f in filters && IsComplete(f)
    ensures (forall i :: 0 <= i < |filters| ==> IsComplete(filters[i])) ==> r == filters
    ensures r == [] <==> forall i :: 0 <= i < |filters| ==> !IsComplete(filters[i])
  {
    if filters == [] then []
    else
      assert forall i :: 0 <= i < |filters| - 1 ==> filters[1..][i] == filters[i + 1];
      (if IsComplete(filters[0]) then [filters[0]] else []) + ValidFilters(filters[1..])
  }

  /** Filtering distributes over concatenation, so surviving rows keep their relative order. */
  lemma {:induction false} ValidFiltersAppend(a: seq<FilterField>, b: seq<FilterField>)
    ensures ValidFilters(a + b) == ValidFilters(a) + ValidFilters(b)
    decreases |a|
  {
    if a == [] {
      assert a + b == b;
    } else {
      assert (a + b)[0] == a[0];
      assert (a + b)[1..] == a[1..] + b;
      ValidFiltersAppend(a[1..], b);
    }
  }

  /** Filtering a list extended by one row extends the filtered list by that row when it is complete. */
  lemma ValidFiltersSnoc(init: seq<FilterField>, last: FilterField)
    ensures ValidFilters(init + [last]) == ValidFilters(init) + if IsComplete(last) then [last] else []
  {
    ValidFiltersAppend(init, [last]);
    assert [last][1..] == [];
  }

  /** Filtering twice is filtering once. */
  lemma ValidFiltersIdempotent(filters: seq<FilterField>)
    ensures ValidFilters(ValidFilters(filters)) == ValidFilters(filters)
  {
    var v := ValidFilters(filters);
    assert forall i :: 0 <= i < |v| ==> v[i] in v;
  }

  /** The parameter text for `filters`: empty when no row is complete, otherwise the
      serialisation of the complete rows, unconverted. */
  function EncodeFilters(serialize: seq<FilterField> -> string, filters: seq<FilterField>): (r: string)
    ensures r != "" ==> r == serialize(ValidFilters(filters))
    ensures (forall i :: 0 <= i < |filters| ==> !IsComplete(filters[i])) ==> r == ""
  {
    var validFilters := ValidFilters(filters);
    if |validFilters| == 0 then "" else serialize(validFilters)
  }

  /** The row list restored from a parameter text: the parsed array as it is, or the single
      default row when reading fails or yields something other than an array. */
  function DecodeFilters(parse: string -> Parsed, paramValue: string): (r: seq<FilterField>)
    ensures r == [EmptyFilter] || parse(paramValue) == JsonArray(r)
    ensures !parse(paramValue).JsonArray? ==> r == [EmptyFilter]
    ensures parse(paramValue).JsonArray? ==> r == parse(paramValue).items
  {
    match parse(paramValue)
    case JsonArray(decoded) => decoded
    case _ => [EmptyFilter]
  }

  /** The encoding is empty exactly when no row has both a key and values. */
  lemma EncodeEmptyIff(serialize: seq<FilterField> -> string, parse: string -> Parsed,
                       filters: seq<FilterField>)
    requires parse("") == ParseError
    requires parse(serialize(ValidFilters(filters))) == JsonArray(ValidFilters(filters))
    ensures EncodeFilters(serialize, filters) == "" <==>
      forall i :: 0 <= i < |filters| ==> !IsComplete(filters[i])
  {
    var v := ValidFilters(filters);
    if v != [] {
      assert serialize(v) != "";
    }
  }

  /** Incomplete rows never influence the encoding. */
  lemma EncodeIgnoresIncomplete(serialize: seq<FilterField> -> string, filters: seq<FilterField>)
    ensures EncodeFilters(serialize, filters) == EncodeFilters(serialize, ValidFilters(filters))
  {
    ValidFiltersIdempotent(filters);
  }

  /** Restoring the encoding of any list gives its complete rows, or the single default row
      when there are none. */
  lemma DecodeEncode(serialize: seq<FilterField> -> string, parse: string -> Parsed,
                     filters: seq<FilterField>)
    requires parse("") == ParseError
    requires parse(serialize(ValidFilters(filters))) == JsonArray(ValidFilters(filters))
    ensures DecodeFilters(parse, EncodeFilters(serialize, filters)) ==
      if ValidFilters(filters) == [] then [EmptyFilter] else ValidFilters(filters)
  {
  }

  /** Round trip: a non-empty list of complete rows is restored field for field, in order. */
  lemma RoundTrip(serialize: seq<FilterField> -> string, parse: string -> Parsed,
                  filters: seq<FilterField>)
    requires parse("") == ParseError
    requires parse(serialize(filters)) == JsonArray(filters)
    requires filters != []
    requires forall i :: 0 <= i < |filters| ==> IsComplete(filters[i])
    ensures DecodeFilters(parse, EncodeFilters(serialize, filters)) == filters
  {
    DecodeEncode(serialize, parse, filters);
  }

  /** An empty parameter, like any unreadable or non-array one, restores the default row;
      a serialised empty array restores the empty list. */
  lemma DecodeFallbacks(serialize: seq<FilterField> -> string, parse: string -> Parsed,
                        text: string)
    requires parse("") == ParseError
    requires parse(serialize([])) == JsonArray([])
    ensures DecodeFilters(parse, "") == [EmptyFilter]
    ensures parse(text) == ParseError || parse(text) == JsonOther ==>
      DecodeFilters(parse, text) == [EmptyFilter]
    ensures DecodeFilters(parse, serialize([])) == []
  {
  }
}
