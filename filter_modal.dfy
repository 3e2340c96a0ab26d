/** The filter editor: the working list of rows with its gestures (add, remove, choose a key,
    edit values, confirm, clear all, cancel), and the transform that turns confirmed rows
    into query-ready entries. */
module Modal {
  import opened Wrappers
  import opened Types
  import opened Catalog
  import opened Codec
  import opened FilterRow

  // ---------------------------------------------------------------------------
  // Transform

  /** Lower-cases ASCII letters and leaves every other character as it is. */
  function LowerChar(c: char): char {
    if 'A' <= c <= 'Z' then (c as int + 32) as char else c
  }

  function ToLower(s: string): (r: string)
    ensures |r| == |s|
    ensures forall i :: 0 <= i < |r| ==> !('A' <= r[i] <= 'Z')
    ensures forall i :: 0 <= i < |s| && !('A' <= s[i] <= 'Z') ==> r[i] == s[i]
    ensures forall i :: 0 <= i < |s| && 'A' <= s[i] <= 'Z' ==> r[i] == (s[i] as int + 32) as char
  {
    seq(|s|, i requires 0 <= i < |s| => LowerChar(s[i]))
  }

  /** The canonical identifier of a display key: its `KeyMap` entry, else the key lower-cased. */
  function MappedKey(key: string): (r: string)
    ensures key in FilterOptions ==> r == KeyMap[key]
    ensures key !in KeyMap ==> r == ToLower(key)
  {
    if key in KeyMap then KeyMap[key] else ToLower(key)
  }

  /** Bytes per unit for a row; an absent or unknown unit multiplies by 1. */
  function Multiplier(unit: Option<string>): (m: nat)
    ensures m >= 1
  {
    if unit.Some? && unit.value in UnitMultipliers then UnitMultipliers[unit.value] else 1
  }

  /** A number is multiplied by the unit's byte count; a string or boolean is kept. */
  function ScaleValue(v: Value, multiplier: nat): (r: Value)
    ensures r.Num? <==> v.Num?
    ensures !v.Num? ==> r == v
    ensures multiplier == 1 ==> r == v
  {
    if v.Num? then Num(v.n * multiplier as real) else v
  }

  function ScaleValues(values: seq<Value>, multiplier: nat): (r: seq<Value>)
    ensures |r| == |values|
    ensures forall i :: 0 <= i < |values| ==> (r[i].Num? <==> values[i].Num?)
    ensures forall i :: 0 <= i < |values| && !values[i].Num? ==> r[i] == values[i]
    ensures multiplier == 1 ==> r == values
  {
    seq(|values|, i requires 0 <= i < |values| => ScaleValue(values[i], multiplier))
  }

  /** The entry a complete row contributes. */
  function RowEntry(filter: FilterField): (r: Entry)
    ensures r.operator != ""
    ensures |r.values| == |filter.values|
    ensures MappedKey(filter.key) != "size" || Multiplier(filter.unit) == 1 ==> r.values == filter.values
  {
    var operator := if filter.operator != "" then filter.operator else "in";
    var finalValues :=
      if MappedKey(filter.key) == "size" && |filter.values| > 0
      then ScaleValues(filter.values, Multiplier(filter.unit))
      else filter.values;
    Entry(operator, finalValues)
  }

  /** The entry's operator is the row's, or "in" when the row has none; a size entry has every
      number multiplied by the unit's byte count, every other value as it was, and as many
      values as the row; any other entry carries the row's values unchanged. */
  lemma RowEntryNormalises(filter: FilterField)
    ensures RowEntry(filter).operator == if filter.operator == "" then "in" else filter.operator
    ensures |RowEntry(filter).values| == |filter.values|
    ensures MappedKey(filter.key) != "size" ==> RowEntry(filter).values == filter.values
    ensures MappedKey(filter.key) == "size" ==> forall i :: 0 <= i < |filter.values| ==>
      RowEntry(filter).values[i] ==
        match filter.values[i]
        case Num(x) => Num(x * Multiplier(filter.unit) as real)
        case other => other
  {
  }

  /** The multiplier of each listed unit is its power of two; an absent or unlisted unit is 1. */
  lemma MultiplierValues(unit: Option<string>)
    ensures unit.Some? && unit.value in SizeOptions ==>
      exists i :: 0 <= i < |SizeOptions| && SizeOptions[i] == unit.value &&
        Multiplier(unit) == Pow2(20 + 10 * i)
    ensures unit.None? || unit.value !in SizeOptions ==> Multiplier(unit) == 1
  {
    UnitMultipliersArePowersOfTwo();
    SizeOptionsAreUnits();
  }

  /** The query-ready map: rows folded in order, complete rows only, a later row
      overwriting an earlier one with the same identifier. */
  function Transform(filters: seq<FilterField>): (r: TransformedFilters)
    ensures |r| <= |filters|
  {
    if filters == [] then map[]
    else
      var acc := Transform(filters[..|filters| - 1]);
      var last := filters[|filters| - 1];
      if IsComplete(last) then acc[MappedKey(last.key) := RowEntry(last)] else acc
  }

  /** The entries are keyed by exactly the identifiers of the complete rows. */
  lemma TransformKeys(filters: seq<FilterField>)
    ensures forall k :: k in Transform(filters) <==>
      exists i :: 0 <= i < |filters| && IsComplete(filters[i]) && MappedKey(filters[i].key) == k
  {
    TransformKeysFromRows(filters);
    TransformKeysCoverRows(filters);
  }

  /** Every entry's identifier is that of some complete row. */
  lemma {:induction false} TransformKeysFromRows(filters: seq<FilterField>)
    ensures forall k :: k in Transform(filters) ==>
      exists i :: 0 <= i < |filters| && IsComplete(filters[i]) && MappedKey(filters[i].key) == k
    decreases |filters|
  {
    if filters != [] {
      var init, last := filters[..|filters| - 1], filters[|filters| - 1];
      TransformKeysFromRows(init);
      forall k | k in Transform(filters)
        ensures exists i :: 0 <= i < |filters| && IsComplete(filters[i]) && MappedKey(filters[i].key) == k
      {
        if !(IsComplete(last) && k == MappedKey(last.key)) {
          assert k in Transform(init);
          var i :| 0 <= i < |init| && IsComplete(init[i]) && MappedKey(init[i].key) == k;
          assert filters[i] == init[i];
        }
      }
    }
  }

  /** Every complete row's identifier has an entry. */
  lemma {:induction false} TransformKeysCoverRows(filters: seq<FilterField>)
    ensures forall i :: 0 <= i < |filters| && IsComplete(filters[i]) ==> MappedKey(filters[i].key) in Transform(filters)
    decreases |filters|
  {
    if filters != [] {
      var init, last := filters[..|filters| - 1], filters[|filters| - 1];
      TransformKeysCoverRows(init);
      var acc := Transform(init);
      assert Transform(filters) == if IsComplete(last) then acc[MappedKey(last.key) := RowEntry(last)] else acc;
      forall i | 0 <= i < |filters| && IsComplete(filters[i])
        ensures MappedKey(filters[i].key) in Transform(filters)
      {
        if i < |init| {
          assert init[i] == filters[i];
          assert MappedKey(filters[i].key) in acc;
        }
      }
    }
  }

  /** Builds the map by visiting the rows in order and assigning one entry per complete row. */
  method TransformFilters(filters: seq<FilterField>) returns (result: TransformedFilters)
    ensures result == Transform(filters)
  {
    result := map[];
    var i := 0;
    while i < |filters|
      invariant 0 <= i <= |filters|
      invariant result == Transform(filters[..i])
    {
      var filter := filters[i];
      assert filters[..i + 1][..i] == filters[..i];
      if IsComplete(filter) {
        var mappedKey := MappedKey(filter.key);
        var operator := if filter.operator != "" then filter.operator else "in";
        var finalValues := filter.values;
        if mappedKey == "size" && |finalValues| > 0 {
          var multiplier := Multiplier(filter.unit);
          finalValues := ScaleValues(finalValues, multiplier);
        }
        result := result[mappedKey := Entry(operator, finalValues)];
      }
      i := i + 1;
    }
    assert filters[..i] == filters;
  }

  /** A complete row's entry is present unchanged when no later complete row maps to the
      same identifier: the last writer wins. */
  lemma {:induction false} TransformLastWins(filters: seq<FilterField>, i: nat)
    requires i < |filters| && IsComplete(filters[i])
    requires forall j :: i < j < |filters| && IsComplete(filters[j]) ==>
      MappedKey(filters[j].key) != MappedKey(filters[i].key)
    ensures MappedKey(filters[i].key) in Transform(filters)
    ensures Transform(filters)[MappedKey(filters[i].key)] == RowEntry(filters[i])
    decreases |filters|
  {
    if i < |filters| - 1 {
      var init := filters[..|filters| - 1];
      TransformLastWins(init, i);
    }
  }

  /** Extending the rows by one row adds that row's entry when it is complete. */
  lemma TransformSnoc(init: seq<FilterField>, last: FilterField)
    ensures Transform(init + [last]) ==
      if IsComplete(last) then Transform(init)[MappedKey(last.key) := RowEntry(last)] else Transform(init)
  {
    assert (init + [last])[..|init|] == init;
  }

  /** Rows that are not complete never influence the result. */
  lemma {:induction false} TransformIgnoresIncomplete(filters: seq<FilterField>)
    ensures Transform(filters) == Transform(ValidFilters(filters))
    decreases |filters|
  {
    if filters == [] {
      assert ValidFilters(filters) == [];
    } else {
      var init, last := filters[..|filters| - 1], filters[|filters| - 1];
      assert filters == init + [last];
      var v := ValidFilters(init);
      TransformIgnoresIncomplete(init);
      ValidFiltersSnoc(init, last);
      TransformSnoc(init, last);
      if IsComplete(last) {
        TransformSnoc(v, last);
      } else {
        assert v + [] == v;
      }
    }
  }

  /** With distinct catalog keys, every complete row has its own entry. */
  lemma TransformOfUniqueRows(filters: seq<FilterField>, i: nat)
    requires UniqueKeys(filters)
    requires KeysFromCatalog(filters)
    requires i < |filters| && IsComplete(filters[i])
    ensures MappedKey(filters[i].key) in Transform(filters)
    ensures Transform(filters)[MappedKey(filters[i].key)] == RowEntry(filters[i])
  {
    UniqueRowsMapApart(filters, i);
    TransformLastWins(filters, i);
  }

  /** With distinct catalog keys, no other row maps to the identifier of row `i`. */
  lemma UniqueRowsMapApart(filters: seq<FilterField>, i: nat)
    requires UniqueKeys(filters)
    requires KeysFromCatalog(filters)
    requires i < |filters| && filters[i].key != ""
    ensures forall j :: 0 <= j < |filters| && j != i && filters[j].key != "" ==>
      MappedKey(filters[j].key) != MappedKey(filters[i].key)
  {
    forall j | 0 <= j < |filters| && j != i && filters[j].key != ""
      ensures MappedKey(filters[j].key) != MappedKey(filters[i].key)
    {
      MappedKeyInjective(filters[i].key, filters[j].key);
    }
  }

  /** Rows keyed from the catalog only produce the four wire identifiers. */
  lemma TransformKeysAreWireNames(filters: seq<FilterField>)
    requires KeysFromCatalog(filters)
    ensures forall k :: k in Transform(filters) ==> k in KeyMap.Values
  {
    TransformKeys(filters);
  }

  /** Distinct catalog keys have distinct identifiers. */
  lemma MappedKeyInjective(a: string, b: string)
    requires a in FilterOptions && b in FilterOptions
    ensures a != b ==> MappedKey(a) != MappedKey(b)
  {
  }

  /** A single row contributes its entry when complete and nothing otherwise. */
  lemma TransformSingle(filter: FilterField)
    ensures Transform([filter]) == if IsComplete(filter) then map[MappedKey(filter.key) := RowEntry(filter)] else map[]
  {
    assert [filter][..0] == [];
  }

  /** A complete row whose key has no `KeyMap` entry is filed under its key lower-cased:
      each ASCII capital becomes its lower-case letter and the rest is kept. */
  lemma UnknownKeyLowerCased(filter: FilterField)
    requires IsComplete(filter) && filter.key !in KeyMap
    ensures Transform([filter]).Keys == {ToLower(filter.key)}
    ensures forall i :: 0 <= i < |filter.key| && 'A' <= filter.key[i] <= 'Z' ==>
      MappedKey(filter.key)[i] == (filter.key[i] as int + 32) as char
  {
    TransformSingle(filter);
  }

  /** A Size row of 5 GiB with operator "ge" becomes the single entry size >= 5 * 2^30. */
  lemma TransformSizeExample()
    ensures Transform([FilterField("Size", "ge", [Num(5.0)], Some("GiB"))]) ==
      map["size" := Entry("ge", [Num(5.0 * 1073741824.0)])]
  {
    var f := FilterField("Size", "ge", [Num(5.0)], Some("GiB"));
    TransformSingle(f);
    assert ScaleValues([Num(5.0)], 1073741824) == [Num(5.0 * 1073741824.0)];
  }

  // ---------------------------------------------------------------------------
  // Working list: pure views

  /** The keys in use, in row order, without the unset ones. */
  function SelectedKeys(filters: seq<FilterField>): (r: seq<string>)
    ensures |r| <= |filters|
    ensures forall k :: k in r <==> k != "" && exists i :: 0 <= i < |filters| && filters[i].key == k
  {
    if filters == [] then []
    else
      var init, last := filters[..|filters| - 1], filters[|filters| - 1];
      assert forall i :: 0 <= i < |init| ==> init[i] == filters[i];
      SelectedKeys(init) + (if last.key != "" then [last.key] else [])
  }

  /** No two rows share a set key. */
  predicate UniqueKeys(filters: seq<FilterField>) {
    forall i, j :: 0 <= i < j < |filters| && filters[i].key != "" ==> filters[i].key != filters[j].key
  }

  /** Every set key is a catalog key: the key selector offers nothing else. */
  predicate KeysFromCatalog(filters: seq<FilterField>) {
    forall i :: 0 <= i < |filters| ==> filters[i].key == "" || filters[i].key in FilterOptions
  }

  /** The add affordance is offered only while fewer rows exist than catalog keys. */
  predicate IsBelowRowLimit(filters: seq<FilterField>)
    ensures IsBelowRowLimit(filters) <==> |filters| < 4
  {
    |filters| < MaxRows
  }

  /** The rows an editing session opens with. */
  function InitialFilters(lastConfirmedFilters: seq<FilterField>): (r: seq<FilterField>)
    ensures r != []
    ensures lastConfirmedFilters != [] ==> r == lastConfirmedFilters
    ensures lastConfirmedFilters == [] ==> r == [EmptyFilter]
  {
    if |lastConfirmedFilters| > 0 then lastConfirmedFilters else [EmptyFilter]
  }

  /** The rows confirming saves: the complete rows in order, else the single default row. */
  function SubmittedFilters(filters: seq<FilterField>): (r: seq<FilterField>)
    ensures r != [] && (|r| <= |filters| || r == [EmptyFilter])
    ensures r == [EmptyFilter] || forall i :: 0 <= i < |r| ==> IsComplete(r[i])
    ensures forall f :: f in filters && IsComplete(f) ==> f in r
    ensures ValidFilters(filters) != [] ==> r == ValidFilters(filters)
    ensures ValidFilters(filters) == [] ==> r == [EmptyFilter]
  {
    var validated := ValidFilters(filters);
    if |validated| > 0 then validated else [EmptyFilter]
  }

  /** Key option `option` is disabled in row `i` exactly when another row already uses it. */
  lemma DisabledIffUsedElsewhere(filters: seq<FilterField>, i: nat, option: string)
    requires i < |filters|
    ensures OptionDisabled(SelectedKeys(filters), option, filters[i].key) <==>
      option != "" && option != filters[i].key &&
      exists j :: 0 <= j < |filters| && j != i && filters[j].key == option
  {
  }

  /** Giving row `i` a key that is not disabled for it keeps the set keys distinct. */
  lemma KeyChoiceKeepsUnique(filters: seq<FilterField>, i: nat, row: FilterField)
    requires UniqueKeys(filters) && i < |filters|
    requires !OptionDisabled(SelectedKeys(filters), row.key, filters[i].key)
    ensures UniqueKeys(filters[i := row])
  {
    var fs := filters[i := row];
    forall a, b | 0 <= a < b < |fs| && fs[a].key != ""
      ensures fs[a].key != fs[b].key
    {
      if a == i {
        if row.key != filters[i].key {
          assert filters[b].key != row.key;
        }
      } else if b == i {
        if row.key != filters[i].key {
          assert filters[a].key != row.key;
        }
      }
    }
  }

  /** Filtering keeps the set keys distinct. */
  lemma {:induction false} ValidFiltersKeepUnique(filters: seq<FilterField>)
    requires UniqueKeys(filters)
    ensures UniqueKeys(ValidFilters(filters))
    decreases |filters|
  {
    if filters != [] {
      var init, last := filters[..|filters| - 1], filters[|filters| - 1];
      assert filters == init + [last];
      UniqueKeysPrefix(filters);
      ValidFiltersKeepUnique(init);
      ValidFiltersSnoc(init, last);
      if IsComplete(last) {
        LastKeyFresh(filters);
        UniqueSnoc(ValidFilters(init), last);
      } else {
        assert ValidFilters(init) + [] == ValidFilters(init);
      }
    }
  }

  /** Dropping the last row keeps the set keys distinct. */
  lemma UniqueKeysPrefix(filters: seq<FilterField>)
    requires UniqueKeys(filters) && filters != []
    ensures UniqueKeys(filters[..|filters| - 1])
  {
    var init := filters[..|filters| - 1];
    forall a, b | 0 <= a < b < |init| && init[a].key != ""
      ensures init[a].key != init[b].key
    {
      assert init[a] == filters[a] && init[b] == filters[b];
    }
  }

  /** No complete earlier row shares the last row's set key. */
  lemma LastKeyFresh(filters: seq<FilterField>)
    requires UniqueKeys(filters) && filters != []
    ensures forall f :: f in ValidFilters(filters[..|filters| - 1]) && f.key != "" ==>
      f.key != filters[|filters| - 1].key
  {
    var init := filters[..|filters| - 1];
    forall f | f in ValidFilters(init) && f.key != ""
      ensures f.key != filters[|filters| - 1].key
    {
      assert f in init;
      var j :| 0 <= j < |init| && init[j] == f;
      assert filters[j] == f;
    }
  }

  /** Appending a row whose key no earlier set key equals keeps the set keys distinct. */
  lemma UniqueSnoc(rows: seq<FilterField>, last: FilterField)
    requires UniqueKeys(rows)
    requires forall f :: f in rows && f.key != "" ==> f.key != last.key
    ensures UniqueKeys(rows + [last])
  {
    var w := rows + [last];
    forall a, b | 0 <= a < b < |w| && w[a].key != ""
      ensures w[a].key != w[b].key
    {
      assert w[a] == rows[a];
      if b < |rows| {
        assert w[b] == rows[b];
      }
    }
  }

  /** Filtering keeps every set key a catalog key. */
  lemma ValidFiltersKeepCatalog(filters: seq<FilterField>)
    requires KeysFromCatalog(filters)
    ensures KeysFromCatalog(ValidFilters(filters))
  {
    var v := ValidFilters(filters);
    forall i | 0 <= i < |v|
      ensures v[i].key == "" || v[i].key in FilterOptions
    {
      assert v[i] in filters;
    }
  }

  /** Removing a row keeps the set keys distinct. */
  lemma RemoveKeepsUnique(filters: seq<FilterField>, i: nat)
    requires UniqueKeys(filters) && i < |filters|
    ensures UniqueKeys(filters[..i] + filters[i + 1..])
  {
    var fs := filters[..i] + filters[i + 1..];
    forall a, b | 0 <= a < b < |fs| && fs[a].key != ""
      ensures fs[a].key != fs[b].key
    {
      var a', b' := if a < i then a else a + 1, if b < i then b else b + 1;
      assert fs[a] == filters[a'] && fs[b] == filters[b'];
    }
  }

  /** The list confirming saves is exactly what the URL parameter written from the working
      rows restores, and a new session opened on it shows it unchanged. */
  lemma SubmitMatchesRestore(serialize: seq<FilterField> -> string, parse: string -> Parsed,
                             filters: seq<FilterField>)
    requires parse("") == ParseError
    requires parse(serialize(ValidFilters(filters))) == JsonArray(ValidFilters(filters))
    ensures SubmittedFilters(filters) == DecodeFilters(parse, EncodeFilters(serialize, filters))
    ensures InitialFilters(SubmittedFilters(filters)) == SubmittedFilters(filters)
  {
    DecodeEncode(serialize, parse, filters);
  }

  /** Clearing saves the empty list, which the next session opens as the single default row,
      the same rows clearing leaves in the editor. */
  lemma ClearedSessionReopens(serialize: seq<FilterField> -> string)
    ensures InitialFilters([]) == InitialFilters([EmptyFilter]) == [EmptyFilter]
    ensures EncodeFilters(serialize, []) == EncodeFilters(serialize, [EmptyFilter]) == ""
  {
  }

  /** With distinct catalog keys, every complete row the confirmation saves has its own
      entry in the transform of the saved rows: nothing is lost to a shared identifier. */
  lemma SubmittedRowsHaveOwnEntries(filters: seq<FilterField>)
    requires UniqueKeys(filters) && KeysFromCatalog(filters)
    ensures forall f :: f in SubmittedFilters(filters) && IsComplete(f) ==>
      MappedKey(f.key) in Transform(SubmittedFilters(filters)) &&
      Transform(SubmittedFilters(filters))[MappedKey(f.key)] == RowEntry(f)
  {
    var saved := SubmittedFilters(filters);
    if ValidFilters(filters) != [] {
      ValidFiltersKeepUnique(filters);
      ValidFiltersKeepCatalog(filters);
      forall f | f in saved && IsComplete(f)
        ensures MappedKey(f.key) in Transform(saved) && Transform(saved)[MappedKey(f.key)] == RowEntry(f)
      {
        var i :| 0 <= i < |saved| && saved[i] == f;
        TransformOfUniqueRows(saved, i);
      }
    }
  }

  // ---------------------------------------------------------------------------
  // Working list: the editor state

  class FilterModal {
    /** The rows being edited. */
    var filters: seq<FilterField>

    /** Set keys are distinct catalog keys and there are no more rows than catalog keys. */
    predicate Valid()
      reads this
      ensures Valid() ==> |SelectedKeys(filters)| <= MaxRows
      ensures Valid() ==> forall k :: k in SelectedKeys(filters) ==> k in FilterOptions
    {
      UniqueKeys(filters) && KeysFromCatalog(filters) && |filters| <= MaxRows
    }

    constructor (lastConfirmedFilters: seq<FilterField>)
      ensures filters == InitialFilters(lastConfirmedFilters)
      ensures (UniqueKeys(lastConfirmedFilters) && KeysFromCatalog(lastConfirmedFilters) &&
               |lastConfirmedFilters| <= MaxRows) ==> Valid()
    {
      filters := InitialFilters(lastConfirmedFilters);
    }

    /** "Add filter": offered only below the row limit; appends one default row. */
    method AddRow() returns (added: bool)
      modifies this
      ensures added == IsBelowRowLimit(old(filters))
      ensures filters == if added then old(filters) + [EmptyFilter] else old(filters)
      ensures old(Valid()) ==> Valid()
    {
      added := IsBelowRowLimit(filters);
      if added {
        filters := filters + [EmptyFilter];
      }
    }

    /** The delete button of row `index`: enabled only once that row's key is set. */
    method RemoveRow(index: int) returns (removed: bool)
      modifies this
      ensures removed == (0 <= index < |old(filters)| && DeleteEnabled(old(filters)[index].key))
      ensures filters == if removed then old(filters)[..index] + old(filters)[index + 1..] else old(filters)
      ensures old(Valid()) ==> Valid()
    {
      removed := 0 <= index < |filters| && DeleteEnabled(filters[index].key);
      if removed {
        if Valid() {
          RemoveKeepsUnique(filters, index);
        }
        filters := filters[..index] + filters[index + 1..];
      }
    }

    /** Choosing key `newKey` for row `index`: only catalog keys that are not disabled can be
        chosen. The key is set; Activated then sets the values to [true] and Size sets the
        operator to "ge"; nothing else in the row changes. */
    method SetKey(index: int, newKey: string) returns (changed: bool)
      modifies this
      ensures changed == (0 <= index < |old(filters)| && newKey in FilterOptions &&
        !OptionDisabled(SelectedKeys(old(filters)), newKey, old(filters)[index].key))
      ensures !changed ==> filters == old(filters)
      ensures changed ==> (
        |filters| == |old(filters)| &&
        (forall j :: 0 <= j < |filters| && j != index ==> filters[j] == old(filters)[j]) &&
        filters[index].key == newKey &&
        filters[index].operator == (if newKey == "Size" then "ge" else old(filters)[index].operator) &&
        filters[index].values == (if newKey == "Activated" then [Bool(true)] else old(filters)[index].values) &&
        filters[index].unit == old(filters)[index].unit)
      ensures old(Valid()) ==> Valid()
    {
      changed := 0 <= index < |filters| && newKey in FilterOptions &&
        !OptionDisabled(SelectedKeys(filters), newKey, filters[index].key);
      if changed {
        ghost var before := filters;
        filters := filters[index := filters[index].(key := newKey)];
        if newKey == "Activated" {
          filters := filters[index := filters[index].(values := [Bool(true)])];
        } else if newKey == "Size" {
          filters := filters[index := filters[index].(operator := "ge")];
        }
        if UniqueKeys(before) {
          KeyChoiceKeepsUnique(before, index, filters[index]);
          assert filters == before[index := filters[index]];
        }
      }
    }

    /** The operator selector of a Size row: one of the operator codes. */
    method SetOperator(index: int, operator: string) returns (changed: bool)
      modifies this
      ensures changed == (0 <= index < |old(filters)| && ShowsOperatorAndUnit(old(filters)[index].key) &&
        exists j :: 0 <= j < |OperatorOptions| && OperatorOptions[j].value == operator)
      ensures filters == if changed then old(filters)[index := old(filters)[index].(operator := operator)]
                         else old(filters)
      ensures old(Valid()) ==> Valid()
    {
      changed := 0 <= index < |filters| && ShowsOperatorAndUnit(filters[index].key) &&
        exists j :: 0 <= j < |OperatorOptions| && OperatorOptions[j].value == operator;
      if changed {
        filters := filters[index := filters[index].(operator := operator)];
      }
    }

    /** The unit selector of a Size row: one of the listed units. */
    method SetUnit(index: int, unit: string) returns (changed: bool)
      modifies this
      ensures changed == (0 <= index < |old(filters)| && ShowsOperatorAndUnit(old(filters)[index].key) &&
        unit in SizeOptions)
      ensures filters == if changed then old(filters)[index := old(filters)[index].(unit := Some(unit))]
                         else old(filters)
      ensures old(Valid()) ==> Valid()
    {
      changed := 0 <= index < |filters| && ShowsOperatorAndUnit(filters[index].key) && unit in SizeOptions;
      if changed {
        filters := filters[index := filters[index].(unit := Some(unit))];
      }
    }

    /** The multi-select of a Status or Parent ID row: the picked options, in picking order. */
    method SetSelection(index: int, picks: seq<string>) returns (changed: bool)
      modifies this
      ensures changed == (0 <= index < |old(filters)| && ValueInputFor(old(filters)[index].key).MultiSelect? &&
        forall p :: p in picks ==> p in ValueInputFor(old(filters)[index].key).options)
      ensures !changed ==> filters == old(filters)
      ensures changed ==> (
        |filters| == |old(filters)| &&
        (forall j :: 0 <= j < |filters| && j != index ==> filters[j] == old(filters)[j]) &&
        filters[index] == old(filters)[index].(values := filters[index].values) &&
        |filters[index].values| == |picks| &&
        forall j :: 0 <= j < |picks| ==> filters[index].values[j] == Str(picks[j]))
      ensures old(Valid()) ==> Valid()
    {
      var input := if 0 <= index < |filters| then ValueInputFor(filters[index].key) else Placeholder;
      changed := input.MultiSelect? && forall p :: p in picks ==> p in input.options;
      if changed {
        var values := seq(|picks|, j requires 0 <= j < |picks| => Str(picks[j]));
        filters := filters[index := filters[index].(values := values)];
      }
    }

    /** The number input of a Size row: stores the entered number as a one-element list. */
    method SetSize(index: int, x: real) returns (changed: bool)
      modifies this
      ensures changed == (0 <= index < |old(filters)| && ValueInputFor(old(filters)[index].key) == SizeNumber)
      ensures filters == if changed then old(filters)[index := old(filters)[index].(values := SingleValue(Num(x)))]
                         else old(filters)
      ensures changed ==> SizeDisplay(filters[index].values) == Some(x)
      ensures old(Valid()) ==> Valid()
    {
      changed := 0 <= index < |filters| && ValueInputFor(filters[index].key) == SizeNumber;
      if changed {
        filters := filters[index := filters[index].(values := SingleValue(Num(x)))];
      }
    }

    /** The On/Off select of an Activated row: stores the chosen boolean as a one-element list. */
    method SetActivated(index: int, b: bool) returns (changed: bool)
      modifies this
      ensures changed == (0 <= index < |old(filters)| && ValueInputFor(old(filters)[index].key) == ActivatedSelect)
      ensures filters == if changed then old(filters)[index := old(filters)[index].(values := SingleValue(Bool(b)))]
                         else old(filters)
      ensures old(Valid()) ==> Valid()
    {
      changed := 0 <= index < |filters| && ValueInputFor(filters[index].key) == ActivatedSelect;
      if changed {
        filters := filters[index := filters[index].(values := SingleValue(Bool(b)))];
      }
    }

    /** "Confirm": saves the complete rows (or the default row), computes their query-ready
        form, and resets the editor to the saved rows. */
    method Confirm() returns (saved: seq<FilterField>, transformed: TransformedFilters)
      modifies this
      ensures saved == SubmittedFilters(old(filters)) && saved != []
      ensures transformed == Transform(saved) == Transform(old(filters))
      ensures filters == saved
      ensures old(Valid()) ==> Valid()
      ensures old(Valid()) ==> forall f :: f in saved && IsComplete(f) ==>
        MappedKey(f.key) in transformed && transformed[MappedKey(f.key)] == RowEntry(f)
    {
      var validated := ValidFilters(filters);
      if Valid() {
        ValidFiltersKeepUnique(filters);
        SubmittedRowsHaveOwnEntries(filters);
        ValidFiltersKeepCatalog(filters);
      }
      TransformIgnoresIncomplete(filters);
      var finalData := if |validated| > 0 then validated else [EmptyFilter];
      transformed := TransformFilters(finalData);
      saved := finalData;
      filters := finalData;
    }

    /** "Clear all": resets the editor to the single default row and saves the empty list. */
    method ClearAll() returns (saved: seq<FilterField>)
      modifies this
      ensures filters == [EmptyFilter] && saved == []
      ensures Valid()
    {
      filters := [EmptyFilter];
      saved := [];
    }

    /** "Cancel": closes without saving and without touching the rows. */
    method Cancel()
      ensures filters == old(filters)
    {
    }
  }

  /** A row's values survive a key change: a confirmed Status row holding two strings,
      switched to Size in the next session, is confirmed as a size filter "ge" over those two unscaled strings. */
  method StaleValuesSurviveKeyChange() returns (saved: seq<FilterField>, transformed: TransformedFilters)
    ensures saved == [FilterField("Size", "ge", [Str("Online"), Str("Offline")], Some("GiB"))]
    ensures transformed == map["size" := Entry("ge", [Str("Online"), Str("Offline")])]
  {
    var picked := [Str("Online"), Str("Offline")];
    var modal := new FilterModal([FilterField("Status", "in", picked, Some("GiB"))]);
    assert SelectedKeys(modal.filters) == ["Status"];
    var ok := modal.SetKey(0, "Size");
    assert ok;
    var row := FilterField("Size", "ge", picked, Some("GiB"));
    assert modal.filters == [row];
    assert ValidFilters([row]) == [row];
    assert ScaleValues(picked, Multiplier(row.unit)) == picked;
    assert RowEntry(row) == Entry("ge", picked);
    TransformSingle(row);
    assert SubmittedFilters([row]) == [row];
    saved, transformed := modal.Confirm();
    assert saved == [row];
  }
}
