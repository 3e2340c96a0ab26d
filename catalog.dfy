/** The fixed field catalog: filterable keys, the wire-key mapping, unit multipliers,
    the default row and the option lists the row editor offers. */
module Catalog {
  import opened Wrappers
  import opened Types

  /** Bytes per unit. */
  const UnitMultipliers: map<string, nat> := map[
    "MiB" := 1024 * 1024,
    "GiB" := 1024 * 1024 * 1024,
    "TiB" := 1024 * 1024 * 1024 * 1024,
    "PiB" := 1024 * 1024 * 1024 * 1024 * 1024]

  /** Display key to canonical wire identifier. */
  const KeyMap: map<string, string> := map[
    "Status" := "status",
    "Parent ID" := "parent_id",
    "Size" := "size",
    "Activated" := "activated"]

  /** The row a fresh or cleared editor starts from. */
  const EmptyFilter: FilterField := FilterField("", "in", [], Some("GiB"))

  const FilterOptions: seq<string> := ["Status", "Parent ID", "Size", "Activated"]
  const SizeOptions: seq<string> := ["MiB", "GiB", "TiB", "PiB"]
  const StatusOptions: seq<string> := ["Online", "Offline", "Rebuild", "Failed", "Missing"]
  const ParentOptions: seq<string> := ["P-0", "P-1", "P-2"]

  datatype ActivatedOption = ActivatedOption(value: bool, caption: string)
  const ActivatedOptions: seq<ActivatedOption> :=
    [ActivatedOption(true, "On"), ActivatedOption(false, "Off")]

  datatype OperatorOption = OperatorOption(value: string, caption: string)
  const OperatorOptions: seq<OperatorOption> := [
    OperatorOption("in", "="),
    OperatorOption("ge", "\U{2265}"),
    OperatorOption("le", "\U{2264}")]

  /** Most rows an editing session can hold: every field at most once. */
  const MaxRows: nat := |FilterOptions|

  /** 2 to the power `k`. */
  function Pow2(k: nat): nat {
    if k == 0 then 1 else 2 * Pow2(k - 1)
  }

  lemma {:induction false} Pow2Add(a: nat, b: nat)
    ensures Pow2(a + b) == Pow2(a) * Pow2(b)
  {
    if b > 0 {
      Pow2Add(a, b - 1);
      assert Pow2(a + b) == 2 * Pow2(a + (b - 1));
    }
  }

  /** The size units, in the listed order, are 2^20, 2^30, 2^40 and 2^50 bytes,
      and each is 1024 times the one before it. */
  lemma UnitMultipliersArePowersOfTwo()
    ensures forall i :: 0 <= i < |SizeOptions| ==>
      SizeOptions[i] in UnitMultipliers && UnitMultipliers[SizeOptions[i]] == Pow2(20 + 10 * i)
    ensures forall i :: 0 < i < |SizeOptions| ==>
      UnitMultipliers[SizeOptions[i]] == 1024 * UnitMultipliers[SizeOptions[i - 1]]
  {
    assert Pow2(10) == 1024;
    Pow2Add(10, 10);
    assert Pow2(20) == 1024 * 1024;
    Pow2Add(20, 10);
    assert Pow2(30) == 1024 * 1024 * 1024;
    Pow2Add(30, 10);
    assert Pow2(40) == 1024 * 1024 * 1024 * 1024;
    Pow2Add(40, 10);
    assert Pow2(50) == 1024 * 1024 * 1024 * 1024 * 1024;
    assert UnitMultipliers["MiB"] == Pow2(20) && UnitMultipliers["GiB"] == Pow2(30);
    assert UnitMultipliers["TiB"] == Pow2(40) && UnitMultipliers["PiB"] == Pow2(50);
  }

  /** The unit selector lists exactly the units that have a multiplier, without repeats,
      in ascending magnitude. */
  lemma SizeOptionsAreUnits()
    ensures forall u :: u in UnitMultipliers <==> u in SizeOptions
    ensures forall i, j :: 0 <= i < j < |SizeOptions| ==>
      UnitMultipliers[SizeOptions[i]] < UnitMultipliers[SizeOptions[j]]
  {
    assert UnitMultipliers.Keys == {"MiB", "GiB", "TiB", "PiB"};
  }

  /** The catalog has four distinct keys and `KeyMap` maps exactly those keys, injectively. */
  lemma KeyMapCoversFilterOptions()
    ensures |FilterOptions| == 4 == MaxRows
    ensures forall i, j :: 0 <= i < j < |FilterOptions| ==> FilterOptions[i] != FilterOptions[j]
    ensures forall k :: k in KeyMap <==> k in FilterOptions
    ensures forall a, b :: a in KeyMap && b in KeyMap && KeyMap[a] == KeyMap[b] ==> a == b
    ensures KeyMap["Status"] == "status" && KeyMap["Parent ID"] == "parent_id"
    ensures KeyMap["Size"] == "size" && KeyMap["Activated"] == "activated"
  {
    assert KeyMap.Keys == {"Status", "Parent ID", "Size", "Activated"};
  }

  /** The default row is unset: empty key, operator "in", no values, unit "GiB". */
  lemma EmptyFilterDefaults()
    ensures EmptyFilter.key == "" && EmptyFilter.operator == "in"
    ensures EmptyFilter.values == [] && EmptyFilter.unit == Some("GiB")
    ensures EmptyFilter.unit.value in UnitMultipliers
  {
  }

  /** Operator codes and glyphs; the Activated select offers exactly true and false. */
  lemma OptionListsShape()
    ensures |OperatorOptions| == 3
    ensures OperatorOptions[0].value == "in" && OperatorOptions[0].caption == "="
    ensures OperatorOptions[1].value == "ge" && OperatorOptions[1].caption == "\U{2265}"
    ensures OperatorOptions[2].value == "le" && OperatorOptions[2].caption == "\U{2264}"
    ensures |ActivatedOptions| == 2 && ActivatedOptions[0].value && !ActivatedOptions[1].value
  {
  }
}
