/** The rules one filter row's editor applies: which key options are disabled, which value
    input a key gets, what the Size input displays, and which controls are offered.
    The edits themselves are methods of `Modal.FilterModal`, which owns the row list. */
module FilterRow {
  import opened Wrappers
  import opened Types
  import opened Catalog

  /** Key option `option` cannot be chosen in a row whose current key is `filterKey`
      when some row already uses it and it is not this row's own key. */
  predicate OptionDisabled(selectedKeys: seq<string>, option: string, filterKey: string)
    ensures OptionDisabled(selectedKeys, option, filterKey) ==> option != filterKey
    ensures option !in selectedKeys ==> !OptionDisabled(selectedKeys, option, filterKey)
  {
    option in selectedKeys && option != filterKey
  }

  /** The value input shown for a key. */
  datatype ValueInput =
    | MultiSelect(options: seq<string>)  // pick any of the listed strings
    | SizeNumber                         // one number
    | ActivatedSelect                    // one of the `ActivatedOptions` booleans
    | Placeholder                        // no input: the key is unset or unknown

  function ValueInputFor(filterKey: string): (r: ValueInput)
    ensures r.MultiSelect? ==> filterKey in FilterOptions
  {
    match filterKey
    case "Status" => MultiSelect(StatusOptions)
    case "Parent ID" => MultiSelect(ParentOptions)
    case "Size" => SizeNumber
    case "Activated" => ActivatedSelect
    case _ => Placeholder
  }

  /** Every catalog key gets a working input; an unset or unknown key gets the disabled
      placeholder. Status and Parent ID are the multi-valued keys. */
  lemma ValueInputCoversCatalog(filterKey: string)
    ensures ValueInputFor(filterKey).Placeholder? <==> filterKey !in FilterOptions
    ensures ValueInputFor(filterKey).MultiSelect? <==> filterKey == "Status" || filterKey == "Parent ID"
    ensures filterKey == "Status" ==> ValueInputFor(filterKey).options == StatusOptions
    ensures filterKey == "Parent ID" ==> ValueInputFor(filterKey).options == ParentOptions
  {
  }

  /** Single-valued inputs (Size, Activated) store the entered value as a one-element list. */
  function SingleValue(v: Value): (r: seq<Value>)
    ensures SizeDisplay(r) == if v.Num? then Some(v.n) else None
  {
    [v]
  }

  /** The number the Size input shows: the first value when it is a number, otherwise none. */
  function SizeDisplay(values: seq<Value>): Option<real> {
    if |values| > 0 && values[0].Num? then Some(values[0].n) else None
  }

  /** What the Size input stores it shows again; a stored non-number shows nothing. */
  lemma SizeInputRoundTrip(x: real, v: Value)
    ensures SizeDisplay(SingleValue(Num(x))) == Some(x)
    ensures !v.Num? ==> SizeDisplay(SingleValue(v)) == None
  {
  }

  /** The operator and unit selectors exist only for the Size key. */
  predicate ShowsOperatorAndUnit(filterKey: string)
    ensures ShowsOperatorAndUnit(filterKey) <==> ValueInputFor(filterKey) == SizeNumber
  {
    filterKey == "Size"
  }

  /** A row can be deleted only once its key is set. */
  predicate DeleteEnabled(filterKey: string)
    ensures filterKey != "" ==> DeleteEnabled(filterKey)
    ensures filterKey == EmptyFilter.key ==> !DeleteEnabled(filterKey)
  {
    filterKey != ""
  }
}
