# Filter builder: a Dafny model of the filter state

This project models the state logic of a filter-builder widget. A user edits a short list of
filter rows. Each row has a field key, an operator, a list of values and an optional unit. The
keys come from a fixed catalog of four fields: Status, Parent ID, Size and Activated. Confirmed
rows are persisted in the `filters` URL parameter. They are also turned into a query-ready map
from wire identifiers (`status`, `parent_id`, `size`, `activated`) to an operator and values.
Size values are scaled from MiB, GiB, TiB or PiB to bytes.

Modules, one per source file:

- `Types` (`src/types.ts`): `Value` (string, number or boolean), `FilterField`, `Entry`, `TransformedFilters`. The form record `FilterFormData` holds one ordered list of rows; that list is the field `filters` of `Modal.FilterModal`.
- `Catalog` (`src/constants/filterOptions.ts`): the constants, and lemmas about them.
- `Codec` (`src/utils/urlFunctions.ts`): `EncodeFilters`, `DecodeFilters` and the filter of complete rows.
- `FilterRow` (`src/components/FilterModal/FilterRow.tsx`): the disabled-option rule, the value input per key, the Size display, and which controls are offered.
- `Modal` (`src/components/FilterModal/index.tsx`): the transform, as a specification function and a loop method, and the class `FilterModal`. The class holds the working list `filters` and has one method per gesture. The row edits that `FilterRow.tsx` performs are methods of this class, because they change the list it owns.

The JSON and URI layer is a foreign library. It enters as two function parameters. `serialize`
turns rows into the parameter text. `parse` gives `ParseError`, `JsonArray(rows)` or `JsonOther`.
The lemmas assume only two facts about this pair. Parsing the empty text fails. Parsing the
serialisation of a list gives that list back.

The class invariant `Valid()` says three things: no two rows share a set key, every set key is a
catalog key, and there are at most four rows. Every gesture keeps it (`ensures old(Valid()) ==> Valid()`). The class does not demand
it, because a list restored from the URL may break it.

In three places the code does less than one might expect of such a widget, and the model follows
the code:

- Clear-all saves the empty list, not a list holding the default row. `ClearedSessionReopens` shows the two have the same effect: both reopen as the single default row and both encode to the empty parameter text.
- Choosing a key does not fully reset the row. Activated sets the values to `[true]`. Size sets the operator to `"ge"`. Everything else stays: values of another kind, a Size operator on a Status row, the unit. `StaleValuesSurviveKeyChange` shows a Status row's strings kept as the values of a Size row.
- So the number of values is not tied to the key's kind. Only the Size and Activated inputs store exactly one value (`SetSize`, `SetActivated`).

## Model

| member | source | states |
|---|---|---|
| Catalog.UnitMultipliersArePowersOfTwo | src/constants/filterOptions.ts:3-8 | the listed units are 2^20, 2^30, 2^40 and 2^50 bytes, each 1024 times the one before |
| Catalog.SizeOptionsAreUnits | src/constants/filterOptions.ts:25 | the unit selector lists exactly the keys of the multiplier table, once each, in ascending magnitude |
| Catalog.KeyMapCoversFilterOptions | src/constants/filterOptions.ts:10-24 | four distinct catalog keys; the key map has exactly those keys, injectively, with the four listed wire names |
| Catalog.EmptyFilterDefaults | src/constants/filterOptions.ts:17-22 | the default row has an empty key, operator "in", no values and unit "GiB", a known unit |
| Catalog.OptionListsShape | src/constants/filterOptions.ts:28-36 | operator codes in/ge/le with glyphs =, ≥, ≤; the Activated options are true then false |
| Codec.IsComplete | src/utils/urlFunctions.ts:5 | definition of the filter test (a key is set and there is at least one value); `ValidFilters`, `EncodeEmptyIff` and `TransformIgnoresIncomplete` state its effect |
| Codec.ValidFilters | src/utils/urlFunctions.ts:5 | the result holds exactly the complete rows; it is empty exactly when no row is complete; a list of complete rows is kept whole |
| Codec.ValidFiltersAppend | src/utils/urlFunctions.ts:5 | filtering distributes over concatenation, so survivors keep their order |
| Codec.ValidFiltersSnoc | src/utils/urlFunctions.ts:5 | one more row extends the filtered list by that row exactly when it is complete |
| Codec.ValidFiltersIdempotent | src/utils/urlFunctions.ts:5 | filtering twice equals filtering once |
| Codec.EncodeFilters | src/utils/urlFunctions.ts:4-8 | a non-empty result is the serialisation of the complete rows, unconverted; no complete row gives "" |
| Codec.DecodeFilters | src/utils/urlFunctions.ts:10-17 | a parsed array is returned as it is, whatever its rows (incomplete or repeated keys included); a failure or non-array gives the single default row |
| Codec.EncodeEmptyIff | src/utils/urlFunctions.ts:5-6 | the encoding is "" exactly when no row has both a key and values |
| Codec.EncodeIgnoresIncomplete | src/utils/urlFunctions.ts:5-7 | encoding a list equals encoding its complete rows |
| Codec.DecodeEncode | src/utils/urlFunctions.ts:4-17 | decoding an encoding gives the complete rows, or the default row when there are none |
| Codec.RoundTrip | src/utils/urlFunctions.ts:7-13 | a non-empty list of complete rows decodes back to itself |
| Codec.DecodeFallbacks | src/utils/urlFunctions.ts:11-15 | the empty text, unreadable text and non-array JSON give the default row; a serialised empty array gives [] |
| FilterRow.OptionDisabled | src/components/FilterModal/FilterRow.tsx:42 | a row's own key is never disabled for it; a key no row uses is never disabled |
| FilterRow.ValueInputFor | src/components/FilterModal/FilterRow.tsx:71-118 | only a catalog key gets a multi-select |
| FilterRow.ValueInputCoversCatalog | src/components/FilterModal/FilterRow.tsx:71-118 | a key gets the disabled placeholder exactly when it is not a catalog key; Status and Parent ID are the multi-valued keys, offering the status and the parent options respectively |
| FilterRow.SingleValue | src/components/FilterModal/FilterRow.tsx:103-113 | what a single-valued input stores, the Size input displays again: the number when it is one, otherwise nothing |
| FilterRow.SizeDisplay | src/components/FilterModal/FilterRow.tsx:103 | definition of the displayed number; `SingleValue`, `SizeInputRoundTrip` and `FilterModal.SetSize` state what it shows after each store |
| FilterRow.SizeInputRoundTrip | src/components/FilterModal/FilterRow.tsx:103-104 | a stored number is displayed again; a stored non-number displays nothing |
| FilterRow.ShowsOperatorAndUnit | src/components/FilterModal/FilterRow.tsx:61-62 | the operator and unit selectors appear exactly for the key whose value input is the number input |
| FilterRow.DeleteEnabled | src/components/FilterModal/FilterRow.tsx:138 | any row with a set key can be deleted, catalog key or not; the default row's unset key cannot |
| Modal.ToLower | src/components/FilterModal/index.tsx:41 | same length; each ASCII capital becomes its lower-case letter, every other character is unchanged, and no capital is left |
| Modal.MappedKey | src/components/FilterModal/index.tsx:41 | a catalog key maps to its key-map entry; a key outside the map is lower-cased (`ToLower`) |
| Modal.Multiplier | src/components/FilterModal/index.tsx:47 | the unit factor is at least 1 |
| Modal.MultiplierValues | src/components/FilterModal/index.tsx:47 | a listed unit multiplies by its power of two; an absent or unlisted unit multiplies by 1 |
| Modal.ScaleValues | src/components/FilterModal/index.tsx:48 | same length; numbers stay numbers and strings and booleans are kept; a factor of 1 changes nothing |
| Modal.RowEntry | src/components/FilterModal/index.tsx:42-53 | the entry always has an operator and as many values as the row; values are unchanged unless the key is size with a factor other than 1 |
| Modal.RowEntryNormalises | src/components/FilterModal/index.tsx:41-54 | operator defaults to "in"; for "size" every number is multiplied by the unit factor and other values pass through, length kept; other keys keep their values |
| Modal.Transform | src/components/FilterModal/index.tsx:35-58 | the map has at most one entry per row |
| Modal.TransformFilters | src/components/FilterModal/index.tsx:35-58 | the loop that assigns one entry per complete row computes `Transform` |
| Modal.TransformLastWins | src/components/FilterModal/index.tsx:51-54 | a complete row's entry is present unchanged unless a later complete row maps to the same key |
| Modal.TransformIgnoresIncomplete | src/components/FilterModal/index.tsx:39 | rows with an empty key or no values never affect the result |
| Modal.TransformOfUniqueRows | src/components/FilterModal/index.tsx:38-55 | with distinct catalog keys, every complete row has its own entry, unchanged |
| Modal.TransformKeysAreWireNames | src/components/FilterModal/index.tsx:41 | rows keyed from the catalog produce only the four wire identifiers |
| Modal.UniqueRowsMapApart | src/components/FilterModal/index.tsx:41 | with distinct catalog keys, no other set row maps to the identifier of row i |
| Modal.MappedKeyInjective | src/constants/filterOptions.ts:10-15 | distinct catalog keys map to distinct identifiers |
| Modal.TransformKeysFromRows | src/components/FilterModal/index.tsx:38-55 | every entry key is the mapped key of some complete row |
| Modal.TransformKeysCoverRows | src/components/FilterModal/index.tsx:38-55 | every complete row's mapped key has an entry |
| Modal.TransformKeys | src/components/FilterModal/index.tsx:38-55 | the entry keys are exactly the mapped keys of the complete rows |
| Modal.TransformSnoc | src/components/FilterModal/index.tsx:38-55 | one more row adds its entry when complete, overwriting any entry with the same key |
| Modal.UnknownKeyLowerCased | src/components/FilterModal/index.tsx:41-54 | a complete row with a key outside the map is the only entry of its transform, under its key lower-cased letter by letter |
| Modal.TransformSizeExample | src/components/FilterModal/index.tsx:46-49 | Size ge 5 GiB becomes size ge 5 * 2^30 |
| Modal.SelectedKeys | src/components/FilterModal/index.tsx:28-30 | a string is selected exactly when it is non-empty and some row has it as key; no longer than the rows |
| Modal.IsBelowRowLimit | src/components/FilterModal/index.tsx:32-33 | the add button is offered exactly while there are fewer than four rows |
| Modal.InitialFilters | src/components/FilterModal/index.tsx:19 | the session opens on the last confirmed rows, or the single default row when there are none |
| Modal.SubmittedFilters | src/components/FilterModal/index.tsx:71-73 | confirming saves the complete rows in order, or the single default row; never empty |
| Modal.DisabledIffUsedElsewhere | src/components/FilterModal/FilterRow.tsx:42 | an option is disabled in row i exactly when another row uses it and it is not row i's key |
| Modal.KeyChoiceKeepsUnique | src/components/FilterModal/FilterRow.tsx:42-45 | setting a row's key to a non-disabled option keeps set keys distinct |
| Modal.ValidFiltersKeepUnique | src/components/FilterModal/index.tsx:71 | filtering rows keeps set keys distinct |
| Modal.UniqueKeysPrefix | src/components/FilterModal/index.tsx:71 | dropping the last row keeps set keys distinct |
| Modal.LastKeyFresh | src/components/FilterModal/index.tsx:71 | with distinct keys, no complete earlier row shares the last row's set key |
| Modal.UniqueSnoc | src/components/FilterModal/index.tsx:71 | appending a row whose key no earlier set key equals keeps set keys distinct |
| Modal.ValidFiltersKeepCatalog | src/components/FilterModal/index.tsx:71 | filtering rows keeps every set key a catalog key |
| Modal.RemoveKeepsUnique | src/components/FilterModal/index.tsx:107 | removing a row keeps set keys distinct |
| Modal.SubmitMatchesRestore | src/components/FilterModal/index.tsx:71-78 | the saved list equals what decoding the URL encoding of the working rows gives, and reopening shows it unchanged |
| Modal.ClearedSessionReopens | src/components/FilterModal/index.tsx:60-62 | the empty list that clear-all saves and the default row it leaves in the editor both reopen as the single default row and both encode to "" |
| Modal.SubmittedRowsHaveOwnEntries | src/components/FilterModal/index.tsx:71-75 | with distinct catalog keys, every complete saved row has its own entry, unchanged, in the transform of the saved rows |
| Modal.FilterModal.Valid | src/components/FilterModal/index.tsx:28-33 | a valid editor uses at most four keys, all from the catalog |
| Modal.FilterModal.constructor | src/components/FilterModal/index.tsx:17-21 | the working list starts as the initial rows; a valid last list gives a valid editor |
| Modal.FilterModal.AddRow | src/components/FilterModal/index.tsx:113-114 | adds exactly one default row, and only below four rows; existing rows are unchanged |
| Modal.FilterModal.RemoveRow | src/components/FilterModal/index.tsx:107 | deletes exactly row i, keeping the others in order, and only when row i's key is set |
| Modal.FilterModal.SetKey | src/components/FilterModal/FilterRow.tsx:39-51 | a non-disabled catalog key is set; Activated sets values [true], Size sets operator "ge"; the rest of the row and the other rows are unchanged |
| Modal.FilterModal.SetOperator | src/components/FilterModal/FilterRow.tsx:57-63 | only a Size row, and only an operator code, changes the operator |
| Modal.FilterModal.SetUnit | src/components/FilterModal/FilterRow.tsx:122-136 | only a Size row, and only a listed unit, changes the unit |
| Modal.FilterModal.SetSelection | src/components/FilterModal/FilterRow.tsx:72-97 | a Status or Parent ID row takes the picked options, in order, as its values |
| Modal.FilterModal.SetSize | src/components/FilterModal/FilterRow.tsx:98-106 | a Size row stores the entered number as a one-element list, which is then displayed |
| Modal.FilterModal.SetActivated | src/components/FilterModal/FilterRow.tsx:107-115 | an Activated row stores the chosen boolean as a one-element list |
| Modal.FilterModal.Confirm | src/components/FilterModal/index.tsx:70-81 | saves the submitted rows, computes their transform (equal to the working rows' transform), and resets the editor to them; in a valid editor every complete saved row has its own entry |
| Modal.FilterModal.ClearAll | src/components/FilterModal/index.tsx:60-64 | the editor holds the single default row and the empty list is saved |
| Modal.FilterModal.Cancel | src/components/FilterModal/index.tsx:66-68 | nothing changes |
| Modal.StaleValuesSurviveKeyChange | src/components/FilterModal/FilterRow.tsx:44-51 | a Status row's picks survive a switch to Size and are confirmed as a size filter "ge" over two unscaled strings |

## Left out

- The JSON and URI functions are not modelled. They are two function parameters, and the lemmas assume only the two facts named above.
- Decoded array elements are not shape-checked. The model types them as `FilterField`, so it assumes well-shaped elements.
- Numbers are mathematical reals. There is no IEEE-754 rounding, NaN or Infinity in `val * multiplier`.
- Modal.ToLower: lower-cases only the ASCII letters A to Z. The full Unicode case mapping of `toLowerCase` is not modelled.
- Modal.Multiplier and Modal.MappedKey: they look up only the listed entries. A key inherited from the JavaScript object prototype (such as "constructor") is not modelled.
- Modal.FilterModal.SetSize: takes an entered number. Clearing the number input (which stores `[null]`) is not modelled, because the value type has no null.
- Modal.FilterModal.SetKey: choosing the row's current key again counts as a change. The select widget may not report it.
- The form library's per-field `defaultValue`s and the `field.id` row identities are not modelled; the model's rows are always fully formed.
- Rendering, styling, tag colours (`src/components/CustomTag.tsx`) and the static mock-up (`src/App.tsx`) are not modelled. They are presentation only.
- `console.log` of the transformed map is not modelled. `Confirm` returns that map instead.
- `onSave` and `onClose` are not modelled as calls. `Confirm` and `ClearAll` return the list passed to `onSave`, and closing is not represented.
- The host that reads and writes the URL parameter is not part of this model.
