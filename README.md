# jq expression builder and ordered JSON output

This project models the server-side jq helpers of jq-view-web, in `internal/jq/builder.go`. The file does four things:

- **`BuildExpressionFromFields`** turns a list of selected field names into a jq filter. With no fields the filter is `.`, whatever the array flag says. With one field it is `.f`, and with more it is `{f1, f2, ...}`; each of these two forms is put behind the array prefix (`.[]` followed by a pipe) when the flag asks for it.
- **`extractFieldOrder`** reads the output field order back out of a jq expression. It takes the text between the last `{` and the last `}`, splits it at commas, trims each piece and cuts it at its first colon.
- **`orderKeys`** chooses the order in which an object's keys are written. Keys named in the field order come first, by the position of their last occurrence there. The remaining keys follow in ascending string order.
- **`writeOrderedJSON` / `marshalOrdered`** pretty-print a JSON value into a byte buffer. Objects use the `orderKeys` order at every depth, with two spaces of indentation per level. When there is no field order at all, the library's indented encoder is used instead.

The modules follow that structure:

| module | models |
|---|---|
| `GoStrings` | the Go `strings` operations the file uses (`LastIndex`, `Index`, `Split`, `TrimSpace`, `Repeat`) and the string order `<`, as reference functions with their library contracts; and `Join`, the reference definition of the field list that the loop at builder.go:187-194 accumulates |
| `ExpressionBuilder` | `BuildExpressionFromFields` (a method with the source's loop) and its closed form `Expression` |
| `FieldOrder` | `extractFieldOrder` (a method with the source's loop) and its reference function `FieldOrderOf`. Lemmas give its output shape and the round trip with the builder |
| `KeyOrder` | `orderKeys`. It appears as a method that fills the position map, collects the keys and then sorts an array in place. Beside it are the comparator `Before`, proved to be a strict total order on distinct keys, and a reference arrangement `OrderedKeys` that the method is proved to return. The result therefore does not depend on the order in which the map's keys were collected |
| `OrderedJson` | the `Json` value type, a `Buffer` class for `bytes.Buffer`, and the recursive writer as methods that append to the buffer. Each writer is proved against a reference function of the same family: `WriteOrderedJson`, `WriteObject` and `WriteArray` against `Render`; `WriteEntries` and `WriteEntry` against `RenderEntries`; `WriteItems` and `WriteItem` against `RenderItems`; and `WriteEntryHead` and `WriteItemHead` against `EntryHead` and `ItemHead`. Lemmas give the layout of objects and arrays, when rendering fails, and which error is reported |

The library encoders are not modelled: `json.Marshal` for scalars, `%q` quoting of keys and `json.MarshalIndent(·, "", "  ")`. They are fields of an `Encoders` record passed to the writer, so every result holds for any encoder.

## Model

| member | source | states |
|---|---|---|
| `GoStrings.LastIndex` | internal/jq/builder.go:54-55 | `-1` exactly when the character is absent; otherwise a position holding it with no occurrence after it |
| `GoStrings.LastIndexAt` | internal/jq/builder.go:54-55 | a position holding `c` with no `c` after it is what `LastIndex` returns |
| `GoStrings.Index` | internal/jq/builder.go:65 | `-1` exactly when the character is absent; otherwise a position holding it with no occurrence before it |
| `GoStrings.IndexAt` | internal/jq/builder.go:65 | a position holding `c` with no `c` before it is what `Index` returns |
| `GoStrings.NotInJoin` | internal/jq/builder.go:187-194 | a character in neither the parts nor the separator is absent from their join |
| `GoStrings.JoinSnoc` | internal/jq/builder.go:188-193 | appending a part to a non-empty join appends the separator and the part |
| `GoStrings.Split` | internal/jq/builder.go:61 | at least one piece, and no piece holds the separator |
| `GoStrings.SplitCount` | internal/jq/builder.go:61 | the number of pieces is the number of separators plus one |
| `GoStrings.JoinSplit` | internal/jq/builder.go:61 | joining the pieces with the separator gives the string back |
| `GoStrings.SplitJoin` | internal/jq/builder.go:61 | splitting a join of separator-free parts gives the parts back |
| `GoStrings.JoinLongSeparator` | internal/jq/builder.go:190 | joining with `c + pre` is joining with `c` after prefixing every part but the first with `pre` |
| `GoStrings.JoinPrefixFirst` | internal/jq/builder.go:190 | a prefix on the first part is a prefix on the whole join |
| `GoStrings.TrimStart` | internal/jq/builder.go:63 | the first non-space index at or after the start (or the end) |
| `GoStrings.TrimStartSkipsSpace` | internal/jq/builder.go:63 | everything skipped is white space |
| `GoStrings.TrimStop` | internal/jq/builder.go:63 | the end once trailing white space is dropped, and the character before it is not a space |
| `GoStrings.TrimStopDropsSpace` | internal/jq/builder.go:63 | everything dropped is white space |
| `GoStrings.IsSpace` | internal/jq/builder.go:63 | the white-space set of Go's `unicode.IsSpace`, which `strings.TrimSpace` strips: tab, newline, vertical tab, form feed, carriage return, space, U+0085, U+00A0, U+1680, U+2000 to U+200A, U+2028, U+2029, U+202F, U+205F and U+3000 |
| `GoStrings.TrimSpace` | internal/jq/builder.go:63 | the result has no white space at either end and is no longer than the input |
| `GoStrings.TrimSpaceIsInfix` | internal/jq/builder.go:63 | the trim is a slice of the input with only white space before and after it |
| `GoStrings.TrimSpaceOfTrimmed` | internal/jq/builder.go:63 | an already trimmed string is its own trim |
| `GoStrings.TrimSpaceAfterSpace` | internal/jq/builder.go:63 | a single leading space is removed from a trimmed string |
| `GoStrings.NotInTrimSpace` | internal/jq/builder.go:66 | trimming introduces no character |
| `GoStrings.Indent` | internal/jq/builder.go:90-91 | `2 * n` characters, all spaces |
| `GoStrings.Less` | internal/jq/builder.go:167 | Go's `a < b` on strings: lexicographic by character, with a proper prefix before any longer string |
| `GoStrings.LessIrreflexive` | internal/jq/builder.go:167 | no string is less than itself |
| `GoStrings.LessAsymmetric` | internal/jq/builder.go:167 | `a < b` excludes `b < a` |
| `GoStrings.LessTransitive` | internal/jq/builder.go:167 | `<` is transitive |
| `GoStrings.LessConnected` | internal/jq/builder.go:167 | two different strings are ordered one way or the other |
| `ExpressionBuilder.Expression` | internal/jq/builder.go:174-200 | closed form of the filter: `"."` for no fields whatever `isArray` is; `"." + f` for one and `"{" + join(fields, ", ") + "}"` for more, each of these two behind `ArrayPrefix` exactly when `isArray` holds |
| `ExpressionBuilder.BuildExpressionFromFields` | internal/jq/builder.go:174-200 | `"."` for no fields; `"." + f` for one, behind the array prefix `ArrayPrefix` when `isArray` holds; `"{" + join(fields, ", ") + "}"` for more, behind the array prefix when `isArray` holds |
| `ExpressionBuilder.ArrayPrefixIffArray` | internal/jq/builder.go:196-199 | with two or more fields the filter starts with the array prefix if and only if `isArray` holds |
| `FieldOrder.HasBracedText` | internal/jq/builder.go:54-56 | the negation of the guard: a `{` and a `}` both occur, and the last `{` comes before the last `}` |
| `FieldOrder.BracedText` | internal/jq/builder.go:60 | the text strictly between the last `{` and the last `}`; it holds no `{` |
| `FieldOrder.EntryName` | internal/jq/builder.go:63-70 | the name read from one piece: its trim, cut before the first colon and trimmed again when it has a colon, otherwise the trim itself |
| `FieldOrder.EntryNameFacts` | internal/jq/builder.go:63-70 | every name read is trimmed and colon-free; a piece without a colon is read as its trim |
| `FieldOrder.EntryNameCut` | internal/jq/builder.go:65-67 | a piece whose trim has its first colon at `k` is read as the trim of what precedes it |
| `FieldOrder.MapNames` | internal/jq/builder.go:62-71 | one name per piece |
| `FieldOrder.MapNamesAt` | internal/jq/builder.go:62-71 | name `i` is read from piece `i` |
| `FieldOrder.FieldOrderOf` | internal/jq/builder.go:54-58 | the order is empty exactly when there is no `{` or no `}`, or the last `{` is not before the last `}` |
| `FieldOrder.ExtractFieldOrder` | internal/jq/builder.go:49-74 | the extractor returns `FieldOrderOf(expr)` |
| `FieldOrder.CollectNames` | internal/jq/builder.go:62-71 | the loop appends the name of each piece in order |
| `FieldOrder.FieldOrderShape` | internal/jq/builder.go:60-72 | one entry per comma-separated piece of the braced text, so one more than its commas; entry `i` is read from piece `i` |
| `FieldOrder.EntryNameOfPlain` | internal/jq/builder.go:63-70 | a plain field name is read back as itself, with or without the builder's leading space |
| `FieldOrder.LastBraces` | internal/jq/builder.go:54-60 | in `pre + "{" + body + "}"` with a brace-free body, the text between the last braces is `body` |
| `FieldOrder.BracedTextOfBuilt` | internal/jq/builder.go:187-194 | a built object construction has braced text, and it is the joined field list |
| `FieldOrder.SplitBuiltList` | internal/jq/builder.go:61 | splitting the joined field list at commas gives the fields, each but the first after a space |
| `FieldOrder.NamesOfBuiltList` | internal/jq/builder.go:62-71 | those pieces are read back as the fields |
| `FieldOrder.ExtractBuiltFields` | internal/jq/builder.go:61-72 | round trip with lines 186-199: for two or more plain fields (no `,` `:` `{` `}`, no surrounding white space) and either `isArray`, the extractor returns the builder's fields, in order |
| `FieldOrder.ExtractBuiltSmall` | internal/jq/builder.go:175-184 | for fewer than two plain fields the builder writes no braces, and the extractor returns nothing |
| `KeyOrder.Positions` | internal/jq/builder.go:142-145 | the position map holds exactly the listed names, each mapped to a position where it occurs |
| `KeyOrder.PositionsLast` | internal/jq/builder.go:143-144 | the recorded position is the name's last occurrence, because later entries overwrite earlier ones |
| `KeyOrder.PositionsInjective` | internal/jq/builder.go:142-145 | no two names share a position |
| `KeyOrder.Before` | internal/jq/builder.go:154-168 | the comparator: two listed keys by position, a listed key before an unlisted one, two unlisted keys by `<` |
| `KeyOrder.BeforeIrreflexive` | internal/jq/builder.go:154-168 | no key is ordered before itself |
| `KeyOrder.BeforeAsymmetric` | internal/jq/builder.go:154-168 | the comparator is asymmetric |
| `KeyOrder.BeforeTransitive` | internal/jq/builder.go:154-168 | the comparator is transitive |
| `KeyOrder.BeforeConnected` | internal/jq/builder.go:154-168 | two distinct keys are ordered one way or the other, because positions are never shared |
| `KeyOrder.SortedFirst` | internal/jq/builder.go:154-168 | the first key of a sorted sequence comes before every other key in it |
| `KeyOrder.SortedHeads` | internal/jq/builder.go:154-168 | two sorted arrangements of the same keys start with the same key |
| `KeyOrder.MultisetTail` | internal/jq/builder.go:154 | equal multisets with equal heads have equal tails |
| `KeyOrder.SortedUnique` | internal/jq/builder.go:154-168 | two sorted arrangements of the same keys are identical, so the result does not depend on the collection order |
| `KeyOrder.DistinctCount` | internal/jq/builder.go:149-151 | a repetition-free sequence counts each key at most once |
| `KeyOrder.RepeatCount` | internal/jq/builder.go:154 | a key at two positions is counted at least twice |
| `KeyOrder.DistinctPermutation` | internal/jq/builder.go:154 | rearranging a repetition-free sequence keeps it repetition-free |
| `KeyOrder.SortKeys` | internal/jq/builder.go:154-168 | the in-place sort leaves the keys sorted by the comparator and is a permutation |
| `KeyOrder.Insert` | internal/jq/builder.go:154-168 | one insertion step extends the sorted prefix by one, keeping a permutation |
| `KeyOrder.LeastExists` | internal/jq/builder.go:154-168 | a non-empty key set has a key ordered before all the others |
| `KeyOrder.SortedSetFacts` | internal/jq/builder.go:154-168 | the reference arrangement holds each key of the set once, in comparator order |
| `KeyOrder.ConsLeast` | internal/jq/builder.go:154-168 | the least key followed by a sorted arrangement of the rest is a sorted arrangement of all |
| `KeyOrder.OrderedKeys` | internal/jq/builder.go:140-171 | the reference arrangement of a key set: the least key under the comparator with the positions of the field order, followed by the arrangement of the remaining keys |
| `KeyOrder.OrderedKeysCount` | internal/jq/builder.go:147-154 | permutation: the result holds each key of the map exactly once and nothing else |
| `KeyOrder.OrderedKeysMembers` | internal/jq/builder.go:147-151 | the result's keys are exactly the map's keys |
| `KeyOrder.OrderedKeysOrder` | internal/jq/builder.go:154-168 | listed keys before unlisted ones; listed keys by their last position in the field order; unlisted keys in ascending order |
| `KeyOrder.SortedOrderFacts` | internal/jq/builder.go:158-167 | comparator order means the three ordering facts above |
| `KeyOrder.OrderKeys` | internal/jq/builder.go:140-171 | `orderKeys` returns the reference arrangement of the map's keys, whatever order they were collected in |
| `KeyOrder.CollectKeys` | internal/jq/builder.go:147-151 | every key of the map exactly once, with no repetition |
| `OrderedJson.Render` | internal/jq/builder.go:89-137 | the text for a value at depth `d`: an object is `"{\n"`, its entries in `OrderedKeys` order, `"\n"`, the indentation and `"}"`; an array likewise with `[` and `]` in element order; anything else is the scalar encoder's result; the first error met is the result when any part fails |
| `OrderedJson.RenderEntries` | internal/jq/builder.go:100-109 | the first `n` entries of an object in the given key order, each as its head and its value rendered one level deeper with the same field order, stopping at the first error |
| `OrderedJson.RenderItems` | internal/jq/builder.go:116-123 | the first `n` elements of an array in order, each as its head and the element rendered one level deeper, stopping at the first error |
| `OrderedJson.EntryHead` | internal/jq/builder.go:101-105 | what precedes entry `i`: `",\n"` unless it is the first, the indentation of depth `d + 1`, the quoted key and `": "` |
| `OrderedJson.ItemHead` | internal/jq/builder.go:117-120 | what precedes element `i`: `",\n"` unless it is the first, and the indentation of depth `d + 1` |
| `OrderedJson.Buffer.constructor` | internal/jq/builder.go:82 | a new buffer is empty |
| `OrderedJson.Buffer.WriteString` | internal/jq/builder.go:95 | the text is appended, and nothing else changes |
| `OrderedJson.WriteOrderedJson` | internal/jq/builder.go:89-138 | on success it returns no error and appends exactly `Render(v, fieldOrder, d)`; on failure it returns that rendering's error unchanged |
| `OrderedJson.WriteObject` | internal/jq/builder.go:94-113 | the same for objects: `"{\n"`, the entries and the closing line, or the first entry's error |
| `OrderedJson.WriteEntries` | internal/jq/builder.go:100-109 | the loop over the ordered keys appends all entries, or stops at the first that fails with its error |
| `OrderedJson.WriteEntry` | internal/jq/builder.go:101-108 | one entry: separator, indentation, quoted key and `": "`, then the value one level deeper with the same field order |
| `OrderedJson.WriteEntryHead` | internal/jq/builder.go:101-105 | appends `",\n"` for every entry but the first, then the indentation, the quoted key and `": "` |
| `OrderedJson.WriteArray` | internal/jq/builder.go:114-128 | the same for arrays: `"[\n"`, the elements in order and the closing line, or the first element's error |
| `OrderedJson.WriteItems` | internal/jq/builder.go:116-123 | the loop over the elements appends all of them, or stops at the first that fails with its error |
| `OrderedJson.WriteItem` | internal/jq/builder.go:117-122 | one element: separator, indentation, then the element one level deeper |
| `OrderedJson.WriteItemHead` | internal/jq/builder.go:117-120 | appends `",\n"` for every element but the first, then the indentation |
| `OrderedJson.EntryErrorPersists` | internal/jq/builder.go:106-108 | once an entry fails, the object's rendering fails with that same error |
| `OrderedJson.ItemErrorPersists` | internal/jq/builder.go:120-122 | once an element fails, the array's rendering fails with that same error |
| `OrderedJson.RenderOkIff` | internal/jq/builder.go:89-137 | rendering succeeds if and only if every scalar inside the value encodes, whatever the field order and depth |
| `OrderedJson.EntriesOkIff` | internal/jq/builder.go:100-109 | the entries succeed if and only if every value among them is encodable |
| `OrderedJson.ItemsOkIff` | internal/jq/builder.go:116-123 | the elements succeed if and only if every one of them is encodable |
| `OrderedJson.RenderErrorFromScalar` | internal/jq/builder.go:129-134 | a failed rendering reports, unchanged, the encoder's error for some scalar inside the value |
| `OrderedJson.EntriesErrorFrom` | internal/jq/builder.go:106-108 | a failed entry list reports the error of a scalar inside one of its values |
| `OrderedJson.ItemsErrorFrom` | internal/jq/builder.go:120-122 | a failed element list reports the error of a scalar inside one of its elements |
| `OrderedJson.EntriesJoin` | internal/jq/builder.go:100-109 | when the values render as `values`, the entries are their lines (indentation, quoted key, `": "`, text) joined by `",\n"` |
| `OrderedJson.EntryLinesSnoc` | internal/jq/builder.go:100-109 | one more key adds one more entry line at the end |
| `OrderedJson.ItemsJoin` | internal/jq/builder.go:116-123 | when the elements render as `values`, the elements are their indented texts joined by `",\n"` |
| `OrderedJson.JoinAppend` | internal/jq/builder.go:101-105 | writing the separator and the next part after a join is the join with that part added |
| `OrderedJson.JoinAppendMore` | internal/jq/builder.go:101-102 | the same when at least one part precedes |
| `OrderedJson.ObjectLayout` | internal/jq/builder.go:94-113 | an object whose values render as `values`: `"{\n"`, then its entries in `orderKeys` order joined by `",\n"`, then `"\n" + indent(d) + "}"`; values are rendered at depth `d + 1` with the same field order |
| `OrderedJson.ArrayLayout` | internal/jq/builder.go:114-128 | an array whose elements render as `values`: `"[\n"`, then the indented elements in order joined by `",\n"`, then `"\n" + indent(d) + "]"` |
| `OrderedJson.EmptyContainers` | internal/jq/builder.go:95-128 | an empty object is written `"{\n\n" + indent(d) + "}"` and an empty array `"[\n\n" + indent(d) + "]"` |
| `OrderedJson.MarshalOrdered` | internal/jq/builder.go:77-87 | with no field order, the library's indented encoding; otherwise the ordered rendering from depth 0, or its error |

## Left out

- `Execute` (internal/jq/builder.go:15-46) is not modelled. Its steps are `gojq.Parse`, `json.Unmarshal`, `query.Run` over the foreign jq engine, then wrapping a single result or a list. The engine's semantics are not part of this model. The fields it passes on are `FieldOrderOf(expression)`, and `MarshalOrdered` covers what it does with them.
- `json.Marshal`, `%q` and `json.MarshalIndent` are parameters (`Encoders`), not modelled encoders. No result depends on their exact output.
- Strings are sequences of characters. Go's `LastIndex`, `Index` and slicing count bytes. For the one-byte characters `{`, `}`, `,` and `:` the two positions pick out the same text. Go's `<` compares bytes, which for valid UTF-8 gives the same order as comparing code points.
- `KeyOrder.SortKeys`: `sort.Slice` is Go's own sorting algorithm. The model sorts with an insertion sort instead. Because the comparator is a strict total order on distinct keys (`KeyOrder.SortedUnique`), every correct sort gives the same result.
- `KeyOrder.CollectKeys`: Go's map iteration order is unspecified. The model picks keys in an arbitrary order, and `KeyOrder.OrderKeys` is proved not to depend on that order.
- `OrderedJson.WriteOrderedJson`, `OrderedJson.WriteObject`, `OrderedJson.WriteEntries`, `OrderedJson.WriteEntry`, `OrderedJson.WriteArray`, `OrderedJson.WriteItems`, `OrderedJson.WriteItem`: on an error the buffer holds a partial text. The contract says only that the first error is returned; the partial contents are not stated, and `marshalOrdered` discards them.
- `OrderedJson.Json`: the printed values are the query engine's results, and Go numbers among them are `float64`, which can also be NaN or an infinity. The model's `Num` holds a `real`, and no `real` represents those values. `Num` only ever reaches the abstract scalar encoder, so such a number shows up as an `enc.marshal` failure on some `Num`; that is how `json.Marshal` refuses them at builder.go:130-133, and `OrderedJson.RenderErrorFromScalar` covers it. Floating-point formatting belongs to the encoder.
- The `default` branch of `writeOrderedJSON` accepts any Go value. The model's `Json` has only the six decoded JSON kinds.
- `internal/web/handler.go` and `main.go` are not part of this model: HTTP plumbing, table rendering and start-up. The interactive tree editing and expression synthesis happen client-side, in code that is not part of this model.
