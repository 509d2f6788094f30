# Grok matching and typed extraction, modelled in Dafny

This project models the matching layer of the Go grok library (`grok.go`).
A grok pattern is first denormalized into a plain regular expression. It is
then compiled with three regular-expression engines: rure-go, Go's `regexp`
and cre2-go. Running it against text fills a map from field name to the text
that field's capture group matched. `RunWithTypeInfo` then converts each
field to its declared type (int64, float64 or bool) and records the fields
whose conversion failed.

Modules:

- `Wrappers` (`wrappers.dfy`): `Option` and `Result`.
- `GoText` (`gotext.dfy`): Go text as byte sequences, and `strings.TrimSpace`.
- `Engines` (`engines.dfy`): the engines as opaque values, their compile functions, Go errors, and the agreement the engines promise.
- `TypeCast` (`typecast.dfy`): declared field types, typed values, and the `cast` converters as opaque functions.
- `Grok` (`grok.dfy`): the `GrokRegexp` class, the names table, `CompileGrokRegexp`, the three `Run` methods and `RunWithTypeInfo`.
- `GrokProperties` (`grok_properties.dfy`): lemmas over the specification functions the methods are proved to compute.

A Go `string` and a `[]byte` are both `seq<Byte>`. Converting one into the
other is the identity, and Go's `""` is `[]`. `GrokRegexp` is a class whose
fields are `const`, because nothing in the source changes them after
construction. Each loop over a Go map picks its next key with `:|`. This
covers every iteration order Go may choose.

Each Run method is proved to return exactly a specification function
(`StdResult`, `Re2Result`, `RustResult`, `TypedResult`). The lemmas in
`GrokProperties` state what those results mean.

Two choices the code makes, which the model keeps:

- A failed int, float or bool conversion stores the converter's returned value, not the raw string. That value is the zero value of the type, which is what the tests expect (`grok_test.go:126-135`); the TODO at `grok.go:182-183` marks the choice.
- The names table keeps the last index of a capture name that occurs twice and raises no error (`grok.go:202-207`). Rejecting duplicate fields, if it happens at all, belongs to the denormalizer, which is not part of this model.

## Model

| member | source | states |
|---|---|---|
| `GoText.TrimSpace` | grok.go:145 | the result is an infix of the input; only white space was removed on either side; the result neither starts nor ends with white space |
| `GoText.TrimSpaceIdempotent` | grok.go:145 | trimming an already trimmed value changes nothing |
| `Grok.BuildNames` | grok.go:202-207 | the table's keys are exactly the non-empty capture names; each maps to an index holding that name, and no later index holds it (the last duplicate wins) |
| `Grok.CompileGrokRegexp` | grok.go:192-225 | fails exactly when denormalization or one of the three compilations fails, with that step's error; on success holds the pattern, the three engines and the names table of rure-go's capture names; when the engines agree, every Run method can run |
| `Grok.GrokRegexp.constructor` | grok.go:218-224 | the struct literal: each field holds the value given |
| `Grok.GrokRegexp.CollectSubmatches` | grok.go:45-51 | the loop over `names` fills exactly the submatch map, skipping the empty name only in the string branch |
| `Grok.GrokRegexp.RunStd` | grok.go:33-68 | returns exactly StdResult: not complied, no match, the submatch map, or an empty map for other content |
| `Grok.GrokRegexp.RunRe2` | grok.go:70-107 | returns exactly Re2Result, built from the first match only |
| `Grok.GrokRegexp.CollectCaptures` | grok.go:141-153 | the loop over `names` fills exactly the capture map: a slice of the input for a group that took part, the empty string for one that did not |
| `Grok.GrokRegexp.RunRust` | grok.go:109-156 | returns exactly RustResult for both the byte-slice and string branches |
| `Grok.GrokRegexp.CastOne` | grok.go:167-181 | the type switch for one field yields the declared conversion, the raw text for a string or undeclared type, and a failure for an unknown tag |
| `Grok.GrokRegexp.CastAll` | grok.go:165-188 | the loop over the extracted fields builds exactly the value map and the failure map |
| `Grok.GrokRegexp.RunWithTypeInfo` | grok.go:158-190 | returns exactly TypedResult: RunRust's error, or the typed maps of RunRust's fields |
| `GrokProperties.NamesTableUnique` | grok.go:202-207 | two tables built from the same capture names are equal |
| `GrokProperties.NamesTableFits` | grok.go:202-207 | a names table never has the empty name as a key, and its indexes fit every submatch slice with one entry per capture name |
| `GrokProperties.CompileFailsAtFirstStep` | grok.go:193-217 | denormalization, rure-go, Go's regexp and cre2-go are tried in that order; the first failure's error is the result |
| `GrokProperties.StdOutcomes` | grok.go:33-68 | no engine gives "not complied"; other content gives an empty map; an empty match gives "no match"; otherwise the keys are the table's names (without the empty name for a string) and each value is its group's text, trimmed exactly when asked |
| `GrokProperties.Re2Outcomes` | grok.go:70-107 | as for RunStd, over cre2-go's first match |
| `GrokProperties.RustOutcomes` | grok.go:109-156 | on a match the keys are the non-empty names; a group that took part gives the input slice it spans, within bounds and trimmed exactly when asked; a group that did not gives the empty string |
| `GrokProperties.RustTrimToggle` | grok.go:124-151 | with trimming every value is trimmed, and equals TrimSpace of the untrimmed value |
| `GrokProperties.BranchesAgree` | grok.go:39-65 | when the empty name is not a key, the byte-slice and string branches of all three Run methods give identical results |
| `GrokProperties.TypedShape` | grok.go:158-189 | RunRust's error is returned unchanged; otherwise the value map has exactly RunRust's keys, and the failure map's keys are among them, each holding the raw text |
| `GrokProperties.TypedUntyped` | grok.go:169-184 | a field with no declared type, or declared a string, keeps its raw text and is never a failure |
| `GrokProperties.TypedFailedCast` | grok.go:170-187 | a failed int, float or bool conversion stores the zero value of that type and records the raw text as a failure |
| `GrokProperties.TypedConverted` | grok.go:170-187 | a declared int, float or bool whose conversion succeeds stores the converted value and is not a failure |
| `GrokProperties.CastFailIff` | grok.go:169-187 | a field is a failure exactly when it has a declared type that is unknown, or is int, float or bool and its converter reported an error |
| `GrokProperties.TypedUnknownTag` | grok.go:177-187 | an unsupported type tag keeps the raw text and records it as a failure |

## Left out

- The three regular-expression engines (grok.go:197-217). Their compilation, search and capture names are opaque functions inside `Engines` values. Their behaviour is not modelled.
- rure-go's `Captures.Group` (called at grok.go:124 and grok.go:143) is the opaque lookup `Engines.Group`: a group's span, or None for a group that took no part or an index with no group.
- The engines' agreement. Go panics when a names index lies past a submatch slice, or a span lies past the text. The Run methods require, through `Ready`, that neither happens. `Engines.Consistent` is a stronger condition that rules both out: the engines report exactly as many groups as rure-go has capture names, and rure-go's spans lie within the text.
- `DenormalizePattern` and its pattern store are not part of this model. The store is fixed inside a `denormalize` function that is passed in, and that function is opaque. The `valid`, `normal` and `symbolic` regexes (grok.go:16-20) belong to the denormalizer and are left out with it.
- `cast.ToInt64E`, `cast.ToFloat64E` and `cast.ToBoolE`. These are opaque functions passed in as `Casts`. Float values are carried as their 64-bit patterns, with no floating-point semantics.
- The text of the "unsupported data type" error. It only marks a field as failed and is never returned.
- `GoText.TrimSpace`: removes only the six ASCII white-space bytes, not the Unicode white space (U+0085, U+00A0 and others) that Go's `strings.TrimSpace` also removes.
- A `GrokRegexp` whose `grokPattern` is nil. `RunWithTypeInfo` panics on it as soon as RunRust returns a field (grok.go:166-169), so the model's `grokPattern` is always present. The engines, which the code checks for nil, are `Option`s.
- Map iteration order. It is not observable in the results, which are maps.
