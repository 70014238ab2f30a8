# Deterministic computation traces, modelled in Dafny

The Go package `trace` records a computation as a trace. A trace holds:

- a name;
- a set of named input values;
- an ordered list of steps, each an operation with its inputs, output, timestamp, optional description and metadata;
- a final result.

Once the result is set the trace is completed. From then on every mutating method fails with an error and changes nothing.

The identifier of a trace comes from its content. It is the name, a dash, and the hex of the first 8 bytes of a SHA-256 digest. The digest covers the name and, in ascending key order, each input key followed by its value's display text. `Trace.String` renders the trace as text: a header, the inputs in ascending key order, the numbered steps, and the result.

The project is organised by concern:

- `wrappers.dfy` (`Wrappers`): `Option`, and `Outcome` for a Go `error` that is either nil or a message.
- `ordering.dfy` (`Ordering`): Go's string order; `sort.Strings` as a function on sequences; the proof that sorting any enumeration of a key set gives one canonical sequence (`SortedSeq`); key collection in the map's arbitrary iteration order.
- `text.dfy` (`Text`): the decimal (`%d`, and `%v` of an int) and lower-case hex (`%x`) renderings, each with its parser and round-trip lemma.
- `values.dfy` (`Values`): `Value`, `NewValue` and `Value.String`.
- `steps.dfy` (`Steps`): `Step` and its copy-and-return modifiers.
- `lifecycle.dfy` (`Lifecycle`): the trace state and the three mutating calls as a pure state machine, with lemmas over every sequence of calls.
- `identifiers.dfy` (`Identifiers`): `generateID`.
- `rendering.dfy` (`Rendering`): the text `Trace.String` produces, as a function of the state, and how each call changes it.
- `traces.dfy` (`Traces`): the `Trace` class, whose methods update its fields in place, and `copyInputs`.
- `scenarios.dfy` (`Scenarios`): client code driving a `Trace` through a typical life.

Go map iteration order is unspecified. The model makes it nondeterministic: a loop over a map picks any remaining key. `GenerateID` and `Trace.String` are proved to give the same result for every iteration order.

## Model

| member | source | states |
|---|---|---|
| Values.TypeName | trace.go:31 | `%T` names the payload's dynamic type: "int", "string", "bool", "<nil>" for a nil interface, or another payload's own type name |
| Values.NewValue | trace.go:28-34 | the payload is kept as given and tagged with its Go type name ("int", "string", "bool", "<nil>" for nil, or the type of another payload) |
| Values.Display | trace.go:36-39 | the display text is the payload's `%v` text: an int's is its canonical decimal text, which parses back to the int; a string is itself; a bool is "true"/"false"; a nil is "<nil>"; another payload shows its own display text |
| Values.IntAndTextCanDisplayAlike | trace.go:36-39 | the int 10 and the string "10" are different values with the same display text |
| Steps.NewStep | trace.go:52-61 | the step has the given operation, inputs and output, the clock reading as timestamp, no description and empty metadata |
| Steps.WithDescription | trace.go:63-67 | the copy has the new description and is otherwise identical to the original |
| Steps.WithMetadata | trace.go:69-76 | the copy maps the key to the value, keeps every other key and value, and changes no other field |
| Steps.StepString | trace.go:78-85 | the text starts "op: output"; it is exactly that when the description is empty, and otherwise ends with " (description)" |
| Lifecycle.Initial | trace.go:101-113 | a new trace is consistent and open, with no steps and empty metadata |
| Lifecycle.Apply | trace.go:115-136 | a call fails exactly when the trace is completed, and then changes nothing; only a successful SetResult completes the trace or changes the result; id, name, inputs and start time never change; steps only grow; result, end time and completed flag stay in agreement |
| Lifecycle.RunCalls | trace.go:115-154 | a sequence of calls yields one outcome per call |
| Lifecycle.CompletedIsTerminal | trace.go:117-154 | on a completed trace every later call fails with its own error message and the state stays the same |
| Lifecycle.CompletionIsMonotonic | trace.go:125-141 | after any calls, the trace is completed exactly when it started completed or one of the calls was a SetResult |
| Lifecycle.OnlyFirstSetResultSucceeds | trace.go:125-136 | on an open trace, the calls up to the first SetResult succeed, every later call fails, and the first SetResult's value is the final result |
| Lifecycle.StepsKeepCallOrder | trace.go:115-123 | while no SetResult intervenes every call succeeds, and the steps are the old ones followed by the added ones in call order |
| Lifecycle.RunPreservesRecord | trace.go:101-154 | no sequence of calls changes the id, name, inputs or start time; the old steps stay a prefix; consistency is preserved |
| Ordering.LessIsLexicographic | trace.go:165 | `Ordering.Less`, Go's `<` on strings that `sort.Strings` sorts by, is exactly lexicographic order: `a` is a proper prefix of `b`, or at the first index where they differ `a` holds the smaller element |
| Ordering.LessIrreflexive | trace.go:214 | no string is before itself in Go's string order |
| Ordering.LessTransitive | trace.go:214 | Go's string order is transitive |
| Ordering.LessTotal | trace.go:214 | of two different strings, one is before the other |
| Ordering.Sort | trace.go:165 | `sort.Strings` leaves the same strings (as a multiset) in ascending order |
| Ordering.AscendingUnique | trace.go:165 | two ascending arrangements of the same strings are equal, so the sorted result does not depend on the algorithm |
| Ordering.SortOrderIndependent | trace.go:210-214 | two enumerations of the same keys sort to the same sequence |
| Ordering.SortedSeq | trace.go:209-214 | the canonical key sequence is strictly ascending and holds each key of the set exactly once |
| Ordering.SortIsCanonical | trace.go:160-165 | sorting any enumeration of a map's keys yields the canonical key sequence |
| Ordering.CollectKeys | trace.go:210-213 | the collected keys are exactly the map's keys, each once, in whatever order the map yields them |
| Text.NatString | trace.go:172 | the decimal text of a number is non-empty, all digits, and has no leading zero (only 0 is written "0") |
| Text.NatStringRoundTrip | trace.go:172 | parsing the decimal text of a number gives the number back |
| Text.IntString | trace.go:38 | the text of an int is well formed, parses back to the int, starts with '-' exactly when the int is negative, and has no leading zero ("0" is the only text starting with '0', and no digit run after '-' starts with '0') |
| Text.Hex | trace.go:223 | `%x` gives two lower-case hex digits per byte |
| Text.HexRoundTrip | trace.go:223 | reading the hex text back gives the bytes |
| Identifiers.Entries | trace.go:191-194 | a nil input map is read as empty; any other map as itself |
| Identifiers.IdStream | trace.go:206-220 | the text fed to the digest starts with the name, and is just the name when there are no inputs |
| Identifiers.IdStreamInKeyOrder | trace.go:209-220 | the text fed to the digest is the name followed by the pairs for a strictly ascending enumeration of the input keys, each key once |
| Identifiers.TraceId | trace.go:202-224 | the id is the name, a dash and 16 hex digits that read back as the first 8 bytes of the digest of the fed text |
| Identifiers.FormatId | trace.go:223 | the id is the name, a dash and 16 hex digits that read back as the first 8 bytes of the digest |
| Identifiers.GenerateID | trace.go:202-224 | whatever order the map yields its keys in, the id is the one derived from the name and the input entries |
| Identifiers.WritePairs | trace.go:216-220 | the hash loop feeds, after what was written before, each key in order followed by its value's display text |
| Identifiers.PairsTextExtend | trace.go:217-220 | one more loop round appends one key and its display text |
| Identifiers.PairsTextDependsOnDisplayOnly | trace.go:217-220 | only keys and display texts enter the hashed text |
| Identifiers.IdDependsOnDisplayTextOnly | trace.go:202-224 | inputs with the same keys and display texts give the same id for every digest |
| Identifiers.DistinctNamesGiveDistinctIds | trace.go:223 | traces with different names never share an id, whatever the digest |
| Identifiers.TypeTagIsNotHashed | trace.go:219 | an int input 10 and a string input "10" under the same key give the same id |
| Identifiers.SortedSingleton | trace.go:214 | a single key sorts to itself alone |
| Identifiers.KeyTextBoundaryIsNotHashed | trace.go:217-220 | {"a": "bc"} and {"ab": "c"} give the same id for every digest, because nothing separates a key from its value text |
| Rendering.HeaderFormat | trace.go:158 | the header is "Trace: ", the name, " (ID: ", the id and ")", ending in a newline; it is one line when the name and the id hold no newline; the id begins with the name, so a newline in the name appears in the header twice |
| Rendering.InputLineFormat | trace.go:167 | an input line is two spaces, the key, ": " and the display text, ending in a newline; one line when the key and the display text hold no newline |
| Rendering.InputLinesOfPrefix | trace.go:166-168 | one more key adds one more input line, for that key |
| Rendering.StepLineFormat | trace.go:172 | a step line is two spaces, the number in decimal digits that read back as the number, ". " and the step's text, ending in a newline; one line when the step's text holds no newline |
| Rendering.ResultLineFormat | trace.go:176 | the result line is "Result: " and the display text, ending in a newline; one line when the display text holds no newline |
| Rendering.StepsSection | trace.go:169-174 | the "Steps:" section is empty exactly when there are no steps, and otherwise starts with "Steps:\n" |
| Rendering.ResultSection | trace.go:175-177 | the "Result:" line is present exactly when a result is set, and shows its display text |
| Rendering.Render | trace.go:156-179 | the rendering starts with the header line and "Inputs:\n" |
| Rendering.InputsListedInKeyOrder | trace.go:160-168 | the inputs are rendered once each, in strictly ascending key order |
| Rendering.StepLinesExtend | trace.go:171-173 | one more step adds one line, numbered with the new step count |
| Rendering.StepLinesOfPrefix | trace.go:171-173 | the step at index i is on the line numbered i + 1 |
| Rendering.StepsSectionExtend | trace.go:169-174 | adding a step appends its line, opening the "Steps:" section for the first step |
| Rendering.RenderAfterCall | trace.go:115-179 | an added step appends its numbered line; a set result appends the "Result:" line; metadata and failed calls leave the rendering unchanged |
| Rendering.RenderAfterAddStep | trace.go:115-123 | on an open trace, AddStep appends the new step's numbered line to the rendering, after "Steps:\n" when it is the first step |
| Rendering.RenderAfterSetResult | trace.go:125-136 | on an open trace, SetResult appends exactly the "Result:" line to the rendering |
| Rendering.EmptyTraceRendering | trace.go:156-179 | a trace with no inputs, no steps and result 0 renders as its header, "Inputs:" and "Result: 0" |
| Traces.CopyInputs | trace.go:190-200 | a nil map gives an empty map; any other map gives a map with the same entries |
| Traces.Trace.constructor | trace.go:101-113 | a new trace is consistent and open, with the derived id, a copy of the inputs, no steps, no result, no end time, empty metadata, and the clock reading as start time |
| Traces.Trace.AddStep | trace.go:115-123 | on an open trace the step is appended and the call succeeds; on a completed trace it fails with "cannot add step to completed trace" and nothing changes; the step agrees with `Lifecycle.Apply`; a valid trace stays valid |
| Traces.Trace.SetResult | trace.go:125-136 | on an open trace the result, end time and completed flag are set together; on a completed trace it fails with "cannot set result on completed trace" and the first result stays; a valid trace stays valid |
| Traces.Trace.IsCompleted | trace.go:138-141 | on a valid trace, true exactly when a result and an end time are recorded |
| Traces.Trace.WithMetadata | trace.go:143-154 | on an open trace the key is mapped to the value; on a completed trace it fails with "cannot add metadata to completed trace" and nothing changes; a valid trace stays valid |
| Traces.Trace.String | trace.go:156-179 | the text is the rendering of the current state, whatever order the inputs map yields its keys in |
| Traces.AppendInputLines | trace.go:166-168 | the input loop appends one line per key, in the given order |
| Traces.AppendStepLines | trace.go:171-173 | the step loop appends the step lines numbered from 1 |

## Left out

- `Trace.ToJSON` (trace.go:181-188) and the JSON field tags are not modelled. The model has no JSON encoder. The `omitempty` behaviour of `description`, `result`, `end_time` and `metadata` is left out with it.
- SHA-256 and the UTF-8 encoding of the hashed text are not modelled. Both are inside the parameter `sha256`, a function from the hashed text to a 32-byte digest. Writing chunks to a Go hasher digests their concatenation, so the model digests the concatenated text once.
- `time.Now().UTC()` is not called. Clock readings are a `now: Timestamp` parameter of `Steps.NewStep`, `Traces.Trace.constructor` and `Traces.Trace.SetResult`.
- Payloads other than int, string, bool and nil are not modelled. This includes floats, structs and pointers. Each one is an `OtherDatum` that carries its `%T` and `%v` texts as given, fixed when the value is built. Go computes the `%v` text each time the value is displayed. A pointer, map or slice payload changed after `NewTrace` would therefore render differently in `String` from the text hashed into the id, and the model does not capture this.
- Traces.CopyInputs: Go's `copyInputs` copies the map one level deep, although its doc comment (trace.go:190) calls it a deep copy. A pointer, map or slice payload stays shared with the caller. The model's values are immutable, so this sharing is not captured.
- Values.Display: Go's `int` is 64 bits, but the model uses unbounded integers. Formatting is the same for every 64-bit value.
- Steps.NewStep, Steps.WithMetadata: Go shares the `Inputs` map of a step with the caller, and also the `Metadata` map between a step and the copies `WithMetadata` returns. A later write through one alias is visible through the others. The model gives steps value semantics, so this aliasing is not captured.
- A nil step or trace metadata map reads the same as an empty one, so the two are not distinguished. After `WithMetadata` (trace.go:71-73, 149-151) the map is never nil, and the model keeps the same entries.
- The fields of a Go `Trace` are exported, so callers can write to them directly. The model covers only traces changed through their methods. `Valid` is guaranteed only for those traces.
- Ordering.Sort: `sort.Strings` uses its own algorithm. The model uses insertion sort. `Ordering.AscendingUnique` shows that every correct sort gives the same result.
- Go compares strings byte-wise, and a Go string may hold any bytes. The model's strings are sequences of characters and compares them by code point. On valid UTF-8 the two orders agree.
- Names, keys, operations, descriptions and display texts that are not valid UTF-8 cannot be expressed in the model. Byte order and code-point order can differ for such strings, and the model says nothing about them.
- Concurrent use of one `Trace` is not modelled. The Go type has no locking.
