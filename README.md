# Mode-aware build specification serialiser

This project models the serialisation layer of a build-definition tool. A
build target is declared through a `BuildSpec` builder. The builder holds
the target's key and its `in`, `out`, `inout` and `ready` field groups. It
may also hold a command and an external runtime path. A `Schema`
conversion context turns the builder into a plain graph document.

The context carries an ambient mode: `Input`, `Output` or `Unknown`. A
value that knows how to convert itself reads this mode to choose its form.
A file reference, for example, serialises as a consumed path under Input
and as a produced artifact under Output. The spec's conversion routine
switches to Input for the `in` group. It switches to Output for `out`,
`inout`, `ready` and the command. It skips falsy entries and drops an unset
command and runtime. At the end it restores the caller's mode.

The model has four modules:

- `Values` (values.dfy): the value type and JavaScript truthiness. Plain
  objects are ordered records, with property assignment (`Put`) and object
  spread (`Merge`) and their laws.
- `Semantics` (semantics.dfy): what conversion produces, as pure functions
  of the value and the mode. These are `Converted`, `CapToSchema`,
  `ConvertGroup` and `SpecToSchema`. The module also holds the lemmas that
  state the conversion properties.
- `Conversion` (conversion.dfy): the `Schema` class with its mutable mode
  and registries, and the static root conversion. It also holds the
  imperative `[TO_SCHEMA]` routine with its per-group loop. Each method is
  proved to compute the matching `Semantics` function and to restore the
  mode. The routine sits in this module because `convert` and the routine
  call each other, and Dafny modules cannot import each other in a cycle.
- `Spec` (spec.dfy): the `BuildSpec` class. Its fluent methods update the
  private fields in place and return the same object. Its `ToSchema` runs
  the routine on the current fields.

Capability-bearing values form the `Capability` datatype. `Spec` is a
nested build specification. `Opaque` is any other participant, such as a
command, whose form depends only on `isInputMode` / `isOutputMode`. A probe
that records its mode is an `Opaque` value with three distinct answers.

Field groups must have distinct property names (`Distinct`). This holds for
every JavaScript object, so `BuildSpec` keeps it as its `Valid()`
invariant.

The model follows the code as written in three places a reader might not
expect:

- The command is converted at spec.ts:139, before the mode is restored at
  spec.ts:144. So it is always serialised under Output, not under the
  caller's mode (`CommandSeesOutput`). As a result, a spec's conversion
  does not depend on the caller's mode at all.
- `withMode` overwrites the mode whatever it was. Its only check,
  `assert(mode == SchemaMode.Unknown)` at schema.ts:50, is commented out.
  As written it tests the argument, not the current mode.
- `in` stores its whole argument under the one name `"inp"`; see Findings.

## Model

| member | source | states |
|---|---|---|
| `Values.HasSchema` | packages/schema/src/schema.ts:60-62 | only a truthy value can carry the conversion capability |
| `Values.Put` | packages/schema/src/spec.ts:114-117 | assigning `o[k] = v` makes `k` a property holding `v` and leaves every other property and its value alone. A new name goes at the end. Objects stay duplicate-free |
| `Values.PutInPlace` | packages/schema/src/spec.ts:56-68 | assigning to a name the object already has keeps its position: same length, same order, only that entry's value changes |
| `Values.MergeInPlace` | packages/schema/src/spec.ts:56-68 | in `{ ...a, ...b }` every property of `a` keeps its position; a property of `b` overrides a value in place or comes after `a`'s properties |
| `Values.MergeKeys` | packages/schema/src/spec.ts:56 | the properties of `{ ...a, ...b }` are exactly those of `a` and those of `b` |
| `Values.MergeLastWriteWins` | packages/schema/src/spec.ts:56-68 | in a spread, a property of the later object overrides the same property of the earlier one; other properties keep their earlier value |
| `Values.MergeDistinct` | packages/schema/src/spec.ts:68 | spreading into an object yields an object with no property name twice |
| `Semantics.GroupConversion` | packages/schema/src/spec.ts:114-135 | a converted field group has exactly the truthy entries of the input group, each mapped to its conversion under the group's mode. Falsy entries are absent, not present with a falsy value |
| `Semantics.SpecShape` | packages/schema/src/spec.ts:96-147 | a converted spec always has `key`, `inp`, `out`, `inout` and `ready`. Each group property holds an object: the converted group, and the empty object `{}` for `ready` when the spec has none. It has `command` iff a command is set, converted under Output. It has `runtime` iff the runtime path is truthy, holding that path. It has no other property |
| `Semantics.ProbesSeeGroupMode` | packages/schema/src/spec.ts:113-136 | an entry of `in` is converted under Input. Entries of `out`, `inout` and `ready` are converted under Output. This holds whatever mode the spec itself is converted in |
| `Semantics.CommandSeesOutput` | packages/schema/src/spec.ts:138-144 | the command is converted before the mode is restored, so it sees Output even when the caller is in another mode |
| `Semantics.SparseOmission` | packages/schema/src/spec.ts:114-117 | the group `{a: 0, b: "", c: "x"}` converts to `{c: "x"}` |
| `Semantics.EndToEnd` | packages/schema/src/spec.ts:96-147 | a spec with key `["build","foo"]`, `in = {src: "main.x"}`, `out = {bin: "main.out"}` and nothing else converts to `{key, inp: {src}, out: {bin}, inout: {}, ready: {}}`, with no `command` or `runtime`, in any mode |
| `Conversion.Schema.constructor` | packages/schema/src/schema.ts:8-14 | a fresh context is in mode Unknown with four empty registries and no root |
| `Conversion.Schema.IsInputMode` | packages/schema/src/schema.ts:41-43 | holds iff the mode is Input, and never together with `isOutputMode` |
| `Semantics.OpaqueAnswersByMode` | packages/schema/src/schema.ts:37-43 | a participant that answers by `isInputMode` / `isOutputMode`, given three different answers, gives its Output answer exactly in Output mode, its Input answer exactly in Input mode and the third exactly in Unknown mode |
| `Conversion.Schema.WithMode` | packages/schema/src/schema.ts:49-53 | sets the mode to the argument whatever it was before, changes nothing else and returns the same context |
| `Conversion.Schema.Convert` | packages/schema/src/schema.ts:33-35 | a value with the capability is replaced by its own conversion. Any other value, falsy or not, is returned unchanged. The mode is the same afterwards and the registries and root are never written |
| `Conversion.Schema.ToJson` | packages/schema/src/schema.ts:23-31 | the document has exactly the properties `contexts`, `targets`, `builds`, `flags` and `root`, holding the context's registries and root |
| `Conversion.ConvertRoot` | packages/schema/src/schema.ts:16-21 | a fresh context in mode Unknown converts the root value. The result is then stored as `root`. The mode ends at Unknown and the registries stay empty |
| `Conversion.ToSchema` | packages/schema/src/schema.ts:56-58 | a capability-bearing value converts itself: a spec through its routine, any other participant by the mode it reads. The mode is unchanged afterwards |
| `Conversion.SpecToSchemaRoutine` | packages/schema/src/spec.ts:96-147 | the routine produces exactly the converted spec (see `SpecShape`) and restores the mode it found on entry |
| `Conversion.ConvertEntries` | packages/schema/src/spec.ts:121-124 | one skip-falsy loop produces the converted group for the current mode and leaves the mode as it found it |
| `Spec.BuildSpec.constructor` | packages/schema/src/spec.ts:23-29 | `key` defaults to `[]` and `inout` to `{}`. `in`, `out` and `ready` are stored as given. There is no command or runtime yet |
| `Spec.BuildSpec.Runtime` | packages/schema/src/spec.ts:31-34 | sets only the runtime path and returns the same builder |
| `Spec.BuildSpec.In` | packages/schema/src/spec.ts:36-46 | adds or overwrites exactly the property `"inp"` of the input group with the whole argument. Every other input property is unchanged. It returns the same builder |
| `Spec.BuildSpec.InSpread` | packages/schema/src/spec.ts:36-46 | the corrected `in`: the argument's properties are spread into the input group, last write wins |
| `Spec.BuildSpec.Out` | packages/schema/src/spec.ts:48-58 | the output group becomes the spread of old and new properties, last write wins per name. Only that group changes, and it returns the same builder |
| `Spec.BuildSpec.InOut` | packages/schema/src/spec.ts:60-70 | the bidirectional group becomes the spread of old and new properties, last write wins per name. Only that group changes, and it returns the same builder |
| `Spec.BuildSpec.Command` | packages/schema/src/spec.ts:92-93 | stores the command and nothing else, and returns the same builder |
| `Spec.BuildSpec.ToSchema` | packages/schema/src/spec.ts:96-147 | converts the builder's current fields to the converted spec. The schema's mode is the same afterwards and nothing else of the schema changes |
| `Spec.InNotSpreadExample` | packages/schema/src/spec.ts:44 | after `in({src: "main.x"})` on an empty input group, the converted `inp` holds `inp: {src: "main.x"}` and has no property `src` |
| `Spec.InStoresWholeArgument` | packages/schema/src/spec.ts:44 | after `in(arg)`, a property passed in `arg` that the group did not already hold is not a property of the input group; `"inp"` is, holding `arg` |

## Findings

| source | as written | input that shows it | evidently intended | confidence | as-written member | corrected member |
|---|---|---|---|---|---|---|
| packages/schema/src/spec.ts:44 | `in` stores its whole argument as one property named `"inp"` instead of spreading it | `in({src: "main.x"})` on an empty input group converts to an input section `{inp: {src: "main.x"}}` with no property `src` | spread the argument into the input group, as `out` and `inout` do and as the declared result type of `in` promises | medium; not executed | `Spec.InNotSpreadExample` | `Spec.BuildSpec.InSpread` |

## Left out

- The body of `command` (spec.ts:72-94) is not modelled. It builds a command through `cmd`, `cmd.sh` and `Output.dyn`, which are not part of this model. A command is an opaque `Capability` handed to `Command`.
- What a command or file value does inside its own conversion is not modelled. This covers converting its parts and writing entries into the registries. An `Opaque` capability only picks one of three answers by mode. So nothing in this model ever writes `contexts`, `targets`, `builds` or `flags`.
- The registries are filled by other kinds of entity (contexts, targets, flags), which are not part of this model.
- The capability is looked up as `"toSchema"` in schema.ts but defined under the imported `TO_SCHEMA` key in spec.ts. Both are one `Capability` variant here.
- Errors are not modelled. A failing nested conversion does not exist in this model, so "no document on failure" is not stated. `Object.entries` would also throw on a missing `in` or `out`; the argument type requires both, and so does the model.
- Aliasing is not modelled. A nested spec is a snapshot of its fields (`SpecState`). The result shares the `#key` array with the builder, and a spread makes a new object. The model uses values for all of these. As a consequence every spec graph in the model is finite and acyclic, so conversion always terminates. In the source, a spec that reaches itself (`s.out({self: s})`) recurses through spec.ts:123 and schema.ts:34 without end and overflows the stack; that case is not modelled.
- Property order is insertion order. JavaScript lists integer-like names first, and that ordering is not modelled.
- Numbers are integers. Floating point, `NaN` and `-0` truthiness are not modelled, and neither is JSON text encoding.
- The TypeScript type-level widening of the builder (spec.ts:36-70) and `BuildSpecFactory` (spec.ts:150-152) exist only at compile time.
- The `mode` getter (schema.ts:45-47) is the public field `Schema.mode`.
- packages/runtime/runy.build.ts only loads build files through foreign modules; it is not part of this model.
