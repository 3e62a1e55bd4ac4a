/**
 * The conversion context and the conversion protocol. A `Schema` carries the
 * ambient mode and the four registries; its `Convert` dispatches on the
 * capability. The conversion routine of a build specification lives here as
 * well, because `Convert` calls it for nested specifications and the routine
 * calls `Convert` back for every field value.
 */
module Conversion {
  import opened Values
  import opened Semantics

  class Schema {
    /** The ambient mode (`#mode`); reading it is the `mode` getter. */
    var mode: SchemaMode
    var contexts: Record
    var targets: Record
    var builds: Record
    var flags: Record
    /** The converted root value; `undefined` until a root conversion stores it. */
    var root: Value

    /** A fresh context: mode Unknown, four empty registries, no root yet. */
    constructor ()
      ensures mode == Unknown
      ensures contexts == Record([]) && targets == Record([]) && builds == Record([]) && flags == Record([])
      ensures root == Undefined
    {
      mode := Unknown;
      contexts, targets, builds, flags := Record([]), Record([]), Record([]), Record([]);
      root := Undefined;
    }

    /** `isInputMode`: holds only in Input mode, and never together with `isOutputMode`. */
    predicate IsInputMode()
      reads this
      ensures IsInputMode() <==> mode == Input
      ensures IsInputMode() ==> !IsOutputMode()
    {
      mode == Input
    }

    /** `isOutputMode`: holds only in Output mode. */
    predicate IsOutputMode()
      reads this
    {
      mode == Output
    }

    /** `withMode`: sets the mode whatever it was before and returns the same context. */
    method WithMode(m: SchemaMode) returns (self: Schema)
      modifies this`mode
      ensures self == this && mode == m
    {
      mode := m;
      self := this;
    }

    /**
     * `convert`: a value with the capability is asked to convert itself,
     * anything else (falsy values, primitives, plain arrays and objects) is
     * returned unchanged. The ambient mode is the same afterwards and nothing
     * but the mode is ever written.
     */
    method Convert(v: Value) returns (r: Value)
      modifies this`mode
      ensures r == Converted(v, old(mode))
      ensures !HasSchema(v) ==> r == v
      ensures mode == old(mode)
      decreases v
    {
      if HasSchema(v) {
        r := ToSchema(v.cap, this);
      } else {
        r := v;
      }
    }

    /** `toJSON`: exactly the four registries and the root. */
    function ToJson(): (doc: Value)
      reads this
      ensures doc.Obj? && Distinct(doc.fields.entries)
      ensures Keys(doc.fields.entries) == {"contexts", "targets", "builds", "flags", "root"}
      ensures Get(doc.fields.entries, "contexts") == Some(Obj(contexts))
      ensures Get(doc.fields.entries, "targets") == Some(Obj(targets))
      ensures Get(doc.fields.entries, "builds") == Some(Obj(builds))
      ensures Get(doc.fields.entries, "flags") == Some(Obj(flags))
      ensures Get(doc.fields.entries, "root") == Some(root)
    {
      var es := [("contexts", Obj(contexts)), ("targets", Obj(targets)), ("builds", Obj(builds)),
                 ("flags", Obj(flags)), ("root", root)];
      assert Distinct(es);
      assert Keys(es) == {"contexts", "targets", "builds", "flags", "root"} by {
        var names := ["contexts", "targets", "builds", "flags", "root"];
        assert forall i :: 0 <= i < |es| ==> es[i].0 == names[i];
        forall k ensures k in Keys(es) <==> k in names {
          KeysIndex(es, k);
        }
      }
      GetAt(es, 0);
      GetAt(es, 1);
      GetAt(es, 2);
      GetAt(es, 3);
      GetAt(es, 4);
      Obj(Record(es))
    }
  }

  /**
   * The static `Schema.convert`: a fresh context converts the root value and
   * only then stores the result as its root.
   */
  method ConvertRoot(a: Capability) returns (schema: Schema)
    ensures fresh(schema)
    ensures schema.root == CapToSchema(a, Unknown)
    ensures schema.mode == Unknown
    ensures schema.contexts == Record([]) && schema.targets == Record([])
    ensures schema.builds == Record([]) && schema.flags == Record([])
  {
    schema := new Schema();
    var root := ToSchema(a, schema);
    schema.root := root;
  }

  /**
   * A capability-bearing value converts itself: a build specification runs
   * its conversion routine; any other participant answers according to
   * `isInputMode` / `isOutputMode`.
   */
  method ToSchema(c: Capability, schema: Schema) returns (r: Value)
    modifies schema`mode
    ensures r == CapToSchema(c, old(schema.mode))
    ensures schema.mode == old(schema.mode)
    decreases c
  {
    match c
    case Spec(s) =>
      r := SpecToSchemaRoutine(s, schema);
    case Opaque(onInput, onOutput, otherwise) =>
      r := if schema.IsInputMode() then onInput
           else if schema.IsOutputMode() then onOutput
           else otherwise;
  }

  /**
   * The `[TO_SCHEMA]` routine of a build specification: it saves the mode,
   * converts `in` under Input and `out`, `inout`, `ready` and the command
   * under Output, drops unset `command` and `runtime`, and restores the mode.
   */
  method SpecToSchemaRoutine(s: SpecState, schema: Schema) returns (r: Value)
    modifies schema`mode
    ensures r == SpecToSchema(s)
    ensures schema.mode == old(schema.mode)
    decreases s
  {
    var runtime := if s.runtime.Some? then Str(s.runtime.value) else Undefined;
    var obj := SpecObject(KeyValue(s.key), Record([]), Record([]), Record([]), Record([]),
                          Some(Undefined), Some(runtime));
    if !Truthy(runtime) {
      obj := obj.(runtime := None);
    }

    var before := schema.mode;

    var _ := schema.WithMode(Input);
    var inp := ConvertEntries(s.inp, schema);
    obj := obj.(inp := inp);

    var _ := schema.WithMode(Output);
    var out := ConvertEntries(s.out, schema);
    obj := obj.(out := out);

    var inout := ConvertEntries(s.inout, schema);
    obj := obj.(inout := inout);

    match s.ready {
      case Some(rd) =>
        var ready := ConvertEntries(rd, schema);
        obj := obj.(ready := ready);
      case None =>
    }

    match s.command {
      case Some(c) =>
        var command := ToSchema(c, schema);
        obj := obj.(command := Some(command));
      case None =>
        obj := obj.(command := None);
    }

    var _ := schema.WithMode(before);

    r := obj.ToValue();
  }

  /**
   * One skip-falsy-and-convert loop over a field group, in the current mode:
   * every truthy entry is converted and assigned to its name.
   */
  method ConvertEntries(group: Record, schema: Schema) returns (acc: Record)
    modifies schema`mode
    ensures acc == ConvertGroup(group, old(schema.mode))
    ensures schema.mode == old(schema.mode)
    decreases group
  {
    var es := group.entries;
    var result := [];
    for i := 0 to |es|
      invariant schema.mode == old(schema.mode)
      invariant result == ConvertPrefix(group, i, old(schema.mode))
    {
      var (k, v) := es[i];
      if Truthy(v) {
        var converted := schema.Convert(v);
        result := Put(result, k, converted);
      }
    }
    acc := Record(result);
  }
}
