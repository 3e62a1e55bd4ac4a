/**
 * What converting a value produces, as functions of the value and of the
 * ambient mode in force when the conversion starts. The imperative
 * converter (module Conversion) is proved to compute exactly these.
 */
module Semantics {
  import opened Values

  /** The result of `schema.convert(v)` when the schema is in mode `m`. */
  function Converted(v: Value, m: SchemaMode): Value
    decreases v
  {
    if HasSchema(v) then CapToSchema(v.cap, m) else v
  }

  /** The result of asking a capability-bearing value to convert itself in mode `m`. */
  function CapToSchema(c: Capability, m: SchemaMode): Value
    decreases c
  {
    match c
    case Spec(s) => SpecToSchema(s)
    case Opaque(onInput, onOutput, otherwise) =>
      if m == Input then onInput else if m == Output then onOutput else otherwise
  }

  /**
   * The first `n` entries of a field group after the skip-falsy-and-convert
   * loop: each truthy entry is converted in mode `m` and assigned to its name.
   */
  function ConvertPrefix(r: Record, n: nat, m: SchemaMode): seq<(string, Value)>
    requires n <= |r.entries|
    decreases r, n
  {
    if n == 0 then []
    else
      var acc := ConvertPrefix(r, n - 1, m);
      var e := r.entries[n - 1];
      if Truthy(e.1) then Put(acc, e.0, Converted(e.1, m)) else acc
  }

  /** A whole field group after the loop. */
  function ConvertGroup(r: Record, m: SchemaMode): Record
    decreases r, |r.entries| + 1
  {
    Record(ConvertPrefix(r, |r.entries|, m))
  }

  /** A looked-up input property as it appears in the converted group: absent when falsy. */
  function ConvertedIfTruthy(o: Option<Value>, m: SchemaMode): Option<Value> {
    if o.Some? && Truthy(o.value) then Some(Converted(o.value, m)) else None
  }

  /** The key of a specification as an array of strings. */
  function KeyValue(key: seq<string>): Value {
    Arr(seq(|key|, i requires 0 <= i < |key| => Str(key[i])))
  }

  /**
   * The plain object a build specification converts to, while it is being
   * assembled. `None` in `command` or `runtime` is a deleted property.
   */
  datatype SpecObject = SpecObject(
    key: Value,
    inp: Record,
    out: Record,
    inout: Record,
    ready: Record,
    command: Option<Value>,
    runtime: Option<Value>)
  {
    /** The object with its properties in literal order, deleted ones left out. */
    function ToValue(): Value {
      Obj(Record(
        [("key", key), ("inp", Obj(inp)), ("out", Obj(out)), ("inout", Obj(inout)), ("ready", Obj(ready))]
        + (if command.Some? then [("command", command.value)] else [])
        + (if runtime.Some? then [("runtime", runtime.value)] else [])))
    }
  }

  /**
   * The conversion of a build specification: `in` under Input; `out`,
   * `inout`, `ready` and the command under Output; runtime only when truthy.
   * The ambient mode of the caller does not enter.
   */
  function SpecToSchema(s: SpecState): Value
    decreases s
  {
    var ready := match s.ready
      case Some(rd) => ConvertGroup(rd, Output)
      case None => Record([]);
    var command := match s.command
      case Some(c) => Some(CapToSchema(c, Output))
      case None => None;
    var runtime := if s.runtime.Some? && s.runtime.value != "" then Some(Str(s.runtime.value)) else None;
    SpecObject(
      KeyValue(s.key),
      ConvertGroup(s.inp, Input),
      ConvertGroup(s.out, Output),
      ConvertGroup(s.inout, Output),
      ready,
      command,
      runtime).ToValue()
  }

  /** The record stored under `name` in a converted object (empty when there is none). */
  function Section(doc: Value, name: string): Record {
    if doc.Obj? then
      match Get(doc.fields.entries, name)
      case Some(Obj(r)) => r
      case _ => Record([])
    else Record([])
  }

  /** `Get` on an entry list extended at the end. */
  lemma {:induction false} GetSnoc(es: seq<(string, Value)>, e: (string, Value), k: string)
    ensures Get(es + [e], k) == if k in Keys(es) then Get(es, k) else if k == e.0 then Some(e.1) else None
  {
    if es != [] {
      assert (es + [e])[1..] == es[1..] + [e];
      GetSnoc(es[1..], e, k);
    }
  }

  /** The prefix of an object has no repeated name, and the next entry's name is new. */
  lemma DistinctPrefix(es: seq<(string, Value)>, n: nat)
    requires Distinct(es) && n < |es|
    ensures Distinct(es[..n]) && es[n].0 !in Keys(es[..n])
  {
    KeysIndex(es[..n], es[n].0);
  }

  /** The prefix loop keeps exactly the truthy entries seen so far, each converted. */
  lemma {:induction false} PrefixConversion(r: Record, n: nat, m: SchemaMode, k: string)
    requires Distinct(r.entries) && n <= |r.entries|
    ensures Get(ConvertPrefix(r, n, m), k) == ConvertedIfTruthy(Get(r.entries[..n], k), m)
  {
    if n > 0 {
      var es := r.entries;
      PrefixConversion(r, n - 1, m, k);
      DistinctPrefix(es, n - 1);
      assert es[..n] == es[..n - 1] + [es[n - 1]];
      GetSnoc(es[..n - 1], es[n - 1], k);
    }
  }

  /**
   * The converted group holds exactly the truthy properties of the input
   * group, each mapped to its conversion; falsy ones are absent, not present
   * with a falsy value.
   */
  lemma GroupConversion(r: Record, m: SchemaMode)
    requires Distinct(r.entries)
    ensures forall k :: Get(ConvertGroup(r, m).entries, k) == ConvertedIfTruthy(Get(r.entries, k), m)
    ensures forall k :: k in Keys(ConvertGroup(r, m).entries) <==> k in Keys(r.entries) && Truthy(Get(r.entries, k).value)
  {
    forall k
      ensures Get(ConvertGroup(r, m).entries, k) == ConvertedIfTruthy(Get(r.entries, k), m)
      ensures k in Keys(ConvertGroup(r, m).entries) <==> k in Keys(r.entries) && Truthy(Get(r.entries, k).value)
    {
      assert r.entries[..|r.entries|] == r.entries;
      PrefixConversion(r, |r.entries|, m, k);
    }
  }

  /** The properties of an assembled object, in order. */
  lemma ObjectEntries(o: SpecObject)
    ensures var es := o.ToValue().fields.entries;
      && |es| == 5 + (if o.command.Some? then 1 else 0) + (if o.runtime.Some? then 1 else 0)
      && es[0] == ("key", o.key) && es[1] == ("inp", Obj(o.inp)) && es[2] == ("out", Obj(o.out))
      && es[3] == ("inout", Obj(o.inout)) && es[4] == ("ready", Obj(o.ready))
      && (o.command.Some? ==> es[5] == ("command", o.command.value))
      && (o.runtime.Some? ==> es[|es| - 1] == ("runtime", o.runtime.value))
  {
  }

  /** The property names of an assembled object, in order. */
  function ObjectNames(o: SpecObject): seq<string> {
    ["key", "inp", "out", "inout", "ready"]
    + (if o.command.Some? then ["command"] else [])
    + (if o.runtime.Some? then ["runtime"] else [])
  }

  lemma ObjectNamesDistinct(o: SpecObject)
    ensures forall i, j :: 0 <= i < j < |ObjectNames(o)| ==> ObjectNames(o)[i] != ObjectNames(o)[j]
  {
  }

  /** An assembled object has no property twice and exactly the names above. */
  lemma ObjectKeys(o: SpecObject)
    ensures Distinct(o.ToValue().fields.entries)
    ensures forall k :: k in Keys(o.ToValue().fields.entries) <==> k in ObjectNames(o)
  {
    var es := o.ToValue().fields.entries;
    var names := ObjectNames(o);
    ObjectEntries(o);
    ObjectNamesDistinct(o);
    assert |es| == |names|;
    assert forall i :: 0 <= i < |es| ==> es[i].0 == names[i];
    forall k ensures k in Keys(es) <==> k in names {
      KeysIndex(es, k);
    }
  }

  /**
   * An assembled object always has `key`, `inp`, `out`, `inout` and `ready`;
   * it has `command` and `runtime` exactly when they were not deleted, and no
   * other property; each property holds what was stored in it.
   */
  lemma ObjectLayout(o: SpecObject)
    ensures var es := o.ToValue().fields.entries;
      && Distinct(es)
      && Keys(es) == {"key", "inp", "out", "inout", "ready"}
                     + (if o.command.Some? then {"command"} else {})
                     + (if o.runtime.Some? then {"runtime"} else {})
      && Get(es, "key") == Some(o.key)
      && Get(es, "inp") == Some(Obj(o.inp)) && Get(es, "out") == Some(Obj(o.out))
      && Get(es, "inout") == Some(Obj(o.inout)) && Get(es, "ready") == Some(Obj(o.ready))
      && (o.command.Some? ==> Get(es, "command") == o.command)
      && (o.runtime.Some? ==> Get(es, "runtime") == o.runtime)
  {
    ObjectKeys(o);
    ObjectNameSet(o);
    ObjectValues(o);
  }

  lemma ObjectNameSet(o: SpecObject)
    ensures forall k :: k in ObjectNames(o) <==>
      k in {"key", "inp", "out", "inout", "ready"}
           + (if o.command.Some? then {"command"} else {})
           + (if o.runtime.Some? then {"runtime"} else {})
  {
  }

  lemma ObjectValues(o: SpecObject)
    ensures var es := o.ToValue().fields.entries;
      && Get(es, "key") == Some(o.key)
      && Get(es, "inp") == Some(Obj(o.inp)) && Get(es, "out") == Some(Obj(o.out))
      && Get(es, "inout") == Some(Obj(o.inout)) && Get(es, "ready") == Some(Obj(o.ready))
      && (o.command.Some? ==> Get(es, "command") == o.command)
      && (o.runtime.Some? ==> Get(es, "runtime") == o.runtime)
  {
    var es := o.ToValue().fields.entries;
    ObjectEntries(o);
    ObjectKeys(o);
    GetAt(es, 0);
    GetAt(es, 1);
    GetAt(es, 2);
    GetAt(es, 3);
    GetAt(es, 4);
    if o.command.Some? {
      GetAt(es, 5);
    }
    if o.runtime.Some? {
      GetAt(es, |es| - 1);
    }
  }

  /**
   * The converted specification always has `key`, `inp`, `out`, `inout` and
   * `ready`, holding the key and the converted groups (`ready` empty when the
   * specification has none); it has `command` exactly when a command is set,
   * converted under Output, and `runtime` exactly when the runtime path is
   * truthy, holding that path; and no other property.
   */
  lemma SpecShape(s: SpecState)
    ensures SpecToSchema(s).Obj?
    ensures Distinct(SpecToSchema(s).fields.entries)
    ensures Keys(SpecToSchema(s).fields.entries)
         == {"key", "inp", "out", "inout", "ready"}
          + (if s.command.Some? then {"command"} else {})
          + (if s.runtime.Some? && s.runtime.value != "" then {"runtime"} else {})
    ensures Get(SpecToSchema(s).fields.entries, "key") == Some(KeyValue(s.key))
    ensures Get(SpecToSchema(s).fields.entries, "inp") == Some(Obj(ConvertGroup(s.inp, Input)))
    ensures Get(SpecToSchema(s).fields.entries, "out") == Some(Obj(ConvertGroup(s.out, Output)))
    ensures Get(SpecToSchema(s).fields.entries, "inout") == Some(Obj(ConvertGroup(s.inout, Output)))
    ensures Get(SpecToSchema(s).fields.entries, "ready")
         == Some(Obj(if s.ready.Some? then ConvertGroup(s.ready.value, Output) else Record([])))
    ensures s.command.Some? ==> Get(SpecToSchema(s).fields.entries, "command") == Some(CapToSchema(s.command.value, Output))
    ensures s.runtime.Some? && s.runtime.value != "" ==>
      Get(SpecToSchema(s).fields.entries, "runtime") == Some(Str(s.runtime.value))
  {
    var ready := match s.ready
      case Some(rd) => ConvertGroup(rd, Output)
      case None => Record([]);
    var command := match s.command
      case Some(c) => Some(CapToSchema(c, Output))
      case None => None;
    var runtime := if s.runtime.Some? && s.runtime.value != "" then Some(Str(s.runtime.value)) else None;
    var o := SpecObject(KeyValue(s.key), ConvertGroup(s.inp, Input), ConvertGroup(s.out, Output),
                        ConvertGroup(s.inout, Output), ready, command, runtime);
    assert SpecToSchema(s) == o.ToValue();
    ObjectLayout(o);
  }

  /** A probe entry of a group, once converted, gives its answer for the group's mode. */
  lemma ProbeInGroup(r: Record, mode: SchemaMode, k: string, probe: Capability)
    requires Distinct(r.entries) && probe.Opaque? && Get(r.entries, k) == Some(Cap(probe))
    ensures Get(ConvertGroup(r, mode).entries, k) == Some(CapToSchema(probe, mode))
  {
    GroupConversion(r, mode);
    assert Get(ConvertGroup(r, mode).entries, k) == ConvertedIfTruthy(Get(r.entries, k), mode);
  }

  /**
   * Mode scoping: a probe that reports the mode it is converted in reports
   * Input under `inp` and Output under `out`, `inout` and `ready`, whatever
   * mode the specification itself is converted in.
   */
  lemma ProbesSeeGroupMode(s: SpecState, m: SchemaMode, k: string, onInput: Value, onOutput: Value, otherwise: Value)
    requires Distinct(s.inp.entries) && Distinct(s.out.entries) && Distinct(s.inout.entries)
    requires s.ready.Some? ==> Distinct(s.ready.value.entries)
    ensures var probe := Cap(Opaque(onInput, onOutput, otherwise));
      var doc := Converted(Cap(Spec(s)), m);
      && (Get(s.inp.entries, k) == Some(probe) ==> Get(Section(doc, "inp").entries, k) == Some(onInput))
      && (Get(s.out.entries, k) == Some(probe) ==> Get(Section(doc, "out").entries, k) == Some(onOutput))
      && (Get(s.inout.entries, k) == Some(probe) ==> Get(Section(doc, "inout").entries, k) == Some(onOutput))
      && (s.ready.Some? && Get(s.ready.value.entries, k) == Some(probe) ==>
            Get(Section(doc, "ready").entries, k) == Some(onOutput))
  {
    var probe := Opaque(onInput, onOutput, otherwise);
    var doc := Converted(Cap(Spec(s)), m);
    assert HasSchema(Cap(Spec(s)));
    assert doc == CapToSchema(Spec(s), m) == SpecToSchema(s);
    SpecShape(s);
    assert Section(doc, "inp") == ConvertGroup(s.inp, Input);
    assert Section(doc, "out") == ConvertGroup(s.out, Output);
    assert Section(doc, "inout") == ConvertGroup(s.inout, Output);
    if Get(s.inp.entries, k) == Some(Cap(probe)) {
      ProbeInGroup(s.inp, Input, k, probe);
    }
    if Get(s.out.entries, k) == Some(Cap(probe)) {
      ProbeInGroup(s.out, Output, k, probe);
    }
    if Get(s.inout.entries, k) == Some(Cap(probe)) {
      ProbeInGroup(s.inout, Output, k, probe);
    }
    if s.ready.Some? && Get(s.ready.value.entries, k) == Some(Cap(probe)) {
      assert Section(doc, "ready") == ConvertGroup(s.ready.value, Output);
      ProbeInGroup(s.ready.value, Output, k, probe);
    }
  }

  /**
   * Which of `isInputMode` / `isOutputMode` holds decides a participant's
   * form: a probe with three different answers gives its Output answer
   * exactly in Output mode, its Input answer exactly in Input mode, and the
   * third exactly when neither holds.
   */
  lemma OpaqueAnswersByMode(onInput: Value, onOutput: Value, otherwise: Value, m: SchemaMode)
    requires onInput != onOutput && onOutput != otherwise && onInput != otherwise
    ensures CapToSchema(Opaque(onInput, onOutput, otherwise), m) == onOutput <==> m == Output
    ensures CapToSchema(Opaque(onInput, onOutput, otherwise), m) == onInput <==> m == Input
    ensures CapToSchema(Opaque(onInput, onOutput, otherwise), m) == otherwise <==> m == Unknown
  {
  }

  /**
   * The command is converted before the ambient mode is restored, so it is
   * always serialised under Output, whatever the caller's mode.
   */
  lemma CommandSeesOutput(s: SpecState, m: SchemaMode, onInput: Value, onOutput: Value, otherwise: Value)
    requires s.command == Some(Opaque(onInput, onOutput, otherwise))
    ensures var doc := Converted(Cap(Spec(s)), m);
      doc.Obj? && Get(doc.fields.entries, "command") == Some(onOutput)
  {
    SpecShape(s);
  }

  /** Falsy properties are dropped: `{a: 0, b: "", c: "x"}` converts to `{c: "x"}`. */
  lemma SparseOmission(m: SchemaMode)
    ensures ConvertGroup(Record([("a", Num(0)), ("b", Str("")), ("c", Str("x"))]), m) == Record([("c", Str("x"))])
  {
    var r := Record([("a", Num(0)), ("b", Str("")), ("c", Str("x"))]);
    assert ConvertPrefix(r, 0, m) == [];
    assert ConvertPrefix(r, 1, m) == [];
    assert ConvertPrefix(r, 2, m) == [];
    assert ConvertPrefix(r, 3, m) == Put([], "c", Str("x"));
  }

  /**
   * A specification with key `["build", "foo"]`, `in = {src: "main.x"}`,
   * `out = {bin: "main.out"}` and nothing else converts to
   * `{key, inp: {src}, out: {bin}, inout: {}, ready: {}}` in any mode.
   */
  lemma EndToEnd(m: SchemaMode)
    ensures Converted(Cap(Spec(SpecState(
              ["build", "foo"],
              Record([("src", Str("main.x"))]),
              Record([("bin", Str("main.out"))]),
              Record([]), None, None, None))), m)
         == Obj(Record([
              ("key", Arr([Str("build"), Str("foo")])),
              ("inp", Obj(Record([("src", Str("main.x"))]))),
              ("out", Obj(Record([("bin", Str("main.out"))]))),
              ("inout", Obj(Record([]))),
              ("ready", Obj(Record([])))]))
  {
    var inp := Record([("src", Str("main.x"))]);
    var out := Record([("bin", Str("main.out"))]);
    assert ConvertPrefix(inp, 0, Input) == [];
    assert ConvertGroup(inp, Input) == Record(Put([], "src", Str("main.x")));
    assert ConvertPrefix(out, 0, Output) == [];
    assert ConvertGroup(out, Output) == Record(Put([], "bin", Str("main.out")));
    assert ConvertGroup(Record([]), Output) == Record([]);
    assert KeyValue(["build", "foo"]) == Arr([Str("build"), Str("foo")]);
  }
}
