/**
 * The build specification builder: private field groups that the fluent
 * methods update in place and return the same object, and the `[TO_SCHEMA]`
 * entry point that converts the current fields.
 */
module Spec {
  import opened Values
  import opened Semantics
  import opened Conversion

  /** The constructor's argument bundle; `key`, `inout` and `ready` may be omitted. */
  datatype SpecArgs = SpecArgs(
    key: Option<seq<string>>,
    inp: Record,
    out: Record,
    inout: Option<Record>,
    ready: Option<Record>)

  class BuildSpec {
    var key: seq<string>
    var inp: Record
    var out: Record
    var inout: Record
    var ready: Option<Record>
    var command: Option<Capability>
    var runtime: Option<string>

    /** Every field group is an object: no property name twice. */
    ghost predicate Valid()
      reads this
    {
      && Distinct(inp.entries)
      && Distinct(out.entries)
      && Distinct(inout.entries)
      && (ready.Some? ==> Distinct(ready.value.entries))
    }

    /** The fields as one value, the form in which a specification nests in another. */
    function State(): SpecState
      reads this
    {
      SpecState(key, inp, out, inout, ready, command, runtime)
    }

    /**
     * `key` defaults to `[]` and `inout` to `{}`; `in`, `out` and `ready` are
     * stored as given; no command and no runtime yet.
     */
    constructor (args: SpecArgs)
      requires Distinct(args.inp.entries) && Distinct(args.out.entries)
      requires args.inout.Some? ==> Distinct(args.inout.value.entries)
      requires args.ready.Some? ==> Distinct(args.ready.value.entries)
      ensures Valid()
      ensures key == (if args.key.Some? then args.key.value else [])
      ensures inp == args.inp && out == args.out
      ensures inout == (if args.inout.Some? then args.inout.value else Record([]))
      ensures ready == args.ready
      ensures command == None && runtime == None
    {
      inp := args.inp;
      out := args.out;
      inout := if args.inout.Some? then args.inout.value else Record([]);
      ready := args.ready;
      key := if args.key.Some? then args.key.value else [];
      command := None;
      runtime := None;
    }

    /** `runtime(path)`: records the runtime path and nothing else. */
    method Runtime(path: string) returns (self: BuildSpec)
      modifies this`runtime
      ensures self == this && runtime == Some(path)
    {
      runtime := Some(path);
      self := this;
    }

    /**
     * `in(inp)` as written: the whole argument is stored under the one
     * property name `"inp"` (`{ ...this.#in, inp }`), not spread.
     */
    method In(arg: Value) returns (self: BuildSpec)
      requires Valid()
      modifies this`inp
      ensures self == this && Valid()
      ensures inp == Merge(old(inp), Record([("inp", arg)]))
      ensures Keys(inp.entries) == Keys(old(inp).entries) + {"inp"}
      ensures Get(inp.entries, "inp") == Some(arg)
      ensures forall k :: k != "inp" ==> Get(inp.entries, k) == Get(old(inp).entries, k)
    {
      MergeDistinct(inp, Record([("inp", arg)]));
      MergeKeys(inp, Record([("inp", arg)]));
      forall k ensures Get(Merge(inp, Record([("inp", arg)])).entries, k)
                    == if k == "inp" then Some(arg) else Get(inp.entries, k) {
        MergeLastWriteWins(inp, Record([("inp", arg)]), k);
      }
      inp := Merge(inp, Record([("inp", arg)]));
      self := this;
    }

    /** `in` as its type signature describes it: the argument's properties spread into the group. */
    method InSpread(more: Record) returns (self: BuildSpec)
      requires Valid() && Distinct(more.entries)
      modifies this`inp
      ensures self == this && Valid()
      ensures inp == Merge(old(inp), more)
      ensures Keys(inp.entries) == Keys(old(inp).entries) + Keys(more.entries)
      ensures forall k :: Get(inp.entries, k) == if k in Keys(more.entries) then Get(more.entries, k) else Get(old(inp).entries, k)
    {
      MergeDistinct(inp, more);
      MergeKeys(inp, more);
      forall k ensures Get(Merge(inp, more).entries, k)
                    == if k in Keys(more.entries) then Get(more.entries, k) else Get(inp.entries, k) {
        MergeLastWriteWins(inp, more, k);
      }
      inp := Merge(inp, more);
      self := this;
    }

    /** `out(more)`: spreads `more` into the output group, last write wins per name. */
    method Out(more: Record) returns (self: BuildSpec)
      requires Valid() && Distinct(more.entries)
      modifies this`out
      ensures self == this && Valid()
      ensures out == Merge(old(out), more)
      ensures Keys(out.entries) == Keys(old(out).entries) + Keys(more.entries)
      ensures forall k :: Get(out.entries, k) == if k in Keys(more.entries) then Get(more.entries, k) else Get(old(out).entries, k)
    {
      MergeDistinct(out, more);
      MergeKeys(out, more);
      forall k ensures Get(Merge(out, more).entries, k)
                    == if k in Keys(more.entries) then Get(more.entries, k) else Get(out.entries, k) {
        MergeLastWriteWins(out, more, k);
      }
      out := Merge(out, more);
      self := this;
    }

    /** `inout(more)`: spreads `more` into the bidirectional group, last write wins per name. */
    method InOut(more: Record) returns (self: BuildSpec)
      requires Valid() && Distinct(more.entries)
      modifies this`inout
      ensures self == this && Valid()
      ensures inout == Merge(old(inout), more)
      ensures Keys(inout.entries) == Keys(old(inout).entries) + Keys(more.entries)
      ensures forall k :: Get(inout.entries, k) == if k in Keys(more.entries) then Get(more.entries, k) else Get(old(inout).entries, k)
    {
      MergeDistinct(inout, more);
      MergeKeys(inout, more);
      forall k ensures Get(Merge(inout, more).entries, k)
                    == if k in Keys(more.entries) then Get(more.entries, k) else Get(inout.entries, k) {
        MergeLastWriteWins(inout, more, k);
      }
      inout := Merge(inout, more);
      self := this;
    }

    /** `command(func)`: stores the command the builder function produced. */
    method Command(c: Capability) returns (self: BuildSpec)
      modifies this`command
      ensures self == this && command == Some(c)
    {
      command := Some(c);
      self := this;
    }

    /**
     * `[TO_SCHEMA]`: converts the current fields; the schema's mode is the
     * same afterwards and nothing else of the schema changes.
     */
    method ToSchema(schema: Schema) returns (r: Value)
      modifies schema`mode
      ensures r == SpecToSchema(State())
      ensures schema.mode == old(schema.mode)
    {
      r := SpecToSchemaRoutine(State(), schema);
    }
  }

  /**
   * Storing the argument of `in` whole: a property the caller passes does not
   * become a property of the input group; only `"inp"` does.
   */
  lemma InStoresWholeArgument(group: Record, more: Record, k: string)
    requires k != "inp" && k in Keys(more.entries) && k !in Keys(group.entries)
    ensures k !in Keys(Merge(group, Record([("inp", Obj(more))])).entries)
    ensures Get(Merge(group, Record([("inp", Obj(more))])).entries, "inp") == Some(Obj(more))
  {
    MergeKeys(group, Record([("inp", Obj(more))]));
    MergeLastWriteWins(group, Record([("inp", Obj(more))]), "inp");
  }

  /**
   * The concrete case: `new BuildSpec({inp: {}, out: {}}).in({src: "main.x"})`
   * converts with `inp: {inp: {src: "main.x"}}`, where the declared type
   * promises `inp: {src: "main.x"}`.
   */
  lemma InNotSpreadExample()
    ensures var arg := Obj(Record([("src", Str("main.x"))]));
      var doc := SpecToSchema(SpecState([], Merge(Record([]), Record([("inp", arg)])), Record([]), Record([]), None, None, None));
      && Get(doc.fields.entries, "inp") == Some(Obj(Record([("inp", arg)])))
      && "src" !in Keys(Section(doc, "inp").entries)
  {
    var arg := Obj(Record([("src", Str("main.x"))]));
    var group := Record([("inp", arg)]);
    assert Merge(Record([]), group) == group by {
      assert Put([], "inp", arg) == [("inp", arg)];
      assert Merge(Record([]), group) == Merge(Record([("inp", arg)]), Record([]));
    }
    var s := SpecState([], group, Record([]), Record([]), None, None, None);
    SpecShape(s);
    assert ConvertGroup(group, Input) == group by {
      assert ConvertPrefix(group, 0, Input) == [];
      assert ConvertPrefix(group, 1, Input) == Put([], "inp", arg);
    }
    assert Section(SpecToSchema(s), "inp") == group;
  }

  /**
   * Converting two sibling specifications in sequence on one context: the
   * second sees the caller's mode, not one left behind by the first.
   */
  method SiblingConversions(a: BuildSpec, b: BuildSpec, schema: Schema)
    modifies schema`mode
  {
    var _ := schema.WithMode(Input);
    var first := a.ToSchema(schema);
    assert schema.IsInputMode();
    var second := b.ToSchema(schema);
    assert schema.IsInputMode();
    assert second == SpecToSchema(b.State());
  }
}
