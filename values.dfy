/**
 * The values a build target declaration is made of and the plain document it
 * serialises to: a JSON-like value type with one extra variant for values
 * that know how to convert themselves, JavaScript truthiness, and plain
 * objects as ordered records with property assignment and object spread.
 */
module Values {

  datatype Option<+T> = None | Some(value: T)

  /** The ambient serialisation mode of a conversion context (schema.ts:1-5). */
  datatype SchemaMode = Input | Output | Unknown

  /**
   * A value as the converter sees it. `Undefined` is JavaScript's `undefined`;
   * numbers are integers; `Cap` is any value that carries the conversion
   * capability.
   */
  datatype Value =
    | Undefined
    | Null
    | Bool(b: bool)
    | Num(n: int)
    | Str(s: string)
    | Arr(items: seq<Value>)
    | Obj(fields: Record)
    | Cap(cap: Capability)

  /** A plain object: its own enumerable properties in enumeration order. */
  datatype Record = Record(entries: seq<(string, Value)>)

  /**
   * A value with the conversion capability. `Spec` is a nested build
   * specification (a snapshot of its fields); `Opaque` stands for any other
   * participant (a command, a file reference) whose serialisation depends
   * only on which of `isInputMode` / `isOutputMode` holds when it is asked.
   */
  datatype Capability =
    | Spec(spec: SpecState)
    | Opaque(onInput: Value, onOutput: Value, otherwise: Value)

  /** The private fields of a build specification (spec.ts:15-21). */
  datatype SpecState = SpecState(
    key: seq<string>,
    inp: Record,
    out: Record,
    inout: Record,
    ready: Option<Record>,
    command: Option<Capability>,
    runtime: Option<string>)

  /** JavaScript truthiness: `undefined`, `null`, `false`, `0` and `""` are falsy. */
  predicate Truthy(v: Value) {
    match v
    case Undefined => false
    case Null => false
    case Bool(b) => b
    case Num(n) => n != 0
    case Str(s) => s != ""
    case _ => true
  }

  /** The capability test `hasSchema` (schema.ts:60-62). */
  predicate HasSchema(v: Value)
    ensures HasSchema(v) ==> Truthy(v)
  {
    v.Cap?
  }

  /** The property names of an entry list. */
  function Keys(es: seq<(string, Value)>): set<string> {
    if es == [] then {} else {es[0].0} + Keys(es[1..])
  }

  /** Property lookup: the first entry with name `k`. */
  function Get(es: seq<(string, Value)>, k: string): (r: Option<Value>)
    ensures r.Some? <==> k in Keys(es)
  {
    if es == [] then None
    else if es[0].0 == k then Some(es[0].1)
    else Get(es[1..], k)
  }

  /** No property name occurs twice, as in every JavaScript object. */
  predicate Distinct(es: seq<(string, Value)>) {
    forall i, j :: 0 <= i < j < |es| ==> es[i].0 != es[j].0
  }

  /**
   * Property assignment `o[k] = v`: an existing property keeps its place and
   * takes the new value, a new one is added at the end.
   */
  function Put(es: seq<(string, Value)>, k: string, v: Value): (r: seq<(string, Value)>)
    ensures Keys(r) == Keys(es) + {k}
    ensures Get(r, k) == Some(v)
    ensures forall j :: j != k ==> Get(r, j) == Get(es, j)
    ensures k !in Keys(es) ==> r == es + [(k, v)]
    ensures Distinct(es) ==> Distinct(r)
  {
    if es == [] then [(k, v)]
    else if es[0].0 == k then [(k, v)] + es[1..]
    else
      var rest := Put(es[1..], k, v);
      assert ([es[0]] + rest)[1..] == rest;
      assert Distinct(es) ==> Distinct([es[0]] + rest) by {
        if Distinct(es) {
          DistinctTail(es);
          DistinctCons(es[0], rest);
        }
      }
      [es[0]] + rest
  }

  /**
   * Assigning to a property the object already has changes that entry in
   * place: same length, same order, only that entry's value differs.
   */
  lemma {:induction false} PutInPlace(es: seq<(string, Value)>, k: string, v: Value)
    requires Distinct(es) && k in Keys(es)
    ensures |Put(es, k, v)| == |es|
    ensures forall i :: 0 <= i < |es| ==> Put(es, k, v)[i] == if es[i].0 == k then (k, v) else es[i]
  {
    DistinctTail(es);
    if es[0].0 != k {
      PutInPlace(es[1..], k, v);
      var rest := Put(es[1..], k, v);
      assert Put(es, k, v) == [es[0]] + rest;
    } else {
      KeysIndex(es[1..], k);
    }
  }

  /** After the first entry of an object, its name does not occur again. */
  lemma {:induction false} DistinctTail(es: seq<(string, Value)>)
    requires es != [] && Distinct(es)
    ensures Distinct(es[1..]) && es[0].0 !in Keys(es[1..])
  {
    KeysIndex(es[1..], es[0].0);
  }

  /** An entry whose name is new can go in front of an object. */
  lemma DistinctCons(e: (string, Value), es: seq<(string, Value)>)
    requires Distinct(es) && e.0 !in Keys(es)
    ensures Distinct([e] + es)
  {
    KeysIndex(es, e.0);
    forall i, j | 0 <= i < j < |[e] + es| ensures ([e] + es)[i].0 != ([e] + es)[j].0 {
      if i > 0 { assert ([e] + es)[i] == es[i - 1]; }
      assert ([e] + es)[j] == es[j - 1];
    }
  }

  /** A name is a key exactly when some entry carries it. */
  lemma {:induction false} KeysIndex(es: seq<(string, Value)>, k: string)
    ensures k in Keys(es) <==> exists i :: 0 <= i < |es| && es[i].0 == k
  {
    if es != [] {
      KeysIndex(es[1..], k);
      if k in Keys(es[1..]) {
        var i :| 0 <= i < |es[1..]| && es[1..][i].0 == k;
        assert es[i + 1].0 == k;
      }
      if exists i :: 0 <= i < |es| && es[i].0 == k {
        var i :| 0 <= i < |es| && es[i].0 == k;
        if i > 0 { assert es[1..][i - 1].0 == k; }
      }
    }
  }

  /** In an object, looking up the name of an entry finds that entry's value. */
  lemma {:induction false} GetAt(es: seq<(string, Value)>, i: nat)
    requires Distinct(es) && i < |es|
    ensures Get(es, es[i].0) == Some(es[i].1)
  {
    if i > 0 {
      DistinctTail(es);
      KeysIndex(es[1..], es[i].0);
      GetAt(es[1..], i - 1);
    }
  }

  /** Object spread `{ ...a, ...b }`: `b`'s properties assigned onto a copy of `a`, in order. */
  function Merge(a: Record, b: Record): Record
    decreases |b.entries|
  {
    if b.entries == [] then a
    else Merge(Record(Put(a.entries, b.entries[0].0, b.entries[0].1)), Record(b.entries[1..]))
  }

  /** Every property of a spread comes from one of its two operands. */
  lemma {:induction false} MergeKeys(a: Record, b: Record)
    ensures Keys(Merge(a, b).entries) == Keys(a.entries) + Keys(b.entries)
    decreases |b.entries|
  {
    if b.entries != [] {
      var es := b.entries;
      MergeKeys(Record(Put(a.entries, es[0].0, es[0].1)), Record(es[1..]));
    }
  }

  /** Last write wins: a property of `b` overrides the same property of `a`. */
  lemma {:induction false} MergeLastWriteWins(a: Record, b: Record, k: string)
    requires Distinct(b.entries)
    ensures Get(Merge(a, b).entries, k) == if k in Keys(b.entries) then Get(b.entries, k) else Get(a.entries, k)
    decreases |b.entries|
  {
    if b.entries != [] {
      var es := b.entries;
      var a' := Record(Put(a.entries, es[0].0, es[0].1));
      DistinctTail(es);
      MergeLastWriteWins(a', Record(es[1..]), k);
    }
  }

  /**
   * A spread keeps every property of the earlier object where it was: the
   * later object's properties override values in place or come after.
   */
  lemma {:induction false} MergeInPlace(a: Record, b: Record)
    requires Distinct(a.entries)
    ensures |Merge(a, b).entries| >= |a.entries|
    ensures forall i :: 0 <= i < |a.entries| ==> Merge(a, b).entries[i].0 == a.entries[i].0
    decreases |b.entries|
  {
    if b.entries != [] {
      var (k, v) := b.entries[0];
      var a' := Record(Put(a.entries, k, v));
      if k in Keys(a.entries) {
        PutInPlace(a.entries, k, v);
      }
      MergeInPlace(a', Record(b.entries[1..]));
    }
  }

  /** Spreading one object into another yields an object again: no name twice. */
  lemma {:induction false} MergeDistinct(a: Record, b: Record)
    requires Distinct(a.entries)
    ensures Distinct(Merge(a, b).entries)
    decreases |b.entries|
  {
    if b.entries != [] {
      MergeDistinct(Record(Put(a.entries, b.entries[0].0, b.entries[0].1)), Record(b.entries[1..]));
    }
  }
}
