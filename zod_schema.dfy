/** Zod schemas as the two schema converters see them: a tree of nodes
    whose `_def.typeName` is one of the kinds below, and the `unwrap` helper
    that peels the optional / nullable / default / effects wrappers off a
    node. */
module ZodSchemas {
  import opened Common

  /** One Zod node. Every wrapper has an inner node; a default whose
      `defaultValue()` throws carries `None`. `ZOther` stands for every
      other kind (unions, records, ...) and for an object without a
      `typeName`. */
  datatype Node =
    | ZString
    | ZNumber
    | ZBoolean
    | ZEnum(values: seq<string>)
    | ZLiteral(value: Value)
    | ZArray(item: Node)
    | ZObject(shape: seq<Field>)
    | ZOptional(inner: Node)
    | ZNullable(inner: Node)
    | ZDefault(inner: Node, dflt: Option<Value>)
    | ZEffects(inner: Node)
    | ZOther(typeName: string)

  /** One entry of an object shape, in `Object.keys` order. */
  datatype Field = Field(key: string, node: Node)

  /** Keys of a shape that occur once. */
  predicate UniqueKeys(fs: seq<Field>) {
    forall i, j :: 0 <= i < j < |fs| ==> fs[i].key != fs[j].key
  }

  function Size(n: Node): nat
    decreases n
  {
    match n
    case ZArray(i) => 1 + Size(i)
    case ZObject(fs) => 1 + FieldsSize(fs)
    case ZOptional(i) => 1 + Size(i)
    case ZNullable(i) => 1 + Size(i)
    case ZDefault(i, _) => 1 + Size(i)
    case ZEffects(i) => 1 + Size(i)
    case _ => 1
  }

  function FieldsSize(fs: seq<Field>): nat
    decreases fs
  {
    if fs == [] then 0 else FieldsSize(fs[..|fs| - 1]) + 1 + Size(fs[|fs| - 1].node)
  }

  /** Every field node is smaller than the whole shape. */
  lemma {:induction false} FieldSmaller(fs: seq<Field>, i: nat)
    requires i < |fs|
    ensures Size(fs[i].node) < FieldsSize(fs)
    decreases |fs|
  {
    if i < |fs| - 1 {
      FieldSmaller(fs[..|fs| - 1], i);
    }
  }

  /** The nodes `unwrap` steps through. */
  predicate IsWrapper(n: Node) {
    n.ZOptional? || n.ZNullable? || n.ZDefault? || n.ZEffects?
  }

  /** The wrappers that make a node optional in Mongoose terms (effects do
      not). */
  predicate MakesOptional(n: Node) {
    n.ZOptional? || n.ZNullable? || n.ZDefault?
  }

  /** The leading chain of wrappers of a node, outermost first. */
  function Wrappers(n: Node): (ws: seq<Node>)
    ensures forall i :: 0 <= i < |ws| ==> IsWrapper(ws[i])
  {
    if IsWrapper(n) then [n] + Wrappers(n.inner) else []
  }

  /** What `unwrap` returns. */
  datatype Unwrapped = Unwrapped(core: Node, optional: bool, dflt: Option<Value>)

  /** `unwrap` continued from a state where `optional` and `dflt` were
      collected so far. */
  function Peel(n: Node, optional: bool, dflt: Option<Value>): (r: Unwrapped)
    ensures Size(r.core) <= Size(n)
    ensures !IsWrapper(r.core)
  {
    match n
    case ZOptional(i) => Peel(i, true, dflt)
    case ZNullable(i) => Peel(i, true, dflt)
    case ZDefault(i, d) => Peel(i, true, d)
    case ZEffects(i) => Peel(i, optional, dflt)
    case _ => Unwrapped(n, optional, dflt)
  }

  /** `unwrap(schema)`: reassigns the current node, the optional flag and
      the default while the current node is a wrapper. */
  method Unwrap(schema: Node) returns (r: Unwrapped)
    ensures r == Peel(schema, false, None)
  {
    var s := schema;
    var optional := false;
    var dflt: Option<Value> := None;
    while true
      invariant Peel(s, optional, dflt) == Peel(schema, false, None)
      decreases Size(s)
    {
      match s {
        case ZOptional(i) =>
          optional := true;
          s := i;
        case ZNullable(i) =>
          optional := true;
          s := i;
        case ZDefault(i, d) =>
          optional := true;
          dflt := d;
          s := i;
        case ZEffects(i) =>
          s := i;
        case _ =>
          break;
      }
    }
    r := Unwrapped(s, optional, dflt);
  }

  /** The core `unwrap` reaches is the inner node of the last wrapper of
      the chain, or the node itself when it is not wrapped. */
  lemma {:induction false} PeelCore(n: Node, optional: bool, dflt: Option<Value>)
    ensures var r := Peel(n, optional, dflt);
      var ws := Wrappers(n);
      && (ws == [] ==> r.core == n)
      && (ws != [] ==> r.core == ws[|ws| - 1].inner)
  {
    if IsWrapper(n) {
      var o := if MakesOptional(n) then true else optional;
      var d := if n.ZDefault? then n.dflt else dflt;
      PeelCore(n.inner, o, d);
      assert Peel(n, optional, dflt) == Peel(n.inner, o, d);
      assert Wrappers(n) == [n] + Wrappers(n.inner);
    }
  }

  /** Some wrapper of the chain makes the node optional. */
  predicate AnyMakesOptional(ws: seq<Node>) {
    exists i :: 0 <= i < |ws| && MakesOptional(ws[i])
  }

  /** `result` is the default of the innermost default wrapper of `ws`, or
      `carried` when `ws` has no default wrapper. */
  predicate InnermostDefault(ws: seq<Node>, carried: Option<Value>, result: Option<Value>) {
    && ((forall i :: 0 <= i < |ws| ==> !ws[i].ZDefault?) ==> result == carried)
    && (forall i :: 0 <= i < |ws| && ws[i].ZDefault? && (forall j :: i < j < |ws| ==> !ws[j].ZDefault?) ==>
          result == ws[i].dflt)
  }

  /** A chain with one more wrapper in front makes the node optional exactly
      when that wrapper or the rest of the chain does. */
  lemma {:induction false} AnyMakesOptionalCons(n: Node, rest: seq<Node>)
    ensures AnyMakesOptional([n] + rest) <==> MakesOptional(n) || AnyMakesOptional(rest)
  {
    var ws := [n] + rest;
    if AnyMakesOptional(ws) {
      var i :| 0 <= i < |ws| && MakesOptional(ws[i]);
      if i > 0 {
        assert ws[i] == rest[i - 1];
      }
    }
    if MakesOptional(n) {
      assert MakesOptional(ws[0]);
    }
    if AnyMakesOptional(rest) {
      var i :| 0 <= i < |rest| && MakesOptional(rest[i]);
      assert ws[i + 1] == rest[i];
    }
  }

  /** Putting a wrapper in front of a chain: the innermost default is still
      the rest's, or, when the rest has none, the one the front wrapper
      carries in. */
  lemma {:induction false} InnermostDefaultCons(n: Node, rest: seq<Node>, carried: Option<Value>,
                                                result: Option<Value>)
    requires InnermostDefault(rest, if n.ZDefault? then n.dflt else carried, result)
    ensures InnermostDefault([n] + rest, carried, result)
  {
    var ws := [n] + rest;
    forall i | 0 <= i < |rest|
      ensures ws[i + 1] == rest[i]
    {
    }
    if forall i :: 0 <= i < |ws| ==> !ws[i].ZDefault? {
      assert !ws[0].ZDefault?;
      assert forall i :: 0 <= i < |rest| ==> !rest[i].ZDefault?;
    }
    forall i | 0 <= i < |ws| && ws[i].ZDefault? && (forall j :: i < j < |ws| ==> !ws[j].ZDefault?)
      ensures result == ws[i].dflt
    {
      if i == 0 {
        assert forall j :: 0 <= j < |rest| ==> !rest[j].ZDefault?;
      } else {
        assert rest[i - 1] == ws[i];
        assert forall j :: i - 1 < j < |rest| ==> !rest[j].ZDefault?;
      }
    }
  }

  /** `unwrap` reports a node optional exactly when an optional, nullable
      or default wrapper is in its chain (or the flag was already set). */
  lemma {:induction false} PeelOptional(n: Node, optional: bool, dflt: Option<Value>)
    ensures Peel(n, optional, dflt).optional <==> optional || AnyMakesOptional(Wrappers(n))
  {
    if IsWrapper(n) {
      var o := if MakesOptional(n) then true else optional;
      var d := if n.ZDefault? then n.dflt else dflt;
      PeelOptional(n.inner, o, d);
      assert Peel(n, optional, dflt) == Peel(n.inner, o, d);
      assert Wrappers(n) == [n] + Wrappers(n.inner);
      AnyMakesOptionalCons(n, Wrappers(n.inner));
    }
  }

  /** The default `unwrap` reports is the one of the innermost default
      wrapper of the chain, or the one carried in when there is none. */
  lemma {:induction false} PeelDefault(n: Node, optional: bool, dflt: Option<Value>)
    ensures InnermostDefault(Wrappers(n), dflt, Peel(n, optional, dflt).dflt)
  {
    if IsWrapper(n) {
      var o := if MakesOptional(n) then true else optional;
      var d := if n.ZDefault? then n.dflt else dflt;
      PeelDefault(n.inner, o, d);
      assert Peel(n, optional, dflt) == Peel(n.inner, o, d);
      assert Wrappers(n) == [n] + Wrappers(n.inner);
      InnermostDefaultCons(n, Wrappers(n.inner), dflt, Peel(n, optional, dflt).dflt);
    }
  }

  /** What `unwrap` collects, against the chain of wrappers it peels: the
      core is what follows the chain, the node is optional exactly when an
      optional, nullable or default wrapper is in the chain, and the
      default is the one of the innermost default wrapper. */
  lemma {:induction false} PeelChain(n: Node, optional: bool, dflt: Option<Value>)
    ensures var r := Peel(n, optional, dflt);
      var ws := Wrappers(n);
      && (ws == [] ==> r.core == n)
      && (ws != [] ==> r.core == ws[|ws| - 1].inner)
      && (r.optional <==> optional || exists i :: 0 <= i < |ws| && MakesOptional(ws[i]))
      && ((forall i :: 0 <= i < |ws| ==> !ws[i].ZDefault?) ==> r.dflt == dflt)
      && (forall i :: 0 <= i < |ws| && ws[i].ZDefault? && (forall j :: i < j < |ws| ==> !ws[j].ZDefault?) ==>
            r.dflt == ws[i].dflt)
  {
    PeelCore(n, optional, dflt);
    PeelOptional(n, optional, dflt);
    PeelDefault(n, optional, dflt);
  }
}
