/** `zodToMongoose`: a Zod schema turned into a Mongoose schema definition
    fragment. The node is unwrapped first; scalars become type descriptors
    that carry `required` and `default` from the wrappers, arrays a
    one-element list, objects an object of converted fields. */
module ZodToMongoose {
  import opened Common
  import opened ZodSchemas

  /** The constructor a descriptor names as its `type`. */
  datatype MType = MString | MNumber | MBoolean | MObject

  /** A definition fragment: `{type, enum?, required?, default?}`, `[item]`
      or `{key: fragment, ...}`. */
  datatype Def =
    | Descriptor(typ: MType, enumValues: Option<seq<string>>, required: Option<bool>, dflt: Option<Value>)
    | ArrayDef(item: Def)
    | ObjectDef(fields: map<string, Def>)

  /** `{ type: Object }`, the fallback for every other kind. */
  const Fallback := Descriptor(MObject, None, None, None)

  /** `withReqAndDefault`: a found default is set, and `required: true`
      when no wrapper made the node optional. */
  function WithReqAndDefault(typ: MType, enumValues: Option<seq<string>>, u: Unwrapped): Def {
    Descriptor(typ, enumValues, if u.optional then None else Some(true), u.dflt)
  }

  /** `typeof val` mapped to a constructor: strings, numbers and booleans
      have their own, everything else is `Object`. */
  function LiteralType(v: Value): MType {
    match v
    case Str(_) => MString
    case Num(_) => MNumber
    case Bool(_) => MBoolean
    case _ => MObject
  }

  /** The fragment of a node. */
  function MongooseOf(n: Node): Def
    decreases Size(n)
  {
    var u := Peel(n, false, None);
    match u.core
    case ZString => WithReqAndDefault(MString, None, u)
    case ZNumber => WithReqAndDefault(MNumber, None, u)
    case ZBoolean => WithReqAndDefault(MBoolean, None, u)
    case ZEnum(values) => WithReqAndDefault(MString, Some(values), u)
    case ZLiteral(v) => Descriptor(LiteralType(v), None, if u.optional then Some(false) else None, Some(v))
    case ZArray(item) => ArrayDef(MongooseOf(item))
    case ZObject(fs) => ObjectDef(ShapeDefs(fs))
    case _ => Fallback
  }

  /** The object of the converted fields of a shape, assigned in order. */
  function ShapeDefs(fs: seq<Field>): map<string, Def>
    decreases FieldsSize(fs)
  {
    if fs == [] then map[]
    else ShapeDefs(fs[..|fs| - 1])[fs[|fs| - 1].key := MongooseOf(fs[|fs| - 1].node)]
  }

  /** `zodToMongoose(schema)`: unwrap, then build the fragment of the core;
      the object case fills `objDef` key by key. */
  method Convert(schema: Node) returns (d: Def)
    ensures d == MongooseOf(schema)
    decreases Size(schema)
  {
    var u := Unwrap(schema);
    match u.core {
      case ZString => d := WithReqAndDefault(MString, None, u);
      case ZNumber => d := WithReqAndDefault(MNumber, None, u);
      case ZBoolean => d := WithReqAndDefault(MBoolean, None, u);
      case ZEnum(values) => d := WithReqAndDefault(MString, Some(values), u);
      case ZLiteral(v) =>
        d := Descriptor(LiteralType(v), None, if u.optional then Some(false) else None, Some(v));
      case ZArray(item) =>
        var itemDef := Convert(item);
        d := ArrayDef(itemDef);
      case ZObject(fs) =>
        var objDef: map<string, Def> := map[];
        for i := 0 to |fs|
          invariant objDef == ShapeDefs(fs[..i])
        {
          FieldSmaller(fs, i);
          var v := Convert(fs[i].node);
          assert fs[..i + 1][..i] == fs[..i];
          objDef := objDef[fs[i].key := v];
        }
        assert fs[..|fs|] == fs;
        d := ObjectDef(objDef);
      case _ => d := Fallback;
    }
  }

  /** A string, number, boolean or enum node becomes a descriptor that is
      required exactly when no optional, nullable or default wrapper sits on
      it, and that carries the default of the innermost default wrapper, or
      none. */
  lemma {:induction false} ScalarFlags(n: Node)
    requires var c := Peel(n, false, None).core; c.ZString? || c.ZNumber? || c.ZBoolean? || c.ZEnum?
    ensures var d := MongooseOf(n);
      var ws := Wrappers(n);
      && d.Descriptor?
      && (d.required.Some? <==> forall i :: 0 <= i < |ws| ==> !MakesOptional(ws[i]))
      && (d.required.Some? ==> d.required.value)
      && ((forall i :: 0 <= i < |ws| ==> !ws[i].ZDefault?) ==> d.dflt.None?)
      && (forall i :: 0 <= i < |ws| && ws[i].ZDefault? && (forall j :: i < j < |ws| ==> !ws[j].ZDefault?) ==>
            d.dflt == ws[i].dflt)
  {
    PeelChain(n, false, None);
  }

  /** A literal always gets its value as default; `required: false` appears
      exactly when a wrapper made it optional. */
  lemma {:induction false} LiteralFlags(n: Node, v: Value)
    requires Peel(n, false, None).core == ZLiteral(v)
    ensures var d := MongooseOf(n);
      var ws := Wrappers(n);
      && d == Descriptor(LiteralType(v), None, d.required, Some(v))
      && (d.required.Some? <==> exists i :: 0 <= i < |ws| && MakesOptional(ws[i]))
      && (d.required.Some? ==> !d.required.value)
  {
    PeelChain(n, false, None);
  }

  /** An array becomes the one-element list of its converted item, whatever
      wraps it. */
  lemma {:induction false} ArrayFragment(n: Node, item: Node)
    requires Peel(n, false, None).core == ZArray(item)
    ensures MongooseOf(n) == ArrayDef(MongooseOf(item))
  {
  }

  /** Every key of the shape is a converted key, and every converted key
      is a key of the shape. */
  lemma {:induction false} ShapeDefKeys(fs: seq<Field>)
    ensures forall i :: 0 <= i < |fs| ==> fs[i].key in ShapeDefs(fs)
    ensures forall k :: k in ShapeDefs(fs) ==> exists i :: 0 <= i < |fs| && fs[i].key == k
    decreases |fs|
  {
    if fs != [] {
      var init := fs[..|fs| - 1];
      var last := fs[|fs| - 1];
      ShapeDefKeys(init);
      assert forall i :: 0 <= i < |init| ==> init[i] == fs[i];
      assert ShapeDefs(fs).Keys == ShapeDefs(init).Keys + {last.key};
    }
  }

  /** With unique keys, each key of the shape is converted from its own
      node. */
  lemma {:induction false} ShapeDefValues(fs: seq<Field>)
    requires UniqueKeys(fs)
    ensures forall i :: 0 <= i < |fs| ==> fs[i].key in ShapeDefs(fs) && ShapeDefs(fs)[fs[i].key] == MongooseOf(fs[i].node)
    decreases |fs|
  {
    if fs != [] {
      var init := fs[..|fs| - 1];
      var last := fs[|fs| - 1];
      assert forall i :: 0 <= i < |init| ==> init[i] == fs[i];
      assert UniqueKeys(init);
      ShapeDefValues(init);
      var m := ShapeDefs(init);
      assert ShapeDefs(fs) == m[last.key := MongooseOf(last.node)];
      forall i | 0 <= i < |fs| - 1
        ensures fs[i].key in ShapeDefs(fs) && ShapeDefs(fs)[fs[i].key] == MongooseOf(fs[i].node)
      {
        assert fs[i] == init[i];
        assert fs[i].key != last.key;
      }
    }
  }

  /** The converted shape has the shape's keys, each with the fragment of
      its node. */
  lemma {:induction false} ShapeFields(fs: seq<Field>)
    requires UniqueKeys(fs)
    ensures ShapeDefs(fs).Keys == set i | 0 <= i < |fs| :: fs[i].key
    ensures forall i :: 0 <= i < |fs| ==> ShapeDefs(fs)[fs[i].key] == MongooseOf(fs[i].node)
  {
    ShapeDefKeys(fs);
    ShapeDefValues(fs);
    var keys := set i | 0 <= i < |fs| :: fs[i].key;
    forall k | k in ShapeDefs(fs)
      ensures k in keys
    {
      var i :| 0 <= i < |fs| && fs[i].key == k;
    }
  }

  /** An object becomes an object with the same keys, each converted. */
  lemma {:induction false} ObjectFragment(n: Node, fs: seq<Field>)
    requires Peel(n, false, None).core == ZObject(fs) && UniqueKeys(fs)
    ensures MongooseOf(n).ObjectDef?
    ensures MongooseOf(n).fields.Keys == set i | 0 <= i < |fs| :: fs[i].key
    ensures forall i :: 0 <= i < |fs| ==> MongooseOf(n).fields[fs[i].key] == MongooseOf(fs[i].node)
  {
    ShapeFields(fs);
  }

  /** Every other kind becomes `{ type: Object }`. */
  lemma {:induction false} OtherFragment(n: Node, name: string)
    requires Peel(n, false, None).core == ZOther(name)
    ensures MongooseOf(n) == Fallback
  {
  }

  /** The documented example: `{ name: string, tags: array(string.optional) }`
      gives `{ name: { type: String, required: true }, tags: [{ type: String }] }`. */
  lemma {:induction false} DocumentedExample()
    ensures MongooseOf(ZObject([Field("name", ZString), Field("tags", ZArray(ZOptional(ZString)))]))
      == ObjectDef(map["name" := Descriptor(MString, None, Some(true), None),
                       "tags" := ArrayDef(Descriptor(MString, None, None, None))])
  {
    var fs := [Field("name", ZString), Field("tags", ZArray(ZOptional(ZString)))];
    assert fs[..1] == [Field("name", ZString)];
    assert fs[..1][..0] == [];
    assert ShapeDefs(fs[..1]) == map["name" := Descriptor(MString, None, Some(true), None)];
  }
}
