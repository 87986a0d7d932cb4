/** The in-memory OpenAPI registry: path items merged shallowly by path,
    component schemas registered first-write-wins, the two paths of a CRUD
    resource, and the conversion of Zod schemas into OpenAPI schemas. */
module OpenApiRegistry {
  import opened Common
  import opened ZodSchemas

  /** An OpenAPI schema object as `zodToOpenApi` builds it. `ObjectOf`
      with an empty `required` list has no `required` key. */
  datatype OSchema =
    | Typed(t: string)
    | StringEnum(values: seq<string>)
    | LiteralEnum(value: Value)
    | ArrayOf(items: OSchema)
    | ObjectOf(properties: map<string, OSchema>, required: seq<string>)

  /** `{ type: "object" }`. */
  const AnyObject := Typed("object")

  /** The conversion of one node. */
  function OpenApiOf(n: Node): OSchema
    decreases n
  {
    match n
    case ZString => Typed("string")
    case ZNumber => Typed("number")
    case ZBoolean => Typed("boolean")
    case ZEnum(values) => StringEnum(values)
    case ZLiteral(v) => LiteralEnum(v)
    case ZArray(item) => ArrayOf(OpenApiOf(item))
    case ZObject(fs) => ObjectOf(Properties(fs), RequiredKeys(fs))
    case ZOptional(i) => OpenApiOf(i)
    case ZNullable(i) => OpenApiOf(i)
    case _ => AnyObject
  }

  /** `properties`, assigned entry by entry. */
  function Properties(fs: seq<Field>): map<string, OSchema>
    decreases fs
  {
    if fs == [] then map[]
    else Properties(fs[..|fs| - 1])[fs[|fs| - 1].key := OpenApiOf(fs[|fs| - 1].node)]
  }

  /** `required`: the keys whose node is not `ZodOptional`, in order. */
  function RequiredKeys(fs: seq<Field>): (r: seq<string>)
    ensures forall k :: k in r <==> exists i :: 0 <= i < |fs| && fs[i].key == k && !fs[i].node.ZOptional?
  {
    if fs == [] then []
    else
      var init := RequiredKeys(fs[..|fs| - 1]);
      var last := fs[|fs| - 1];
      assert forall i :: 0 <= i < |fs| - 1 ==> fs[..|fs| - 1][i] == fs[i];
      init + (if last.node.ZOptional? then [] else [last.key])
  }

  /** `zodToOpenApi(z)`: a missing node gives `{ type: "object" }`; the
      object case fills `properties` and `required` entry by entry. */
  method ZodToOpenApi(z: Option<Node>) returns (r: OSchema)
    ensures z.None? ==> r == AnyObject
    ensures z.Some? ==> r == OpenApiOf(z.value)
    decreases if z.Some? then Size(z.value) else 0
  {
    if z.None? {
      return AnyObject;
    }
    match z.value {
      case ZString => r := Typed("string");
      case ZNumber => r := Typed("number");
      case ZBoolean => r := Typed("boolean");
      case ZEnum(values) => r := StringEnum(values);
      case ZLiteral(v) => r := LiteralEnum(v);
      case ZArray(item) =>
        var items := ZodToOpenApi(Some(item));
        r := ArrayOf(items);
      case ZObject(fs) =>
        var properties: map<string, OSchema> := map[];
        var required: seq<string> := [];
        for i := 0 to |fs|
          invariant properties == Properties(fs[..i]) && required == RequiredKeys(fs[..i])
        {
          FieldSmaller(fs, i);
          var p := ZodToOpenApi(Some(fs[i].node));
          assert fs[..i + 1][..i] == fs[..i];
          properties := properties[fs[i].key := p];
          if !fs[i].node.ZOptional? {
            required := required + [fs[i].key];
          }
        }
        assert fs[..|fs|] == fs;
        r := ObjectOf(properties, required);
      case ZOptional(i) => r := ZodToOpenApi(Some(i));
      case ZNullable(i) => r := ZodToOpenApi(Some(i));
      case _ => r := AnyObject;
    }
  }

  /** Every key of the shape is a property, and every property is a key of
      the shape. */
  lemma {:induction false} PropertyKeys(fs: seq<Field>)
    ensures forall i :: 0 <= i < |fs| ==> fs[i].key in Properties(fs)
    ensures forall k :: k in Properties(fs) ==> exists i :: 0 <= i < |fs| && fs[i].key == k
    decreases |fs|
  {
    if fs != [] {
      var init := fs[..|fs| - 1];
      var last := fs[|fs| - 1];
      PropertyKeys(init);
      assert forall i :: 0 <= i < |init| ==> init[i] == fs[i];
      assert Properties(fs).Keys == Properties(init).Keys + {last.key};
    }
  }

  /** With unique keys, each key of the shape maps to its own converted
      node. */
  lemma {:induction false} PropertyValues(fs: seq<Field>)
    requires UniqueKeys(fs)
    ensures forall i :: 0 <= i < |fs| ==> fs[i].key in Properties(fs) && Properties(fs)[fs[i].key] == OpenApiOf(fs[i].node)
    decreases |fs|
  {
    if fs != [] {
      var init := fs[..|fs| - 1];
      var last := fs[|fs| - 1];
      assert forall i :: 0 <= i < |init| ==> init[i] == fs[i];
      assert UniqueKeys(init);
      PropertyValues(init);
      var m := Properties(init);
      assert Properties(fs) == m[last.key := OpenApiOf(last.node)];
      forall i | 0 <= i < |fs| - 1
        ensures fs[i].key in Properties(fs) && Properties(fs)[fs[i].key] == OpenApiOf(fs[i].node)
      {
        assert fs[i] == init[i];
        assert fs[i].key != last.key;
      }
    }
  }

  /** The properties of an object schema are the shape's keys, each with
      its converted node. */
  lemma {:induction false} PropertiesOfShape(fs: seq<Field>)
    requires UniqueKeys(fs)
    ensures Properties(fs).Keys == (set i | 0 <= i < |fs| :: fs[i].key)
    ensures forall i :: 0 <= i < |fs| ==> Properties(fs)[fs[i].key] == OpenApiOf(fs[i].node)
  {
    PropertyKeys(fs);
    PropertyValues(fs);
    var keys := set i | 0 <= i < |fs| :: fs[i].key;
    forall k | k in Properties(fs)
      ensures k in keys
    {
      var i :| 0 <= i < |fs| && fs[i].key == k;
    }
  }

  /** An object schema requires exactly the keys whose node is not
      `ZodOptional` (nullable and defaulted fields stay required), and has
      no `required` list exactly when every field is optional. */
  lemma {:induction false} RequiredOfShape(fs: seq<Field>)
    requires UniqueKeys(fs)
    ensures forall i :: 0 <= i < |fs| ==> (fs[i].key in RequiredKeys(fs) <==> !fs[i].node.ZOptional?)
    ensures RequiredKeys(fs) == [] <==> forall i :: 0 <= i < |fs| ==> fs[i].node.ZOptional?
  {
    var req := RequiredKeys(fs);
    forall i | 0 <= i < |fs|
      ensures fs[i].key in req <==> !fs[i].node.ZOptional?
    {
      if fs[i].key in req {
        var j :| 0 <= j < |fs| && fs[j].key == fs[i].key && !fs[j].node.ZOptional?;
        assert j == i;
      }
    }
    if req != [] {
      assert req[0] in req;
    }
  }

  /** The object case as a whole. */
  lemma {:induction false} ObjectSchema(fs: seq<Field>)
    requires UniqueKeys(fs)
    ensures var o := OpenApiOf(ZObject(fs));
      && o.properties.Keys == (set i | 0 <= i < |fs| :: fs[i].key)
      && (forall i :: 0 <= i < |fs| ==> o.properties[fs[i].key] == OpenApiOf(fs[i].node))
      && (forall i :: 0 <= i < |fs| ==> (fs[i].key in o.required <==> !fs[i].node.ZOptional?))
      && (o.required == [] <==> forall i :: 0 <= i < |fs| ==> fs[i].node.ZOptional?)
  {
    PropertiesOfShape(fs);
    RequiredOfShape(fs);
  }

  /** Optional and nullable wrappers are transparent; defaults and effects
      fall back to `{ type: "object" }`. */
  lemma {:induction false} WrapperSchemas(n: Node, d: Option<Value>)
    ensures OpenApiOf(ZOptional(n)) == OpenApiOf(n) && OpenApiOf(ZNullable(n)) == OpenApiOf(n)
    ensures OpenApiOf(ZDefault(n, d)) == AnyObject && OpenApiOf(ZEffects(n)) == AnyObject
  {
  }

  /** One operation of a path item. */
  datatype Operation = Operation(tags: seq<string>, summary: string, idParameter: bool, responses: map<string, string>)

  /** A path item: HTTP method to operation. */
  type PathItem = map<string, Operation>

  /** `basePath.replace(/^\//, "")`. */
  function StripLeadingSlash(s: string): (r: string)
    ensures |s| > 0 && s[0] == '/' ==> s == "/" + r
    ensures !(|s| > 0 && s[0] == '/') ==> r == s
  {
    if |s| > 0 && s[0] == '/' then s[1..] else s
  }

  /** `options.tag || basePath.replace(/^\//, "")`: an empty tag falls
      back too. */
  function CrudTag(basePath: string, tag: Option<string>): string {
    if tag.Some? && tag.value != "" then tag.value else StripLeadingSlash(basePath)
  }

  /** The collection path item of a CRUD resource. */
  function ListItem(tag: string): PathItem {
    map["get" := Operation([tag], "List " + tag, false, map["200" := "OK"]),
        "post" := Operation([tag], "Create " + tag, false, map["201" := "Created"])]
  }

  /** The single-record path item of a CRUD resource. */
  function RecordItem(tag: string): PathItem {
    map["get" := Operation([tag], "Get " + tag + " by id", true, map["200" := "OK", "404" := "Not Found"]),
        "put" := Operation([tag], "Update " + tag + " by id", true, map["200" := "Updated", "404" := "Not Found"]),
        "delete" := Operation([tag], "Delete " + tag + " by id", true, map["200" := "Deleted", "404" := "Not Found"])]
  }

  /** The schemas after registering `entries` in order, each first-write-wins. */
  function RegisterAll(schemas: map<string, OSchema>, entries: seq<(string, OSchema)>): map<string, OSchema>
    decreases |entries|
  {
    if entries == [] then schemas
    else
      var last := entries[|entries| - 1];
      var before := RegisterAll(schemas, entries[..|entries| - 1]);
      if last.0 in before then before else before[last.0 := last.1]
  }

  /** Registering a list of schemas never replaces a registered one and
      adds exactly the names of the list. */
  lemma {:induction false} RegisterAllKeeps(schemas: map<string, OSchema>, entries: seq<(string, OSchema)>)
    ensures RegisterAll(schemas, entries).Keys == schemas.Keys + (set i | 0 <= i < |entries| :: entries[i].0)
    ensures forall k :: k in schemas ==> RegisterAll(schemas, entries)[k] == schemas[k]
    decreases |entries|
  {
    if entries != [] {
      var init := entries[..|entries| - 1];
      RegisterAllKeeps(schemas, init);
      assert (set i | 0 <= i < |entries| :: entries[i].0) == (set i | 0 <= i < |init| :: init[i].0) + {entries[|entries| - 1].0};
    }
  }

  /** A new name is registered with its first schema in the list. */
  lemma {:induction false} RegisterAllFirstWins(schemas: map<string, OSchema>, entries: seq<(string, OSchema)>, i: nat)
    requires i < |entries| && entries[i].0 !in schemas
    requires forall j :: 0 <= j < i ==> entries[j].0 != entries[i].0
    ensures entries[i].0 in RegisterAll(schemas, entries)
    ensures RegisterAll(schemas, entries)[entries[i].0] == entries[i].1
    decreases |entries|
  {
    var init := entries[..|entries| - 1];
    RegisterAllKeeps(schemas, init);
    if i < |init| {
      assert entries[i] == init[i];
      assert forall j :: 0 <= j < i ==> init[j] == entries[j];
      RegisterAllFirstWins(schemas, init, i);
    }
  }

  /** The module-level `paths` and `components.schemas`. */
  class Registry {
    var paths: map<string, PathItem>
    var schemas: map<string, OSchema>

    constructor ()
      ensures paths == map[] && schemas == map[]
    {
      paths := map[];
      schemas := map[];
    }

    /** `registerPath(path, item)`: the item's methods override, the other
        methods already on the path stay. */
    method RegisterPath(path: string, item: PathItem)
      modifies this
      ensures schemas == old(schemas)
      ensures paths == old(paths)[path := (if path in old(paths) then old(paths)[path] else map[]) + item]
      ensures forall m :: m in item ==> m in paths[path] && paths[path][m] == item[m]
      ensures path in old(paths) ==> forall m :: m in old(paths)[path] && m !in item ==> paths[path][m] == old(paths)[path][m]
    {
      var existing := if path in paths then paths[path] else map[];
      paths := paths[path := existing + item];
    }

    /** `registerSchema(name, schema)`: first write wins. */
    method RegisterSchema(name: string, schema: OSchema)
      modifies this
      ensures paths == old(paths)
      ensures schemas == RegisterAll(old(schemas), [(name, schema)])
      ensures name in old(schemas) ==> schemas == old(schemas)
      ensures name !in old(schemas) ==> schemas == old(schemas)[name := schema]
    {
      if name !in schemas {
        schemas := schemas[name := schema];
      }
    }

    /** `registerCrudResource(basePath, {tag, schemas})`: the list and
        record paths of the resource, then its schemas in order. */
    method RegisterCrudResource(basePath: string, tag: Option<string>, entries: Option<seq<(string, OSchema)>>)
      modifies this
      ensures var t := CrudTag(basePath, tag);
        var record := basePath + "/{id}";
        && paths.Keys == old(paths).Keys + {basePath, record}
        && (forall p :: p in old(paths) && p != basePath && p != record ==> paths[p] == old(paths)[p])
        && paths[basePath] == (if basePath in old(paths) then old(paths)[basePath] else map[]) + ListItem(t)
        && paths[record] == (if record in old(paths) then old(paths)[record] else map[]) + RecordItem(t)
      ensures schemas == RegisterAll(old(schemas), entries.GetOr([]))
    {
      var t := CrudTag(basePath, tag);
      var record := basePath + "/{id}";
      assert |record| == |basePath| + 5;
      RegisterPath(basePath, ListItem(t));
      RegisterPath(record, RecordItem(t));
      if entries.Some? {
        var es := entries.value;
        for i := 0 to |es|
          invariant schemas == RegisterAll(old(schemas), es[..i])
          invariant paths == old(paths)[basePath := (if basePath in old(paths) then old(paths)[basePath] else map[]) + ListItem(t)]
                                       [record := (if record in old(paths) then old(paths)[record] else map[]) + RecordItem(t)]
        {
          assert es[..i + 1][..i] == es[..i];
          RegisterSchema(es[i].0, es[i].1);
        }
        assert es[..|es|] == es;
      }
    }

    /** `registerZodSchema(name, zodSchema)`: the converted schema, first
        write wins. */
    method RegisterZodSchema(name: string, zodSchema: Option<Node>)
      modifies this
      ensures paths == old(paths)
      ensures name in old(schemas) ==> schemas == old(schemas)
      ensures name !in old(schemas) ==>
        schemas == old(schemas)[name := if zodSchema.Some? then OpenApiOf(zodSchema.value) else AnyObject]
    {
      var schema := ZodToOpenApi(zodSchema);
      RegisterSchema(name, schema);
    }
  }

  /** The tag of a resource registered without one is its base path
      without the leading slash. */
  lemma {:induction false} DefaultTag(path: string)
    ensures CrudTag("/" + path, None) == path
    ensures CrudTag("/" + path, Some("")) == path
  {
    assert ("/" + path)[1..] == path;
  }
}
