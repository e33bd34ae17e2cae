/**
 What a schema accepts, before and after the rewrite. `type` and `enum` follow sections 6.1.1
 and 6.1.2 of JSON Schema Validation 2020-12; the rewritten schema is read with `nullable`.
 */
module GeminiMeaning {
  import opened Gemini

  datatype Dialect = Standard | ResponseSchema

  predicate HasType(v: Json, t: string) {
    match t
    case "null" => v.Null?
    case "boolean" => v.Bool?
    case "number" => v.Num?
    case "integer" => v.Num? && v.n == v.n.Floor as real
    case "string" => v.Str?
    case "array" => v.Arr?
    case "object" => v.Obj?
    case _ => false
  }

  predicate TypeOk(d: Dialect, node: map<string, Json>, v: Json) {
    "type" in node ==>
      match node["type"]
      case Str(t) => HasType(v, t) ||
        (d == ResponseSchema && v.Null? && "nullable" in node && node["nullable"] == Bool(true))
      case Arr(ts) => exists i :: 0 <= i < |ts| && ts[i].Str? && HasType(v, ts[i].s)
      case _ => true
  }

  predicate EnumOk(node: map<string, Json>, v: Json) {
    "enum" in node && node["enum"].Arr? ==> v in node["enum"].items
  }

  predicate RequiredOk(node: map<string, Json>, v: Json) {
    "required" in node && node["required"].Arr? && v.Obj? ==>
      forall i :: 0 <= i < |node["required"].items| && node["required"].items[i].Str? ==>
        node["required"].items[i].s in v.fields
  }

  /** The subschemas under `properties`, by name. */
  function Properties(node: map<string, Json>): map<string, Json> {
    if "properties" in node && node["properties"].Obj? then node["properties"].fields else map[]
  }

  predicate Accepts(d: Dialect, schema: Json, v: Json)
    decreases schema, 1
  {
    match schema
    case Bool(b) => b
    case Obj(node) =>
      && TypeOk(d, node, v) && EnumOk(node, v) && RequiredOk(node, v)
      && PropertiesOk(d, schema, v) && AdditionalOk(d, schema, v) && ItemsOk(d, schema, v)
    case _ => true
  }

  predicate PropertiesOk(d: Dialect, schema: Json, v: Json)
    requires schema.Obj?
    decreases schema, 0
  {
    v.Obj? && "properties" in schema.fields && schema.fields["properties"].Obj? ==>
      forall name :: name in schema.fields["properties"].fields && name in v.fields ==>
        Accepts(d, schema.fields["properties"].fields[name], v.fields[name])
  }

  predicate AdditionalOk(d: Dialect, schema: Json, v: Json)
    requires schema.Obj?
    decreases schema, 0
  {
    v.Obj? && "additionalProperties" in schema.fields ==>
      forall name :: name in v.fields && name !in Properties(schema.fields) ==>
        Accepts(d, schema.fields["additionalProperties"], v.fields[name])
  }

  predicate ItemsOk(d: Dialect, schema: Json, v: Json)
    requires schema.Obj?
    decreases schema, 0
  {
    v.Arr? && "items" in schema.fields ==>
      forall i :: 0 <= i < |v.items| ==> Accepts(d, schema.fields["items"], v.items[i])
  }

  // ---------------------------------------------------------------- the schemas in question

  /** A string, or a union of one type and null. */
  predicate PlainType(t: Json) {
    t.Str? || (t.Arr? && Primary(t.items) != "" &&
               forall i :: 0 <= i < |t.items| ==> t.items[i] == Str("null") || t.items[i] == Str(Primary(t.items)))
  }

  predicate PlainEnum(e: Json) {
    e.Arr? && forall i :: 0 <= i < |e.items| ==> !e.items[i].Obj?
  }

  predicate PlainRequired(r: Json) {
    r.Arr? && forall i :: 0 <= i < |r.items| ==> r.items[i].Str?
  }

  /** Schemas built from type, properties, required, additionalProperties, enum and items. */
  predicate Supported(schema: Json)
    decreases schema, 1
  {
    schema.Bool? ||
    (schema.Obj? &&
     var node := schema.fields;
     && ("type" in node ==> PlainType(node["type"]))
     && ("enum" in node ==> PlainEnum(node["enum"]))
     && ("required" in node ==> PlainRequired(node["required"]))
     && ("properties" in node ==> node["properties"].Obj? && SupportedAll(node["properties"]))
     && ("additionalProperties" in node ==> Supported(node["additionalProperties"]))
     && ("items" in node ==> Supported(node["items"])))
  }

  predicate SupportedAll(ps: Json)
    requires ps.Obj?
    decreases ps, 0
  {
    forall name :: name in ps.fields ==> Supported(ps.fields[name])
  }

  /**
   No "" stands at a position whose enum keeps some member. A property named additionalProperties is not a position.
   */
  predicate NoEmptyAtEnum(schema: Json, v: Json)
    decreases schema, 1
  {
    schema.Obj? ==>
      && ("enum" in schema.fields && schema.fields["enum"].Arr? && DropEmpty(schema.fields["enum"].items) != [] ==>
        v != Str(""))
      && NoEmptyInProperties(schema, v) && NoEmptyInItems(schema, v)
  }

  predicate NoEmptyInProperties(schema: Json, v: Json)
    requires schema.Obj?
    decreases schema, 0
  {
    v.Obj? && "properties" in schema.fields && schema.fields["properties"].Obj? ==>
      forall name | name in schema.fields["properties"].fields && name in v.fields && name != "additionalProperties" ::
        NoEmptyAtEnum(schema.fields["properties"].fields[name], v.fields[name])
  }

  predicate NoEmptyInItems(schema: Json, v: Json)
    requires schema.Obj?
    decreases schema, 0
  {
    v.Arr? && "items" in schema.fields ==>
      forall i :: 0 <= i < |v.items| ==> NoEmptyAtEnum(schema.fields["items"], v.items[i])
  }

  // ---------------------------------------------------------------- what the rewrite does to each keyword

  lemma {:induction false} ScalarsStay(items: seq<Json>)
    requires forall i :: 0 <= i < |items| ==> !items[i].Obj?
    ensures Members(items) == items
  {
  }

  /** The type a rewritten node declares. */
  function TypeName(t: Json): string
    requires t.Str? || t.Arr?
  {
    if t.Str? then t.s else Primary(t.items)
  }

  predicate SaysNullable(node: map<string, Json>) {
    "nullable" in node && node["nullable"] == Bool(true)
  }

  predicate UnionWithNull(node: map<string, Json>) {
    "type" in node && node["type"].Arr? && Str("null") in node["type"].items
  }

  lemma NormalizedType(node: map<string, Json>)
    requires "type" in node ==> PlainType(node["type"])
    ensures var out := Children(Rewrite(node));
      && ("type" in out <==> "type" in node)
      && ("type" in node ==> out["type"] == Str(TypeName(node["type"])))
      && (SaysNullable(out) <==> SaysNullable(node) || UnionWithNull(node))
  {
    RewriteAt(node, "type");
    RewriteAt(node, "nullable");
    if "type" in node {
      ChildShape(Rewrite(node)["type"]);
    }
    if "nullable" in Rewrite(node) {
      ChildShape(Rewrite(node)["nullable"]);
    }
  }

  lemma NormalizedEnum(node: map<string, Json>)
    requires Supported(Obj(node))
    ensures var out := Children(Rewrite(node));
      && ("enum" in out <==> "enum" in node && DropEmpty(node["enum"].items) != [])
      && ("enum" in out ==> out["enum"] == Arr(DropEmpty(node["enum"].items)))
  {
    RewriteAt(node, "enum");
    if "enum" in node {
      var kept := DropEmpty(node["enum"].items);
      forall i | 0 <= i < |kept| ensures !kept[i].Obj? {
        DropEmptyMembers(node["enum"].items, kept[i]);
      }
      ScalarsStay(kept);
      ChildShape(Arr(kept));
    }
  }

  lemma NormalizedRequired(node: map<string, Json>)
    requires Supported(Obj(node))
    ensures var out := Children(Rewrite(node));
      && ("required" in out <==> "required" in node)
      && ("required" in node ==> out["required"] == node["required"])
  {
    RewriteAt(node, "required");
    if "required" in node {
      ScalarsStay(node["required"].items);
      ChildShape(node["required"]);
    }
  }

  /** A supported node after normalising, keyword by keyword. */
  lemma NormalizedNode(node: map<string, Json>) returns (out: map<string, Json>)
    requires Supported(Obj(node))
    ensures Normalize(Obj(node)) == Obj(out)
    ensures "additionalProperties" !in out
    ensures "type" in out <==> "type" in node
    ensures "type" in node ==> out["type"] == Str(TypeName(node["type"]))
    ensures SaysNullable(out) <==> SaysNullable(node) || UnionWithNull(node)
    ensures "enum" in out <==> "enum" in node && DropEmpty(node["enum"].items) != []
    ensures "enum" in out ==> out["enum"] == Arr(DropEmpty(node["enum"].items))
    ensures "required" in out <==> "required" in node
    ensures "required" in node ==> out["required"] == node["required"]
    ensures "properties" in out <==> "properties" in node
    ensures "properties" in node ==> out["properties"] == Normalize(node["properties"])
    ensures "items" in out <==> "items" in node
    ensures "items" in node ==> out["items"] == Normalize(node["items"])
  {
    RewriteThenChildren(node);
    out := Children(Rewrite(node));
    NormalizedType(node);
    NormalizedEnum(node);
    NormalizedRequired(node);
    RewriteAt(node, "additionalProperties");
    RewriteAt(node, "properties");
    RewriteAt(node, "items");
  }

  /**
   The subschemas of a supported node after normalising: those under the forbidden name are gone, the rest are
   normalised.
   */
  lemma NormalizedProperties(ps: map<string, Json>)
    requires SupportedAll(Obj(ps))
    ensures Normalize(Obj(ps)) == Obj(map name | name in ps && name != "additionalProperties" :: Normalize(ps[name]))
  {
    RewriteThenChildren(ps);
    assert "type" in ps ==> Supported(ps["type"]);
    assert "enum" in ps ==> Supported(ps["enum"]);
    assert Rewrite(ps) == ps - {"additionalProperties"};
    forall name | name in ps ensures Child(ps[name]) == Normalize(ps[name]) {
      assert Supported(ps[name]);
    }
  }

  lemma TypeSurvives(node: map<string, Json>, out: map<string, Json>, v: Json)
    requires "type" in out <==> "type" in node
    requires "type" in node ==> PlainType(node["type"]) && out["type"] == Str(TypeName(node["type"]))
    requires SaysNullable(out) <==> SaysNullable(node) || UnionWithNull(node)
    ensures TypeOk(Standard, node, v) ==> TypeOk(ResponseSchema, out, v)
    ensures TypeOk(ResponseSchema, out, v) && !SaysNullable(node) ==> TypeOk(Standard, node, v)
  {
    if "type" in node && node["type"].Arr? {
      var ts := node["type"].items;
      PrimaryIsAMember(ts);
      assert forall i :: 0 <= i < |ts| && ts[i] == Str("null") ==> Str("null") in ts;
    }
  }

  lemma {:induction false} PrimaryIsAMember(ts: seq<Json>)
    ensures Primary(ts) != "" ==> Str(Primary(ts)) in ts
  {
    if ts == [] {
    } else {
      PrimaryIsAMember(ts[1..]);
    }
  }

  /**
   The rewrite preserves meaning, exactly: of the values a supported schema accepts, the rewritten schema
   accepts those, and only those, with no "" at a position whose enum survives.
   */
  lemma {:induction false} AcceptedStaysAcceptedIff(schema: Json, v: Json)
    requires Supported(schema) && Accepts(Standard, schema, v)
    ensures Accepts(ResponseSchema, Normalize(schema), v) <==> NoEmptyAtEnum(schema, v)
    decreases schema, 1
  {
    if schema.Obj? {
      var node := schema.fields;
      var out := NormalizedNode(node);
      TypeSurvives(node, out, v);
      EnumStaysIff(node, out, v);
      PropertiesStayIff(schema, out, v);
      ItemsStayIff(schema, out, v);
    }
  }

  /** A member stays one exactly when it is not "", or no member is left to demand anything. */
  lemma EnumStaysIff(node: map<string, Json>, out: map<string, Json>, v: Json)
    requires "enum" in node ==> node["enum"].Arr?
    requires "enum" in out <==> "enum" in node && DropEmpty(node["enum"].items) != []
    requires "enum" in out ==> out["enum"] == Arr(DropEmpty(node["enum"].items))
    requires EnumOk(node, v)
    ensures EnumOk(out, v) <==> ("enum" in node && DropEmpty(node["enum"].items) != [] ==> v != Str(""))
  {
    if "enum" in node {
      DropEmptyMembers(node["enum"].items, v);
    }
  }

  lemma {:induction false} PropertiesStayIff(schema: Json, out: map<string, Json>, v: Json)
    requires Supported(schema) && schema.Obj? && PropertiesOk(Standard, schema, v)
    requires "properties" in out <==> "properties" in schema.fields
    requires "properties" in schema.fields ==> out["properties"] == Normalize(schema.fields["properties"])
    ensures PropertiesOk(ResponseSchema, Obj(out), v) <==> NoEmptyInProperties(schema, v)
    decreases schema, 0
  {
    if v.Obj? && "properties" in schema.fields {
      var ps := schema.fields["properties"].fields;
      NormalizedProperties(ps);
      forall name | name in ps && name in v.fields
        ensures Accepts(ResponseSchema, Normalize(ps[name]), v.fields[name]) <==>
          NoEmptyAtEnum(ps[name], v.fields[name])
      {
        AcceptedStaysAcceptedIff(ps[name], v.fields[name]);
      }
    }
  }

  lemma {:induction false} ItemsStayIff(schema: Json, out: map<string, Json>, v: Json)
    requires Supported(schema) && schema.Obj? && ItemsOk(Standard, schema, v)
    requires "items" in out <==> "items" in schema.fields
    requires "items" in schema.fields ==> out["items"] == Normalize(schema.fields["items"])
    ensures ItemsOk(ResponseSchema, Obj(out), v) <==> NoEmptyInItems(schema, v)
    decreases schema, 0
  {
    if v.Arr? && "items" in schema.fields {
      forall i | 0 <= i < |v.items|
        ensures Accepts(ResponseSchema, Normalize(schema.fields["items"]), v.items[i]) <==>
          NoEmptyAtEnum(schema.fields["items"], v.items[i])
      {
        AcceptedStaysAcceptedIff(schema.fields["items"], v.items[i]);
      }
    }
  }

  // ---------------------------------------------------------------- where nothing at all is lost

  /**
   A supported schema with nothing the dialect cannot say: no additionalProperties, no "" in an enum, no stray
   nullable.
   */
  predicate Expressible(schema: Json)
    decreases schema, 1
  {
    schema.Obj? ==>
      var node := schema.fields;
      && "additionalProperties" !in node && !SaysNullable(node)
      && ("enum" in node && node["enum"].Arr? ==> Str("") !in node["enum"].items && node["enum"].items != [])
      && ("properties" in node && node["properties"].Obj? ==> ExpressibleAll(node["properties"]))
      && ("items" in node ==> Expressible(node["items"]))
  }

  predicate ExpressibleAll(ps: Json)
    requires ps.Obj?
    decreases ps, 0
  {
    "additionalProperties" !in ps.fields && forall name :: name in ps.fields ==> Expressible(ps.fields[name])
  }

  /** There the rewritten schema accepts exactly the same values. */
  lemma {:induction false} ExpressibleKeepsMeaning(schema: Json, v: Json)
    requires Supported(schema) && Expressible(schema)
    ensures Accepts(ResponseSchema, Normalize(schema), v) <==> Accepts(Standard, schema, v)
    decreases schema, 1
  {
    if schema.Obj? {
      var node := schema.fields;
      var out := NormalizedNode(node);
      TypeSurvives(node, out, v);
      if "enum" in node {
        NothingEmpty(node["enum"].items);
      }
      assert EnumOk(out, v) <==> EnumOk(node, v);
      assert RequiredOk(out, v) <==> RequiredOk(node, v);
      assert AdditionalOk(ResponseSchema, Obj(out), v) && AdditionalOk(Standard, schema, v);
      PropertiesKeepMeaning(schema, out, v);
      ItemsKeepMeaning(schema, out, v);
    }
  }

  lemma {:induction false} PropertiesKeepMeaning(schema: Json, out: map<string, Json>, v: Json)
    requires Supported(schema) && Expressible(schema) && schema.Obj?
    requires "properties" in out <==> "properties" in schema.fields
    requires "properties" in schema.fields ==> out["properties"] == Normalize(schema.fields["properties"])
    ensures PropertiesOk(ResponseSchema, Obj(out), v) <==> PropertiesOk(Standard, schema, v)
    decreases schema, 0
  {
    if v.Obj? && "properties" in schema.fields {
      var ps := schema.fields["properties"].fields;
      NormalizedProperties(ps);
      assert ExpressibleAll(schema.fields["properties"]);
      forall name | name in ps && name in v.fields
        ensures Accepts(ResponseSchema, Normalize(ps[name]), v.fields[name]) <==>
          Accepts(Standard, ps[name], v.fields[name])
      {
        ExpressibleKeepsMeaning(ps[name], v.fields[name]);
      }
    }
  }

  lemma {:induction false} ItemsKeepMeaning(schema: Json, out: map<string, Json>, v: Json)
    requires Supported(schema) && Expressible(schema) && schema.Obj?
    requires "items" in out <==> "items" in schema.fields
    requires "items" in schema.fields ==> out["items"] == Normalize(schema.fields["items"])
    ensures ItemsOk(ResponseSchema, Obj(out), v) <==> ItemsOk(Standard, schema, v)
    decreases schema, 0
  {
    if v.Arr? && "items" in schema.fields {
      forall i | 0 <= i < |v.items|
        ensures Accepts(ResponseSchema, Normalize(schema.fields["items"]), v.items[i]) <==>
          Accepts(Standard, schema.fields["items"], v.items[i])
      {
        ExpressibleKeepsMeaning(schema.fields["items"], v.items[i]);
      }
    }
  }

  lemma {:induction false} NothingEmpty(members: seq<Json>)
    requires Str("") !in members
    ensures DropEmpty(members) == members
  {
    if members == [] {
    } else {
      NothingEmpty(members[1..]);
    }
  }

  // ---------------------------------------------------------------- and what comes out is acceptable

  const KEYWORDS := {"type", "enum", "required", "properties", "additionalProperties", "items"}

  /** Beside the keywords a node has only scalar annotations, such as a description. */
  predicate Annotated(schema: Json)
    decreases schema, 1
  {
    schema.Obj? ==>
      && (forall k :: k in schema.fields && k !in KEYWORDS ==> !schema.fields[k].Obj? && !schema.fields[k].Arr?)
      && ("properties" in schema.fields && schema.fields["properties"].Obj? ==>
        AnnotatedAll(schema.fields["properties"]))
      && ("items" in schema.fields ==> Annotated(schema.fields["items"]))
  }

  predicate AnnotatedAll(ps: Json)
    requires ps.Obj?
    decreases ps, 0
  {
    forall name :: name in ps.fields ==> Annotated(ps.fields[name])
  }

  lemma {:induction false} SupportedUnions(schema: Json)
    requires Supported(schema) && Annotated(schema)
    ensures UnionsHaveAType(schema)
    decreases schema, 1
  {
    if schema.Obj? {
      var node := schema.fields;
      forall k | k in node && k !in Discarded(node) ensures UnionsHaveATypeChild(node[k]) {
        if k == "properties" {
          PropertyUnions(node[k]);
        } else if k == "items" {
          SupportedUnions(node[k]);
        }
      }
    }
  }

  lemma {:induction false} PropertyUnions(ps: Json)
    requires ps.Obj? && SupportedAll(ps) && AnnotatedAll(ps)
    ensures UnionsHaveAType(ps)
    decreases ps, 0
  {
    forall name | name in ps.fields ensures UnionsHaveATypeChild(ps.fields[name]) && !ps.fields[name].Arr? {
      SupportedUnions(ps.fields[name]);
    }
  }

  /** Whatever a supported schema is nested like, its rewrite holds nothing Gemini rejects. */
  lemma SupportedBecomesAcceptable(schema: Json)
    requires Supported(schema) && Annotated(schema)
    ensures Acceptable(Normalize(schema))
  {
    SupportedUnions(schema);
    NormalizeAcceptableIff(schema);
  }

  // ---------------------------------------------------------------- the shared filter schema

  function Described(t: string): Json {
    Obj(map["type" := Str(t), "description" := Str("")])
  }

  function WindowSchema(bound: Json): Json {
    Obj(map["type" := Arr([Str("object"), Str("null")]),
            "properties" := Obj(map["min" := bound, "max" := bound]),
            "required" := Arr([Str("min"), Str("max")]),
            "additionalProperties" := Bool(false)])
  }

  function EventTypesSchema(): Json {
    Obj(map["type" := Str("array"),
            "items" := Obj(map["type" := Str("string"),
                               "enum" := Arr([Str("Quote"), Str("Greeks"), Str("TheoPrice"), Str("Underlying")])])])
  }

  function KindSchema(): Json {
    Obj(map["type" := Str("string"), "enum" := Arr([Str("call"), Str("put"), Str("both"), Str("")])])
  }

  function FilterProperties(): map<string, Json> {
    map["root" := Described("string"), "event_types" := EventTypesSchema(), "kind" := KindSchema(),
        "expiry_window" := WindowSchema(Described("string")),
        "strike_window" := WindowSchema(Obj(map["type" := Str("number")])),
        "include_equity" := Described("boolean")]
  }

  /** The schema all providers share, descriptions abbreviated. */
  function FilterSchema(): Json {
    Obj(map["type" := Str("object"), "properties" := Obj(FilterProperties()),
            "required" := Arr([Str("root"), Str("event_types"), Str("kind"),
                               Str("expiry_window"), Str("strike_window"), Str("include_equity")]),
            "additionalProperties" := Bool(false)])
  }

  lemma WindowSupported(bound: Json)
    requires Supported(bound)
    ensures Supported(WindowSchema(bound))
  {
    var node := WindowSchema(bound).fields;
    assert PlainType(node["type"]) by { assert Primary([Str("object"), Str("null")]) == "object"; }
    assert PlainRequired(node["required"]);
    assert SupportedAll(node["properties"]);
    assert Supported(node["additionalProperties"]);
  }

  lemma FilterPropertySupported(name: string)
    requires name in FilterProperties()
    ensures Supported(FilterProperties()[name])
  {
    match name
    case "root" => DescribedSupported("string");
    case "event_types" => EventTypesSupported();
    case "kind" => assert Supported(KindSchema());
    case "expiry_window" =>
      DescribedSupported("string");
      WindowSupported(Described("string"));
    case "strike_window" => WindowSupported(Obj(map["type" := Str("number")]));
    case _ => DescribedSupported("boolean");
  }

  lemma DescribedSupported(t: string)
    ensures Supported(Described(t))
  {
  }

  lemma EventTypesSupported()
    ensures Supported(EventTypesSchema())
  {
    assert Supported(EventTypesSchema().fields["items"]);
  }

  lemma FilterSchemaSupported()
    ensures Supported(FilterSchema())
  {
    forall name | name in FilterProperties() ensures Supported(FilterProperties()[name]) {
      FilterPropertySupported(name);
    }
    assert SupportedAll(Obj(FilterProperties()));
  }

  lemma FilterPropertyAnnotated(name: string)
    requires name in FilterProperties()
    ensures Annotated(FilterProperties()[name])
  {
    match name
    case "event_types" =>
      assert Annotated(EventTypesSchema().fields["items"]);
    case "expiry_window" =>
      var node := WindowSchema(Described("string")).fields;
      assert Annotated(Described("string")) && AnnotatedAll(node["properties"]);
    case "strike_window" =>
      var node := WindowSchema(Obj(map["type" := Str("number")])).fields;
      assert Annotated(Obj(map["type" := Str("number")])) && AnnotatedAll(node["properties"]);
    case _ =>
  }

  lemma FilterSchemaBecomesAcceptable()
    ensures Acceptable(Normalize(FilterSchema()))
  {
    FilterSchemaSupported();
    forall name | name in FilterProperties() ensures Annotated(FilterProperties()[name]) {
      FilterPropertyAnnotated(name);
    }
    assert AnnotatedAll(Obj(FilterProperties()));
    SupportedBecomesAcceptable(FilterSchema());
  }

  /**
   For the shared schema: of the filters it accepts, the rewritten schema rejects exactly the
   equity-only ones, whose kind is the empty string.
   */
  lemma OnlyEquityOnlyFiltersAreLost(v: Json)
    requires Accepts(Standard, FilterSchema(), v)
    ensures v.Obj? && "kind" in v.fields
    ensures Accepts(ResponseSchema, Normalize(FilterSchema()), v) <==> v.fields["kind"] != Str("")
  {
    FilterSchemaSupported();
    AcceptedStaysAcceptedIff(FilterSchema(), v);
    KindRequired(v);
    KindDecides(v);
  }

  lemma KindRequired(v: Json)
    requires Accepts(Standard, FilterSchema(), v)
    ensures v.Obj? && "kind" in v.fields && PropertiesOk(Standard, FilterSchema(), v)
  {
    FilterSchemaAsksForKind();
    ObjectWith(FilterSchema(), 2, "kind", v);
  }

  /** An object schema that requires k, at place i of its list. */
  predicate AsksFor(schema: Json, i: nat, k: string) {
    && schema.Obj? && "type" in schema.fields && schema.fields["type"] == Str("object")
    && "required" in schema.fields && schema.fields["required"].Arr?
    && i < |schema.fields["required"].items| && schema.fields["required"].items[i] == Str(k)
  }

  lemma FilterSchemaAsksForKind()
    ensures AsksFor(FilterSchema(), 2, "kind")
  {
  }

  lemma ObjectWith(schema: Json, i: nat, k: string, v: Json)
    requires AsksFor(schema, i, k) && Accepts(Standard, schema, v)
    ensures v.Obj? && k in v.fields && PropertiesOk(Standard, schema, v)
  {
  }

  lemma KindDecides(v: Json)
    requires v.Obj? && "kind" in v.fields && PropertiesOk(Standard, FilterSchema(), v)
    ensures NoEmptyAtEnum(FilterSchema(), v) <==> v.fields["kind"] != Str("")
  {
    var ps := FilterProperties();
    assert FilterSchema().fields["properties"] == Obj(ps);
    forall name | name in ps && name in v.fields
      ensures NoEmptyAtEnum(ps[name], v.fields[name]) <==> (name == "kind" ==> v.fields[name] != Str(""))
    {
      PropertyIntactIff(name, v.fields[name]);
    }
    assert NoEmptyInItems(FilterSchema(), v);
    assert ("kind" in ps) && NoEmptyInProperties(FilterSchema(), v) <==> v.fields["kind"] != Str("");
  }

  lemma PropertyIntactIff(name: string, v: Json)
    requires name in FilterProperties() && Accepts(Standard, FilterProperties()[name], v)
    ensures NoEmptyAtEnum(FilterProperties()[name], v) <==> (name == "kind" ==> v != Str(""))
  {
    match name
    case "event_types" => EventTypesIntact(v);
    case "kind" => KindIntactIff(v);
    case "expiry_window" => WindowIntact(Described("string"), v);
    case "strike_window" => WindowIntact(Obj(map["type" := Str("number")]), v);
    case "root" => DescribedIntact("string", v);
    case _ => DescribedIntact("boolean", v);
  }

  lemma DescribedIntact(t: string, v: Json)
    ensures NoEmptyAtEnum(Described(t), v)
  {
  }

  lemma KindIntactIff(v: Json)
    ensures NoEmptyAtEnum(KindSchema(), v) <==> v != Str("")
  {
    assert DropEmpty(KindSchema().fields["enum"].items)[0] == Str("call");
  }

  lemma WindowIntact(bound: Json, v: Json)
    requires bound.Obj? && "enum" !in bound.fields && "properties" !in bound.fields && "items" !in bound.fields
    ensures NoEmptyAtEnum(WindowSchema(bound), v)
  {
    var schema := WindowSchema(bound);
    var ps := schema.fields["properties"].fields;
    assert ps == map["min" := bound, "max" := bound];
    if v.Obj? {
      forall name | name in ps && name in v.fields ensures NoEmptyAtEnum(ps[name], v.fields[name]) {
        assert ps[name] == bound;
      }
    }
    assert NoEmptyInProperties(schema, v);
  }

  lemma EventTypeIntact(v: Json)
    requires Accepts(Standard, EventTypesSchema().fields["items"], v)
    ensures NoEmptyAtEnum(EventTypesSchema().fields["items"], v)
  {
    assert EnumOk(EventTypesSchema().fields["items"].fields, v);
  }

  lemma EventTypesIntact(v: Json)
    requires Accepts(Standard, EventTypesSchema(), v)
    ensures NoEmptyAtEnum(EventTypesSchema(), v)
  {
    if v.Arr? {
      assert ItemsOk(Standard, EventTypesSchema(), v);
      forall i | 0 <= i < |v.items| ensures NoEmptyAtEnum(EventTypesSchema().fields["items"], v.items[i]) {
        EventTypeIntact(v.items[i]);
      }
    }
  }

  // ---------------------------------------------------------------- one that is lost

  /** "Subscribe to SPY": quotes of the equity, no options. */
  function EquityOnly(): map<string, Json> {
    map["root" := Str("SPY"), "event_types" := Arr([Str("Quote")]), "kind" := Str(""),
        "expiry_window" := Null, "strike_window" := Null, "include_equity" := Bool(true)]
  }

  lemma EquityOnlyProperty(name: string)
    requires name in FilterProperties() && name in EquityOnly()
    ensures Accepts(Standard, FilterProperties()[name], EquityOnly()[name])
  {
    match name
    case "event_types" => QuoteAccepted();
    case "kind" => EmptyKindAccepted();
    case "expiry_window" => NullWindowAccepted(Described("string"));
    case "strike_window" => NullWindowAccepted(Obj(map["type" := Str("number")]));
    case "root" => DescribedAccepted("string", Str("SPY"));
    case _ => DescribedAccepted("boolean", Bool(true));
  }

  lemma DescribedAccepted(t: string, v: Json)
    requires HasType(v, t)
    ensures Accepts(Standard, Described(t), v)
  {
  }

  lemma EmptyKindAccepted()
    ensures Accepts(Standard, KindSchema(), Str(""))
  {
    assert KindSchema().fields["enum"].items[3] == Str("");
  }

  lemma QuoteAccepted()
    ensures Accepts(Standard, EventTypesSchema(), Arr([Str("Quote")]))
  {
    var item := EventTypesSchema().fields["items"];
    assert item.fields["enum"].items[0] == Str("Quote");
    assert Accepts(Standard, item, Str("Quote"));
    assert ItemsOk(Standard, EventTypesSchema(), Arr([Str("Quote")]));
  }

  lemma NullWindowAccepted(bound: Json)
    ensures Accepts(Standard, WindowSchema(bound), Null)
  {
    assert WindowSchema(bound).fields["type"].items[1] == Str("null");
  }

  lemma EquityOnlyComplete()
    ensures RequiredOk(FilterSchema().fields, Obj(EquityOnly()))
    ensures AdditionalOk(Standard, FilterSchema(), Obj(EquityOnly()))
  {
    assert Properties(FilterSchema().fields) == FilterProperties();
  }

  lemma EquityOnlyPropertiesOk()
    ensures PropertiesOk(Standard, FilterSchema(), Obj(EquityOnly()))
  {
    assert FilterSchema().fields["properties"] == Obj(FilterProperties());
    forall name | name in FilterProperties() && name in EquityOnly()
      ensures Accepts(Standard, FilterProperties()[name], EquityOnly()[name])
    {
      EquityOnlyProperty(name);
    }
  }

  lemma ObjectAccepted(node: map<string, Json>, fields: map<string, Json>)
    requires "type" in node && node["type"] == Str("object") && "enum" !in node && "items" !in node
    requires RequiredOk(node, Obj(fields)) && PropertiesOk(Standard, Obj(node), Obj(fields)) &&
      AdditionalOk(Standard, Obj(node), Obj(fields))
    ensures Accepts(Standard, Obj(node), Obj(fields))
  {
  }

  lemma EquityOnlyAccepted()
    ensures Accepts(Standard, FilterSchema(), Obj(EquityOnly()))
  {
    EquityOnlyComplete();
    EquityOnlyPropertiesOk();
    ObjectAccepted(FilterSchema().fields, EquityOnly());
  }

  predicate Lost(schema: Json, v: Json) {
    Accepts(Standard, schema, v) && !Accepts(ResponseSchema, Normalize(schema), v)
  }

  lemma EmptyKindIsLost(v: Json)
    requires Accepts(Standard, FilterSchema(), v) && v.Obj? && "kind" in v.fields && v.fields["kind"] == Str("")
    ensures Lost(FilterSchema(), v)
  {
    OnlyEquityOnlyFiltersAreLost(v);
  }

  /** The shared schema accepts it; the rewritten one does not. */
  lemma EquityOnlyIsLost()
    ensures Lost(FilterSchema(), Obj(EquityOnly()))
  {
    EquityOnlyAccepted();
    EmptyKindIsLost(Obj(EquityOnly()));
  }
}
