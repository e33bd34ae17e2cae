/** Rewriting a JSON Schema into Gemini's response-schema dialect. */
module Gemini {
  import opened Picking

  datatype Json =
    | Null
    | Bool(b: bool)
    | Num(n: real)
    | Str(s: string)
    | Arr(items: seq<Json>)
    | Obj(fields: map<string, Json>)

  // ---------------------------------------------------------------- the normaliser

  /** The first member that is a non-empty string other than "null", or "" if there is none. */
  function Primary(types: seq<Json>): string {
    if types == [] then ""
    else if types[0].Str? && types[0].s != "null" && types[0].s != "" then types[0].s
    else Primary(types[1..])
  }

  lemma {:induction false} PrimarySnoc(types: seq<Json>, t: Json)
    ensures Primary(types + [t]) == if Primary(types) != "" then Primary(types) else Primary([t])
  {
    if types == [] {
      assert types + [t] == [t];
    } else {
      assert (types + [t])[1..] == types[1..] + [t];
      PrimarySnoc(types[1..], t);
    }
  }

  /** The scan over a type union. */
  method ScanTypes(types: seq<Json>) returns (primary: string, nullable: bool)
    ensures primary == Primary(types) && (nullable <==> Str("null") in types)
    ensures primary == "" ==> forall j :: 0 <= j < |types| ==> !NamesAType(types[j])
    ensures primary != "" ==> exists i :: FirstNamed(types, i) && types[i] == Str(primary)
  {
    primary, nullable := "", false;
    for i := 0 to |types|
      invariant primary == Primary(types[..i]) && (nullable <==> Str("null") in types[..i])
    {
      assert types[..i + 1] == types[..i] + [types[i]];
      PrimarySnoc(types[..i], types[i]);
      assert [types[i]][1..] == [];
      var s := if types[i].Str? then types[i].s else "";
      if s == "null" {
        nullable := true;
        continue;
      }
      if primary == "" {
        primary := s;
      }
    }
    assert types[..|types|] == types;
    PrimaryMeans(types);
  }

  /** A non-empty string other than "null". */
  predicate NamesAType(j: Json) {
    j.Str? && j.s != "" && j.s != "null"
  }

  predicate FirstNamed(types: seq<Json>, i: int) {
    0 <= i < |types| && NamesAType(types[i]) && forall j :: 0 <= j < i ==> !NamesAType(types[j])
  }

  lemma {:induction false} PrimaryMeans(types: seq<Json>)
    ensures Primary(types) == "" ==> forall j :: 0 <= j < |types| ==> !NamesAType(types[j])
    ensures Primary(types) != "" ==> exists i :: FirstNamed(types, i) && types[i] == Str(Primary(types))
  {
    if types == [] {
    } else if NamesAType(types[0]) {
      assert FirstNamed(types, 0);
    } else {
      PrimaryMeans(types[1..]);
      assert forall j :: 1 <= j < |types| ==> types[j] == types[1..][j - 1];
      if Primary(types) != "" {
        var i :| FirstNamed(types[1..], i) && types[1..][i] == Str(Primary(types[1..]));
        assert FirstNamed(types, i + 1);
      }
    }
  }

  function DropEmpty(members: seq<Json>): seq<Json> {
    if members == [] then []
    else (if members[0] == Str("") then [] else [members[0]]) + DropEmpty(members[1..])
  }

  lemma {:induction false} DropEmptySnoc(members: seq<Json>, m: Json)
    ensures DropEmpty(members + [m]) == DropEmpty(members) + if m == Str("") then [] else [m]
  {
    if members == [] {
      assert members + [m] == [m] && [m][1..] == [];
    } else {
      var head := if members[0] == Str("") then [] else [members[0]];
      var tail := if m == Str("") then [] else [m];
      assert (members + [m])[0] == members[0] && (members + [m])[1..] == members[1..] + [m];
      DropEmptySnoc(members[1..], m);
      assert head + (DropEmpty(members[1..]) + tail) == (head + DropEmpty(members[1..])) + tail;
    }
  }

  lemma {:induction false} DropEmptyMembers(members: seq<Json>, m: Json)
    ensures m in DropEmpty(members) <==> m in members && m != Str("")
  {
    if members == [] {
    } else {
      DropEmptyMembers(members[1..], m);
      assert members == [members[0]] + members[1..];
    }
  }

  function NotEmpty(members: seq<Json>): nat -> bool {
    (i: nat) => i < |members| && members[i] != Str("")
  }

  /** The members kept, in their order. */
  lemma {:induction false} DropEmptyPicks(members: seq<Json>) returns (at: seq<nat>)
    ensures Picks(at, |members|, NotEmpty(members)) && |DropEmpty(members)| == |at|
    ensures forall i :: 0 <= i < |at| ==> DropEmpty(members)[i] == members[at[i]]
  {
    if members == [] {
      at := [];
    } else {
      var n := |members| - 1;
      at := DropEmptyPicks(members[..n]);
      assert members == members[..n] + [members[n]];
      DropEmptySnoc(members[..n], members[n]);
      PicksSame(at, n, NotEmpty(members[..n]), NotEmpty(members));
      PicksNext(at, n, NotEmpty(members));
      at := at + if members[n] == Str("") then [] else [n];
    }
  }

  /** The in-place compaction of an enum list: the kept members end up, in order, in the array's first n cells. */
  method CompactEnum(members: array<Json>) returns (n: nat)
    modifies members
    ensures n <= members.Length && members[..n] == DropEmpty(old(members[..]))
  {
    n := 0;
    ghost var was := members[..];
    for i := 0 to members.Length
      invariant n <= i && forall j :: i <= j < members.Length ==> members[j] == was[j]
      invariant members[..n] == DropEmpty(was[..i])
    {
      assert was[..i + 1] == was[..i] + [was[i]];
      DropEmptySnoc(was[..i], was[i]);
      var v := members[i];
      if v == Str("") {
        continue;
      }
      members[n] := v;
      n := n + 1;
    }
    assert was[..members.Length] == was;
  }

  /** `type: [X, "null"]` becomes `type: X, nullable: true`. */
  function RewriteType(node: map<string, Json>): map<string, Json> {
    if "type" in node && node["type"].Arr? then
      var types := node["type"].items;
      var typed := if Primary(types) != "" then node["type" := Str(Primary(types))] else node;
      if Str("null") in types then typed["nullable" := Bool(true)] else typed
    else node
  }

  function RewriteEnum(node: map<string, Json>): map<string, Json> {
    if "enum" in node && node["enum"].Arr? then
      var kept := DropEmpty(node["enum"].items);
      if kept == [] then node - {"enum"} else node["enum" := Arr(kept)]
    else node
  }

  /** What happens at the node itself. */
  function Rewrite(node: map<string, Json>): map<string, Json> {
    RewriteEnum(RewriteType(node) - {"additionalProperties"})
  }

  function Normalize(j: Json): Json
    decreases j, 0
  {
    match j
    case Obj(node) => Obj(Rewrite(map k | k in node :: Child(node[k])))
    case _ => j
  }

  /** A map child is normalised; an array child has its map members normalised, no deeper; the rest stays. */
  function Child(j: Json): Json
    decreases j, 1
  {
    match j
    case Arr(items) => Arr(seq(|items|, i requires 0 <= i < |items| => Normalize(items[i])))
    case _ => Normalize(j)
  }

  function Children(node: map<string, Json>): map<string, Json> {
    map k | k in node :: Child(node[k])
  }

  function Members(items: seq<Json>): seq<Json> {
    seq(|items|, i requires 0 <= i < |items| => Normalize(items[i]))
  }

  lemma {:induction false} MembersKeepStrings(items: seq<Json>)
    ensures Primary(Members(items)) == Primary(items)
    ensures Str("null") in Members(items) <==> Str("null") in items
    ensures DropEmpty(Members(items)) == Members(DropEmpty(items))
    ensures DropEmpty(items) == [] <==> Members(DropEmpty(items)) == []
  {
    if items == [] {
    } else {
      MembersKeepStrings(items[1..]);
      assert Members(items)[1..] == Members(items[1..]);
      assert items == [items[0]] + items[1..] && Members(items) == [Normalize(items[0])] + Members(items[1..]);
      DropEmptyOfMembers(items[0], items[1..]);
    }
  }

  lemma DropEmptyOfMembers(head: Json, rest: seq<Json>)
    requires DropEmpty(Members(rest)) == Members(DropEmpty(rest))
    ensures DropEmpty([Normalize(head)] + Members(rest)) == Members(DropEmpty([head] + rest))
  {
    assert ([head] + rest)[1..] == rest && ([Normalize(head)] + Members(rest))[1..] == Members(rest);
    if head == Str("") {
      assert DropEmpty([head] + rest) == DropEmpty(rest);
    } else {
      assert Members([head] + DropEmpty(rest)) == [Normalize(head)] + Members(DropEmpty(rest));
    }
  }

  /** The node may be rewritten before its children, as the source does, or after: the tree is the same. */
  lemma RewriteThenChildren(node: map<string, Json>)
    ensures Normalize(Obj(node)) == Obj(Children(Rewrite(node)))
    ensures Rewrite(Children(node)) == Children(Rewrite(node))
  {
    var typed := RewriteType(node);
    assert RewriteType(Children(node)) == Children(typed) by { TypeCommutes(node); }
    var kept := typed - {"additionalProperties"};
    assert Children(typed) - {"additionalProperties"} == Children(kept);
    EnumCommutes(kept);
    assert (map k | k in node :: Child(node[k])) == Children(node);
  }

  lemma ChildrenUpdate(node: map<string, Json>, k: string, j: Json)
    ensures Children(node[k := j]) == Children(node)[k := Child(j)]
    ensures Children(node - {k}) == Children(node) - {k}
  {
  }

  lemma ChildShape(j: Json)
    ensures Child(j).Arr? <==> j.Arr?
    ensures Child(j).Obj? <==> j.Obj?
    ensures !j.Arr? && !j.Obj? ==> Child(j) == j
    ensures j.Arr? ==> Child(j) == Arr(Members(j.items))
  {
  }

  lemma TypeCommutes(node: map<string, Json>)
    ensures RewriteType(Children(node)) == Children(RewriteType(node))
  {
    if "type" in node {
      ChildShape(node["type"]);
    }
    if "type" in node && node["type"].Arr? {
      var types := node["type"].items;
      MembersKeepStrings(types);
      assert Children(node)["type"] == Arr(Members(types));
      var typed := if Primary(types) != "" then node["type" := Str(Primary(types))] else node;
      ChildrenUpdate(node, "type", Str(Primary(types)));
      ChildrenUpdate(typed, "nullable", Bool(true));
    }
  }

  lemma EnumCommutes(node: map<string, Json>)
    ensures RewriteEnum(Children(node)) == Children(RewriteEnum(node))
  {
    if "enum" in node {
      ChildShape(node["enum"]);
    }
    if "enum" in node && node["enum"].Arr? {
      var kept := DropEmpty(node["enum"].items);
      MembersKeepStrings(node["enum"].items);
      assert Children(node)["enum"] == Arr(Members(node["enum"].items));
      assert Child(Arr(kept)) == Arr(Members(kept));
      ChildrenUpdate(node, "enum", Arr(kept));
    }
  }

  /** The walk goes into the maps of a list and no further: lists inside lists, and scalars, stay as they are. */
  lemma ListsInListsStay(items: seq<Json>)
    requires forall i :: 0 <= i < |items| ==> !items[i].Obj?
    ensures Child(Arr(items)) == Arr(items)
  {
  }

  /** A map among them, or directly below a key, is normalised like any other. */
  lemma MapsAreWalked(items: seq<Json>, i: nat, node: map<string, Json>)
    requires i < |items| && items[i] == Obj(node)
    ensures Child(Arr(items)).items[i] == Normalize(Obj(node)) == Child(Obj(node))
  {
  }

  // ---------------------------------------------------------------- idempotence

  lemma {:induction false} DropEmptyTwice(members: seq<Json>)
    ensures DropEmpty(DropEmpty(members)) == DropEmpty(members)
  {
    if members == [] {
    } else {
      DropEmptyTwice(members[1..]);
      if members[0] != Str("") {
        assert DropEmpty(members)[1..] == DropEmpty(members[1..]);
      } else {
        assert DropEmpty(members) == DropEmpty(members[1..]);
      }
    }
  }

  lemma TypeTwice(node: map<string, Json>)
    ensures RewriteType(RewriteType(node)) == RewriteType(node)
  {
  }

  lemma EnumTwice(node: map<string, Json>)
    ensures RewriteEnum(RewriteEnum(node)) == RewriteEnum(node)
  {
    if "enum" in node && node["enum"].Arr? {
      DropEmptyTwice(node["enum"].items);
    }
  }

  /** A node whose type rewriting is done stays so whatever happens to its other keys. */
  lemma TypeStaysDone(node: map<string, Json>, after: map<string, Json>)
    requires RewriteType(node) == node
    requires forall k | k in {"type", "nullable"} :: (k in after <==> k in node) && (k in node ==> after[k] == node[k])
    ensures RewriteType(after) == after
  {
    if "type" in node && node["type"].Arr? {
      assert "type" in after && after["type"] == node["type"];
      assert Str("null") in node["type"].items ==> "nullable" in node && node["nullable"] == Bool(true);
    }
  }

  lemma RewriteTwice(node: map<string, Json>)
    ensures Rewrite(Rewrite(node)) == Rewrite(node)
  {
    var typed := RewriteType(node);
    TypeTwice(node);
    var kept := typed - {"additionalProperties"};
    EnumTwice(kept);
    var done := RewriteEnum(kept);
    TypeStaysDone(typed, done);
    assert done - {"additionalProperties"} == done;
  }

  /** Normalising a normalised schema changes nothing. */
  lemma {:induction false} NormalizeTwice(j: Json)
    ensures Normalize(Normalize(j)) == Normalize(j)
    decreases j, 0
  {
    if j.Obj? {
      var node := j.fields;
      var inner := Children(node);
      assert (map k | k in node :: Child(node[k])) == inner;
      RewriteThenChildren(Rewrite(inner));
      RewriteThenChildren(inner);
      RewriteTwice(inner);
      forall k | k in node ensures Child(Child(node[k])) == Child(node[k]) {
        ChildTwice(node[k]);
      }
      assert Children(inner) == inner;
      assert Normalize(j) == Obj(Rewrite(inner));
      assert Normalize(Normalize(j)) == Obj(Rewrite(Children(Rewrite(inner))));
      assert Children(Rewrite(inner)) == Rewrite(Children(inner));
    }
  }

  lemma {:induction false} ChildTwice(j: Json)
    ensures Child(Child(j)) == Child(j)
    decreases j, 1
  {
    if j.Arr? {
      forall i | 0 <= i < |j.items| ensures Normalize(Normalize(j.items[i])) == Normalize(j.items[i]) {
        NormalizeTwice(j.items[i]);
      }
      assert Child(j) == Arr(Members(j.items));
      assert Members(Members(j.items)) == Members(j.items);
    } else {
      NormalizeTwice(j);
    }
  }

  // ---------------------------------------------------------------- forbidden constructs

  /** Nothing Gemini rejects, wherever a map hangs below another map directly or through one array. */
  predicate Acceptable(j: Json)
    decreases j, 0
  {
    j.Obj? ==>
      && "additionalProperties" !in j.fields
      && ("type" in j.fields ==> !j.fields["type"].Arr?)
      && ("enum" in j.fields && j.fields["enum"].Arr? ==>
        j.fields["enum"].items != [] && Str("") !in j.fields["enum"].items)
      && (forall k :: k in j.fields ==> AcceptableChild(j.fields[k]))
  }

  predicate AcceptableChild(j: Json)
    decreases j, 1
  {
    if j.Arr? then forall i :: 0 <= i < |j.items| ==> Acceptable(j.items[i]) else Acceptable(j)
  }

  /** The keys whose values the node's rewrite discards. */
  function Discarded(node: map<string, Json>): set<string> {
    {"additionalProperties"} +
    if "type" in node && node["type"].Arr?
    then {"type"} + (if Str("null") in node["type"].items then {"nullable"} else {}) else {}
  }

  /** Every type union that survives names some type besides null. */
  predicate UnionsHaveAType(j: Json)
    decreases j, 0
  {
    j.Obj? ==>
      && ("type" in j.fields && j.fields["type"].Arr? ==> Primary(j.fields["type"].items) != "")
      && (forall k :: k in j.fields && k !in Discarded(j.fields) ==> UnionsHaveATypeChild(j.fields[k]))
  }

  predicate UnionsHaveATypeChild(j: Json)
    decreases j, 1
  {
    if j.Arr? then forall i :: 0 <= i < |j.items| ==> UnionsHaveAType(j.items[i]) else UnionsHaveAType(j)
  }

  /** The rewritten node, key by key. */
  lemma RewriteAt(node: map<string, Json>, k: string)
    ensures var out, union := Rewrite(node), "type" in node && node["type"].Arr?;
      match k
      case "additionalProperties" => k !in out
      case "type" =>
        && (k in out <==> k in node)
        && (k in node ==>
            out[k] == if union && Primary(node[k].items) != "" then Str(Primary(node[k].items)) else node[k])
      case "nullable" =>
        if union && Str("null") in node["type"].items then k in out && out[k] == Bool(true)
        else (k in out <==> k in node) && (k in node ==> out[k] == node[k])
      case "enum" =>
        if k in node && node[k].Arr? then
          if DropEmpty(node[k].items) == [] then k !in out else k in out && out[k] == Arr(DropEmpty(node[k].items))
        else (k in out <==> k in node) && (k in node ==> out[k] == node[k])
      case _ => (k in out <==> k in node) && (k in node ==> out[k] == node[k])
  {
  }

  lemma {:induction false} ChildAcceptableIff(j: Json)
    ensures AcceptableChild(Child(j)) <==> UnionsHaveATypeChild(j)
    decreases j, 1
  {
    if j.Arr? {
      forall i | 0 <= i < |j.items| ensures Acceptable(Normalize(j.items[i])) <==> UnionsHaveAType(j.items[i]) {
        NormalizeAcceptableIff(j.items[i]);
      }
      assert Child(j) == Arr(Members(j.items));
      assert forall i :: 0 <= i < |j.items| ==> Members(j.items)[i] == Normalize(j.items[i]);
    } else {
      NormalizeAcceptableIff(j);
    }
  }

  predicate AllAcceptable(members: seq<Json>) {
    members == [] || (Acceptable(Normalize(members[0])) && AllAcceptable(members[1..]))
  }

  lemma {:induction false} MembersAcceptable(members: seq<Json>)
    ensures AcceptableChild(Child(Arr(members))) <==> AllAcceptable(members)
  {
    ChildShape(Arr(members));
    if members != [] {
      MembersAcceptable(members[1..]);
      ChildShape(Arr(members[1..]));
      var out, rest := Members(members), Members(members[1..]);
      assert out[0] == Normalize(members[0]) && out[1..] == rest;
      assert (forall i :: 0 <= i < |out| ==> Acceptable(out[i])) <==>
             (Acceptable(out[0]) && forall i :: 0 <= i < |rest| ==> Acceptable(rest[i])) by {
        assert forall i :: 1 <= i < |out| ==> out[i] == rest[i - 1];
        assert forall i :: 0 <= i < |rest| ==> rest[i] == out[i + 1];
      }
    }
  }

  lemma {:induction false} DropEmptyAcceptable(members: seq<Json>)
    ensures AllAcceptable(DropEmpty(members)) <==> AllAcceptable(members)
  {
    if members == [] {
    } else {
      DropEmptyAcceptable(members[1..]);
      if members[0] == Str("") {
        assert DropEmpty(members) == DropEmpty(members[1..]) && Acceptable(Normalize(members[0]));
      } else {
        assert DropEmpty(members)[0] == members[0] && DropEmpty(members)[1..] == DropEmpty(members[1..]);
      }
    }
  }

  lemma {:induction false} UnionsOfMembers(members: seq<Json>)
    requires forall i :: 0 <= i < |members| ==> (Acceptable(Normalize(members[i])) <==> UnionsHaveAType(members[i]))
    ensures AllAcceptable(members) <==> UnionsHaveATypeChild(Arr(members))
  {
    if members == [] {
    } else {
      var rest := members[1..];
      assert forall i :: 0 <= i < |rest| ==> rest[i] == members[i + 1];
      UnionsOfMembers(rest);
      assert forall i :: 1 <= i < |members| ==> members[i] == rest[i - 1];
    }
  }

  /** A key whose value survives: acceptable afterwards exactly when its unions name types. */
  lemma {:induction false} KeyAcceptableIff(node: map<string, Json>, k: string)
    requires k in node && k !in Discarded(node)
    ensures (k in Rewrite(node) ==> AcceptableChild(Child(Rewrite(node)[k]))) <==> UnionsHaveATypeChild(node[k])
    decreases node[k], 2
  {
    RewriteAt(node, k);
    if k == "enum" && node[k].Arr? {
      var members := node[k].items;
      forall i | 0 <= i < |members| ensures Acceptable(Normalize(members[i])) <==> UnionsHaveAType(members[i]) {
        NormalizeAcceptableIff(members[i]);
      }
      MembersAcceptable(DropEmpty(members));
      DropEmptyAcceptable(members);
      UnionsOfMembers(members);
    } else {
      ChildAcceptableIff(node[k]);
    }
  }

  /** The rewrite removes every forbidden construct exactly when every surviving type union names a type. */
  lemma {:induction false} NormalizeAcceptableIff(j: Json)
    ensures Acceptable(Normalize(j)) <==> UnionsHaveAType(j)
    decreases j, 0
  {
    if j.Obj? {
      var node := j.fields;
      forall k | k in node && k !in Discarded(node)
        ensures (k in Rewrite(node) ==> AcceptableChild(Child(Rewrite(node)[k]))) <==> UnionsHaveATypeChild(node[k])
      {
        KeyAcceptableIff(node, k);
      }
      RewriteThenChildren(node);
      NodeAcceptableIff(node);
    }
  }

  lemma NodeAcceptableIff(node: map<string, Json>)
    requires forall k :: k in node && k !in Discarded(node) ==>
      ((k in Rewrite(node) ==> AcceptableChild(Child(Rewrite(node)[k]))) <==> UnionsHaveATypeChild(node[k]))
    ensures Acceptable(Obj(Children(Rewrite(node)))) <==> UnionsHaveAType(Obj(node))
  {
    var kept := Rewrite(node);
    var out := Children(kept);
    RewriteAt(node, "type");
    if "type" in kept {
      ChildShape(kept["type"]);
    }
    if UnionsHaveAType(Obj(node)) {
      NodeAcceptable(node);
    }
    if Acceptable(Obj(out)) {
      assert forall k :: k in kept ==> AcceptableChild(out[k]);
      assert UnionsHaveAType(Obj(node));
    }
  }

  lemma NodeAcceptable(node: map<string, Json>)
    requires forall k :: k in node && k !in Discarded(node) ==>
      ((k in Rewrite(node) ==> AcceptableChild(Child(Rewrite(node)[k]))) <==> UnionsHaveATypeChild(node[k]))
    requires UnionsHaveAType(Obj(node))
    ensures Acceptable(Obj(Children(Rewrite(node))))
  {
    var kept := Rewrite(node);
    var out := Children(kept);
    RewriteAt(node, "additionalProperties");
    RewriteAt(node, "type");
    RewriteAt(node, "enum");
    if "type" in kept {
      ChildShape(kept["type"]);
    }
    if "enum" in kept && kept["enum"].Arr? {
      EnumLeftClean(node["enum"].items);
    }
    if "enum" in kept {
      ChildShape(kept["enum"]);
    }
    forall k | k in out ensures AcceptableChild(out[k]) {
      RewriteAt(node, k);
    }
  }

  lemma EnumLeftClean(members: seq<Json>)
    ensures Str("") !in Members(DropEmpty(members))
  {
    DropEmptyMembers(members, Str(""));
    var kept := DropEmpty(members);
    forall i | 0 <= i < |kept| ensures Members(kept)[i] != Str("") {
      assert kept[i] in kept;
    }
  }
}
