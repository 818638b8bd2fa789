/** Which schemas a document reaches: by a worklist over every reference, and by a depth-first
    search over `allOf` that shares one set of names already seen. */
module SchemaClosure {
  import opened Wrappers
  import opened Texts

  // ---------------------------------------------------------------- documents

  datatype Node = Obj(fields: seq<Field>) | Arr(items: seq<Node>) | Text(text: string) | Other

  datatype Field = Field(key: string, value: Node)

  const PREFIX: string := "#/components/schemas/"

  function Get(fields: seq<Field>, key: string): Option<Node> {
    if fields == [] then None
    else if fields[0].key == key then Some(fields[0].value) else Get(fields[1..], key)
  }

  /** `ref.rsplit("/", 1)[1]`. */
  function LastSegment(s: string): string {
    var parts := Split(s, '/');
    parts[|parts| - 1]
  }

  /** The schema that a `$ref` names. */
  function Named(ref: Option<Node>): Option<string> {
    if ref.Some? && ref.value.Text? && PREFIX <= ref.value.text then Some(LastSegment(ref.value.text)) else None
  }

  function Target(ref: Option<Node>): set<string> {
    if Named(ref).Some? then {Named(ref).value} else {}
  }

  /** Every schema name referred to anywhere in a node. */
  function Refs(node: Node): set<string>
    decreases node
  {
    match node
    case Obj(fields) => Target(Get(fields, "$ref")) + FieldRefs(fields)
    case Arr(items) => ItemRefs(items)
    case _ => {}
  }

  function FieldRefs(fields: seq<Field>): set<string>
    decreases fields
  {
    if fields == [] then {} else Refs(fields[0].value) + FieldRefs(fields[1..])
  }

  function ItemRefs(items: seq<Node>): set<string>
    decreases items
  {
    if items == [] then {} else Refs(items[0]) + ItemRefs(items[1..])
  }

  /** A node is part of another: it, or inside a value of it or an item of it. */
  ghost predicate Contains(node: Node, part: Node)
    decreases node
  {
    || part == node
    || (node.Obj? && exists i :: 0 <= i < |node.fields| && Contains(node.fields[i].value, part))
    || (node.Arr? && exists i :: 0 <= i < |node.items| && Contains(node.items[i], part))
  }

  /** The text points into the schemas, and `name` is what follows its last slash. */
  ghost predicate PointsTo(text: string, name: string) {
    && (exists rest :: text == "#/components/schemas/" + rest)
    && Free(name, '/') && exists before :: text == before + (['/'] + name)
  }

  /** The first field called `$ref` points to the schema. */
  ghost predicate RefersTo(part: Node, name: string) {
    part.Obj? && exists i :: 0 <= i < |part.fields| && IsFirst(part.fields, "$ref", i)
                            && part.fields[i].value.Text? && PointsTo(part.fields[i].value.text, name)
  }

  predicate IsFirst(fields: seq<Field>, key: string, i: nat)
    requires i < |fields|
  {
    fields[i].key == key && forall j :: 0 <= j < i ==> fields[j].key != key
  }

  /** Some object that is part of the node refers to the schema. */
  ghost predicate Has(node: Node, name: string) {
    exists part :: Contains(node, part) && RefersTo(part, name)
  }

  lemma {:induction false} GetFinds(fields: seq<Field>, key: string)
    ensures Get(fields, key).Some? <==> exists i :: 0 <= i < |fields| && IsFirst(fields, key, i)
    ensures forall i :: 0 <= i < |fields| && IsFirst(fields, key, i) ==> Get(fields, key) == Some(fields[i].value)
  {
    if fields != [] {
      var rest := fields[1..];
      GetFinds(rest, key);
      if fields[0].key == key {
        assert IsFirst(fields, key, 0);
      } else {
        forall i | 0 <= i < |fields| ensures IsFirst(fields, key, i) <==> i > 0 && IsFirst(rest, key, i - 1) {
          assert forall j :: 0 <= j < |rest| ==> rest[j] == fields[j + 1];
        }
        if i: int :| 0 <= i < |rest| && IsFirst(rest, key, i) {
          assert IsFirst(fields, key, i + 1);
        }
      }
    }
  }

  lemma {:induction false} LastPart(text: string)
    ensures var last := LastSegment(text);
      Free(last, '/') && (if Free(text, '/') then last == text else exists before :: text == before + (['/'] + last))
  {
    if Free(text, '/') {
      SplitFree(text, '/');
    } else {
      var i := LastSlash(text);
      var before, last := text[..i], text[i + 1..];
      assert text == before + (['/'] + last);
      SplitAtSeparator(before, last, '/');
      SplitFree(last, '/');
    }
  }

  lemma {:induction false} LastSlash(text: string) returns (i: nat)
    requires !Free(text, '/')
    ensures i < |text| && text[i] == '/' && Free(text[i + 1..], '/')
  {
    i := |text| - 1;
    if text[i] != '/' {
      i := LastSlash(text[..i]);
      assert text[i + 1..] == text[..|text| - 1][i + 1..] + [text[|text| - 1]];
    }
  }

  lemma TargetIsPointedTo(text: string, name: string)
    ensures Named(Some(Text(text))) == Some(name) <==> PointsTo(text, name)
  {
    if PREFIX <= text {
      assert text == "#/components/schemas/" + text[|PREFIX|..];
      assert text[|PREFIX| - 1] == '/';
      LastPart(text);
      if PointsTo(text, name) {
        var before :| text == before + (['/'] + name);
        SplitAtSeparator(before, name, '/');
        SplitFree(name, '/');
      }
    }
  }

  /** A name is referred to in a node exactly when some object that is part of it, through objects
      and lists alike, has a `$ref` that points to that name. */
  lemma {:induction false} RefsExactly(node: Node, name: string)
    ensures name in Refs(node) <==> Has(node, name)
    decreases node
  {
    match node
    case Obj(fields) =>
      FieldRefsExactly(fields, name);
      OwnTarget(fields, name);
      forall i | 0 <= i < |fields| ensures name in Refs(fields[i].value) <==> Has(fields[i].value, name) {
        RefsExactly(fields[i].value, name);
      }
      ObjectHas(fields, name);
    case Arr(items) =>
      ItemRefsExactly(items, name);
      forall i | 0 <= i < |items| ensures name in Refs(items[i]) <==> Has(items[i], name) {
        RefsExactly(items[i], name);
      }
      ListHas(items, name);
    case _ =>
  }

  lemma OwnTarget(fields: seq<Field>, name: string)
    ensures name in Target(Get(fields, "$ref")) <==> RefersTo(Obj(fields), name)
  {
    var ref := Get(fields, "$ref");
    GetFinds(fields, "$ref");
    if ref.Some? && ref.value.Text? {
      TargetIsPointedTo(ref.value.text, name);
    }
  }

  lemma ObjectHas(fields: seq<Field>, name: string)
    ensures Has(Obj(fields), name) <==>
            RefersTo(Obj(fields), name) || exists i :: 0 <= i < |fields| && Has(fields[i].value, name)
  {
    var node := Obj(fields);
    if RefersTo(node, name) {
      assert Contains(node, node);
    }
    if i: int :| 0 <= i < |fields| && Has(fields[i].value, name) {
      var part :| Contains(fields[i].value, part) && RefersTo(part, name);
      assert Contains(node, part);
    }
    if Has(node, name) && !RefersTo(node, name) {
      var part :| Contains(node, part) && RefersTo(part, name);
      var i :| 0 <= i < |fields| && Contains(fields[i].value, part);
      assert Has(fields[i].value, name);
    }
  }

  lemma ListHas(items: seq<Node>, name: string)
    ensures Has(Arr(items), name) <==> exists i :: 0 <= i < |items| && Has(items[i], name)
  {
    var node := Arr(items);
    if i: int :| 0 <= i < |items| && Has(items[i], name) {
      var part :| Contains(items[i], part) && RefersTo(part, name);
      assert Contains(node, part);
    }
    if Has(node, name) {
      var part :| Contains(node, part) && RefersTo(part, name);
      var i :| 0 <= i < |items| && Contains(items[i], part);
      assert Has(items[i], name);
    }
  }

  lemma {:induction false} FieldRefsExactly(fields: seq<Field>, name: string)
    ensures name in FieldRefs(fields) <==> exists i :: 0 <= i < |fields| && name in Refs(fields[i].value)
  {
    if fields != [] {
      FieldRefsExactly(fields[1..], name);
      assert fields == [fields[0]] + fields[1..];
    }
  }

  lemma {:induction false} ItemRefsExactly(items: seq<Node>, name: string)
    ensures name in ItemRefs(items) <==> exists i :: 0 <= i < |items| && name in Refs(items[i])
  {
    if items != [] {
      ItemRefsExactly(items[1..], name);
      assert items == [items[0]] + items[1..];
    }
  }

  /** A set of names that several calls fill. */
  class Names {
    var names: set<string>

    constructor ()
      ensures names == {}
    {
      names := {};
    }
  }

  /** `_walk`. */
  method Walk(node: Node, out: Names)
    modifies out
    ensures out.names == old(out.names) + Refs(node)
    decreases node
  {
    match node {
      case Obj(fields) =>
        out.names := out.names + Target(Get(fields, "$ref"));
        var i := 0;
        while i < |fields|
          invariant 0 <= i <= |fields|
          invariant out.names + FieldRefs(fields[i..]) == old(out.names) + Refs(node)
        {
          assert fields[i..][1..] == fields[i + 1..];
          Walk(fields[i].value, out);
          i := i + 1;
        }
      case Arr(items) =>
        var i := 0;
        while i < |items|
          invariant 0 <= i <= |items|
          invariant out.names + ItemRefs(items[i..]) == old(out.names) + Refs(node)
        {
          assert items[i..][1..] == items[i + 1..];
          Walk(items[i], out);
          i := i + 1;
        }
      case _ =>
    }
  }

  // ---------------------------------------------------------------- graphs

  /** A path from a to b along successors that stays out of `skip`. */
  ghost predicate IsPath(succ: string -> set<string>, skip: set<string>, path: seq<string>) {
    && path != [] && (forall i :: 0 <= i < |path| ==> path[i] !in skip)
    && forall i :: 0 <= i < |path| - 1 ==> path[i + 1] in succ(path[i])
  }

  ghost predicate Reaches(succ: string -> set<string>, skip: set<string>, from: set<string>, name: string) {
    exists path :: IsPath(succ, skip, path) && path[0] in from && path[|path| - 1] == name
  }

  lemma StartIsReached(succ: string -> set<string>, skip: set<string>, from: set<string>, name: string)
    requires name in from && name !in skip
    ensures Reaches(succ, skip, from, name)
  {
    assert IsPath(succ, skip, [name]);
  }

  lemma NextIsReached(succ: string -> set<string>, skip: set<string>, from: set<string>, name: string, next: string)
    requires Reaches(succ, skip, from, name) && next in succ(name) && next !in skip
    ensures Reaches(succ, skip, from, next)
  {
    var path :| IsPath(succ, skip, path) && path[0] in from && path[|path| - 1] == name;
    var longer := path + [next];
    assert IsPath(succ, skip, longer);
    assert longer[0] in from && longer[|longer| - 1] == next;
  }

  /** A set that holds the start and, but for what is skipped, the successors of its members
      holds everything reached. */
  lemma {:induction false} ClosedHoldsPath(succ: string -> set<string>, skip: set<string>, from: set<string>,
                                           all: set<string>, path: seq<string>)
    requires IsPath(succ, skip, path) && path[0] in from
    requires forall a :: a in from && a !in skip ==> a in all
    requires forall a, b :: a in all && a !in skip && b in succ(a) && b !in skip ==> b in all
    ensures path[|path| - 1] in all
  {
    if |path| > 1 {
      var shorter := path[..|path| - 1];
      assert IsPath(succ, skip, shorter);
      ClosedHoldsPath(succ, skip, from, all, shorter);
      assert path[|path| - 1] in succ(shorter[|shorter| - 1]);
    }
  }

  lemma ClosedHoldsReached(succ: string -> set<string>, skip: set<string>, from: set<string>, all: set<string>)
    requires forall a :: a in from && a !in skip ==> a in all
    requires forall a, b :: a in all && a !in skip && b in succ(a) && b !in skip ==> b in all
    ensures forall name :: Reaches(succ, skip, from, name) ==> name in all
  {
    forall name | Reaches(succ, skip, from, name) ensures name in all {
      var path :| IsPath(succ, skip, path) && path[0] in from && path[|path| - 1] == name;
      ClosedHoldsPath(succ, skip, from, all, path);
    }
  }

  /** Where what is skipped already holds its own successors, skipping it loses nothing. */
  lemma {:induction false} SkippedIsClosed(succ: string -> set<string>, skip: set<string>, from: set<string>,
                                           path: seq<string>)
    requires IsPath(succ, {}, path) && path[0] in from
    requires forall a, b :: a in skip && b in succ(a) ==> b in skip
    ensures path[|path| - 1] in skip || Reaches(succ, skip, from, path[|path| - 1])
  {
    var last := path[|path| - 1];
    if |path| == 1 {
      if last !in skip {
        StartIsReached(succ, skip, from, last);
      }
    } else {
      var shorter := path[..|path| - 1];
      assert IsPath(succ, {}, shorter);
      SkippedIsClosed(succ, skip, from, shorter);
      assert last in succ(shorter[|shorter| - 1]);
      if last !in skip {
        NextIsReached(succ, skip, from, shorter[|shorter| - 1], last);
      }
    }
  }

  // ---------------------------------------------------------------- the worklist

  type Schemas = map<string, Node>

  /** A name nothing defines stands for an empty schema. */
  function Schema(schemas: Schemas, name: string): Node {
    if name in schemas then schemas[name] else Obj([])
  }

  function Follow(schemas: Schemas): string -> set<string> {
    name => Refs(Schema(schemas, name))
  }

  /** Every name any schema refers to. */
  ghost function AllRefs(schemas: Schemas): set<string> {
    set name, s | s in schemas && name in Refs(schemas[s]) :: name
  }

  /** Everything found is old or reached. */
  ghost predicate Sound(succ: string -> set<string>, was: set<string>, from: set<string>, found: set<string>) {
    forall name :: name in found && name !in was ==> Reaches(succ, was, from, name)
  }

  /** What the new names refer to is found or still to do. */
  ghost predicate Complete(succ: string -> set<string>, was: set<string>, into: set<string>, frontier: set<string>) {
    forall a, b :: a in into && a !in was && b in succ(a) ==> b in into || b in frontier
  }

  /** Part of the way through the worklist. */
  ghost predicate Underway(succ: string -> set<string>, was: set<string>, from: set<string>, into: set<string>,
                           frontier: set<string>) {
    && was <= into && from <= into + frontier
    && Sound(succ, was, from, into) && Sound(succ, was, from, frontier) && Complete(succ, was, into, frontier)
  }

  lemma UnderwayStart(succ: string -> set<string>, was: set<string>, from: set<string>)
    ensures Underway(succ, was, from, was, from)
  {
    forall name | name in from && name !in was ensures Reaches(succ, was, from, name) {
      StartIsReached(succ, was, from, name);
    }
  }

  lemma OneMore(succ: string -> set<string>, was: set<string>, from: set<string>, into: set<string>,
                frontier: set<string>, name: string,
                nested: set<string>)
    requires Underway(succ, was, from, into, frontier) && name in frontier && name !in into && nested == succ(name)
    ensures var done := into + {name}; Underway(succ, was, from, done, (frontier - {name}) + (nested - done))
  {
    forall next | next in nested && next !in was ensures Reaches(succ, was, from, next) {
      NextIsReached(succ, was, from, name, next);
    }
  }

  lemma NotAgain(succ: string -> set<string>, was: set<string>, from: set<string>, into: set<string>,
                 frontier: set<string>, name: string)
    requires Underway(succ, was, from, into, frontier) && name in into
    ensures Underway(succ, was, from, into, frontier - {name})
  {
  }

  lemma FoundIsReached(succ: string -> set<string>, was: set<string>, from: set<string>, into: set<string>)
    requires Underway(succ, was, from, into, {})
    ensures forall name :: name in into <==> name in was || Reaches(succ, was, from, name)
  {
    ClosedHoldsReached(succ, was, from, into);
  }

  /** `_walk` into a set of its own. */
  method Walked(node: Node) returns (names: set<string>)
    ensures names == Refs(node)
  {
    var out := new Names();
    Walk(node, out);
    names := out.names;
  }

  /** `_collect`: adds to `into` what is reached without passing through what was in it. */
  method Collect(schemas: Schemas, node: Node, into: Names)
    modifies into
    ensures forall name :: name in into.names <==>
              name in old(into.names) || Reaches(Follow(schemas), old(into.names), Refs(node), name)
  {
    ghost var was, from, succ := into.names, Refs(node), Follow(schemas);
    ghost var universe := from + AllRefs(schemas);
    var frontier := Walked(node);
    UnderwayStart(succ, was, from);
    while frontier != {}
      invariant frontier <= universe && Underway(succ, was, from, into.names, frontier)
      decreases universe - into.names, frontier
    {
      var name :| name in frontier;
      if name in into.names {
        NotAgain(succ, was, from, into.names, frontier, name);
        frontier := frontier - {name};
      } else {
        ghost var before := into.names;
        into.names := into.names + {name};
        var nested := Walked(Schema(schemas, name));
        OneMore(succ, was, from, before, frontier, name, nested);
        frontier := (frontier - {name}) + (nested - into.names);
      }
    }
    FoundIsReached(succ, was, from, into.names);
  }

  /** Once `into` holds the references of its own members, one call adds exactly what the node
      reaches, and `into` holds them again: the calls over all operations may share it. */
  lemma CollectsTheReachable(schemas: Schemas, node: Node, was: set<string>, now: set<string>)
    requires forall a :: a in was ==> Follow(schemas)(a) <= was
    requires forall name :: name in now <==> name in was || Reaches(Follow(schemas), was, Refs(node), name)
    ensures forall name :: name in now <==> name in was || Reaches(Follow(schemas), {}, Refs(node), name)
    ensures forall a :: a in now ==> Follow(schemas)(a) <= now
  {
    var succ := Follow(schemas);
    forall name | Reaches(succ, {}, Refs(node), name) ensures name in now {
      var path :| IsPath(succ, {}, path) && path[0] in Refs(node) && path[|path| - 1] == name;
      SkippedIsClosed(succ, was, Refs(node), path);
    }
    forall name | Reaches(succ, was, Refs(node), name) ensures Reaches(succ, {}, Refs(node), name) {
      var path :| IsPath(succ, was, path) && path[0] in Refs(node) && path[|path| - 1] == name;
      assert IsPath(succ, {}, path);
    }
    forall a, b | a in now && b in succ(a) ensures b in now {
      if a !in was && b !in was {
        NextIsReached(succ, was, Refs(node), a, b);
      }
    }
  }

  // ---------------------------------------------------------------- allOf

  function Keys(node: Option<Node>): set<string> {
    if node.Some? && node.value.Obj? then set i | 0 <= i < |node.value.fields| :: node.value.fields[i].key else {}
  }

  function FieldsOf(node: Node): seq<Field> {
    if node.Obj? then node.fields else []
  }

  /** The property names written in this object. */
  function PropertiesOf(node: Node): set<string> {
    Keys(Get(FieldsOf(node), "properties"))
  }

  /** The branches of its `allOf`. */
  function Branches(node: Node): seq<Node> {
    var all := Get(FieldsOf(node), "allOf");
    if all.Some? && all.value.Arr? then all.value.items else []
  }

  /** What an object declares: the keys of the object that its first field called "properties" holds,
      and the items of the list that its first field called "allOf" holds. */
  lemma DeclaredIn(node: Node, property: string)
    ensures property in PropertiesOf(node) <==> Declares(node, property)
    ensures forall i :: node.Obj? && 0 <= i < |node.fields| && IsFirst(node.fields, "allOf", i) ==>
              Branches(node) == if node.fields[i].value.Arr? then node.fields[i].value.items else []
    ensures Branches(node) != [] ==>
              node.Obj? && exists i :: 0 <= i < |node.fields| && IsFirst(node.fields, "allOf", i)
  {
    GetFinds(FieldsOf(node), "properties");
    GetFinds(FieldsOf(node), "allOf");
  }

  predicate Declares(node: Node, property: string) {
    node.Obj? && exists i :: 0 <= i < |node.fields| && IsFirst(node.fields, "properties", i)
                             && HasKey(node.fields[i].value, property)
  }

  predicate HasKey(node: Node, key: string) {
    node.Obj? && exists i :: 0 <= i < |node.fields| && node.fields[i].key == key
  }

  /** A branch extends the schema that it refers to itself. */
  lemma ExtendsWhatItRefersTo(branch: Node, name: string)
    ensures Extended(branch) == Some(name) <==> RefersTo(branch, name)
  {
    OwnTarget(FieldsOf(branch), name);
  }

  /** The schema a branch extends. */
  function Extended(branch: Node): Option<string> {
    Named(Get(FieldsOf(branch), "$ref"))
  }

  function ExtendedBy(branches: seq<Node>): set<string> {
    set i | 0 <= i < |branches| && Extended(branches[i]).Some? :: Extended(branches[i]).value
  }

  function BranchProperties(branches: seq<Node>): set<string> {
    if branches == [] then {} else BranchProperties(branches[..|branches| - 1]) + PropertiesOf(branches[|branches| - 1])
  }

  /** The property names a schema has of its own: in it or in place in a branch. */
  function Own(schemas: Schemas, name: string): set<string> {
    var schema := Schema(schemas, name);
    PropertiesOf(schema) + BranchProperties(Branches(schema))
  }

  function Extends(schemas: Schemas): string -> set<string> {
    name => ExtendedBy(Branches(Schema(schemas, name)))
  }

  function OwnOf(schemas: Schemas): string -> set<string> {
    name => Own(schemas, name)
  }

  ghost function OfAll(own: string -> set<string>, names: set<string>): set<string> {
    set name, p | name in names && p in own(name) :: p
  }

  lemma OfUnion(own: string -> set<string>, a: set<string>, b: set<string>)
    ensures OfAll(own, a + b) == OfAll(own, a) + OfAll(own, b)
  {
  }

  lemma OfOne(own: string -> set<string>, name: string)
    ensures OfAll(own, {name}) == own(name)
  {
  }

  ghost predicate Bounds(schemas: Schemas, universe: set<string>) {
    forall name :: Extends(schemas)(name) <= universe
  }

  /** What has been seen after a search from a name. */
  ghost function Search(schemas: Schemas, universe: set<string>, name: string, seen: set<string>): (after: set<string>)
    requires Bounds(schemas, universe) && name in universe
    ensures seen <= after && name in after
    decreases universe - seen, 0
  {
    if name in seen then seen
    else
      assert Extends(schemas)(name) <= universe;
      SearchAll(schemas, universe, Branches(Schema(schemas, name)), seen + {name})
  }

  /** What has been seen after a search from each branch in turn. */
  ghost function SearchAll(schemas: Schemas, universe: set<string>, branches: seq<Node>,
                           seen: set<string>): (after: set<string>)
    requires Bounds(schemas, universe) && ExtendedBy(branches) <= universe
    ensures seen <= after
    decreases universe - seen, 1 + |branches|
  {
    if branches == [] then seen
    else
      var first := Extended(branches[0]);
      assert first.Some? ==> first.value in ExtendedBy(branches);
      assert ExtendedBy(branches[1..]) <= ExtendedBy(branches) by { RestOfBranches(branches); }
      var next := if first.Some? then Search(schemas, universe, first.value, seen) else seen;
      SearchAll(schemas, universe, branches[1..], next)
  }

  lemma RestOfBranches(branches: seq<Node>)
    requires branches != []
    ensures ExtendedBy(branches) ==
            (if Extended(branches[0]).Some? then {Extended(branches[0]).value} else {}) + ExtendedBy(branches[1..])
  {
    forall name | name in ExtendedBy(branches) && Some(name) != Extended(branches[0])
      ensures name in ExtendedBy(branches[1..])
    {
      var i :| 0 <= i < |branches| && Extended(branches[i]) == Some(name);
      assert branches[1..][i - 1] == branches[i];
    }
    forall name | name in ExtendedBy(branches[1..]) ensures name in ExtendedBy(branches) {
      var i :| 0 <= i < |branches[1..]| && Extended(branches[1..][i]) == Some(name);
      assert branches[i + 1] == branches[1..][i];
    }
  }

  /** What one search adds to `seen`: names reached from its own, whose successors are all
      seen. */
  ghost predicate Explored(succ: string -> set<string>, from: set<string>, before: set<string>, after: set<string>) {
    && before <= after && from <= after
    && (forall a :: a in after && a !in before ==> Reaches(succ, {}, from, a))
    && (forall a, b :: a in after && a !in before && b in succ(a) ==> b in after)
  }

  lemma {:induction false} SearchExplores(schemas: Schemas, universe: set<string>, name: string, seen: set<string>)
    requires Bounds(schemas, universe) && name in universe
    ensures Explored(Extends(schemas), {name}, seen, Search(schemas, universe, name, seen))
    decreases universe - seen, 0
  {
    if name !in seen {
      var succ, branches := Extends(schemas), Branches(Schema(schemas, name));
      assert succ(name) <= universe;
      SearchAllExplores(schemas, universe, branches, seen + {name});
      ExploredFrom(succ, name, seen, SearchAll(schemas, universe, branches, seen + {name}));
    }
  }

  lemma ExploredFrom(succ: string -> set<string>, name: string, seen: set<string>, after: set<string>)
    requires Explored(succ, succ(name), seen + {name}, after)
    ensures Explored(succ, {name}, seen, after)
  {
    StartIsReached(succ, {}, {name}, name);
    forall a | a in after && a !in seen ensures Reaches(succ, {}, {name}, a) {
      if a != name {
        ReachesThrough(succ, name, a);
      }
    }
  }

  lemma ReachesThrough(succ: string -> set<string>, name: string, a: string)
    requires Reaches(succ, {}, succ(name), a)
    ensures Reaches(succ, {}, {name}, a)
  {
    var path :| IsPath(succ, {}, path) && path[0] in succ(name) && path[|path| - 1] == a;
    var longer := [name] + path;
    assert IsPath(succ, {}, longer);
    assert longer[0] in {name} && longer[|longer| - 1] == a;
  }

  lemma {:induction false} SearchAllExplores(schemas: Schemas, universe: set<string>, branches: seq<Node>,
                                             seen: set<string>)
    requires Bounds(schemas, universe) && ExtendedBy(branches) <= universe
    ensures Explored(Extends(schemas), ExtendedBy(branches), seen, SearchAll(schemas, universe, branches, seen))
    decreases universe - seen, 1 + |branches|
  {
    if branches != [] {
      var succ, first := Extends(schemas), Extended(branches[0]);
      RestOfBranches(branches);
      if first.Some? {
        var next := Search(schemas, universe, first.value, seen);
        SearchExplores(schemas, universe, first.value, seen);
        SearchAllExplores(schemas, universe, branches[1..], next);
        ExploredBoth(succ, {first.value}, ExtendedBy(branches[1..]), seen, next,
                     SearchAll(schemas, universe, branches[1..], next));
      } else {
        SearchAllExplores(schemas, universe, branches[1..], seen);
      }
    } else {
      assert ExtendedBy(branches) == {};
    }
  }

  lemma ReachesFromMore(succ: string -> set<string>, some: set<string>, all: set<string>, a: string)
    requires Reaches(succ, {}, some, a) && some <= all
    ensures Reaches(succ, {}, all, a)
  {
    var path :| IsPath(succ, {}, path) && path[0] in some && path[|path| - 1] == a;
  }

  lemma ExploredBoth(succ: string -> set<string>, f: set<string>, g: set<string>, seen: set<string>,
                     next: set<string>, after: set<string>)
    requires Explored(succ, f, seen, next) && Explored(succ, g, next, after)
    ensures Explored(succ, f + g, seen, after)
  {
    forall a | a in after && a !in seen ensures Reaches(succ, {}, f + g, a) {
      if a in next {
        ReachesFromMore(succ, f, f + g, a);
      } else {
        ReachesFromMore(succ, g, f + g, a);
      }
    }
  }

  lemma OneMoreBranch(branches: seq<Node>, i: nat)
    requires i < |branches|
    ensures BranchProperties(branches[..i + 1]) == BranchProperties(branches[..i]) + PropertiesOf(branches[i])
  {
    assert branches[..i + 1][..i] == branches[..i];
  }

  lemma {:induction false} BranchesDeclare(branches: seq<Node>, property: string)
    ensures property in BranchProperties(branches) <==>
            exists i :: 0 <= i < |branches| && Declares(branches[i], property)
  {
    if branches != [] {
      var front, last := branches[..|branches| - 1], branches[|branches| - 1];
      BranchesDeclare(front, property);
      DeclaredIn(last, property);
      assert branches == front + [last];
    }
  }

  /** A schema's own properties are those declared in it and in its branches; it refers to what some
      object in it refers to, and extends what its branches refer to. A name nothing defines has
      and refers to nothing. */
  lemma SchemaExactly(schemas: Schemas, name: string, other: string)
    ensures other in Own(schemas, name) <==>
            name in schemas && (|| Declares(schemas[name], other)
                                || exists i :: 0 <= i < |Branches(schemas[name])|
                                               && Declares(Branches(schemas[name])[i], other))
    ensures other in Follow(schemas)(name) <==> name in schemas && Has(schemas[name], other)
    ensures other in Extends(schemas)(name) <==>
            name in schemas && exists i :: 0 <= i < |Branches(schemas[name])|
                                           && RefersTo(Branches(schemas[name])[i], other)
  {
    var schema := Schema(schemas, name);
    DeclaredIn(schema, other);
    BranchesDeclare(Branches(schema), other);
    RefsExactly(schema, other);
    forall i | 0 <= i < |Branches(schema)|
      ensures Extended(Branches(schema)[i]) == Some(other) <==> RefersTo(Branches(schema)[i], other)
    {
      ExtendsWhatItRefersTo(Branches(schema)[i], other);
    }
  }

  /** `_props_of`: the property names of every schema it is first to see. */
  method PropsOf(schemas: Schemas, name: string, seen: Names, ghost universe: set<string>) returns (out: set<string>)
    requires name in universe && Bounds(schemas, universe)
    modifies seen
    ensures seen.names == Search(schemas, universe, name, old(seen.names))
    ensures out == OfAll(OwnOf(schemas), seen.names - old(seen.names))
    decreases universe - seen.names
  {
    if name in seen.names {
      return {};
    }
    ghost var was, own := seen.names, OwnOf(schemas);
    seen.names := seen.names + {name};
    var schema := Schema(schemas, name);
    var branches := Branches(schema);
    out := PropertiesOf(schema);
    ghost var with, base := was + {name}, out;
    NothingFound(own, with, out);
    assert Extends(schemas)(name) <= universe;
    assert branches[0..] == branches && branches[..0] == [];
    var i := 0;
    while i < |branches|
      invariant 0 <= i <= |branches| && ExtendedBy(branches[i..]) <= universe && with <= seen.names
      invariant SearchAll(schemas, universe, branches[i..], seen.names) == Search(schemas, universe, name, was)
      invariant base == PropertiesOf(schema) + BranchProperties(branches[..i])
      invariant out == base + OfAll(own, seen.names - with)
    {
      ghost var before := seen.names;
      OneMoreBranch(branches, i);
      RestOfBranches(branches[i..]);
      assert branches[i..][1..] == branches[i + 1..];
      var target, more := Extended(branches[i]), {};
      if target.Some? {
        more := PropsOf(schemas, target.value, seen, universe);
      } else {
        NothingFound(own, before, more);
      }
      MoreFound(own, with, before, seen.names, base, out, more, PropertiesOf(branches[i]));
      base := base + PropertiesOf(branches[i]);
      out := out + more + PropertiesOf(branches[i]);
      i := i + 1;
    }
    assert branches[..i] == branches;
    OfUnion(own, {name}, seen.names - with);
    OfOne(own, name);
    assert {name} + (seen.names - with) == seen.names - was;
  }

  lemma NothingFound(own: string -> set<string>, seen: set<string>, out: set<string>)
    ensures OfAll(own, seen - seen) == {} && out == out + OfAll(own, seen - seen)
  {
  }

  lemma MoreFound(own: string -> set<string>, with: set<string>, before: set<string>, after: set<string>,
                  base: set<string>, out: set<string>, more: set<string>, extra: set<string>)
    requires with <= before <= after && out == base + OfAll(own, before - with) && more == OfAll(own, after - before)
    ensures out + more + extra == (base + extra) + OfAll(own, after - with)
  {
    OfUnion(own, before - with, after - before);
    assert (before - with) + (after - before) == after - with;
  }

  /** Asked with nothing seen before, it gives the property names of exactly the schemas that
      `allOf` reaches, cycles, diamonds and names nothing defines included. */
  lemma SearchIsExact(schemas: Schemas, universe: set<string>, name: string)
    requires Bounds(schemas, universe) && name in universe
    ensures forall a :: a in Search(schemas, universe, name, {}) <==> Reaches(Extends(schemas), {}, {name}, a)
  {
    SearchExplores(schemas, universe, name, {});
    ClosedHoldsReached(Extends(schemas), {}, {name}, Search(schemas, universe, name, {}));
  }

  /** All the names that can occur: this one and every target in the document. */
  ghost function Universe(schemas: Schemas, name: string): set<string> {
    {name} + set s, t | s in schemas && t in ExtendedBy(Branches(schemas[s])) :: t
  }

  /** `_props_of` as it is called from outside. */
  method Properties(schemas: Schemas, name: string) returns (out: set<string>)
    ensures forall p :: p in out <==> exists a :: Reaches(Extends(schemas), {}, {name}, a) && p in Own(schemas, a)
  {
    var seen := new Names();
    out := PropsOf(schemas, name, seen, Universe(schemas, name));
    PropertiesAreReached(schemas, name, out);
  }

  lemma PropertiesAreReached(schemas: Schemas, name: string, out: set<string>)
    requires Bounds(schemas, Universe(schemas, name))
    requires out == OfAll(OwnOf(schemas), Search(schemas, Universe(schemas, name), name, {}) - {})
    ensures forall p :: p in out <==> exists a :: Reaches(Extends(schemas), {}, {name}, a) && p in Own(schemas, a)
  {
    var seen := Search(schemas, Universe(schemas, name), name, {});
    SearchIsExact(schemas, Universe(schemas, name), name);
    forall p ensures p in out <==> exists a :: Reaches(Extends(schemas), {}, {name}, a) && p in Own(schemas, a) {
      assert p in out <==> exists a :: a in seen && p in OwnOf(schemas)(a);
    }
  }
}
