/**
 * The renderer as the operator runs it: nested maps on the heap, edited in place through the
 * references that childMap hands out. The maps stay a tree without sharing, and the tree they
 * spell out is the one the pure functions of module Render compute.
 */
module RenderHeap {
  import opened Sequences
  import opened JsonTree
  import opened Ordering
  import opened Settings
  import opened FirstMatch
  import opened Clients
  import opened Render

  /** A value of a Go map: another map, by reference, or anything else. */
  datatype Value = Plain(json: Json) | Nested(node: MapNode)

  class MapNode {
    var fields: map<string, Value>
    ghost var repr: set<MapNode>

    ghost predicate Valid()
      reads this, repr
      decreases repr
    {
      && this in repr
      && (forall k :: k in fields && fields[k].Plain? ==> !fields[k].json.JObj?)
      && (forall k :: k in fields && fields[k].Nested? ==>
            var c := fields[k].node;
            c in repr && c.repr <= repr && this !in c.repr && c.Valid())
      && (forall k, l :: k in fields && l in fields && k != l && fields[k].Nested? && fields[l].Nested? ==>
            fields[k].node.repr !! fields[l].node.repr)
    }

    /** The JSON object spelled out by this node and the nodes below it. */
    ghost function Tree(): JsonObject
      requires Valid()
      reads this, repr
      decreases repr
    {
      map k | k in fields :: if fields[k].Plain? then fields[k].json else JObj(fields[k].node.Tree())
    }

    constructor ()
      ensures Valid() && fresh(repr) && Tree() == map[] && fields == map[]
    {
      fields := map[];
      repr := {this};
    }

    method Set(key: string, j: Json)
      requires Valid() && !j.JObj?
      modifies this
      ensures Valid() && repr == old(repr)
      ensures Tree() == old(Tree())[key := j]
    {
      fields := fields[key := Plain(j)];
    }
  }

  ghost predicate OwnedBy(m: MapNode, c: MapNode)
    reads m, c, c.repr
  {
    c.Valid() && c in m.repr && c.repr <= m.repr && m !in c.repr
  }

  /** A node whose children own disjoint trees spells out what they spell out. */
  lemma Reassembled(m: MapNode, key: string, child: MapNode, tree: JsonObject)
    requires m in m.repr && key in m.fields && m.fields[key] == Nested(child) && OwnedBy(m, child)
    requires tree.Keys == m.fields.Keys
    requires forall k :: k in m.fields && m.fields[k].Plain? ==> m.fields[k].json == tree[k] && !tree[k].JObj?
    requires forall k :: k in m.fields && k != key && m.fields[k].Nested? ==>
      var c := m.fields[k].node; OwnedBy(m, c) && c.repr !! child.repr && JObj(c.Tree()) == tree[k]
    requires forall k, l :: k in m.fields && l in m.fields && k != l && k != key && l != key ==>
      m.fields[k].Nested? && m.fields[l].Nested? ==> m.fields[k].node.repr !! m.fields[l].node.repr
    ensures m.Valid() && m.Tree() == tree[key := JObj(child.Tree())]
  {
    assert m.Valid();
    assert m.Tree() == tree[key := JObj(child.Tree())];
  }

  /** Hangs a tree of its own below `parent`. */
  method Attach(parent: MapNode, key: string, child: MapNode)
    requires parent.Valid() && child.Valid() && parent.repr !! child.repr
    modifies parent
    ensures parent.Valid() && parent.repr == old(parent.repr) + child.repr
    ensures parent.fields == old(parent.fields)[key := Nested(child)]
    ensures child.Valid() && parent.Tree() == old(parent.Tree())[key := JObj(old(child.Tree()))]
  {
    ghost var tree, below := parent.Tree(), child.Tree();
    parent.fields := parent.fields[key := Nested(child)];
    parent.repr := parent.repr + child.repr;
    assert child.Valid() && child.Tree() == below by {
      assert forall o :: o in child.repr ==> unchanged(o);
    }
    forall k | k in parent.fields && k != key && parent.fields[k].Nested?
      ensures var c := parent.fields[k].node; OwnedBy(parent, c) && c.repr !! child.repr && JObj(c.Tree()) == tree[k]
    {
      var c := parent.fields[k].node;
      assert old(c.Valid()) && c.repr == old(c.repr) && c.repr <= old(parent.repr);
    }
    Reassembled(parent, key, child, tree[key := JObj(below)]);
  }

  /** The map under `key`, put there when there is none. */
  method ChildMap(parent: MapNode, key: string) returns (child: MapNode)
    requires parent.Valid()
    modifies parent
    ensures parent.Valid() && child.Valid() && fresh(parent.repr - old(parent.repr))
    ensures key in parent.fields && parent.fields[key] == Nested(child)
    ensures child.Tree() == Child(old(parent.Tree()), key)
    ensures parent.Tree() == old(parent.Tree())[key := JObj(child.Tree())]
  {
    if key in parent.fields && parent.fields[key].Nested? {
      child := parent.fields[key].node;
      assert parent.Tree()[key] == JObj(child.Tree());
    } else {
      assert key in parent.fields ==> parent.Tree()[key] == parent.fields[key].json;
      child := new MapNode();
      Attach(parent, key, child);
    }
  }

  lemma Overwritten(was: JsonObject, mid: JsonObject, key: string, j: Json)
    requires key in mid && mid == was[key := mid[key]]
    ensures mid[key := j] == was[key := j]
  {
  }

  /**
   * childMap along the path and an assignment at its end. A change below a child shows in the parent
   * under that key and nowhere else, because no other child shares a node with it.
   */
  method SetAt(m: MapNode, path: Path, j: Json)
    requires m.Valid() && !j.JObj?
    modifies m.repr
    ensures m.Valid() && fresh(m.repr - old(m.repr))
    ensures m.Tree() == Put(old(m.Tree()), path, j)
    decreases |path|, 1
  {
    if |path| == 1 {
      m.Set(path[0], j);
    } else {
      ghost var was := m.Tree();
      var child := ChildMap(m, path[0]);
      ghost var mid := m.Tree();
      assert fresh(m.repr - old(m.repr)) && child.Tree() == Child(was, path[0]);
      SetBelow(m, path[0], child, path[1..], j);
      Overwritten(was, mid, path[0], JObj(Put(Child(was, path[0]), path[1..], j)));
    }
  }

  method SetBelow(m: MapNode, key: string, child: MapNode, path: Path, j: Json)
    requires m.Valid() && key in m.fields && m.fields[key] == Nested(child) && !j.JObj?
    modifies m.repr
    ensures m.Valid() && fresh(m.repr - old(m.repr))
    ensures m.Tree() == old(m.Tree())[key := JObj(Put(old(child.Tree()), path, j))]
    decreases |path|, 2
  {
    ghost var fields, tree := m.fields, m.Tree();
    ghost var below := Put(child.Tree(), path, j);
    SetAt(child, path, j);
    m.repr := m.repr + child.repr;
    assert child.Tree() == below;
    forall k | k in fields && k != key && fields[k].Nested?
      ensures var c := fields[k].node;
        OwnedBy(m, c) && c.repr == old(c.repr) && c.repr !! child.repr && JObj(c.Tree()) == tree[k]
    {
      var c := fields[k].node;
      assert old(c.Valid()) && c.repr !! old(child.repr);
      assert forall o :: o in old(c.repr) ==> unchanged(o);
    }
    Reassembled(m, key, child, tree);
    assert m.Tree() == tree[key := JObj(below)];
  }

  method ApplyFileBackend(root: MapNode, settings: AutheliaSettings)
    requires root.Valid()
    modifies root.repr
    ensures root.Valid() && fresh(root.repr - old(root.repr))
    ensures root.Tree() == WithFileBackend(old(root.Tree()), settings)
  {
    if settings.fileUsersSecret.Some? {
      SetAt(root, FILE_PATH, JStr(FileUsersPath(settings.fileUsersSecret.value)));
    }
  }

  /** What a map holds at `leaf` below `key`; the map at `key` is put there when there is none. */
  method ReadBelow(m: MapNode, key: string, leaf: string) returns (v: Option<Json>)
    requires m.Valid()
    modifies m.repr
    ensures m.Valid() && fresh(m.repr - old(m.repr))
    ensures m.Tree() == old(m.Tree())[key := JObj(Child(old(m.Tree()), key))]
    ensures v.Some? <==> Lookup(old(m.Tree()), [key, leaf]).Some?
    ensures v.Some? && !v.value.JObj? ==> v == Lookup(old(m.Tree()), [key, leaf])
    ensures v.Some? && v.value.JObj? ==> Lookup(old(m.Tree()), [key, leaf]).value.JObj?
  {
    LookupTwo(m.Tree(), key, leaf);
    var child := ChildMap(m, key);
    if leaf !in child.fields {
      v := None;
    } else {
      assert leaf in child.Tree();
      match child.fields[leaf]
      case Plain(j) => v := Some(j);
      case Nested(_) => v := Some(JObj(map[]));
    }
  }

  method ApplySession(root: MapNode, hostname: string)
    requires root.Valid()
    modifies root.repr
    ensures root.Valid() && fresh(root.repr - old(root.repr))
    ensures root.Tree() == WithSession(old(root.Tree()), hostname)
  {
    if hostname == "" {
      return;
    }
    PutInRoom(root.Tree(), "session", "cookies", DefaultCookies(hostname));
    LookupTwo(root.Tree(), "session", "cookies");
    var cookies := ReadBelow(root, "session", "cookies");
    if cookies.None? {
      SetAt(root, COOKIES_PATH, DefaultCookies(hostname));
    }
  }

  method PrependRules(root: MapNode, rules: seq<Json>)
    requires root.Valid()
    modifies root.repr
    ensures root.Valid() && fresh(root.repr - old(root.repr))
    ensures root.Tree() == WithRules(old(root.Tree()), rules)
  {
    if rules == [] {
      return;
    }
    var existing := ReadBelow(root, "access_control", "rules");
    var items := if existing.Some? && existing.value.JArr? then existing.value.items else [];
    PutInRoom(old(root.Tree()), "access_control", "rules", JArr(rules + items));
    SetAt(root, RULES_PATH, JArr(rules + items));
  }

  method ClientMaps(sorted: seq<OidcClient>) returns (maps: seq<Json>)
    ensures maps == Map(ClientJson, sorted)
  {
    maps := [];
    for i := 0 to |sorted|
      invariant maps == Map(ClientJson, sorted[..i])
    {
      PrefixOneMore(sorted, i);
      MapAppend(ClientJson, sorted[..i], sorted[i]);
      maps := maps + [ClientJson(sorted[i])];
    }
    assert sorted[..|sorted|] == sorted;
  }

  lemma NoneLost(sorted: seq<OidcClient>, clients: seq<OidcClient>)
    requires multiset(sorted) == multiset(clients)
    ensures sorted == [] <==> clients == []
  {
    PermutationMember(sorted, clients);
  }

  method InjectClients(root: MapNode, clients: seq<OidcClient>) returns (ghost ordered: seq<OidcClient>)
    requires root.Valid()
    modifies root.repr
    ensures root.Valid() && fresh(root.repr - old(root.repr))
    ensures SortedPermutation(IDLess, ordered, clients)
    ensures root.Tree() == WithClients(old(root.Tree()), ordered)
  {
    ordered := clients;
    if clients == [] {
      return;
    }
    var sorted := SortClients(clients);
    ordered := sorted;
    NoneLost(sorted, clients);
    var maps := ClientMaps(sorted);
    SetAt(root, CLIENTS_PATH, JArr(maps));
    assert ClientsValue(ordered) == Some(JArr(maps));
  }

  /** Decoding additionalConfig: a tree of new maps. */
  method Load(fields: JsonObject, ghost within: Json) returns (node: MapNode)
    requires within == JObj(fields)
    ensures node.Valid() && fresh(node.repr) && node.Tree() == fields
    decreases within
  {
    node := new MapNode();
    var rest := fields.Keys;
    while rest != {}
      invariant node.Valid() && fresh(node.repr) && rest <= fields.Keys
      invariant node.Tree() == fields - rest
      decreases |rest|
    {
      var k: string :| k in rest;
      if fields[k].JObj? {
        var child := Load(fields[k].fields, fields[k]);
        Attach(node, k, child);
      } else {
        node.Set(k, fields[k]);
      }
      DomainOneLess(fields, rest, k);
      rest := rest - {k};
    }
    assert node.Tree() == fields;
  }

  /** The whole rendering: what it leaves on the heap is the tree of module Render. */
  method RenderConfig(settings: AutheliaSettings, clients: seq<OidcClient>, rules: seq<Json>, hostname: string)
    returns (root: MapNode, ghost ordered: seq<OidcClient>)
    ensures root.Valid() && fresh(root.repr)
    ensures SortedPermutation(IDLess, ordered, clients)
    ensures root.Tree() == RenderTree(settings, ordered, rules, hostname)
  {
    root := Load(settings.additionalConfig, JObj(settings.additionalConfig));
    ApplyFileBackend(root, settings);
    ApplySession(root, hostname);
    PrependRules(root, rules);
    ordered := InjectClients(root, clients);
  }
}
