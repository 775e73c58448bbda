/** FULL_PATH and compInfoMap: every parameter left in the description
    carries a FULL_PATH that is a compInfoMap key, and when no SetField call
    of the walk replaces an existing CONTENTS entry the two sets coincide. */
module Correspondence {
  import opened Basics
  import opened Names
  import opened Scene
  import opened ObjectFilter
  import opened Leaves
  import opened AddressSpace

  /** The FULL_PATH values of the parameters under a node. */
  function LeafPaths(n: Node): set<string>
  {
    match n
    case Param(_, p) => {p}
    case Container(_, m) => set k, p | k in m && p in LeafPaths(m[k]) :: p
    case Stub(_) => {}
  }

  function ContentsPaths(m: map<string, Node>): set<string>
  {
    LeafPaths(Container(0, m))
  }

  /** The keys a run of events would register. */
  function RegSet(es: seq<Event>): set<string>
  {
    set e | e in es && e.Register? :: e.path
  }

  lemma RegSetConcat(a: seq<Event>, b: seq<Event>)
    ensures RegSet(a + b) == RegSet(a) + RegSet(b)
  {
    forall p | p in RegSet(a + b) ensures p in RegSet(a) + RegSet(b) {
      var e :| e in a + b && e.Register? && e.path == p;
    }
    forall p | p in RegSet(a) + RegSet(b) ensures p in RegSet(a + b) {
      var e :| (e in a || e in b) && e.Register? && e.path == p;
      assert e in a + b;
    }
  }

  lemma {:induction false} RegSetPaths(es: seq<Event>)
    ensures RegSet(es) == set p | p in Paths(es)
    decreases |es|
  {
    if es != [] {
      RegSetPaths(es[1..]);
      assert es == [es[0]] + es[1..];
      RegSetConcat([es[0]], es[1..]);
    }
  }

  /** SetField on CONTENTS: a new key adds the node's parameters; a reused
      key may lose the parameters of the node it replaces. */
  lemma ContentsPathsUpdate(m: map<string, Node>, k: string, v: Node)
    ensures ContentsPaths(m[k := v]) <= ContentsPaths(m) + LeafPaths(v)
    ensures k !in m ==> ContentsPaths(m[k := v]) == ContentsPaths(m) + LeafPaths(v)
  {
    var m' := m[k := v];
    forall p | p in ContentsPaths(m') ensures p in ContentsPaths(m) + LeafPaths(v) {
      var k' :| k' in m' && p in LeafPaths(m'[k']);
      if k' != k {
        assert p in LeafPaths(m[k']);
      }
    }
    if k !in m {
      forall p | p in ContentsPaths(m) + LeafPaths(v) ensures p in ContentsPaths(m') {
        if p in LeafPaths(v) {
          assert k in m' && p in LeafPaths(m'[k]);
        } else {
          var k' :| k' in m && p in LeafPaths(m[k']);
          assert k' in m' && m'[k'] == m[k'];
        }
      }
    }
  }

  /** No SetField of the member loop replaces an earlier member's entry. */
  predicate MembersUnshadowed(acc: map<string, Node>, compAddress: string, ms: seq<Member>, isField: bool)
    decreases |ms|
  {
    |ms| == 0 ||
    (var m := ms[|ms| - 1];
     MembersUnshadowed(acc, compAddress, ms[..|ms| - 1], isField)
     && (MemberOutcome(m, isField).Prop? ==>
           SanitizeName(m.info.name) !in MembersInto(acc, compAddress, ms[..|ms| - 1], isField)))
  }

  predicate CompUnshadowed(c: Comp, baseAddress: string)
  {
    var a := CompAddress(c, baseAddress);
    MembersUnshadowed(map[], a, c.fields, true)
    && MembersUnshadowed(MembersInto(map[], a, c.fields, true), a, c.props, false)
  }

  predicate CompsUnshadowed(acc: map<string, Node>, cs: seq<Comp>, baseAddress: string)
    decreases |cs|
  {
    |cs| == 0 ||
    (var c := cs[|cs| - 1];
     CompsUnshadowed(acc, cs[..|cs| - 1], baseAddress)
     && (CheckFilteredComp(c.typeName) ==>
           CompKey(c) !in CompsInto(acc, cs[..|cs| - 1], baseAddress) && CompUnshadowed(c, baseAddress)))
  }

  predicate ObjectUnshadowed(f: Filter, o: Obj, baseAddress: string)
    decreases o, 1
  {
    ChildrenUnshadowed(map[], f, o.children, baseAddress)
    && CompsUnshadowed(ChildrenInto(map[], f, o.children, baseAddress), o.comps, baseAddress)
  }

  predicate ChildrenUnshadowed(acc: map<string, Node>, f: Filter, cs: seq<Obj>, baseAddress: string)
    decreases cs, 0
  {
    |cs| == 0 ||
    (var c := cs[|cs| - 1];
     ChildrenUnshadowed(acc, f, cs[..|cs| - 1], baseAddress)
     && (CheckFilteredObject(f, c) ==>
           SanitizeName(c.name) !in ChildrenInto(acc, f, cs[..|cs| - 1], baseAddress)
           && ObjectUnshadowed(f, c, ChildAddress(baseAddress, c))))
  }

  predicate SnapshotUnshadowed(f: Filter, rootObject: Option<Obj>, sceneRoots: seq<Obj>)
  {
    if rootObject.Some? then ObjectUnshadowed(f, rootObject.value, "")
    else ChildrenUnshadowed(map[], f, sceneRoots, "")
  }

  lemma {:induction false} MembersPaths(acc: map<string, Node>, c: Comp, compAddress: string, ms: seq<Member>, isField: bool)
    ensures ContentsPaths(MembersInto(acc, compAddress, ms, isField))
         <= ContentsPaths(acc) + RegSet(MembersEvents(c, compAddress, ms, isField))
    ensures MembersUnshadowed(acc, compAddress, ms, isField) ==>
      ContentsPaths(MembersInto(acc, compAddress, ms, isField))
      == ContentsPaths(acc) + RegSet(MembersEvents(c, compAddress, ms, isField))
    decreases |ms|
  {
    if |ms| > 0 {
      var front, m := ms[..|ms| - 1], ms[|ms| - 1];
      MembersPaths(acc, c, compAddress, front, isField);
      var prev := MembersInto(acc, compAddress, front, isField);
      RegSetConcat(MembersEvents(c, compAddress, front, isField), MemberEvents(c, compAddress, m, isField));
      match MemberOutcome(m, isField)
      case Prop(leaf) =>
        var key := SanitizeName(m.info.name);
        ContentsPathsUpdate(prev, key, Param(leaf, compAddress + "/" + key));
      case Unsupported =>
      case Throws(_) =>
    }
  }

  lemma CompPaths(c: Comp, baseAddress: string)
    ensures LeafPaths(Container(0, CompContents(c, baseAddress))) <= RegSet(CompEvents(c, baseAddress))
    ensures CompUnshadowed(c, baseAddress) ==>
      LeafPaths(Container(0, CompContents(c, baseAddress))) == RegSet(CompEvents(c, baseAddress))
  {
    var a := CompAddress(c, baseAddress);
    MembersPaths(map[], c, a, c.fields, true);
    MembersPaths(MembersInto(map[], a, c.fields, true), c, a, c.props, false);
    RegSetConcat(MembersEvents(c, a, c.fields, true), MembersEvents(c, a, c.props, false));
  }

  lemma {:induction false} CompsPaths(acc: map<string, Node>, cs: seq<Comp>, baseAddress: string)
    ensures ContentsPaths(CompsInto(acc, cs, baseAddress)) <= ContentsPaths(acc) + RegSet(CompsEvents(cs, baseAddress))
    ensures CompsUnshadowed(acc, cs, baseAddress) ==>
      ContentsPaths(CompsInto(acc, cs, baseAddress)) == ContentsPaths(acc) + RegSet(CompsEvents(cs, baseAddress))
    decreases |cs|
  {
    if |cs| > 0 {
      var front, c := cs[..|cs| - 1], cs[|cs| - 1];
      CompsPaths(acc, front, baseAddress);
      var tail := if CheckFilteredComp(c.typeName) then CompEvents(c, baseAddress) else [];
      assert CompsEvents(cs, baseAddress) == CompsEvents(front, baseAddress) + tail;
      RegSetConcat(CompsEvents(front, baseAddress), tail);
      if CheckFilteredComp(c.typeName) {
        CompPaths(c, baseAddress);
        ContentsPathsUpdate(CompsInto(acc, front, baseAddress), CompKey(c), Container(0, CompContents(c, baseAddress)));
      }
    }
  }

  lemma {:induction false} ObjectPaths(f: Filter, o: Obj, baseAddress: string)
    ensures LeafPaths(ObjectTree(f, o, baseAddress)) <= RegSet(ObjectEvents(f, o, baseAddress))
    ensures ObjectUnshadowed(f, o, baseAddress) ==>
      LeafPaths(ObjectTree(f, o, baseAddress)) == RegSet(ObjectEvents(f, o, baseAddress))
    decreases o, 1
  {
    ChildrenPaths(map[], f, o.children, baseAddress);
    CompsPaths(ChildrenInto(map[], f, o.children, baseAddress), o.comps, baseAddress);
    RegSetConcat(ChildrenEvents(f, o.children, baseAddress), CompsEvents(o.comps, baseAddress));
  }

  lemma {:induction false} ChildrenPaths(acc: map<string, Node>, f: Filter, cs: seq<Obj>, baseAddress: string)
    ensures ContentsPaths(ChildrenInto(acc, f, cs, baseAddress))
         <= ContentsPaths(acc) + RegSet(ChildrenEvents(f, cs, baseAddress))
    ensures ChildrenUnshadowed(acc, f, cs, baseAddress) ==>
      ContentsPaths(ChildrenInto(acc, f, cs, baseAddress))
      == ContentsPaths(acc) + RegSet(ChildrenEvents(f, cs, baseAddress))
    decreases cs, 0
  {
    if |cs| > 0 {
      var front, c := cs[..|cs| - 1], cs[|cs| - 1];
      ChildrenPaths(acc, f, front, baseAddress);
      ChildrenEventsSnoc(f, cs, baseAddress);
      RegSetConcat(ChildrenEvents(f, front, baseAddress), ChildEvents(f, c, baseAddress));
      if CheckFilteredObject(f, c) {
        ObjectPaths(f, c, ChildAddress(baseAddress, c));
        ContentsPathsUpdate(ChildrenInto(acc, f, front, baseAddress), SanitizeName(c.name),
          ObjectTree(f, c, ChildAddress(baseAddress, c)));
      }
    }
  }

  /** After a rebuild that threw nothing, every FULL_PATH in queryData is a
      compInfoMap key; without replaced CONTENTS entries they are exactly
      the keys. */
  lemma SnapshotCorrespondence(f: Filter, rootObject: Option<Obj>, sceneRoots: seq<Obj>)
    ensures var run := Apply(map[], SnapshotEvents(f, rootObject, sceneRoots));
      run.fault.None? ==>
        LeafPaths(SnapshotTree(f, rootObject, sceneRoots)) <= run.entries.Keys
        && (SnapshotUnshadowed(f, rootObject, sceneRoots) ==>
              LeafPaths(SnapshotTree(f, rootObject, sceneRoots)) == run.entries.Keys)
  {
    var es := SnapshotEvents(f, rootObject, sceneRoots);
    if Apply(map[], es).fault.None? {
      ApplyEntries(map[], es);
    }
    RegSetPaths(es);
    if rootObject.Some? {
      ObjectPaths(f, rootObject.value, "");
    } else {
      ChildrenPaths(map[], f, sceneRoots, "");
    }
  }

  lemma CompsEventsSingle(c: Comp, baseAddress: string)
    ensures CompsEvents([c], baseAddress) == CompEvents(c, baseAddress)
  {
    assert [c][..0] == [];
  }

  /** The bound above is strict: a component whose sanitised short type
      name equals a child's sanitised name takes the child's CONTENTS key.
      Here the parent holds one admitted child and one component without
      members: every path the child registers stays in compInfoMap, yet the
      description keeps none of them. */
  lemma ShadowedChildLosesPaths(f: Filter, root: Obj, baseAddress: string)
    requires |root.children| == 1 && |root.comps| == 1
    requires CheckFilteredObject(f, root.children[0])
    requires root.comps[0].fields == [] && root.comps[0].props == []
    requires CompKey(root.comps[0]) == SanitizeName(root.children[0].name)
    ensures LeafPaths(ObjectTree(f, root, baseAddress)) == {}
    ensures ObjectEvents(f, root, baseAddress)
         == ObjectEvents(f, root.children[0], ChildAddress(baseAddress, root.children[0]))
  {
    ShadowedChildEvents(f, root, baseAddress);
    ShadowedChildTree(f, root, baseAddress);
  }

  lemma ShadowedChildTree(f: Filter, root: Obj, baseAddress: string)
    requires |root.children| == 1 && |root.comps| == 1
    requires CheckFilteredObject(f, root.children[0])
    requires root.comps[0].fields == [] && root.comps[0].props == []
    requires CompKey(root.comps[0]) == SanitizeName(root.children[0].name)
    ensures ObjectTree(f, root, baseAddress) == Container(0, map[CompKey(root.comps[0]) := Container(0, map[])])
  {
    var child, comp := root.children[0], root.comps[0];
    var inner := ChildrenInto(map[], f, root.children, baseAddress);
    assert ChildrenInto(map[], f, root.children[..0], baseAddress) == map[];
    assert inner == ChildInto(map[], f, child, baseAddress);
    assert inner == map[SanitizeName(child.name) := ObjectTree(f, child, ChildAddress(baseAddress, child))];
    var tree := CompsInto(inner, root.comps, baseAddress);
    assert CompsInto(inner, root.comps[..0], baseAddress) == inner;
    assert CompContents(comp, baseAddress) == map[] by {
      var a := CompAddress(comp, baseAddress);
      assert MembersInto(map[], a, comp.fields, true) == map[];
    }
    assert tree == inner[CompKey(comp) := Container(0, map[])];
  }

  lemma ShadowedChildEvents(f: Filter, root: Obj, baseAddress: string)
    requires |root.children| == 1 && |root.comps| == 1
    requires CheckFilteredObject(f, root.children[0])
    requires root.comps[0].fields == [] && root.comps[0].props == []
    ensures ObjectEvents(f, root, baseAddress)
         == ObjectEvents(f, root.children[0], ChildAddress(baseAddress, root.children[0]))
  {
    var child, comp := root.children[0], root.comps[0];
    assert root.children == [child];
    ChildrenEventsSingle(f, child, baseAddress);
    assert root.comps == [comp];
    EmptyCompNoEvents(comp, baseAddress);
  }

  lemma EmptyCompNoEvents(comp: Comp, baseAddress: string)
    requires comp.fields == [] && comp.props == []
    ensures CompsEvents([comp], baseAddress) == []
  {
    CompsEventsSingle(comp, baseAddress);
    assert CompEvents(comp, baseAddress) == [];
  }
}
