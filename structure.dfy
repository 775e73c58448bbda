/** The shape of what getObjectData builds and registers: container and
    leaf nodes, the addresses of registered members, and the effect of the
    object filter on whole subtrees. */
module Structure {
  import opened Basics
  import opened Names
  import opened Scene
  import opened ObjectFilter
  import opened Leaves
  import opened AddressSpace
  import opened Correspondence

  /** A getPropObject description: ACCESS 3, one RANGE entry, one VALUE per type tag letter. */
  predicate LeafShaped(leaf: Leaf)
  {
    leaf.access == 3 && |leaf.range| == 1 && |leaf.value| == |leaf.typeTag|
  }

  /** Containers (objects and components) carry ACCESS 0 all the way down,
      and every parameter is a well-formed description. */
  predicate Shaped(n: Node)
  {
    match n
    case Container(a, m) => a == 0 && forall k :: k in m ==> Shaped(m[k])
    case Param(leaf, _) => LeafShaped(leaf)
    case Stub(a) => a == 0
  }

  /** A component's CONTENTS: only parameters, each under its key with
      FULL_PATH compAddress + "/" + key. */
  predicate ParamsAt(m: map<string, Node>, compAddress: string)
  {
    forall k :: k in m ==> m[k].Param? && m[k].fullPath == compAddress + "/" + k && LeafShaped(m[k].leaf)
  }

  lemma {:induction false} MembersParamsAt(acc: map<string, Node>, compAddress: string, ms: seq<Member>, isField: bool)
    requires ParamsAt(acc, compAddress)
    ensures ParamsAt(MembersInto(acc, compAddress, ms, isField), compAddress)
    decreases |ms|
  {
    if |ms| > 0 {
      var m := ms[|ms| - 1];
      MembersParamsAt(acc, compAddress, ms[..|ms| - 1], isField);
      if MemberOutcome(m, isField).Prop? {
        PropObjectLeaf(m.info.kind, m.value, m.info.range);
      }
    }
  }

  /** The parameters of a component sit directly in its CONTENTS, each
      FULL_PATH being the component address, "/", and the CONTENTS key. */
  lemma CompContentsParamsAt(c: Comp, baseAddress: string)
    ensures ParamsAt(CompContents(c, baseAddress), CompAddress(c, baseAddress))
    ensures Shaped(Container(0, CompContents(c, baseAddress)))
  {
    var a := CompAddress(c, baseAddress);
    MembersParamsAt(map[], a, c.fields, true);
    MembersParamsAt(MembersInto(map[], a, c.fields, true), a, c.props, false);
  }

  lemma {:induction false} CompsShaped(acc: map<string, Node>, cs: seq<Comp>, baseAddress: string)
    requires forall k :: k in acc ==> Shaped(acc[k])
    ensures forall k :: k in CompsInto(acc, cs, baseAddress) ==> Shaped(CompsInto(acc, cs, baseAddress)[k])
    decreases |cs|
  {
    if |cs| > 0 {
      CompsShaped(acc, cs[..|cs| - 1], baseAddress);
      CompContentsParamsAt(cs[|cs| - 1], baseAddress);
    }
  }

  lemma {:induction false} ObjectShaped(f: Filter, o: Obj, baseAddress: string)
    ensures Shaped(ObjectTree(f, o, baseAddress))
    decreases o, 1
  {
    ChildrenShaped(map[], f, o.children, baseAddress);
    CompsShaped(ChildrenInto(map[], f, o.children, baseAddress), o.comps, baseAddress);
  }

  lemma {:induction false} ChildrenShaped(acc: map<string, Node>, f: Filter, cs: seq<Obj>, baseAddress: string)
    requires forall k :: k in acc ==> Shaped(acc[k])
    ensures forall k :: k in ChildrenInto(acc, f, cs, baseAddress) ==> Shaped(ChildrenInto(acc, f, cs, baseAddress)[k])
    decreases cs, 0
  {
    if |cs| > 0 {
      var c := cs[|cs| - 1];
      ChildrenShaped(acc, f, cs[..|cs| - 1], baseAddress);
      if CheckFilteredObject(f, c) {
        ObjectShaped(f, c, ChildAddress(baseAddress, c));
      }
    }
  }

  /** Every node rebuildDataTree produces is well-shaped. */
  lemma SnapshotShaped(f: Filter, rootObject: Option<Obj>, sceneRoots: seq<Obj>)
    ensures Shaped(SnapshotTree(f, rootObject, sceneRoots))
  {
    if rootObject.Some? {
      ObjectShaped(f, rootObject.value, "");
    } else {
      ChildrenShaped(map[], f, sceneRoots, "");
    }
  }

  predicate EndsWith(s: string, suffix: string)
  {
    |suffix| <= |s| && s[|s| - |suffix|..] == suffix
  }

  /** A member registration made for component c at compAddress from the
      member list ms. */
  predicate MemberRegistration(c: Comp, compAddress: string, ms: seq<Member>, isField: bool, e: Event)
  {
    e.Register? ==>
      e.path == compAddress + "/" + SanitizeName(e.info.member.name)
      && e.info == CompInfo(c.id, isField, e.info.member)
      && (exists m :: m in ms && m.info == e.info.member)
      && Supported(e.info.member.kind)
      && (!isField ==> PropertyEligible(e.info.member))
  }

  /** Each Add made by the member loops is for a declared member of a
      supported type (a property also writable, of an allowed type and not
      named name or tag), at compAddress + "/" + its sanitised name. */
  lemma {:induction false} MembersRegistrations(c: Comp, compAddress: string, ms: seq<Member>, isField: bool)
    ensures forall e :: e in MembersEvents(c, compAddress, ms, isField) ==> MemberRegistration(c, compAddress, ms, isField, e)
    decreases |ms|
  {
    if |ms| > 0 {
      var front, m := ms[..|ms| - 1], ms[|ms| - 1];
      MembersRegistrations(c, compAddress, front, isField);
      forall e | e in MembersEvents(c, compAddress, ms, isField)
        ensures MemberRegistration(c, compAddress, ms, isField, e)
      {
        if e in MembersEvents(c, compAddress, front, isField) {
          if e.Register? {
            var m' :| m' in front && m'.info == e.info.member;
            assert m' in ms;
          }
        } else {
          assert e in MemberEvents(c, compAddress, m, isField);
        }
      }
    }
  }

  /** The completed registration predicate for a whole object walk: under
      the base address, of a supported member, ending in its sanitised name. */
  predicate GoodEntry(path: string, info: CompInfo)
  {
    Supported(info.member.kind)
    && (!info.isField ==> PropertyEligible(info.member))
    && EndsWith(path, "/" + SanitizeName(info.member.name))
  }

  predicate Registered(baseAddress: string, e: Event)
  {
    e.Register? ==> baseAddress + "/" <= e.path && GoodEntry(e.path, e.info)
  }

  lemma CompRegistrations(c: Comp, baseAddress: string)
    ensures forall e :: e in CompEvents(c, baseAddress) ==> Registered(baseAddress, e)
  {
    var a := CompAddress(c, baseAddress);
    MembersRegistrations(c, a, c.fields, true);
    MembersRegistrations(c, a, c.props, false);
    forall e | e in CompEvents(c, baseAddress)
      ensures Registered(baseAddress, e)
    {
      if e in MembersEvents(c, a, c.fields, true) {
        MemberUnderBase(c, baseAddress, c.fields, true, e);
      } else {
        MemberUnderBase(c, baseAddress, c.props, false, e);
      }
    }
  }

  lemma MemberUnderBase(c: Comp, baseAddress: string, ms: seq<Member>, isField: bool, e: Event)
    requires MemberRegistration(c, CompAddress(c, baseAddress), ms, isField, e)
    ensures Registered(baseAddress, e)
  {
    if e.Register? {
      var tail := "/" + SanitizeName(e.info.member.name);
      assert e.path == (baseAddress + "/") + (ShortTypeName(c.typeName) + tail);
      assert e.path[|e.path| - |tail|..] == tail;
    }
  }

  lemma {:induction false} CompsRegistrations(cs: seq<Comp>, baseAddress: string)
    ensures forall e :: e in CompsEvents(cs, baseAddress) ==> Registered(baseAddress, e)
    decreases |cs|
  {
    if |cs| > 0 {
      CompsRegistrations(cs[..|cs| - 1], baseAddress);
      CompRegistrations(cs[|cs| - 1], baseAddress);
    }
  }

  lemma {:induction false} ObjectRegistrations(f: Filter, o: Obj, baseAddress: string)
    ensures forall e :: e in ObjectEvents(f, o, baseAddress) ==> Registered(baseAddress, e)
    decreases o, 1
  {
    ChildrenRegistrations(f, o.children, baseAddress);
    CompsRegistrations(o.comps, baseAddress);
  }

  lemma {:induction false} ChildrenRegistrations(f: Filter, cs: seq<Obj>, baseAddress: string)
    ensures forall e :: e in ChildrenEvents(f, cs, baseAddress) ==> Registered(baseAddress, e)
    decreases cs, 0
  {
    if |cs| > 0 {
      var c := cs[|cs| - 1];
      ChildrenRegistrations(f, cs[..|cs| - 1], baseAddress);
      ChildrenEventsSnoc(f, cs, baseAddress);
      if CheckFilteredObject(f, c) {
        var cb := ChildAddress(baseAddress, c);
        ObjectRegistrations(f, c, cb);
        forall e | e in ObjectEvents(f, c, cb) && e.Register? ensures baseAddress + "/" <= e.path {
          NestedPrefix(baseAddress, SanitizeName(c.name), e.path);
        }
      }
    }
  }

  /** An address under a child's address is under its parent's address too. */
  lemma NestedPrefix(parent: string, name: string, path: string)
    requires parent + "/" + name + "/" <= path
    ensures parent + "/" <= path
  {
    assert parent + "/" + name + "/" == (parent + "/") + (name + "/");
    assert path[..|parent + "/"|] == (parent + "/" + name + "/")[..|parent + "/"|];
  }

  /** After a rebuild that threw nothing, every compInfoMap entry is an
      address under "/" ending in the member's sanitised name, for a member
      of a supported type, and a property only when it is writable, of an
      allowed type and not named name or tag. */
  lemma SnapshotEntriesGood(f: Filter, rootObject: Option<Obj>, sceneRoots: seq<Obj>)
    ensures var run := Apply(map[], SnapshotEvents(f, rootObject, sceneRoots));
      run.fault.None? ==> forall k :: k in run.entries ==> "/" <= k && GoodEntry(k, run.entries[k])
  {
    var es := SnapshotEvents(f, rootObject, sceneRoots);
    var run := Apply(map[], es);
    if rootObject.Some? {
      ObjectRegistrations(f, rootObject.value, "");
    } else {
      ChildrenRegistrations(f, sceneRoots, "");
    }
    if run.fault.None? {
      ApplyEntries(map[], es);
      RegSetPaths(es);
      forall k | k in run.entries ensures "/" <= k && GoodEntry(k, run.entries[k]) {
        assert k in RegSet(es);
        var e :| e in es && e.Register? && e.path == k;
        var i :| 0 <= i < |es| && es[i] == e;
        assert Registered("", e);
      }
    }
  }

  /** The object tree with every rejected object removed, at every depth. */
  function Prune(f: Filter, o: Obj): Obj
    decreases o, 1
  {
    o.(children := PruneChildren(f, o.children))
  }

  function PruneChildren(f: Filter, cs: seq<Obj>): seq<Obj>
    decreases cs, 0
  {
    if |cs| == 0 then []
    else
      var c := cs[|cs| - 1];
      PruneChildren(f, cs[..|cs| - 1]) + (if CheckFilteredObject(f, c) then [Prune(f, c)] else [])
  }

  /** No object below o is rejected by the filter. */
  predicate AllAdmitted(f: Filter, o: Obj)
  {
    forall i :: 0 <= i < |o.children| ==> CheckFilteredObject(f, o.children[i]) && AllAdmitted(f, o.children[i])
  }

  /** A rejected object contributes nothing, at any depth: walking o
      produces the same Add calls and the same description as walking o
      with every rejected subtree cut off. */
  lemma {:induction false} PruneSame(f: Filter, o: Obj, baseAddress: string)
    ensures ObjectEvents(f, Prune(f, o), baseAddress) == ObjectEvents(f, o, baseAddress)
    ensures ObjectTree(f, Prune(f, o), baseAddress) == ObjectTree(f, o, baseAddress)
    decreases o, 1
  {
    PruneChildrenSame(map[], f, o.children, baseAddress);
  }

  lemma {:induction false} PruneChildrenSame(acc: map<string, Node>, f: Filter, cs: seq<Obj>, baseAddress: string)
    ensures ChildrenEvents(f, PruneChildren(f, cs), baseAddress) == ChildrenEvents(f, cs, baseAddress)
    ensures ChildrenInto(acc, f, PruneChildren(f, cs), baseAddress) == ChildrenInto(acc, f, cs, baseAddress)
    decreases cs, 0
  {
    if |cs| > 0 {
      var front, c := cs[..|cs| - 1], cs[|cs| - 1];
      PruneChildrenSame(acc, f, front, baseAddress);
      if CheckFilteredObject(f, c) {
        PruneSame(f, c, ChildAddress(baseAddress, c));
      }
      PruneStepEvents(f, cs, baseAddress);
      PruneStepInto(acc, f, cs, baseAddress);
    }
  }

  /** One step of PruneChildrenSame for the Add calls. */
  lemma PruneStepEvents(f: Filter, cs: seq<Obj>, baseAddress: string)
    requires |cs| > 0
    requires ChildrenEvents(f, PruneChildren(f, cs[..|cs| - 1]), baseAddress) == ChildrenEvents(f, cs[..|cs| - 1], baseAddress)
    requires CheckFilteredObject(f, cs[|cs| - 1]) ==>
      ObjectEvents(f, Prune(f, cs[|cs| - 1]), ChildAddress(baseAddress, cs[|cs| - 1]))
      == ObjectEvents(f, cs[|cs| - 1], ChildAddress(baseAddress, cs[|cs| - 1]))
    ensures ChildrenEvents(f, PruneChildren(f, cs), baseAddress) == ChildrenEvents(f, cs, baseAddress)
  {
    var front, c := cs[..|cs| - 1], cs[|cs| - 1];
    var pf := PruneChildren(f, front);
    var x := if CheckFilteredObject(f, c) then [Prune(f, c)] else [];
    assert ChildrenEvents(f, x, baseAddress) == ChildEvents(f, c, baseAddress) by {
      if x != [] {
        ChildrenEventsSingle(f, Prune(f, c), baseAddress);
      }
    }
    calc {
      ChildrenEvents(f, PruneChildren(f, cs), baseAddress);
      ChildrenEvents(f, pf + x, baseAddress);
      { ChildrenEventsConcat(f, pf, x, baseAddress); }
      ChildrenEvents(f, pf, baseAddress) + ChildrenEvents(f, x, baseAddress);
      ChildrenEvents(f, front, baseAddress) + ChildEvents(f, c, baseAddress);
      { ChildrenEventsSnoc(f, cs, baseAddress); }
      ChildrenEvents(f, cs, baseAddress);
    }
  }

  /** One step of PruneChildrenSame for the CONTENTS entries. */
  lemma PruneStepInto(acc: map<string, Node>, f: Filter, cs: seq<Obj>, baseAddress: string)
    requires |cs| > 0
    requires ChildrenInto(acc, f, PruneChildren(f, cs[..|cs| - 1]), baseAddress) == ChildrenInto(acc, f, cs[..|cs| - 1], baseAddress)
    requires CheckFilteredObject(f, cs[|cs| - 1]) ==>
      ObjectTree(f, Prune(f, cs[|cs| - 1]), ChildAddress(baseAddress, cs[|cs| - 1]))
      == ObjectTree(f, cs[|cs| - 1], ChildAddress(baseAddress, cs[|cs| - 1]))
    ensures ChildrenInto(acc, f, PruneChildren(f, cs), baseAddress) == ChildrenInto(acc, f, cs, baseAddress)
  {
    var front, c := cs[..|cs| - 1], cs[|cs| - 1];
    var pf := PruneChildren(f, front);
    var x := if CheckFilteredObject(f, c) then [Prune(f, c)] else [];
    ChildrenIntoConcat(acc, f, pf, x, baseAddress);
    var mid := ChildrenInto(acc, f, pf, baseAddress);
    if x != [] {
      assert x[..0] == [];
      assert ChildrenInto(mid, f, x[..0], baseAddress) == mid;
    }
  }

  /** After pruning, no object below the root is rejected. */
  lemma {:induction false} PruneAdmitted(f: Filter, o: Obj)
    ensures AllAdmitted(f, Prune(f, o))
    decreases o, 1
  {
    PruneChildrenAdmitted(f, o.children);
  }

  lemma {:induction false} PruneChildrenAdmitted(f: Filter, cs: seq<Obj>)
    ensures forall x :: x in PruneChildren(f, cs) ==> CheckFilteredObject(f, x) && AllAdmitted(f, x)
    decreases cs, 0
  {
    if |cs| > 0 {
      var c := cs[|cs| - 1];
      PruneChildrenAdmitted(f, cs[..|cs| - 1]);
      if CheckFilteredObject(f, c) {
        PruneAdmitted(f, c);
      }
    }
  }

  /** Pruning cuts only rejected subtrees: a tree with none is kept as it is. */
  lemma {:induction false} PruneKeepsAdmitted(f: Filter, o: Obj)
    requires AllAdmitted(f, o)
    ensures Prune(f, o) == o
    decreases o, 1
  {
    PruneChildrenKeepsAdmitted(f, o.children);
  }

  lemma {:induction false} PruneChildrenKeepsAdmitted(f: Filter, cs: seq<Obj>)
    requires forall i :: 0 <= i < |cs| ==> CheckFilteredObject(f, cs[i]) && AllAdmitted(f, cs[i])
    ensures PruneChildren(f, cs) == cs
    decreases cs, 0
  {
    if |cs| > 0 {
      var c := cs[|cs| - 1];
      PruneChildrenKeepsAdmitted(f, cs[..|cs| - 1]);
      PruneKeepsAdmitted(f, c);
      assert cs == cs[..|cs| - 1] + [c];
    }
  }
}
