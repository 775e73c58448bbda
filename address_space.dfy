/** The walk of getObjectData and rebuildDataTree, as specification functions:
    the OSCQuery description tree it builds and, in order, the compInfoMap.Add
    calls (or exceptions) it performs. */
module AddressSpace {
  import opened Basics
  import opened Names
  import opened Scene
  import opened ObjectFilter
  import opened Leaves

  /** A node of the description: a container {ACCESS, CONTENTS}, a
      parameter (a getPropObject description plus FULL_PATH), or an object
      that got its ACCESS but never its CONTENTS. CONTENTS is filled by
      SetField, which replaces an entry with the same key. */
  datatype Node =
    | Container(access: int, contents: map<string, Node>)
    | Param(leaf: Leaf, fullPath: string)
    | Stub(access: int)

  /** A compInfoMap value: the component, whether the member is a field, and the member. */
  datatype CompInfo = CompInfo(comp: CompId, isField: bool, member: MemberInfo)

  /** One step of the walk on compInfoMap: an Add call, or an exception. */
  datatype Event = Register(path: string, info: CompInfo) | Raise(fault: Exn)

  /** The state of compInfoMap after a run of events, and the exception that stopped it, if any. */
  datatype Run = Run(fault: Option<Exn>, entries: map<string, CompInfo>)

  /** A property reaches getPropObject only when it is writable, its type is
      not Component, GameObject, Matrix4x4 or Transform, and it is not named
      name or tag. */
  predicate PropertyEligible(m: MemberInfo)
  {
    m.canWrite
    && !(m.kind.Component? || m.kind.GameObject? || m.kind.Matrix4x4? || m.kind.Transform?)
    && m.name != "name" && m.name != "tag"
  }

  /** compAddress: the raw short type name appended to the object's address. */
  function CompAddress(c: Comp, baseAddress: string): string
  {
    baseAddress + "/" + ShortTypeName(c.typeName)
  }

  /** The CONTENTS key of a component: its short type name, sanitised. */
  function CompKey(c: Comp): string
  {
    SanitizeName(ShortTypeName(c.typeName))
  }

  /** The address of a child object. */
  function ChildAddress(baseAddress: string, child: Obj): string
  {
    baseAddress + "/" + SanitizeName(child.name)
  }

  /** The description of a member, or Unsupported when it is skipped before
      or by getPropObject. */
  function MemberOutcome(m: Member, isField: bool): PropOutcome
  {
    if !isField && !PropertyEligible(m.info) then Unsupported
    else PropObject(m.info.kind, m.value, m.info.range)
  }

  function MemberEvents(c: Comp, compAddress: string, m: Member, isField: bool): seq<Event>
  {
    match MemberOutcome(m, isField)
    case Unsupported => []
    case Throws(e) => [Raise(e)]
    case Prop(_) => [Register(compAddress + "/" + SanitizeName(m.info.name), CompInfo(c.id, isField, m.info))]
  }

  function MemberInto(acc: map<string, Node>, compAddress: string, m: Member, isField: bool): map<string, Node>
  {
    match MemberOutcome(m, isField)
    case Prop(leaf) =>
      acc[SanitizeName(m.info.name) := Param(leaf, compAddress + "/" + SanitizeName(m.info.name))]
    case _ => acc
  }

  /** The events of a loop over xs, item by item. */
  function Gather<T>(xs: seq<T>, part: T -> seq<Event>): seq<Event>
  {
    if |xs| == 0 then [] else Gather(xs[..|xs| - 1], part) + part(xs[|xs| - 1])
  }

  function MembersEvents(c: Comp, compAddress: string, ms: seq<Member>, isField: bool): seq<Event>
  {
    if |ms| == 0 then []
    else MembersEvents(c, compAddress, ms[..|ms| - 1], isField) + MemberEvents(c, compAddress, ms[|ms| - 1], isField)
  }

  function MembersInto(acc: map<string, Node>, compAddress: string, ms: seq<Member>, isField: bool): map<string, Node>
  {
    if |ms| == 0 then acc
    else MemberInto(MembersInto(acc, compAddress, ms[..|ms| - 1], isField), compAddress, ms[|ms| - 1], isField)
  }

  /** The Add calls for one component: its fields, then its properties. */
  function CompEvents(c: Comp, baseAddress: string): seq<Event>
  {
    var a := CompAddress(c, baseAddress);
    MembersEvents(c, a, c.fields, true) + MembersEvents(c, a, c.props, false)
  }

  /** The CONTENTS of a component's node. */
  function CompContents(c: Comp, baseAddress: string): map<string, Node>
  {
    var a := CompAddress(c, baseAddress);
    MembersInto(MembersInto(map[], a, c.fields, true), a, c.props, false)
  }

  function CompsEvents(cs: seq<Comp>, baseAddress: string): seq<Event>
  {
    if |cs| == 0 then []
    else
      var c := cs[|cs| - 1];
      CompsEvents(cs[..|cs| - 1], baseAddress) + (if CheckFilteredComp(c.typeName) then CompEvents(c, baseAddress) else [])
  }

  function CompsInto(acc: map<string, Node>, cs: seq<Comp>, baseAddress: string): map<string, Node>
  {
    if |cs| == 0 then acc
    else
      var c := cs[|cs| - 1];
      var prev := CompsInto(acc, cs[..|cs| - 1], baseAddress);
      if CheckFilteredComp(c.typeName) then prev[CompKey(c) := Container(0, CompContents(c, baseAddress))] else prev
  }

  /** getObjectData's Add calls: the admitted children's, then the components'. */
  function ObjectEvents(f: Filter, o: Obj, baseAddress: string): seq<Event>
    decreases o, 1
  {
    ChildrenEvents(f, o.children, baseAddress) + CompsEvents(o.comps, baseAddress)
  }

  function ChildrenEvents(f: Filter, cs: seq<Obj>, baseAddress: string): seq<Event>
    decreases cs, 0
  {
    if |cs| == 0 then [] else ChildrenEvents(f, cs[..|cs| - 1], baseAddress) + ChildEvents(f, cs[|cs| - 1], baseAddress)
  }

  /** The events of one admitted or rejected child. */
  function ChildEvents(f: Filter, c: Obj, baseAddress: string): seq<Event>
    decreases c, 2
  {
    if CheckFilteredObject(f, c) then ObjectEvents(f, c, ChildAddress(baseAddress, c)) else []
  }

  /** getObjectData's result: a container whose CONTENTS holds the admitted
      children, then the components, under their sanitised names. */
  function ObjectTree(f: Filter, o: Obj, baseAddress: string): Node
    decreases o, 1
  {
    Container(0, CompsInto(ChildrenInto(map[], f, o.children, baseAddress), o.comps, baseAddress))
  }

  function ChildrenInto(acc: map<string, Node>, f: Filter, cs: seq<Obj>, baseAddress: string): map<string, Node>
    decreases cs, 0
  {
    if |cs| == 0 then acc
    else
      ChildInto(ChildrenInto(acc, f, cs[..|cs| - 1], baseAddress), f, cs[|cs| - 1], baseAddress)
  }

  /** One iteration of the child loop: a rejected object is skipped, an
      admitted one is set under its sanitised name. */
  function ChildInto(acc: map<string, Node>, f: Filter, c: Obj, baseAddress: string): map<string, Node>
    decreases c, 2
  {
    if CheckFilteredObject(f, c) then acc[SanitizeName(c.name) := ObjectTree(f, c, ChildAddress(baseAddress, c))]
    else acc
  }

  /** rebuildDataTree's Add calls: from rootObject with an empty base
      address (the root itself is not filtered), or else from the admitted
      scene roots, each under "/" + its sanitised name. */
  function SnapshotEvents(f: Filter, rootObject: Option<Obj>, sceneRoots: seq<Obj>): seq<Event>
  {
    if rootObject.Some? then ObjectEvents(f, rootObject.value, "") else ChildrenEvents(f, sceneRoots, "")
  }

  /** rebuildDataTree's queryData. */
  function SnapshotTree(f: Filter, rootObject: Option<Obj>, sceneRoots: seq<Obj>): Node
  {
    if rootObject.Some? then ObjectTree(f, rootObject.value, "")
    else Container(0, ChildrenInto(map[], f, sceneRoots, ""))
  }

  /** compInfoMap.Add applied to each event in turn, stopping at the first
      exception: a Raise, or an Add whose key is already present. */
  function Apply(m: map<string, CompInfo>, es: seq<Event>): Run
    decreases |es|
  {
    if es == [] then Run(None, m)
    else match es[0]
      case Raise(e) => Run(Some(e), m)
      case Register(p, info) =>
        if p in m then Run(Some(DuplicateKey(p)), m) else Apply(m[p := info], es[1..])
  }

  /** The outcome a method reports for a run: the value it built, or the exception. */
  function Outcome<T>(r: Run, built: T): Result<T, Exn>
  {
    if r.fault.Some? then Failure(r.fault.value) else Success(built)
  }

  /** The keys registered by a run of events, in order. */
  function Paths(es: seq<Event>): seq<string>
  {
    if es == [] then [] else (if es[0].Register? then [es[0].path] else []) + Paths(es[1..])
  }

  predicate NoRaise(es: seq<Event>)
  {
    forall i :: 0 <= i < |es| ==> es[i].Register?
  }

  predicate Distinct(ps: seq<string>)
  {
    forall i, j :: 0 <= i < j < |ps| ==> ps[i] != ps[j]
  }

  /** Running a concatenation is running the first part and, unless it
      raised, the second part from where the first left compInfoMap. */
  lemma {:induction false} ApplyConcat(m: map<string, CompInfo>, a: seq<Event>, b: seq<Event>)
    ensures Apply(m, a + b) == (var r := Apply(m, a); if r.fault.Some? then r else Apply(r.entries, b))
    decreases |a|
  {
    if a == [] {
      assert a + b == b;
    } else {
      assert (a + b)[0] == a[0];
      assert (a + b)[1..] == a[1..] + b;
      match a[0]
      case Raise(e) =>
      case Register(p, info) =>
        if p !in m {
          ApplyConcat(m[p := info], a[1..], b);
        }
    }
  }

  /** The condition under which a run of Add calls succeeds: it raises
      nothing, and its keys are pairwise distinct and new to m. */
  predicate Fresh(m: map<string, CompInfo>, es: seq<Event>)
  {
    NoRaise(es) && Distinct(Paths(es)) && forall i :: 0 <= i < |Paths(es)| ==> Paths(es)[i] !in m
  }

  lemma FreshCons(m: map<string, CompInfo>, es: seq<Event>)
    requires es != [] && es[0].Register?
    ensures Fresh(m, es) <==> es[0].path !in m && Fresh(m[es[0].path := es[0].info], es[1..])
  {
    var p, info, rest := es[0].path, es[0].info, es[1..];
    assert Paths(es) == [p] + Paths(rest);
    if Fresh(m, es) {
      assert Paths(es)[0] == p;
      assert NoRaise(rest) by {
        forall i | 0 <= i < |rest| ensures rest[i].Register? { assert rest[i] == es[i + 1]; }
      }
      assert Distinct(Paths(rest)) by {
        forall i, j | 0 <= i < j < |Paths(rest)| ensures Paths(rest)[i] != Paths(rest)[j] {
          assert Paths(rest)[i] == Paths(es)[i + 1] && Paths(rest)[j] == Paths(es)[j + 1];
        }
      }
      forall i | 0 <= i < |Paths(rest)| ensures Paths(rest)[i] !in m[p := info] {
        assert Paths(rest)[i] == Paths(es)[i + 1];
      }
    }
    if p !in m && Fresh(m[p := info], rest) {
      assert NoRaise(es) by {
        forall i | 0 <= i < |es| ensures es[i].Register? {
          if i > 0 { assert es[i] == rest[i - 1]; }
        }
      }
      assert Distinct(Paths(es)) by {
        forall i, j | 0 <= i < j < |Paths(es)| ensures Paths(es)[i] != Paths(es)[j] {
          assert Paths(es)[j] == Paths(rest)[j - 1];
          if i > 0 { assert Paths(es)[i] == Paths(rest)[i - 1]; }
        }
      }
      forall i | 0 <= i < |Paths(es)| ensures Paths(es)[i] !in m {
        if i > 0 { assert Paths(es)[i] == Paths(rest)[i - 1]; }
      }
    }
  }

  /** A run succeeds exactly when it raises nothing and its keys are new and
      pairwise distinct. */
  lemma {:induction false} ApplySucceedsIff(m: map<string, CompInfo>, es: seq<Event>)
    ensures Apply(m, es).fault.None? <==>
      NoRaise(es) && Distinct(Paths(es)) && forall i :: 0 <= i < |Paths(es)| ==> Paths(es)[i] !in m
    decreases |es|
  {
    if es != [] {
      match es[0]
      case Raise(e) =>
        assert !NoRaise(es);
      case Register(p, info) =>
        FreshCons(m, es);
        ApplySucceedsIff(m[p := info], es[1..]);
    }
  }

  /** After a run that succeeded, compInfoMap holds the old keys with their
      entries and exactly the run's keys besides, each with its own entry. */
  lemma {:induction false} ApplyEntries(m: map<string, CompInfo>, es: seq<Event>)
    requires Apply(m, es).fault.None?
    ensures Apply(m, es).entries.Keys == m.Keys + (set p | p in Paths(es))
    ensures forall k :: k in m ==> Apply(m, es).entries[k] == m[k]
    ensures forall i :: 0 <= i < |es| && es[i].Register? ==>
              es[i].path in Apply(m, es).entries && Apply(m, es).entries[es[i].path] == es[i].info
    decreases |es|
  {
    if es != [] {
      var p, info, rest := es[0].path, es[0].info, es[1..];
      assert Paths(es) == [p] + Paths(rest);
      ApplyEntries(m[p := info], rest);
      assert (set q | q in Paths(es)) == {p} + (set q | q in Paths(rest));
      forall i | 0 <= i < |es| && es[i].Register?
        ensures es[i].path in Apply(m, es).entries && Apply(m, es).entries[es[i].path] == es[i].info
      {
        if i > 0 { assert es[i] == rest[i - 1]; }
      }
    }
  }

  /** compInfoMap.Add throws on a duplicate path: a run that registers the
      same path twice always fails. */
  lemma DuplicatePathFails(m: map<string, CompInfo>, es: seq<Event>, i: int, j: int)
    requires 0 <= i < j < |Paths(es)| && Paths(es)[i] == Paths(es)[j]
    ensures Apply(m, es).fault.Some?
  {
    ApplySucceedsIff(m, es);
  }

  /** An exception part-way through a run is the run's outcome whatever follows. */
  lemma ApplyFaultPersists(m: map<string, CompInfo>, a: seq<Event>, b: seq<Event>)
    requires Apply(m, a).fault.Some?
    ensures Apply(m, a + b) == Apply(m, a)
  {
    ApplyConcat(m, a, b);
  }

  lemma {:induction false} MembersEventsConcat(c: Comp, compAddress: string, a: seq<Member>, b: seq<Member>, isField: bool)
    ensures MembersEvents(c, compAddress, a + b, isField)
         == MembersEvents(c, compAddress, a, isField) + MembersEvents(c, compAddress, b, isField)
    decreases |b|
  {
    if |b| == 0 {
      assert a + b == a;
    } else {
      assert (a + b)[..|a + b| - 1] == a + b[..|b| - 1];
      assert (a + b)[|a + b| - 1] == b[|b| - 1];
      MembersEventsConcat(c, compAddress, a, b[..|b| - 1], isField);
    }
  }

  lemma MembersEventsSnoc(c: Comp, compAddress: string, ms: seq<Member>, isField: bool)
    requires |ms| > 0
    ensures MembersEvents(c, compAddress, ms, isField)
         == MembersEvents(c, compAddress, ms[..|ms| - 1], isField) + MemberEvents(c, compAddress, ms[|ms| - 1], isField)
  {
  }

  lemma CompsEventsSnoc(cs: seq<Comp>, baseAddress: string)
    requires |cs| > 0
    ensures CompsEvents(cs, baseAddress)
         == CompsEvents(cs[..|cs| - 1], baseAddress)
            + (if CheckFilteredComp(cs[|cs| - 1].typeName) then CompEvents(cs[|cs| - 1], baseAddress) else [])
  {
  }

  lemma {:induction false} GatherConcat<T>(a: seq<T>, b: seq<T>, part: T -> seq<Event>)
    ensures Gather(a + b, part) == Gather(a, part) + Gather(b, part)
    decreases |b|
  {
    if |b| == 0 {
      assert a + b == a;
    } else {
      assert (a + b)[..|a + b| - 1] == a + b[..|b| - 1];
      assert (a + b)[|a + b| - 1] == b[|b| - 1];
      GatherConcat(a, b[..|b| - 1], part);
    }
  }

  /** The per-component step of the loop over components, as a function value. */
  function CompPart(baseAddress: string): Comp -> seq<Event>
  {
    (c: Comp) => if CheckFilteredComp(c.typeName) then CompEvents(c, baseAddress) else []
  }

  lemma {:induction false} CompsEventsGather(cs: seq<Comp>, baseAddress: string)
    ensures CompsEvents(cs, baseAddress) == Gather(cs, CompPart(baseAddress))
    decreases |cs|
  {
    if |cs| > 0 {
      CompsEventsGather(cs[..|cs| - 1], baseAddress);
    }
  }

  lemma CompsEventsConcat(a: seq<Comp>, b: seq<Comp>, baseAddress: string)
    ensures CompsEvents(a + b, baseAddress) == CompsEvents(a, baseAddress) + CompsEvents(b, baseAddress)
  {
    CompsEventsGather(a + b, baseAddress);
    CompsEventsGather(a, baseAddress);
    CompsEventsGather(b, baseAddress);
    GatherConcat(a, b, CompPart(baseAddress));
  }


  lemma ChildrenEventsSnoc(f: Filter, cs: seq<Obj>, baseAddress: string)
    requires |cs| > 0
    ensures ChildrenEvents(f, cs, baseAddress)
         == ChildrenEvents(f, cs[..|cs| - 1], baseAddress) + ChildEvents(f, cs[|cs| - 1], baseAddress)
  {
  }

  lemma ChildrenEventsSingle(f: Filter, c: Obj, baseAddress: string)
    ensures ChildrenEvents(f, [c], baseAddress) == ChildEvents(f, c, baseAddress)
  {
    assert [c][..0] == [];
  }

  lemma {:induction false} ChildrenEventsConcat(f: Filter, a: seq<Obj>, b: seq<Obj>, baseAddress: string)
    ensures ChildrenEvents(f, a + b, baseAddress) == ChildrenEvents(f, a, baseAddress) + ChildrenEvents(f, b, baseAddress)
    decreases |b|
  {
    if |b| == 0 {
      assert a + b == a;
    } else {
      assert (a + b)[..|a + b| - 1] == a + b[..|b| - 1];
      assert (a + b)[|a + b| - 1] == b[|b| - 1];
      ChildrenEventsConcat(f, a, b[..|b| - 1], baseAddress);
    }
  }

  lemma {:induction false} ChildrenIntoConcat(acc: map<string, Node>, f: Filter, a: seq<Obj>, b: seq<Obj>, baseAddress: string)
    ensures ChildrenInto(acc, f, a + b, baseAddress) == ChildrenInto(ChildrenInto(acc, f, a, baseAddress), f, b, baseAddress)
    decreases |b|
  {
    if |b| == 0 {
      assert a + b == a;
    } else {
      assert (a + b)[..|a + b| - 1] == a + b[..|b| - 1];
      assert (a + b)[|a + b| - 1] == b[|b| - 1];
      ChildrenIntoConcat(acc, f, a, b[..|b| - 1], baseAddress);
    }
  }

  /** An exception in the k-th iteration of a loop ends the whole loop:
      the iterations after it are never run. */
  lemma MembersFaultAborts(m: map<string, CompInfo>, c: Comp, compAddress: string,
                           ms: seq<Member>, k: nat, isField: bool)
    requires k <= |ms|
    requires Apply(m, MembersEvents(c, compAddress, ms[..k], isField)).fault.Some?
    ensures Apply(m, MembersEvents(c, compAddress, ms, isField)) == Apply(m, MembersEvents(c, compAddress, ms[..k], isField))
  {
    assert ms == ms[..k] + ms[k..];
    MembersEventsConcat(c, compAddress, ms[..k], ms[k..], isField);
    ApplyFaultPersists(m, MembersEvents(c, compAddress, ms[..k], isField), MembersEvents(c, compAddress, ms[k..], isField));
  }

  lemma CompsEventsSplit(cs: seq<Comp>, k: nat, baseAddress: string)
    requires k <= |cs|
    ensures CompsEvents(cs, baseAddress) == CompsEvents(cs[..k], baseAddress) + CompsEvents(cs[k..], baseAddress)
  {
    assert cs == cs[..k] + cs[k..];
    CompsEventsConcat(cs[..k], cs[k..], baseAddress);
  }

  lemma CompsFaultAborts(m: map<string, CompInfo>, cs: seq<Comp>, k: nat, baseAddress: string)
    requires k <= |cs|
    requires Apply(m, CompsEvents(cs[..k], baseAddress)).fault.Some?
    ensures Apply(m, CompsEvents(cs, baseAddress)) == Apply(m, CompsEvents(cs[..k], baseAddress))
  {
    CompsEventsSplit(cs, k, baseAddress);
    ApplyFaultPersists(m, CompsEvents(cs[..k], baseAddress), CompsEvents(cs[k..], baseAddress));
  }

  lemma ChildrenFaultAborts(m: map<string, CompInfo>, f: Filter, cs: seq<Obj>, k: nat, baseAddress: string)
    requires k <= |cs|
    requires Apply(m, ChildrenEvents(f, cs[..k], baseAddress)).fault.Some?
    ensures Apply(m, ChildrenEvents(f, cs, baseAddress)) == Apply(m, ChildrenEvents(f, cs[..k], baseAddress))
  {
    assert cs == cs[..k] + cs[k..];
    ChildrenEventsConcat(f, cs[..k], cs[k..], baseAddress);
    ApplyFaultPersists(m, ChildrenEvents(f, cs[..k], baseAddress), ChildrenEvents(f, cs[k..], baseAddress));
  }
}
