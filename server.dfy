/** The OSCQuery component: the fields rebuildDataTree and
    ProcessIncomingMessages update, and those two operations with the
    helpers they loop through, each proved to do what the specification
    functions of AddressSpace and Coercion describe. */
module Server {
  import opened Basics
  import opened Names
  import opened Scene
  import opened ObjectFilter
  import opened Leaves
  import opened AddressSpace
  import opened Coercion

  /** One iteration of the child loop, in terms of the map before it. */
  lemma ChildrenStep(m0: map<string, CompInfo>, f: Filter, cs: seq<Obj>, i: nat, baseAddress: string,
                     mid: map<string, CompInfo>)
    requires i < |cs|
    requires Apply(m0, ChildrenEvents(f, cs[..i], baseAddress)) == Run(None, mid)
    ensures Apply(m0, ChildrenEvents(f, cs[..i + 1], baseAddress)) == Apply(mid, ChildEvents(f, cs[i], baseAddress))
  {
    assert cs[..i + 1][..i] == cs[..i];
    ChildrenEventsSnoc(f, cs[..i + 1], baseAddress);
    ApplyConcat(m0, ChildrenEvents(f, cs[..i], baseAddress), ChildEvents(f, cs[i], baseAddress));
  }

  /** The CONTENTS after the i-th child. */
  lemma ChildrenIntoStep(acc: map<string, Node>, f: Filter, cs: seq<Obj>, i: nat, baseAddress: string)
    requires i < |cs|
    ensures ChildrenInto(acc, f, cs[..i + 1], baseAddress) == ChildInto(ChildrenInto(acc, f, cs[..i], baseAddress), f, cs[i], baseAddress)
  {
    assert cs[..i + 1][..i] == cs[..i];
  }

  /** One iteration of the field or property loop, in terms of the map before it. */
  lemma MembersStep(m0: map<string, CompInfo>, c: Comp, compAddress: string, ms: seq<Member>, i: nat, isField: bool,
                    mid: map<string, CompInfo>)
    requires i < |ms|
    requires Apply(m0, MembersEvents(c, compAddress, ms[..i], isField)) == Run(None, mid)
    ensures var run := Apply(mid, MemberEvents(c, compAddress, ms[i], isField));
      Apply(m0, MembersEvents(c, compAddress, ms[..i + 1], isField)) == run
      && (run.fault.Some? ==> Apply(m0, MembersEvents(c, compAddress, ms, isField)) == run)
  {
    assert ms[..i + 1][..i] == ms[..i];
    MembersEventsSnoc(c, compAddress, ms[..i + 1], isField);
    ApplyConcat(m0, MembersEvents(c, compAddress, ms[..i], isField), MemberEvents(c, compAddress, ms[i], isField));
    if Apply(m0, MembersEvents(c, compAddress, ms[..i + 1], isField)).fault.Some? {
      MembersFaultAborts(m0, c, compAddress, ms, i + 1, isField);
    }
  }

  lemma MembersIntoStep(acc: map<string, Node>, compAddress: string, ms: seq<Member>, i: nat, isField: bool)
    requires i < |ms|
    ensures MembersInto(acc, compAddress, ms[..i + 1], isField)
         == MemberInto(MembersInto(acc, compAddress, ms[..i], isField), compAddress, ms[i], isField)
  {
    assert ms[..i + 1][..i] == ms[..i];
  }

  /** One iteration of the component loop, in terms of the map before it. */
  lemma CompsStep(m0: map<string, CompInfo>, cs: seq<Comp>, j: nat, baseAddress: string, mid: map<string, CompInfo>)
    requires j < |cs|
    requires Apply(m0, CompsEvents(cs[..j], baseAddress)) == Run(None, mid)
    ensures !CheckFilteredComp(cs[j].typeName) ==> Apply(m0, CompsEvents(cs[..j + 1], baseAddress)) == Run(None, mid)
    ensures CheckFilteredComp(cs[j].typeName) ==>
      var run := Apply(mid, CompEvents(cs[j], baseAddress));
      Apply(m0, CompsEvents(cs[..j + 1], baseAddress)) == run
      && (run.fault.Some? ==> Apply(m0, CompsEvents(cs, baseAddress)) == run)
  {
    assert cs[..j + 1][..j] == cs[..j];
    CompsEventsSnoc(cs[..j + 1], baseAddress);
    ApplyConcat(m0, CompsEvents(cs[..j], baseAddress), CompEvents(cs[j], baseAddress));
    if Apply(m0, CompsEvents(cs[..j + 1], baseAddress)).fault.Some? {
      CompsFaultAborts(m0, cs, j + 1, baseAddress);
    }
  }

  /** The CONTENTS after the j-th component. */
  lemma CompsIntoStep(acc: map<string, Node>, cs: seq<Comp>, j: nat, baseAddress: string)
    requires j < |cs|
    ensures CompsInto(acc, cs[..j + 1], baseAddress)
         == if CheckFilteredComp(cs[j].typeName)
            then CompsInto(acc, cs[..j], baseAddress)[CompKey(cs[j]) := Container(0, CompContents(cs[j], baseAddress))]
            else CompsInto(acc, cs[..j], baseAddress)
  {
    assert cs[..j + 1][..j] == cs[..j];
  }

  /** One iteration of the dispatcher's enum loop over the declared fields. */
  lemma EnumScanStep(fields: seq<EnumField>, i: nat, data: seq<Arg>, found: Option<int>)
    requires i < |fields|
    requires EnumScan(fields[..i], data) == Success(found)
    ensures EnumScan(fields[..i + 1], data)
         == if fields[i].name == "value__" then Success(found)
            else if |data| == 0 then Failure(ArgumentOutOfRange)
            else if ArgName(data[0]) == Some(fields[i].name) then Success(Some(fields[i].raw))
            else Success(found)
  {
    var s := fields[..i + 1];
    assert s[..|s| - 1] == fields[..i];
    assert s[|s| - 1] == fields[i];
  }

  /** With no arguments, the enum loop throws at the first declared name. */
  lemma EnumScanNoData(fields: seq<EnumField>, i: nat, data: seq<Arg>)
    requires i < |fields| && |data| == 0 && fields[i].name != "value__"
    ensures EnumScan(fields, data) == Failure(ArgumentOutOfRange)
  {
    DeclaredNamesMembers(fields);
  }

  /** The enum case of the switch, in terms of the loop's outcome. */
  lemma CoerceEnumCase(fields: seq<EnumField>, data: seq<Arg>)
    ensures Coerce(Enum(fields), data)
         == match EnumScan(fields, data)
            case Failure(e) => Thrown(e)
            case Success(None) => NotHandled
            case Success(Some(raw)) => Converted(DEnum(raw))
  {
  }

  /** The enum case of getPropObject. */
  lemma PropObjectEnumCase(fields: seq<EnumField>, value: Value, range: Option<Range>)
    ensures PropObject(Enum(fields), value, range)
         == if value.EnumValue? then Describe([AtomString(value.name)], "s", Bounds(range), Some(DeclaredNames(fields)))
            else Throws(CastFault(value))
  {
  }

  class OSCQuery {
    /** The object the tree is built from; None builds it from the scene roots. */
    var rootObject: Option<Obj>
    var objectFilterMode: ObjectFilterMode
    var filteredObjects: seq<ObjId>
    /** Full OSC address to the member it controls. */
    var compInfoMap: map<string, CompInfo>
    /** The OSCQuery description served over HTTP; None before the first rebuild. */
    var queryData: Option<Node>
    /** Messages waiting in the OSC receiver, oldest first. */
    var receiver: seq<Message>
    /** The values SetValue has written into live members. */
    var members: map<MemberRef, Data>
    /** The Debug.LogWarning lines, oldest first. */
    var warnings: seq<Warning>

    constructor (rootObject: Option<Obj>, mode: ObjectFilterMode, filteredObjects: seq<ObjId>)
      ensures this.rootObject == rootObject && objectFilterMode == mode && this.filteredObjects == filteredObjects
      ensures compInfoMap == map[] && queryData == None && receiver == [] && members == map[] && warnings == []
    {
      this.rootObject := rootObject;
      objectFilterMode := mode;
      this.filteredObjects := filteredObjects;
      compInfoMap := map[];
      queryData := None;
      receiver := [];
      members := map[];
      warnings := [];
    }

    function CurrentFilter(): Filter
      reads this
    {
      Filter(objectFilterMode, filteredObjects)
    }

    /** getPropObject; the enum branch collects the declared names in a loop. */
    method GetPropObject(kind: Kind, value: Value, range: Option<Range>) returns (po: PropOutcome)
      ensures po == PropObject(kind, value, range)
    {
      if !kind.Enum? {
        return PropObject(kind, value, range);
      }
      var fields := kind.fields;
      var enumO: seq<string> := [];
      for i := 0 to |fields|
        invariant enumO == DeclaredNames(fields[..i])
      {
        assert fields[..i + 1][..i] == fields[..i];
        if fields[i].name == "value__" {
          continue;
        }
        enumO := enumO + [fields[i].name];
      }
      assert fields[..|fields|] == fields;
      PropObjectEnumCase(fields, value, range);
      if value.EnumValue? {
        po := Describe([AtomString(value.name)], "s", Bounds(range), Some(enumO));
      } else {
        po := Throws(CastFault(value));
      }
    }

    /** One iteration of the field or property loop: skip the member, or
        describe it, set it into CONTENTS and Add its path to compInfoMap. */
    method AddMember(comp: Comp, compAddress: string, m: Member, isField: bool, ccco: map<string, Node>)
      returns (r: Result<map<string, Node>, Exn>)
      modifies this`compInfoMap
      ensures var run := Apply(old(compInfoMap), MemberEvents(comp, compAddress, m, isField));
        compInfoMap == run.entries && r == Outcome(run, MemberInto(ccco, compAddress, m, isField))
    {
      if !isField {
        if !m.info.canWrite {
          return Success(ccco);
        }
        var kind := m.info.kind;
        if kind.Component? || kind.GameObject? || kind.Matrix4x4? || kind.Transform? {
          return Success(ccco);
        }
        if m.info.name == "name" || m.info.name == "tag" {
          return Success(ccco);
        }
      }
      var io := GetPropObject(m.info.kind, m.value, m.info.range);
      match io {
        case Unsupported =>
          return Success(ccco);
        case Throws(e) =>
          return Failure(e);
        case Prop(leaf) =>
          var ioName := SanitizeName(m.info.name);
          var fullPath := compAddress + "/" + ioName;
          var updated := ccco[ioName := Param(leaf, fullPath)];
          if fullPath in compInfoMap {
            return Failure(DuplicateKey(fullPath));
          }
          compInfoMap := compInfoMap[fullPath := CompInfo(comp.id, isField, m.info)];
          return Success(updated);
      }
    }

    /** The field loop or the property loop of getObjectData over ms,
        CONTENTS starting from ccco. */
    method AddMembers(comp: Comp, compAddress: string, ms: seq<Member>, isField: bool, ccco: map<string, Node>)
      returns (r: Result<map<string, Node>, Exn>)
      modifies this`compInfoMap
      ensures var run := Apply(old(compInfoMap), MembersEvents(comp, compAddress, ms, isField));
        compInfoMap == run.entries && r == Outcome(run, MembersInto(ccco, compAddress, ms, isField))
    {
      ghost var m0 := compInfoMap;
      var acc := ccco;
      var i := 0;
      while i < |ms|
        invariant 0 <= i <= |ms|
        invariant acc == MembersInto(ccco, compAddress, ms[..i], isField)
        invariant Apply(m0, MembersEvents(comp, compAddress, ms[..i], isField)) == Run(None, compInfoMap)
      {
        MembersIntoStep(ccco, compAddress, ms, i, isField);
        MembersStep(m0, comp, compAddress, ms, i, isField, compInfoMap);
        var res := AddMember(comp, compAddress, ms[i], isField, acc);
        if res.Failure? {
          return Failure(res.error);
        }
        acc := res.value;
        i := i + 1;
      }
      assert ms[..|ms|] == ms;
      return Success(acc);
    }

    /** The body of getObjectData's component loop once compAddress is
        known: the fields, then the properties, into one CONTENTS. */
    method GetComponentData(comp: Comp, baseAddress: string, compAddress: string) returns (r: Result<Node, Exn>)
      requires compAddress == CompAddress(comp, baseAddress)
      modifies this`compInfoMap
      ensures var run := Apply(old(compInfoMap), CompEvents(comp, baseAddress));
        compInfoMap == run.entries && r == Outcome(run, Container(0, CompContents(comp, baseAddress)))
    {
      ghost var m0 := compInfoMap;
      ApplyConcat(m0, MembersEvents(comp, compAddress, comp.fields, true), MembersEvents(comp, compAddress, comp.props, false));
      var ccco := AddMembers(comp, compAddress, comp.fields, true, map[]);
      if ccco.Failure? {
        return Failure(ccco.error);
      }
      ccco := AddMembers(comp, compAddress, comp.props, false, ccco.value);
      if ccco.Failure? {
        return Failure(ccco.error);
      }
      return Success(Container(0, ccco.value));
    }

    /** getObjectData's component loop, CONTENTS starting from co. */
    method AddComponents(comps: seq<Comp>, baseAddress: string, co: map<string, Node>)
      returns (r: Result<map<string, Node>, Exn>)
      modifies this`compInfoMap
      ensures var run := Apply(old(compInfoMap), CompsEvents(comps, baseAddress));
        compInfoMap == run.entries && r == Outcome(run, CompsInto(co, comps, baseAddress))
    {
      ghost var m0 := compInfoMap;
      var acc := co;
      var j := 0;
      while j < |comps|
        invariant 0 <= j <= |comps|
        invariant acc == CompsInto(co, comps[..j], baseAddress)
        invariant Apply(m0, CompsEvents(comps[..j], baseAddress)) == Run(None, compInfoMap)
      {
        var comp := comps[j];
        CompsStep(m0, comps, j, baseAddress, compInfoMap);
        CompsIntoStep(co, comps, j, baseAddress);
        if CheckFilteredComp(comp.typeName) {
          var dotIndex := LastIndexOf(comp.typeName, '.');
          var compType := comp.typeName[if dotIndex + 1 > 0 then dotIndex + 1 else 0..];
          var compAddress := baseAddress + "/" + compType;
          assert compType == ShortTypeName(comp.typeName);
          var cco := GetComponentData(comp, baseAddress, compAddress);
          if cco.Failure? {
            return Failure(cco.error);
          }
          acc := acc[SanitizeName(compType) := cco.value];
        }
        j := j + 1;
      }
      assert comps[..|comps|] == comps;
      return Success(acc);
    }

    /** getObjectData: a container holding the admitted children under their
        sanitised names, then every component under its sanitised short
        type name. */
    method GetObjectData(go: Obj, baseAddress: string) returns (r: Result<Node, Exn>)
      modifies this`compInfoMap
      decreases go, 1
      ensures var run := Apply(old(compInfoMap), ObjectEvents(CurrentFilter(), go, baseAddress));
        compInfoMap == run.entries && r == Outcome(run, ObjectTree(CurrentFilter(), go, baseAddress))
    {
      ghost var m0 := compInfoMap;
      ghost var f := CurrentFilter();
      ApplyConcat(m0, ChildrenEvents(f, go.children, baseAddress), CompsEvents(go.comps, baseAddress));
      var co := AddChildren(go.children, baseAddress, map[]);
      if co.Failure? {
        return Failure(co.error);
      }
      co := AddComponents(go.comps, baseAddress, co.value);
      if co.Failure? {
        return Failure(co.error);
      }
      return Success(Container(0, co.value));
    }

    /** The child loop of getObjectData, and the scene-root loop of
        rebuildDataTree: each admitted object under baseAddress + "/" + its
        sanitised name, CONTENTS starting from co. */
    method AddChildren(cs: seq<Obj>, baseAddress: string, co: map<string, Node>)
      returns (r: Result<map<string, Node>, Exn>)
      modifies this`compInfoMap
      decreases cs, 0
      ensures var run := Apply(old(compInfoMap), ChildrenEvents(CurrentFilter(), cs, baseAddress));
        compInfoMap == run.entries && r == Outcome(run, ChildrenInto(co, CurrentFilter(), cs, baseAddress))
    {
      ghost var f := CurrentFilter();
      ghost var m0 := compInfoMap;
      var acc := co;
      var i := 0;
      while i < |cs|
        invariant 0 <= i <= |cs|
        invariant acc == ChildrenInto(co, f, cs[..i], baseAddress)
        invariant Apply(m0, ChildrenEvents(f, cs[..i], baseAddress)) == Run(None, compInfoMap)
      {
        ChildrenStep(m0, f, cs, i, baseAddress, compInfoMap);
        ChildrenIntoStep(co, f, cs, i, baseAddress);
        var res := AddChild(cs[i], baseAddress, acc);
        if res.Failure? {
          ChildrenFaultAborts(m0, f, cs, i + 1, baseAddress);
          return Failure(res.error);
        }
        acc := res.value;
        i := i + 1;
      }
      assert cs[..|cs|] == cs;
      return Success(acc);
    }

    /** One iteration of the child loop: skip a rejected object, or describe
        the admitted one under its sanitised name. */
    method AddChild(cgo: Obj, baseAddress: string, acc: map<string, Node>) returns (r: Result<map<string, Node>, Exn>)
      modifies this`compInfoMap
      decreases cgo, 2
      ensures var run := Apply(old(compInfoMap), ChildEvents(CurrentFilter(), cgo, baseAddress));
        compInfoMap == run.entries
        && r == Outcome(run, ChildInto(acc, CurrentFilter(), cgo, baseAddress))
    {
      if !CheckFilteredObject(Filter(objectFilterMode, filteredObjects), cgo) {
        return Success(acc);
      }
      var cgoName := SanitizeName(cgo.name);
      var sub := GetObjectData(cgo, baseAddress + "/" + cgoName);
      if sub.Failure? {
        return Failure(sub.error);
      }
      return Success(acc[cgoName := sub.value]);
    }

    /** rebuildDataTree: compInfoMap starts empty; the tree comes from
        rootObject, or else from the admitted scene roots under a fresh
        ACCESS-only root that receives its CONTENTS at the end. An exception
        leaves the entries Added so far, and queryData as it was (from
        rootObject) or without CONTENTS (from the scene roots). */
    method RebuildDataTree(sceneRoots: seq<Obj>) returns (fault: Option<Exn>)
      modifies this`compInfoMap, this`queryData
      ensures var run := Apply(map[], SnapshotEvents(CurrentFilter(), rootObject, sceneRoots));
        compInfoMap == run.entries && fault == run.fault
        && queryData == (if run.fault.None? then Some(SnapshotTree(CurrentFilter(), rootObject, sceneRoots))
                         else if rootObject.Some? then old(queryData)
                         else Some(Stub(0)))
    {
      compInfoMap := map[];
      if rootObject.Some? {
        var r := GetObjectData(rootObject.value, "");
        if r.Failure? {
          return Some(r.error);
        }
        queryData := Some(r.value);
        return None;
      }
      queryData := Some(Stub(0));
      var co := AddChildren(sceneRoots, "", map[]);
      if co.Failure? {
        return Some(co.error);
      }
      queryData := Some(Container(0, co.value));
      return None;
    }

    /** The enum branch of the dispatcher's switch: a loop over the
        declared fields that keeps the raw value of the last matching name. */
    method CoerceEnum(fields: seq<EnumField>, data: seq<Arg>) returns (c: Coerced)
      ensures c == Coerce(Enum(fields), data)
    {
      var found: Option<int> := None;
      for i := 0 to |fields|
        invariant EnumScan(fields[..i], data) == Success(found)
      {
        EnumScanStep(fields, i, data, found);
        if fields[i].name == "value__" {
          continue;
        }
        if |data| == 0 {
          EnumScanNoData(fields, i, data);
          CoerceEnumCase(fields, data);
          return Thrown(ArgumentOutOfRange);
        }
        if ArgName(data[0]) == Some(fields[i].name) {
          found := Some(fields[i].raw);
        }
      }
      assert fields[..|fields|] == fields;
      CoerceEnumCase(fields, data);
      if found.Some? {
        c := Converted(DEnum(found.value));
      } else {
        c := NotHandled;
      }
    }

    /** ProcessIncomingMessages: take each waiting message in turn, write
        the member its address names or log a warning; an exception from a
        cast or a missing argument leaves the loop with the rest still queued. */
    method ProcessIncomingMessages() returns (fault: Option<Exn>)
      modifies this`receiver, this`members, this`warnings
      ensures Drained(receiver, members, warnings, fault)
           == Drain(compInfoMap, old(receiver), old(members), old(warnings))
    {
      while |receiver| > 0
        invariant Drain(compInfoMap, receiver, members, warnings)
               == Drain(compInfoMap, old(receiver), old(members), old(warnings))
        decreases |receiver|
      {
        var msg := receiver[0];
        receiver := receiver[1..];
        if msg.address in compInfoMap {
          var info := compInfoMap[msg.address];
          var data: Coerced;
          if info.member.kind.Enum? {
            data := CoerceEnum(info.member.kind.fields, msg.data);
          } else {
            data := Coerce(info.member.kind, msg.data);
          }
          match data {
            case Converted(d) =>
              assert warnings + [] == warnings;
              members := members[Target(info) := d];
            case NotHandled =>
              warnings := warnings + [TypeNotHandled(info.member.kind, msg.address)];
            case Thrown(e) =>
              return Some(e);
          }
        } else {
          warnings := warnings + [PropertyNotFound(msg.address)];
        }
      }
      return None;
    }
  }
}
