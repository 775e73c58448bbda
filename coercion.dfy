/** ProcessIncomingMessages as specification functions: the type switch
    that turns a message's arguments into a member value, one message's
    effect on the members and the log, and the draining of the queue. */
module Coercion {
  import opened Basics
  import opened Scene
  import opened Leaves
  import opened AddressSpace

  /** A 32-bit signed integer, the width of an OSC int32 argument. */
  type i32 = x: int | -0x8000_0000 <= x < 0x8000_0000

  /** A decoded OSC argument as the receiver boxes it: the four core OSC 1.0
      types (int32, float32, string, blob). */
  datatype Arg = IntArg(i: i32) | FloatArg(f: Float) | StringArg(s: string) | BlobArg(bytes: seq<bv8>)

  datatype Message = Message(address: string, data: seq<Arg>)

  /** The object handed to SetValue: the ToString text of an argument, a
      bool, an int, a float, a vector, Euler angles, or an enum's raw value. */
  datatype Data =
    | DText(source: Arg)
    | DBool(b: bool)
    | DInt(i: i32)
    | DFloat(f: Float)
    | DVector2(x: Float, y: Float)
    | DVector3(x: Float, y: Float, z: Float)
    | DEuler(x: Float, y: Float, z: Float)
    | DEnum(raw: int)

  /** The switch's result: a value, data left null, or an exception. */
  datatype Coerced = Converted(data: Data) | NotHandled | Thrown(fault: Exn)

  /** msg.Data[k]. */
  function ArgAt(data: seq<Arg>, k: nat): Result<Arg, Exn>
  {
    if k < |data| then Success(data[k]) else Failure(ArgumentOutOfRange)
  }

  /** (int)msg.Data[k]: unboxing needs a boxed int. */
  function IntAt(data: seq<Arg>, k: nat): Result<i32, Exn>
  {
    if k >= |data| then Failure(ArgumentOutOfRange)
    else if data[k].IntArg? then Success(data[k].i)
    else Failure(InvalidCast)
  }

  /** (float)msg.Data[k]: unboxing needs a boxed float. */
  function FloatAt(data: seq<Arg>, k: nat): Result<Float, Exn>
  {
    if k >= |data| then Failure(ArgumentOutOfRange)
    else if data[k].FloatArg? then Success(data[k].f)
    else Failure(InvalidCast)
  }

  /** The kinds the switch names; every other kind goes to the default branch. */
  predicate Switched(kind: Kind)
  {
    !(kind.Enum? || kind.Component? || kind.GameObject? || kind.Matrix4x4? || kind.Transform? || kind.Other?)
  }

  /** How many leading arguments a switched kind reads. */
  function Arity(kind: Kind): nat
  {
    match kind
    case Vector2 => 2
    case Vector3 | Quaternion => 3
    case _ => 1
  }

  /** Whether an argument survives the cast a switched kind applies to it.
      No core OSC argument is a boxed Color. */
  predicate Accepts(kind: Kind, a: Arg)
  {
    match kind
    case String | Char => true
    case Boolean | Int32 | Int64 | UInt32 | Int16 | UInt16 | Byte | SByte => a.IntArg?
    case Double | Single | Vector2 | Vector3 | Quaternion => a.FloatArg?
    case _ => false
  }

  /** A float32 NaN: all exponent bits set and a non-zero fraction. */
  predicate IsNaN(f: Float)
  {
    f.bits & 0x7F80_0000 == 0x7F80_0000 && f.bits & 0x007F_FFFF != 0
  }

  const PositiveInfinity: Float := Float(0x7F80_0000)

  /** The ToString() text of an argument when that text can be a C# identifier,
      and so an enum field name: a string's own text, and "NaN" or "Infinity"
      for those float values. The text of an int is a numeral, that of any
      other float a number or "-Infinity", and that of a blob
      "System.Byte[]": none of these is an identifier. */
  function ArgName(a: Arg): Option<string>
  {
    match a
    case StringArg(s) => Some(s)
    case FloatArg(f) =>
      if IsNaN(f) then Some("NaN") else if f == PositiveInfinity then Some("Infinity") else None
    case _ => None
  }

  /** The enum loop: over the declared fields except value__, compare the
      name with msg.Data[0].ToString(); keep the raw value of the last match.
      Reading msg.Data[0] throws when there are no arguments. */
  function EnumScan(fields: seq<EnumField>, data: seq<Arg>): (r: Result<Option<int>, Exn>)
    ensures r.Failure? ==> r.error == ArgumentOutOfRange
    ensures |data| == 0 ==> (r.Failure? <==> |DeclaredNames(fields)| > 0)
    ensures |data| > 0 ==> r.Success?
    ensures |data| > 0 ==>
      (r.value.Some? <==> ArgName(data[0]).Some? && ArgName(data[0]).value in DeclaredNames(fields))
    ensures r.Success? && r.value.Some? ==>
      |data| > 0 &&
      exists j :: 0 <= j < |fields| && fields[j].name != "value__" && ArgName(data[0]) == Some(fields[j].name)
                  && fields[j].raw == r.value.value
  {
    if |fields| == 0 then Success(None)
    else
      var front, field := fields[..|fields| - 1], fields[|fields| - 1];
      assert fields == front + [field];
      DeclaredNamesConcat(front, [field]);
      match EnumScan(front, data)
      case Failure(e) => Failure(e)
      case Success(found) =>
        if field.name == "value__" then Success(found)
        else if |data| == 0 then Failure(ArgumentOutOfRange)
        else if ArgName(data[0]) == Some(field.name) then Success(Some(field.raw))
        else Success(found)
  }

  /** The switch of ProcessIncomingMessages for a member of the given kind. */
  function Coerce(kind: Kind, data: seq<Arg>): (r: Coerced)
    ensures r.NotHandled? <==>
      (!Switched(kind) && !kind.Enum?) || (kind.Enum? && EnumScan(kind.fields, data) == Success(None))
    ensures Switched(kind) ==>
      (r.Converted? <==> |data| >= Arity(kind) && forall i :: 0 <= i < Arity(kind) ==> Accepts(kind, data[i]))
    ensures Switched(kind) && |data| == 0 ==> r == Thrown(ArgumentOutOfRange)
    ensures r.Thrown? ==> r.fault == ArgumentOutOfRange || r.fault == InvalidCast
    ensures kind == Boolean && r.Converted? ==> r.data == DBool(data[0] == IntArg(1))
    ensures kind.Enum? && r.Converted? ==>
      |data| > 0
      && exists j :: 0 <= j < |kind.fields| && kind.fields[j].name != "value__"
           && ArgName(data[0]) == Some(kind.fields[j].name) && r.data == DEnum(kind.fields[j].raw)
  {
    if !Switched(kind) then
      // the switch's default branch
      if kind.Enum? then
        match EnumScan(kind.fields, data)
        case Failure(e) => Thrown(e)
        case Success(None) => NotHandled
        case Success(Some(raw)) => Converted(DEnum(raw))
      else NotHandled
    else match kind
    case String | Char =>
      (match ArgAt(data, 0)
       case Success(a) => Converted(DText(a))
       case Failure(e) => Thrown(e))
    case Boolean =>
      (match IntAt(data, 0)
       case Success(i) => Converted(DBool(i == 1))
       case Failure(e) => Thrown(e))
    case Int32 | Int64 | UInt32 | Int16 | UInt16 | Byte | SByte =>
      (match IntAt(data, 0)
       case Success(i) => Converted(DInt(i))
       case Failure(e) => Thrown(e))
    case Double | Single =>
      (match FloatAt(data, 0)
       case Success(x) => Converted(DFloat(x))
       case Failure(e) => Thrown(e))
    case Vector2 =>
      (match FloatAt(data, 0)
       case Failure(e) => Thrown(e)
       case Success(x) =>
         match FloatAt(data, 1)
         case Failure(e) => Thrown(e)
         case Success(y) => Converted(DVector2(x, y)))
    case Vector3 | Quaternion =>
      (match FloatAt(data, 0)
       case Failure(e) => Thrown(e)
       case Success(x) =>
         match FloatAt(data, 1)
         case Failure(e) => Thrown(e)
         case Success(y) =>
           match FloatAt(data, 2)
           case Failure(e) => Thrown(e)
           case Success(z) => Converted(if kind == Vector3 then DVector3(x, y, z) else DEuler(x, y, z)))
    case Color =>
      (match ArgAt(data, 0)
       case Success(_) => Thrown(InvalidCast)
       case Failure(e) => Thrown(e))
    case Enum(_) | Component | GameObject | Matrix4x4 | Transform | Other(_) => NotHandled // not Switched
  }

  /** What the switch writes for each kind it converts: the first argument
      itself for text, its int for the integer kinds, its float for the
      floating kinds, and the leading two or three floats for the vector
      kinds (a quaternion from Euler angles). A Color member is never written. */
  lemma CoerceWrites(kind: Kind, data: seq<Arg>)
    requires Coerce(kind, data).Converted?
    ensures kind != Color
    ensures kind == String || kind == Char ==> Coerce(kind, data).data == DText(data[0])
    ensures (kind == Int32 || kind == Int64 || kind == UInt32 || kind == Int16
             || kind == UInt16 || kind == Byte || kind == SByte) ==>
      Coerce(kind, data).data == DInt(data[0].i)
    ensures kind == Double || kind == Single ==> Coerce(kind, data).data == DFloat(data[0].f)
    ensures kind == Vector2 ==> Coerce(kind, data).data == DVector2(data[0].f, data[1].f)
    ensures kind == Vector3 ==> Coerce(kind, data).data == DVector3(data[0].f, data[1].f, data[2].f)
    ensures kind == Quaternion ==> Coerce(kind, data).data == DEuler(data[0].f, data[1].f, data[2].f)
  {
  }

  /** A first argument whose ToString text is a declared name selects the raw
      value of a field with that name. */
  lemma EnumTextSelects(fields: seq<EnumField>, data: seq<Arg>, name: string)
    requires |data| > 0 && ArgName(data[0]) == Some(name) && name in DeclaredNames(fields)
    ensures exists j ::
      && 0 <= j < |fields| && fields[j].name == name
      && Coerce(Enum(fields), data) == Converted(DEnum(fields[j].raw))
  {
    var r := EnumScan(fields, data);
    assert r.Success? && r.value.Some?;
    var j :| 0 <= j < |fields| && fields[j].name != "value__"
      && ArgName(data[0]) == Some(fields[j].name) && fields[j].raw == r.value.value;
    assert Coerce(Enum(fields), data) == Converted(DEnum(fields[j].raw));
  }

  /** The text of a NaN is "NaN". */
  lemma NaNText(f: Float)
    requires IsNaN(f)
    ensures ArgName(FloatArg(f)) == Some("NaN")
  {
  }

  /** The text of positive infinity is "Infinity". */
  lemma InfinityText()
    ensures ArgName(FloatArg(PositiveInfinity)) == Some("Infinity")
  {
  }

  /** Any NaN first argument, whose text is "NaN", selects the raw value of a
      declared enum field named NaN. */
  lemma NaNNamesEnumValue(fields: seq<EnumField>, f: Float, rest: seq<Arg>)
    requires IsNaN(f) && "NaN" in DeclaredNames(fields)
    ensures exists j ::
      && 0 <= j < |fields| && fields[j].name == "NaN"
      && Coerce(Enum(fields), [FloatArg(f)] + rest) == Converted(DEnum(fields[j].raw))
  {
    NaNText(f);
    EnumTextSelects(fields, [FloatArg(f)] + rest, "NaN");
  }

  /** A positive-infinity first argument, whose text is "Infinity", selects the
      raw value of a declared enum field named Infinity. */
  lemma InfinityNamesEnumValue(fields: seq<EnumField>, rest: seq<Arg>)
    requires "Infinity" in DeclaredNames(fields)
    ensures exists j ::
      && 0 <= j < |fields| && fields[j].name == "Infinity"
      && Coerce(Enum(fields), [FloatArg(PositiveInfinity)] + rest) == Converted(DEnum(fields[j].raw))
  {
    InfinityText();
    EnumTextSelects(fields, [FloatArg(PositiveInfinity)] + rest, "Infinity");
  }

  /** A Debug.LogWarning line. */
  datatype Warning = PropertyNotFound(address: string) | TypeNotHandled(kind: Kind, address: string)

  /** A member of a live component that SetValue can write. */
  datatype MemberRef = MemberRef(comp: CompId, isField: bool, name: string)

  function Target(info: CompInfo): MemberRef
  {
    MemberRef(info.comp, info.isField, info.member.name)
  }

  /** One message's effect: the members after SetValue and the warnings
      logged, or the exception that leaves the loop. */
  datatype Step = Applied(members: map<MemberRef, Data>, warnings: seq<Warning>) | Faulted(fault: Exn)

  function Dispatch(compInfoMap: map<string, CompInfo>, members: map<MemberRef, Data>, msg: Message): Step
  {
    if msg.address !in compInfoMap then Applied(members, [PropertyNotFound(msg.address)])
    else
      var info := compInfoMap[msg.address];
      match Coerce(info.member.kind, msg.data)
      case Converted(d) => Applied(members[Target(info) := d], [])
      case NotHandled => Applied(members, [TypeNotHandled(info.member.kind, msg.address)])
      case Thrown(e) => Faulted(e)
  }

  /** The receiver queue, the members and the log after the loop, and the
      exception that ended it early, if any. */
  datatype Drained = Drained(queue: seq<Message>, members: map<MemberRef, Data>, warnings: seq<Warning>, fault: Option<Exn>)

  function Drain(compInfoMap: map<string, CompInfo>, queue: seq<Message>, members: map<MemberRef, Data>, warnings: seq<Warning>): Drained
    decreases |queue|
  {
    if queue == [] then Drained([], members, warnings, None)
    else match Dispatch(compInfoMap, members, queue[0])
      case Faulted(e) => Drained(queue[1..], members, warnings, Some(e))
      case Applied(ms, ws) => Drain(compInfoMap, queue[1..], ms, warnings + ws)
  }

  /** The loop ends with an empty queue unless an exception left it; then
      the messages after the one that threw are still waiting. */
  lemma {:induction false} DrainEmptiesQueue(compInfoMap: map<string, CompInfo>, queue: seq<Message>, members: map<MemberRef, Data>, warnings: seq<Warning>)
    ensures var d := Drain(compInfoMap, queue, members, warnings);
      (d.fault.None? ==> d.queue == [])
      && (d.fault.Some? ==> exists k :: 1 <= k <= |queue| && d.queue == queue[k..])
    decreases |queue|
  {
    if queue != [] {
      match Dispatch(compInfoMap, members, queue[0])
      case Faulted(e) =>
        assert Drain(compInfoMap, queue, members, warnings).queue == queue[1..];
      case Applied(ms, ws) =>
        DrainEmptiesQueue(compInfoMap, queue[1..], ms, warnings + ws);
        var d := Drain(compInfoMap, queue[1..], ms, warnings + ws);
        if d.fault.Some? {
          var k :| 1 <= k <= |queue[1..]| && d.queue == queue[1..][k..];
          assert d.queue == queue[k + 1..];
        }
    }
  }

  /** An address absent from compInfoMap writes no member and only logs a warning. */
  lemma UnknownAddressOnlyWarns(compInfoMap: map<string, CompInfo>, members: map<MemberRef, Data>, msg: Message)
    requires msg.address !in compInfoMap
    ensures Dispatch(compInfoMap, members, msg) == Applied(members, [PropertyNotFound(msg.address)])
  {
  }

  /** A queue of unknown addresses leaves every member as it was, logs one
      warning per message, and is drained without exception. */
  lemma {:induction false} DrainUnknownAddresses(compInfoMap: map<string, CompInfo>, queue: seq<Message>, members: map<MemberRef, Data>, warnings: seq<Warning>)
    requires forall i :: 0 <= i < |queue| ==> queue[i].address !in compInfoMap
    ensures var d := Drain(compInfoMap, queue, members, warnings);
      d.fault.None? && d.members == members && |d.warnings| == |warnings| + |queue|
      && d.warnings[..|warnings|] == warnings
      && forall i :: 0 <= i < |queue| ==> d.warnings[|warnings| + i] == PropertyNotFound(queue[i].address)
    decreases |queue|
  {
    if queue != [] {
      var ws := warnings + [PropertyNotFound(queue[0].address)];
      DrainUnknownAddresses(compInfoMap, queue[1..], members, ws);
      var d := Drain(compInfoMap, queue[1..], members, ws);
      assert d.warnings[..|warnings|] == ws[..|warnings|] by {
        assert d.warnings[..|ws|] == ws;
      }
      forall i | 0 <= i < |queue| ensures d.warnings[|warnings| + i] == PropertyNotFound(queue[i].address) {
        if i == 0 {
          assert d.warnings[..|ws|][|warnings|] == ws[|warnings|];
        } else {
          assert queue[1..][i - 1] == queue[i];
        }
      }
    }
  }

  /** The members the queue's known addresses point at. */
  function Targets(compInfoMap: map<string, CompInfo>, queue: seq<Message>): set<MemberRef>
  {
    set i | 0 <= i < |queue| && queue[i].address in compInfoMap :: Target(compInfoMap[queue[i].address])
  }

  /** Draining writes only the members that the messages' addresses name. */
  lemma {:induction false} DrainFrame(compInfoMap: map<string, CompInfo>, queue: seq<Message>, members: map<MemberRef, Data>, warnings: seq<Warning>, r: MemberRef)
    requires r !in Targets(compInfoMap, queue)
    ensures var d := Drain(compInfoMap, queue, members, warnings);
      (r in d.members <==> r in members) && (r in members ==> d.members[r] == members[r])
    decreases |queue|
  {
    if queue != [] {
      assert r !in Targets(compInfoMap, queue[1..]) by {
        forall i | 0 <= i < |queue[1..]| && queue[1..][i].address in compInfoMap
          ensures Target(compInfoMap[queue[1..][i].address]) != r
        {
          assert queue[1..][i] == queue[i + 1];
        }
      }
      match Dispatch(compInfoMap, members, queue[0])
      case Faulted(e) =>
      case Applied(ms, ws) =>
        DrainFrame(compInfoMap, queue[1..], ms, warnings + ws, r);
    }
  }

  /** An enum argument naming no declared value leaves the member unchanged
      and logs "Type not handled". */
  lemma EnumMismatchUnchanged(compInfoMap: map<string, CompInfo>, members: map<MemberRef, Data>, msg: Message)
    requires msg.address in compInfoMap && compInfoMap[msg.address].member.kind.Enum?
    requires |msg.data| > 0
    requires !(ArgName(msg.data[0]).Some?
               && ArgName(msg.data[0]).value in DeclaredNames(compInfoMap[msg.address].member.kind.fields))
    ensures Dispatch(compInfoMap, members, msg)
         == Applied(members, [TypeNotHandled(compInfoMap[msg.address].member.kind, msg.address)])
  {
  }

  /** An enum argument naming a declared value writes that value's raw constant. */
  lemma EnumMatchWrites(compInfoMap: map<string, CompInfo>, members: map<MemberRef, Data>, msg: Message)
    requires msg.address in compInfoMap && compInfoMap[msg.address].member.kind.Enum?
    requires |msg.data| > 0 && ArgName(msg.data[0]).Some?
    requires ArgName(msg.data[0]).value in DeclaredNames(compInfoMap[msg.address].member.kind.fields)
    ensures var info := compInfoMap[msg.address];
      exists j :: 0 <= j < |info.member.kind.fields| && Some(info.member.kind.fields[j].name) == ArgName(msg.data[0])
        && Dispatch(compInfoMap, members, msg) == Applied(members[Target(info) := DEnum(info.member.kind.fields[j].raw)], [])
  {
    DeclaredNamesMembers(compInfoMap[msg.address].member.kind.fields);
  }

  /** A bool member is set to whether the first argument is the int 1. */
  lemma BoolSetIffOne(compInfoMap: map<string, CompInfo>, members: map<MemberRef, Data>, msg: Message)
    requires msg.address in compInfoMap && compInfoMap[msg.address].member.kind == Boolean
    requires |msg.data| > 0 && msg.data[0].IntArg?
    ensures var info := compInfoMap[msg.address];
      Dispatch(compInfoMap, members, msg) == Applied(members[Target(info) := DBool(msg.data[0].i == 1)], [])
  {
  }

  /** Every non-enum kind getPropObject describes is named by the switch, so
      a registered member is "not handled" only for an enum name that
      matches nothing. */
  lemma SupportedKindsHandled(kind: Kind, data: seq<Arg>)
    requires Supported(kind)
    ensures Coerce(kind, data).NotHandled? ==> kind.Enum? && EnumScan(kind.fields, data) == Success(None)
  {
  }
}
