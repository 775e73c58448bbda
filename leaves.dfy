/** getPropObject: the OSCQuery description of one member, or nothing when the
    member's type is not supported. */
module Leaves {
  import opened Basics
  import opened Scene

  /** One entry of a VALUE array. */
  datatype Atom = AtomString(s: string) | AtomBool(b: bool) | AtomInt(i: int) | AtomFloat(f: Float)

  /** The single object of a RANGE array: the [min, max] pair the Range
      attribute adds and, for enums, the VALS list. */
  datatype RangeEntry = RangeEntry(bounds: seq<Float>, vals: Option<seq<string>>)

  /** A parameter description: ACCESS, VALUE, TYPE and RANGE. */
  datatype Leaf = Leaf(access: int, value: seq<Atom>, typeTag: string, range: seq<RangeEntry>)

  /** getPropObject returns null, a description, or raises. */
  datatype PropOutcome = Unsupported | Prop(leaf: Leaf) | Throws(fault: Exn)

  /** The enum's names in declaration order, "value__" skipped. */
  function DeclaredNames(fields: seq<EnumField>): seq<string>
  {
    if |fields| == 0 then []
    else
      var last := fields[|fields| - 1];
      DeclaredNames(fields[..|fields| - 1]) + (if last.name == "value__" then [] else [last.name])
  }

  /** The names are exactly the declared fields' names, value__ excepted. */
  lemma {:induction false} DeclaredNamesMembers(fields: seq<EnumField>)
    ensures |DeclaredNames(fields)| <= |fields|
    ensures "value__" !in DeclaredNames(fields)
    ensures forall j :: 0 <= j < |fields| && fields[j].name != "value__" ==> fields[j].name in DeclaredNames(fields)
    ensures forall n :: n in DeclaredNames(fields) ==> exists j :: 0 <= j < |fields| && fields[j].name == n
    decreases |fields|
  {
    if |fields| > 0 {
      var front := fields[..|fields| - 1];
      DeclaredNamesMembers(front);
      forall n | n in DeclaredNames(fields)
        ensures exists j :: 0 <= j < |fields| && fields[j].name == n
      {
        if n in DeclaredNames(front) {
          var j :| 0 <= j < |front| && front[j].name == n;
          assert fields[j].name == n;
        } else {
          assert fields[|fields| - 1].name == n;
        }
      }
    }
  }

  /** Declaration order is kept: the names of a concatenation are the names of
      each part, in turn. */
  lemma {:induction false} DeclaredNamesConcat(a: seq<EnumField>, b: seq<EnumField>)
    ensures DeclaredNames(a + b) == DeclaredNames(a) + DeclaredNames(b)
    decreases |b|
  {
    if |b| == 0 {
      assert a + b == a;
    } else {
      assert (a + b)[..|a + b| - 1] == a + b[..|b| - 1];
      assert (a + b)[|a + b| - 1] == b[|b| - 1];
      DeclaredNamesConcat(a, b[..|b| - 1]);
    }
  }

  /** The [min, max] pair a Range attribute contributes. */
  function Bounds(range: Option<Range>): seq<Float>
  {
    if range.Some? then [range.value.min, range.value.max] else []
  }

  /** The types getPropObject describes: its switch cases and enums. UInt32
      is not among them. */
  predicate Supported(kind: Kind)
  {
    !(kind.UInt32? || kind.Component? || kind.GameObject? || kind.Matrix4x4?
      || kind.Transform? || kind.Other?)
  }

  /** The OSC type tag each supported type is described with. */
  function ExpectedTag(kind: Kind): Option<string>
  {
    match kind
    case String | Char => Some("s")
    case Boolean => Some("b")
    case Int32 | Int64 | Int16 | UInt16 | Byte | SByte => Some("i")
    case Double | Single => Some("f")
    case Vector2 => Some("ff")
    case Vector3 | Quaternion => Some("fff")
    case Color => Some("r")
    case Enum(_) => Some("s")
    case UInt32 | Component | GameObject | Matrix4x4 | Transform | Other(_) => None
  }

  /** Whether a VALUE entry is of the kind its type-tag character announces. */
  predicate AtomFits(a: Atom, tag: char)
  {
    match tag
    case 's' => a.AtomString?
    case 'b' => a.AtomBool?
    case 'i' => a.AtomInt?
    case 'f' => a.AtomFloat?
    case 'r' => a.AtomString?
    case _ => false
  }

  /** The exception an unboxing cast of a value of the wrong type raises. */
  function CastFault(value: Value): Exn
  {
    if value.Null? then NullReference else InvalidCast
  }

  /** A description with access 3 and a one-entry RANGE. */
  function Describe(value: seq<Atom>, typeTag: string, bounds: seq<Float>, vals: Option<seq<string>>): PropOutcome
  {
    Prop(Leaf(3, value, typeTag, [RangeEntry(bounds, vals)]))
  }

  /** getPropObject, with the integer family and double read as their
      numeric value (see IntegerWidthsDescribed). */
  function PropObject(kind: Kind, value: Value, range: Option<Range>): PropOutcome
  {
    var bounds := Bounds(range);
    match kind
    case String =>
      if value.Text? then Describe([AtomString(value.s)], "s", bounds, None) else Throws(CastFault(value))
    case Char =>
      if value.Character? then Describe([AtomString([value.c])], "s", bounds, None) else Throws(CastFault(value))
    case Boolean =>
      if value.Flag? then Describe([AtomBool(value.b)], "b", bounds, None) else Throws(CastFault(value))
    case Int32 | Int64 | Int16 | UInt16 | Byte | SByte =>
      if value.Integer? then Describe([AtomInt(value.i)], "i", bounds, None) else Throws(CastFault(value))
    case Double | Single =>
      if value.Real? then Describe([AtomFloat(value.f)], "f", bounds, None) else Throws(CastFault(value))
    case Vector2 =>
      if value.Vec2? then Describe([AtomFloat(value.x), AtomFloat(value.y)], "ff", bounds, None)
      else Throws(CastFault(value))
    case Vector3 =>
      if value.Vec3? then Describe([AtomFloat(value.x), AtomFloat(value.y), AtomFloat(value.z)], "fff", bounds, None)
      else Throws(CastFault(value))
    case Quaternion =>
      if value.Rotation? then Describe([AtomFloat(value.ex), AtomFloat(value.ey), AtomFloat(value.ez)], "fff", bounds, None)
      else Throws(CastFault(value))
    case Color =>
      if value.Rgba? then Describe([AtomString(value.hex)], "r", bounds, None) else Throws(CastFault(value))
    case Enum(fields) =>
      if value.EnumValue? then Describe([AtomString(value.name)], "s", bounds, Some(DeclaredNames(fields)))
      else Throws(CastFault(value))
    case UInt32 | Component | GameObject | Matrix4x4 | Transform | Other(_) =>
      Unsupported
  }

  /** getPropObject returns null exactly for the types it does not list,
      and raises exactly when a listed type's value cannot be unboxed. */
  lemma PropObjectSupport(kind: Kind, value: Value, range: Option<Range>)
    ensures PropObject(kind, value, range).Unsupported? <==> !Supported(kind)
    ensures PropObject(kind, value, range).Throws? <==> Supported(kind) && (value.Null? || !WellTyped(kind, value))
  {
  }

  /** Every description has ACCESS 3, a RANGE with exactly one entry holding
      the range attribute's bounds, the type's tag, one VALUE per tag letter
      of the announced kind, and VALS exactly for enums. */
  lemma PropObjectLeaf(kind: Kind, value: Value, range: Option<Range>)
    requires PropObject(kind, value, range).Prop?
    ensures var leaf := PropObject(kind, value, range).leaf;
      leaf.access == 3 && |leaf.range| == 1 && leaf.range[0].bounds == Bounds(range)
      && Some(leaf.typeTag) == ExpectedTag(kind)
      && |leaf.value| == |leaf.typeTag|
      && (forall i :: 0 <= i < |leaf.value| ==> AtomFits(leaf.value[i], leaf.typeTag[i]))
      && (leaf.range[0].vals.Some? <==> kind.Enum?)
  {
  }

  /** An enum is described by its declared names, value__ left out, and
      its current value's name. */
  lemma PropObjectEnum(fields: seq<EnumField>, value: Value, range: Option<Range>)
    requires PropObject(Enum(fields), value, range).Prop?
    ensures var leaf := PropObject(Enum(fields), value, range).leaf;
      value.EnumValue? && leaf.typeTag == "s"
      && leaf.range[0].vals == Some(DeclaredNames(fields)) && leaf.value == [AtomString(value.name)]
  {
  }

  /** `(int)value` as written: an unboxing cast, which succeeds only when the
      box holds exactly a System.Int32. */
  function UnboxIntAsWritten(kind: Kind, value: Value): (r: Result<int, Exn>)
    ensures r.Success? <==> kind == Int32 && value.Integer?
  {
    if kind == Int32 && value.Integer? then Success(value.i) else Failure(CastFault(value))
  }

  /** `(float)value` as written: succeeds only when the box holds exactly a System.Single. */
  function UnboxFloatAsWritten(kind: Kind, value: Value): (r: Result<Float, Exn>)
    ensures r.Success? <==> kind == Single && value.Real?
  {
    if kind == Single && value.Real? then Success(value.f) else Failure(CastFault(value))
  }

  /** getPropObject exactly as written, unboxing casts included. */
  function PropObjectAsWritten(kind: Kind, value: Value, range: Option<Range>): (r: PropOutcome)
    ensures !(kind.Int64? || kind.Int16? || kind.UInt16? || kind.Byte? || kind.SByte? || kind.Double?)
      ==> r == PropObject(kind, value, range)
  {
    match kind
    case Int32 | Int64 | Int16 | UInt16 | Byte | SByte =>
      (match UnboxIntAsWritten(kind, value)
       case Success(i) => Describe([AtomInt(i)], "i", Bounds(range), None)
       case Failure(e) => Throws(e))
    case Double | Single =>
      (match UnboxFloatAsWritten(kind, value)
       case Success(f) => Describe([AtomFloat(f)], "f", Bounds(range), None)
       case Failure(e) => Throws(e))
    case _ => PropObject(kind, value, range)
  }

  /** As written, every Int64, Int16, UInt16, Byte, SByte or Double member
      raises InvalidCastException instead of being described. */
  lemma WideNumbersThrowAsWritten(kind: Kind, value: Value, range: Option<Range>)
    requires kind.Int64? || kind.Int16? || kind.UInt16? || kind.Byte? || kind.SByte? || kind.Double?
    requires WellTyped(kind, value)
    ensures PropObjectAsWritten(kind, value, range) == Throws(InvalidCast)
    ensures PropObject(kind, value, range).Prop?
  {
  }

  /** The corrected description: every integer width is an "i" leaf holding
      the integer, every float width an "f" leaf holding the float. */
  lemma IntegerWidthsDescribed(kind: Kind, value: Value, range: Option<Range>)
    requires kind.Int32? || kind.Int64? || kind.Int16? || kind.UInt16? || kind.Byte? || kind.SByte?
      || kind.Double? || kind.Single?
    requires WellTyped(kind, value)
    ensures PropObject(kind, value, range) ==
      if value.Integer? then Describe([AtomInt(value.i)], "i", Bounds(range), None)
      else Describe([AtomFloat(value.f)], "f", Bounds(range), None)
  {
  }
}
