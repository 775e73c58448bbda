/** The scene graph the address builder walks, as values: game objects with
    child objects and components, and each component's public fields and
    properties as reflection reports them. Object and component identities
    stand for .NET reference identity. */
module Scene {
  import opened Basics

  type ObjId = nat
  type CompId = nat

  /** An opaque 32-bit floating-point payload; no float arithmetic is modelled. */
  datatype Float = Float(bits: bv32)

  /** A member's declared type, keyed like the switch on Type.ToString(). */
  datatype Kind =
    | String | Char | Boolean
    | Int32 | Int64 | UInt32 | Int16 | UInt16 | Byte | SByte
    | Double | Single
    | Vector2 | Vector3 | Quaternion | Color
    | Component | GameObject | Matrix4x4 | Transform
    | Enum(fields: seq<EnumField>)      // the fields GetFields() lists, "value__" included
    | Other(typeName: string)           // any other non-enum type

  /** One field of an enum type: its name and its raw constant value. */
  datatype EnumField = EnumField(name: string, raw: int)

  /** The boxed value GetValue returns, as far as the address space uses it.
      A Quaternion carries its Euler angles and a Color its RGBA hex text,
      because the engine's conversions are not modelled. */
  datatype Value =
    | Null
    | Text(s: string)
    | Character(c: char)
    | Flag(b: bool)
    | Integer(i: int)
    | Real(f: Float)
    | Vec2(x: Float, y: Float)
    | Vec3(x: Float, y: Float, z: Float)
    | Rotation(ex: Float, ey: Float, ez: Float)
    | Rgba(hex: string)
    | EnumValue(name: string)
    | Opaque

  /** A [Range(min, max)] attribute. */
  datatype Range = Range(min: Float, max: Float)

  /** What reflection says about one member (FieldInfo or PropertyInfo). */
  datatype MemberInfo = MemberInfo(name: string, kind: Kind, canWrite: bool, range: Option<Range>)

  /** A member together with the value GetValue(comp) returned. */
  datatype Member = Member(info: MemberInfo, value: Value)

  /** A component: its type's full name, GetFields() and GetProperties(). */
  datatype Comp = Comp(id: CompId, typeName: string, fields: seq<Member>, props: seq<Member>)

  /** A game object: its name, its transform's children in order, and GetComponents(). */
  datatype Obj = Obj(id: ObjId, name: string, children: seq<Obj>, comps: seq<Comp>)

  /** The value reflection hands back always has the member's declared type
      (or is null for a string). */
  predicate WellTyped(kind: Kind, value: Value)
  {
    match kind
    case String => value.Text? || value.Null?
    case Char => value.Character?
    case Boolean => value.Flag?
    case Int32 | Int64 | UInt32 | Int16 | UInt16 | Byte | SByte => value.Integer?
    case Double | Single => value.Real?
    case Vector2 => value.Vec2?
    case Vector3 => value.Vec3?
    case Quaternion => value.Rotation?
    case Color => value.Rgba?
    case Enum(_) => value.EnumValue?
    case Component | GameObject | Matrix4x4 | Transform | Other(_) => true
  }
}
