/** Rust types that derive their codec, reduced to the facts both generated back ends
    read (rustts_macros/src/model.rs), and the Rust values they hold. */
module Descriptors {
  import opened Wrappers
  import opened Metadata

  datatype KeyTy = TextKey | IntKey(lo: int, hi: int)

  datatype Key = KText(text: string) | KInt(i: int)

  /** A field's type. `Named` is a deriving type, by position in the environment. */
  datatype Ty =
    | UnitTy
    | BoolTy
    | IntTy(lo: int, hi: int)
    | FloatTy
    | TextTy
    | OptionTy(inner: Ty)
    | VecTy(item: Ty)
    | TupleTy(items: seq<Ty>)
    | MapTy(key: KeyTy, value: Ty)
    | Named(id: nat)

  datatype Val =
    | VUnit
    | VBool(b: bool)
    | VInt(i: int)
    | VFloat(n: Number)
    | VText(text: string)
    | VNone
    | VSome(v: Val)
    | VList(items: seq<Val>)
    | VMap(entries: map<Key, Val>)
    | VStruct(fields: seq<Val>)
    | VVariant(variant: nat, payload: seq<Val>)

  datatype Style = UnitStyle | NewtypeStyle | TupleStyle | StructStyle

  /** One field, with the names serde gives it in each direction. `default` is what its
      own or its struct's `#[serde(default)]` supplies, `zero` its type's `Default`. */
  datatype Field = Field(
    ty: Ty, ser: string, de: string, aliases: seq<string>, flatten: bool,
    skipSer: bool, skipDe: bool, skipIf: Option<Val -> bool>,
    default: Option<Val>, zero: Val)
  {
    function Accepted(): seq<string> { [de] + aliases }

    /** Whether serializing `v` leaves the field out. */
    predicate LeftOut(v: Val) { skipSer || (skipIf.Some? && skipIf.value(v)) }

    /** The value a skipped field decodes to. */
    function Fallback(): Val { if default.Some? then default.value else zero }
  }

  datatype Shape = Shape(style: Style, fields: seq<Field>)
  {
    predicate HasFlatten() { exists i | 0 <= i < |fields| :: fields[i].flatten }
  }

  datatype Variant = Variant(
    ser: string, de: string, aliases: seq<string>, shape: Shape, skipSer: bool, skipDe: bool)
  {
    predicate Accepts(name: string) { name == de || name in aliases }
  }

  datatype Tagging =
    | External
    | Internal(tag: string)
    | Adjacent(tag: string, content: string)
    | Untagged

  datatype Body = StructBody(shape: Shape) | EnumBody(tagging: Tagging, variants: seq<Variant>)

  /** A deriving type: its schema name, body, emitted codecs and
      `#[serde(deny_unknown_fields)]`. */
  datatype Decl = Decl(name: string, body: Body, encodes: bool, decodes: bool, denyUnknown: bool)
  {
    /** A schema-only type describes both directions. */
    predicate DescribesEncode() { encodes || !decodes }

    predicate DescribesDecode() { decodes || !encodes }
  }

  type Env = seq<Decl>
}
