/** JavaScript values as the codecs and the validator see them, and the TypeScript
    type model (src/contract/metadata.rs). */
module Metadata {
  import opened Wrappers

  /** A JavaScript number; `-0` is not told apart from `0`. */
  datatype Number = Finite(value: real) | NaN | PosInfinity | NegInfinity

  /** A plain object is a finite map of its own enumerable properties. `Opaque` stands
      for functions and symbols, which `JSON.stringify` drops. */
  datatype Js =
    | Undefined
    | Opaque
    | Null
    | Bool(b: bool)
    | Num(n: Number)
    | Str(s: string)
    | Arr(items: seq<Js>)
    | Obj(props: map<string, Js>)

  datatype Literal = LitString(text: string) | LitNumber(number: Number) | LitBoolean(b: bool)

  datatype RecordKey = StringKey | NumberKey

  datatype TsType =
    | Unknown
    | Void
    | Boolean
    | Number
    | String
    | Json
    | Uint8Array
    | NullType
    | TypeRef(name: string)
    | LiteralType(literal: Literal)
    | Object(fields: seq<TsField>)
    | OpenObject(openFields: seq<TsField>, rest: TsType)
    | Array(item: TsType)
    | Tuple(items: seq<TsType>)
    | Enum(tag: Option<string>, variants: seq<TsVariant>)
    | Record(key: RecordKey, item: TsType)
    | Union(types: seq<TsType>)
    | Optional(inner: TsType)
    | Nullable(inner: TsType)

  datatype TsField = TsField(name: string, ty: TsType, optional: bool)

  datatype TsVariant = TsVariant(name: string, fields: seq<TsField>, rest: Option<TsType>)

  /** A named type with the named types it refers to. */
  datatype Schema = Schema(name: string, ty: TsType, dependencies: seq<Schema>)

  predicate Declares(fields: seq<TsField>, key: string) {
    exists i | 0 <= i < |fields| :: fields[i].name == key
  }
}
