/** The TypeScript schema derived for a type (rustts_macros/src/schema/fields.rs, enums.rs)
    and the object schemas it assembles (src/contract/schema/object.rs). `None` is a
    schema that panics or never finishes building. */
module DerivedSchema {
  import opened Wrappers
  import opened Metadata
  import opened Descriptors

  datatype ObjectSchema = ObjectSchema(fields: seq<TsField>, rest: Option<TsType>)
  {
    function AsType(): TsType {
      if rest.Some? then OpenObject(fields, rest.value) else Object(fields)
    }

    function AsVariant(name: string): TsVariant { TsVariant(name, fields, rest) }

    function Push(field: TsField): ObjectSchema { ObjectSchema(fields + [field], rest) }

    function MergeRest(more: TsType): Option<ObjectSchema> {
      if rest.None? || rest.value == more then Some(ObjectSchema(fields, Some(more))) else None
    }

    function MergeFields(more: seq<TsField>, allOptional: bool): Option<ObjectSchema>
      decreases |more|
    {
      if more == [] then Some(this)
      else if Declares(fields, more[0].name) then None
      else Push(more[0].(optional := more[0].optional || allOptional)).MergeFields(more[1..], allOptional)
    }

    /** Takes over the fields and the rest of another object's type. */
    function Flatten(ty: TsType, allOptional: bool): Option<ObjectSchema> {
      match ty
      case Object(more) => MergeFields(more, allOptional)
      case OpenObject(more, openRest) =>
        var merged := MergeFields(more, allOptional);
        if merged.None? then None else merged.value.MergeRest(openRest)
      case Record(StringKey, item) => MergeRest(item)
      case Json => MergeRest(Json)
      case NullType => Some(this)
      case Void => Some(this)
      case _ => None
    }
  }

  const EMPTY := ObjectSchema([], None)

  datatype Presence = Omitted | MayBeAbsent | Required

  /** Whether the schema shows a field, and whether it may be absent: each described
      direction omits it (`None`) or says whether it is always there. */
  function PresenceOf(decl: Decl, field: Field): Presence {
    var output := if field.skipSer then None else Some(field.skipIf.None? && !field.ty.OptionTy?);
    var input := if field.skipDe then None else Some(field.default.None? && !field.ty.OptionTy?);
    if (!decl.DescribesEncode() || output.None?) && (!decl.DescribesDecode() || input.None?) then Omitted
    else if (!decl.DescribesEncode() || output == Some(true)) && (!decl.DescribesDecode() || input == Some(true))
    then Required
    else MayBeAbsent
  }

  function SchemaKey(decl: Decl, ser: string, de: string): string {
    if decl.DescribesEncode() then ser else de
  }

  predicate SkippedVariant(decl: Decl, variant: Variant) {
    (!decl.DescribesEncode() || variant.skipSer) && (!decl.DescribesDecode() || variant.skipDe)
  }

  /** How a schema refers to a type: by name when it derives, inline otherwise. */
  function TypeRefOf(env: Env, ty: Ty): TsType {
    match ty
    case UnitTy => Void
    case BoolTy => Boolean
    case IntTy(_, _) => TsType.Number
    case FloatTy => TsType.Number
    case TextTy => String
    case OptionTy(inner) => Nullable(TypeRefOf(env, inner))
    case VecTy(item) => Array(TypeRefOf(env, item))
    case TupleTy(items) => Tuple(seq(|items|, i requires 0 <= i < |items| => TypeRefOf(env, items[i])))
    case MapTy(TextKey, item) => Record(StringKey, TypeRefOf(env, item))
    case MapTy(IntKey(_, _), item) => Record(NumberKey, TypeRefOf(env, item))
    case Named(id) => if id < |env| then TypeRef(env[id].name) else Unknown
  }

  /** The schema of a merged type, expanded: a deriving type must come before the type
      `id` that merges it, else the expansion would not end. */
  function Expanded(env: Env, id: nat, ty: Ty): Option<TsType>
    requires id < |env|
    decreases id, 0
  {
    if !ty.Named? then Some(TypeRefOf(env, ty))
    else if ty.id < id then TsOf(env, ty.id) else None
  }

  /** `ts_type()` of the deriving type `id`. */
  function TsOf(env: Env, id: nat): Option<TsType>
    requires id < |env|
    decreases id, 5
  {
    match env[id].body
    case StructBody(shape) => ShapeType(env, id, shape)
    case EnumBody(tagging, variants) => EnumType(env, id, tagging, variants)
  }

  function ShapeType(env: Env, id: nat, shape: Shape): Option<TsType>
    requires id < |env|
    decreases id, 2
  {
    match shape.style
    case UnitStyle => Some(NullType)
    case NewtypeStyle => if |shape.fields| == 1 then Some(TypeRefOf(env, shape.fields[0].ty)) else None
    case TupleStyle => Some(Tuple(ItemTypes(env, env[id], shape.fields)))
    case StructStyle =>
      var acc := ObjectOf(env, id, shape.fields, EMPTY);
      if acc.None? then None else Some(acc.value.AsType())
  }

  function ItemTypes(env: Env, decl: Decl, fields: seq<Field>): seq<TsType> {
    if fields == [] then []
    else if PresenceOf(decl, fields[0]).Omitted? then ItemTypes(env, decl, fields[1..])
    else [TypeRefOf(env, fields[0].ty)] + ItemTypes(env, decl, fields[1..])
  }

  /** Adds `fields` to `object`, one step each. */
  function ObjectOf(env: Env, id: nat, fields: seq<Field>, acc: ObjectSchema): Option<ObjectSchema>
    requires id < |env|
    decreases id, 1, |fields|
  {
    if fields == [] then Some(acc)
    else
      var next := FieldStep(env, id, fields[0], acc);
      if next.None? then None else ObjectOf(env, id, fields[1..], next.value)
  }

  function FieldStep(env: Env, id: nat, field: Field, acc: ObjectSchema): Option<ObjectSchema>
    requires id < |env|
    decreases id, 1, 0
  {
    var presence := PresenceOf(env[id], field);
    if presence.Omitted? then Some(acc)
    else if field.flatten then
      var ty := Expanded(env, id, if field.ty.OptionTy? then field.ty.inner else field.ty);
      if ty.None? then None else acc.Flatten(ty.value, field.ty.OptionTy?)
    else
      Some(acc.Push(
        TsField(SchemaKey(env[id], field.ser, field.de), TypeRefOf(env, field.ty), !presence.Required?)))
  }

  predicate AllUnit(decl: Decl, variants: seq<Variant>) {
    forall i | 0 <= i < |variants| :: SkippedVariant(decl, variants[i]) || variants[i].shape.style.UnitStyle?
  }

  function VariantKey(decl: Decl, variant: Variant): string {
    SchemaKey(decl, variant.ser, variant.de)
  }

  function EnumType(env: Env, id: nat, tagging: Tagging, variants: seq<Variant>): Option<TsType>
    requires id < |env|
    decreases id, 4
  {
    var tagged := VariantEntries(env, id, tagging, variants);
    var alternatives := Alternatives(env, id, tagging, variants);
    match tagging
    case External =>
      if AllUnit(env[id], variants)
      then if tagged.None? then None else Some(Enum(None, tagged.value))
      else if alternatives.None? then None else Some(Union(alternatives.value))
    case Untagged => if alternatives.None? then None else Some(Union(alternatives.value))
    case _ =>
      if AllUnit(env[id], variants)
      then if alternatives.None? then None else Some(Union(alternatives.value))
      else if tagged.None? then None else Some(Enum(Some(tagging.tag), tagged.value))
  }

  /** The union member of each described variant. */
  function Alternatives(env: Env, id: nat, tagging: Tagging, variants: seq<Variant>): Option<seq<TsType>>
    requires id < |env|
    decreases id, 3, |variants|
  {
    if variants == [] then Some([])
    else
      var rest := Alternatives(env, id, tagging, variants[1..]);
      if SkippedVariant(env[id], variants[0]) || rest.None? then rest
      else
        var first := Alternative(env, id, tagging, variants[0]);
        if first.None? then None else Some([first.value] + rest.value)
  }

  function Alternative(env: Env, id: nat, tagging: Tagging, variant: Variant): Option<TsType>
    requires id < |env|
    decreases id, 3, 0
  {
    var key := VariantKey(env[id], variant);
    match tagging
    case Untagged => ShapeType(env, id, variant.shape)
    case External =>
      if variant.shape.style.UnitStyle? then Some(LiteralType(LitString(key)))
      else
        var payload := ShapeType(env, id, variant.shape);
        if payload.None? then None else Some(Object([TsField(key, payload.value, false)]))
    case _ => Some(Object([TsField(tagging.tag, LiteralType(LitString(key)), false)]))
  }

  /** The entry of each described variant in a `TsType::Enum`. */
  function VariantEntries(env: Env, id: nat, tagging: Tagging, variants: seq<Variant>): Option<seq<TsVariant>>
    requires id < |env|
    decreases id, 3, |variants|
  {
    if variants == [] then Some([])
    else
      var rest := VariantEntries(env, id, tagging, variants[1..]);
      if SkippedVariant(env[id], variants[0]) || rest.None? then rest
      else
        var first := VariantEntry(env, id, tagging, variants[0]);
        if first.None? then None else Some([first.value] + rest.value)
  }

  function VariantEntry(env: Env, id: nat, tagging: Tagging, variant: Variant): Option<TsVariant>
    requires id < |env|
    decreases id, 3, 0
  {
    var key := VariantKey(env[id], variant);
    var shape := variant.shape;
    if shape.style.UnitStyle? then Some(TsVariant(key, [], None))
    else
      match tagging
      case Internal(_) =>
        var acc := InternalObject(env, id, shape);
        if acc.None? then None else Some(acc.value.AsVariant(key))
      case Adjacent(_, content) =>
        if shape.style.NewtypeStyle? && |shape.fields| == 1 && shape.fields[0].ty.OptionTy? then
          Some(TsVariant(key, [TsField(content, TypeRefOf(env, shape.fields[0].ty), true)], None))
        else
          var payload := ShapeType(env, id, shape);
          if payload.None? then None
          else Some(TsVariant(key, [TsField(content, payload.value, false)], None))
      case _ => None
  }

  /** What an internally tagged variant shows next to its tag. */
  function InternalObject(env: Env, id: nat, shape: Shape): Option<ObjectSchema>
    requires id < |env|
    decreases id, 2
  {
    if shape.style.NewtypeStyle? && |shape.fields| == 1 then
      var inner := Expanded(env, id, shape.fields[0].ty);
      if inner.None? then None else EMPTY.Flatten(inner.value, false)
    else ObjectOf(env, id, shape.fields, EMPTY)
  }
}
