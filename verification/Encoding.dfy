/** The derived encoders (rustts_macros/src/codec/shape.rs, enum_codec.rs and
    src/contract/codec). `None` is a failed conversion. */
module Encoding {
  import opened Wrappers
  import opened Metadata
  import opened Descriptors
  import opened Decimal
  import opened FloatText

  /** 2^53 - 1, the largest integer a JavaScript number holds exactly. */
  const MAX_SAFE_INTEGER := 0x1F_FFFF_FFFF_FFFF

  type Props = map<string, Js>

  function KeyText(key: Key): string {
    match key
    case KText(text) => text
    case KInt(i) => PrintInt(i)
  }

  function KeyTexts<T>(entries: map<Key, T>): set<string> {
    set k | k in entries :: KeyText(k)
  }

  lemma KeyOfText<T>(entries: map<Key, T>, text: string) returns (k: Key)
    requires text in KeyTexts(entries)
    ensures k in entries && KeyText(k) == text
  {
    k :| k in entries && KeyText(k) == text;
  }

  /** No primitive integer is wider than 128 bits. */
  predicate KeyOfType(ty: KeyTy, key: Key) {
    match ty
    case TextKey => key.KText?
    case IntKey(lo, hi) => key.KInt? && lo <= key.i <= hi && -WIDEST < key.i < WIDEST
  }

  lemma KeyTextInjective(ty: KeyTy, a: Key, b: Key)
    requires KeyOfType(ty, a) && KeyOfType(ty, b) && KeyText(a) == KeyText(b)
    ensures a == b
  {
    if a.KInt? { PrintIntInjective(a.i, b.i); }
  }

  predicate KeysOfType<T>(ty: KeyTy, entries: map<Key, T>) {
    forall k | k in entries :: KeyOfType(ty, k)
  }

  /** The same entries under the text of their keys, which tells keys apart. */
  function ByText<T>(ty: KeyTy, entries: map<Key, T>): (texts: map<string, T>)
    requires KeysOfType(ty, entries)
    ensures texts.Keys == KeyTexts(entries)
    ensures forall k | k in entries :: KeyText(k) in texts && texts[KeyText(k)] == entries[k]
  {
    assert forall a, b | a in entries && b in entries && KeyText(a) == KeyText(b) :: a == b by {
      forall a, b | a in entries && b in entries && KeyText(a) == KeyText(b) ensures a == b {
        KeyTextInjective(ty, a, b);
      }
    }
    map k | k in entries :: KeyText(k) := entries[k]
  }

  /** Merges an encoded value into the properties around it: `null` and `undefined` add
      nothing, a plain object adds its properties, anything else fails. */
  function Merge(target: Props, source: Js): Option<Props> {
    match source
    case Null => Some(target)
    case Undefined => Some(target)
    case Obj(props) => Some(target + props)
    case _ => None
  }

  function Encode(env: Env, ty: Ty, v: Val): Option<Js>
    decreases v, 3
  {
    match (ty, v)
    case (UnitTy, VUnit) => Some(Null)
    case (BoolTy, VBool(b)) => Some(Bool(b))
    case (IntTy(lo, hi), VInt(i)) =>
      if -MAX_SAFE_INTEGER <= i <= MAX_SAFE_INTEGER then Some(Num(Finite(i as real))) else None
    case (FloatTy, VFloat(n)) => Some(Num(n))
    case (TextTy, VText(text)) => Some(Str(text))
    case (OptionTy(_), VNone) => Some(Null)
    case (OptionTy(inner), VSome(w)) => Encode(env, inner, w)
    case (VecTy(item), VList(items)) =>
      if forall i | 0 <= i < |items| :: Encode(env, item, items[i]).Some?
      then Some(Arr(seq(|items|, i requires 0 <= i < |items| && Encode(env, item, items[i]).Some? =>
                          Encode(env, item, items[i]).value)))
      else None
    case (TupleTy(tys), VList(items)) =>
      if |tys| == |items| && forall i | 0 <= i < |items| :: Encode(env, tys[i], items[i]).Some?
      then Some(Arr(seq(|items|, i requires 0 <= i < |items| && Encode(env, tys[i], items[i]).Some? =>
                          Encode(env, tys[i], items[i]).value)))
      else None
    case (MapTy(keyTy, item), VMap(_)) =>
      var props := EncodeEntries(env, keyTy, item, v);
      if props.Some? then Some(Obj(props.value)) else None
    case (Named(id), _) => if id < |env| then EncodeDecl(env, env[id], v) else None
    case _ => None
  }

  /** The entries of a map, under the text of their keys. */
  function EncodeEntries(env: Env, keyTy: KeyTy, item: Ty, v: Val): Option<Props>
    requires v.VMap?
    decreases v, 2
  {
    if KeysOfType(keyTy, v.entries) && forall k | k in v.entries :: Encode(env, item, v.entries[k]).Some?
    then
      Some(ByText(keyTy, map k | k in v.entries :: Encode(env, item, v.entries[k]).value))
    else None
  }

  function EncodeDecl(env: Env, decl: Decl, v: Val): Option<Js>
    decreases v, 2
  {
    match (decl.body, v)
    case (StructBody(shape), VStruct(vals)) => EncodePayload(env, shape, vals)
    case (EnumBody(tagging, variants), VVariant(at, vals)) =>
      if at < |variants| then EncodeVariant(env, tagging, variants[at], vals) else None
    case _ => None
  }

  /** One shape: `null`, the inner value, an array or an object. */
  function EncodePayload(env: Env, shape: Shape, vals: seq<Val>): Option<Js>
    decreases vals, 1
  {
    if |shape.fields| != |vals| then None
    else
      match shape.style
      case UnitStyle => Some(Null)
      case NewtypeStyle => if |vals| == 1 then Encode(env, shape.fields[0].ty, vals[0]) else None
      case TupleStyle =>
        var items := EncodeItems(env, shape.fields, vals);
        if items.Some? then Some(Arr(items.value)) else None
      case StructStyle =>
        var props := EncodeFields(env, shape.fields, vals, map[]);
        if props.Some? then Some(Obj(props.value)) else None
  }

  /** The items of a tuple, without its skipped fields. */
  function EncodeItems(env: Env, fields: seq<Field>, vals: seq<Val>): Option<seq<Js>>
    requires |fields| == |vals|
    decreases vals, 0
  {
    if fields == [] then Some([])
    else
      var rest := EncodeItems(env, fields[1..], vals[1..]);
      if fields[0].skipSer || rest.None? then rest
      else
        var item := Encode(env, fields[0].ty, vals[0]);
        if item.None? then None else Some([item.value] + rest.value)
  }

  /** Writes named fields into `props`, merging flattened ones. */
  function EncodeFields(env: Env, fields: seq<Field>, vals: seq<Val>, props: Props): Option<Props>
    requires |fields| == |vals|
    decreases vals, 0
  {
    if fields == [] then Some(props)
    else
      var written := EncodeField(env, fields[0], vals[0], props);
      if written.None? then None else EncodeFields(env, fields[1..], vals[1..], written.value)
  }

  function EncodeField(env: Env, field: Field, v: Val, props: Props): Option<Props>
    decreases v, 4
  {
    if field.LeftOut(v) then Some(props)
    else
      var js := Encode(env, field.ty, v);
      if js.None? then None
      else if field.flatten then Merge(props, js.value)
      else Some(props[field.ser := js.value])
  }

  function EncodeVariant(env: Env, tagging: Tagging, variant: Variant, vals: seq<Val>): Option<Js>
    decreases vals, 2
  {
    var shape := variant.shape;
    if variant.skipSer || |shape.fields| != |vals| then None
    else
      match tagging
      case External =>
        if shape.style.UnitStyle? then Some(Str(variant.ser))
        else
          var payload := EncodePayload(env, shape, vals);
          if payload.None? then None else Some(Obj(map[variant.ser := payload.value]))
      case Internal(tag) =>
        var props := EncodeInternal(env, shape, vals, map[tag := Str(variant.ser)]);
        if props.None? then None else Some(Obj(props.value))
      case Adjacent(tag, content) =>
        if shape.style.UnitStyle? then Some(Obj(map[tag := Str(variant.ser)]))
        else
          var payload := EncodePayload(env, shape, vals);
          if payload.None? then None
          else Some(Obj(map[tag := Str(variant.ser)][content := payload.value]))
      case Untagged => EncodePayload(env, shape, vals)
  }

  /** The payload of an internally tagged variant, next to its tag. */
  function EncodeInternal(env: Env, shape: Shape, vals: seq<Val>, props: Props): Option<Props>
    requires |shape.fields| == |vals|
    decreases vals, 1
  {
    if shape.style.NewtypeStyle? && |vals| == 1 then
      var inner := Encode(env, shape.fields[0].ty, vals[0]);
      if inner.None? then None else Merge(props, inner.value)
    else EncodeFields(env, shape.fields, vals, props)
  }

  /** Each entry is found under the text of its key, and nothing else is. */
  lemma EntriesEncoded(env: Env, keyTy: KeyTy, item: Ty, v: Val)
    requires v.VMap? && EncodeEntries(env, keyTy, item, v).Some?
    ensures KeysOfType(keyTy, v.entries)
    ensures var props := EncodeEntries(env, keyTy, item, v).value;
      && props.Keys == KeyTexts(v.entries)
      && forall k | k in v.entries ::
           KeyText(k) in props && Some(props[KeyText(k)]) == Encode(env, item, v.entries[k])
  {
    var encoded := map k | k in v.entries :: Encode(env, item, v.entries[k]).value;
    assert EncodeEntries(env, keyTy, item, v).value == ByText(keyTy, encoded);
    assert encoded.Keys == v.entries.Keys;
    SameKeyTexts(encoded, v.entries);
  }

  lemma SameKeyTexts<T, U>(a: map<Key, T>, b: map<Key, U>)
    requires a.Keys == b.Keys
    ensures KeyTexts(a) == KeyTexts(b)
  {
    forall k | k in a ensures k in b { assert k in a.Keys; }
    forall k | k in b ensures k in a { assert k in b.Keys; }
  }
}
