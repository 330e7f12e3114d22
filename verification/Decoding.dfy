/** The derived decoders (rustts_macros/src/codec/shape.rs, enum_codec.rs and
    src/contract/codec). `None` is a failed conversion. */
module Decoding {
  import opened Wrappers
  import opened Metadata
  import opened Descriptors
  import opened Encoding
  import opened Decimal

  // --------------------------------------------------------------- why it terminates

  /** How deep a JavaScript value nests. */
  ghost function Height(js: Js): (height: nat)
    ensures js.Arr? ==> height > 0 && forall i | 0 <= i < |js.items| :: Height(js.items[i]) < height
    ensures js.Obj? ==> height > 0 && forall k | k in js.props :: Height(js.props[k]) < height
    decreases js, 1
  {
    match js
    case Arr(items) => 1 + ItemsHeight(items)
    case Obj(props) => 1 + PropsHeight(js, props.Keys)
    case _ => 0
  }

  ghost function ItemsHeight(items: seq<Js>): (height: nat)
    ensures forall i | 0 <= i < |items| :: Height(items[i]) <= height
    decreases items, 0
  {
    if items == [] then 0
    else
      var rest := ItemsHeight(items[1..]);
      assert forall i | 0 < i < |items| :: items[i] == items[1..][i - 1];
      if Height(items[0]) > rest then Height(items[0]) else rest
  }

  ghost function PropsHeight(js: Js, keys: set<string>): (height: nat)
    requires js.Obj? && keys <= js.props.Keys
    ensures forall k | k in keys :: Height(js.props[k]) <= height
    ensures keys != {} ==> exists k | k in keys :: Height(js.props[k]) == height
    ensures keys == {} ==> height == 0
    decreases js, 0, keys
  {
    if keys == {} then 0
    else
      var k :| k in keys;
      var rest := PropsHeight(js, keys - {k});
      if Height(js.props[k]) > rest then Height(js.props[k]) else rest
  }

  /** Fewer properties nest no deeper. */
  lemma RestIsNoDeeper(props: Props, own: set<string>)
    ensures Height(Obj(props - own)) <= Height(Obj(props))
  {
    var rest := props - own;
    if rest.Keys != {} {
      var k :| k in rest.Keys && Height(rest[k]) == PropsHeight(Obj(rest), rest.Keys);
      assert k in props;
    }
  }

  /** The number of deriving types a type's decoder may hand the same value on to: those
      up to the one it names itself, through `Option`s. */
  function Rank(ty: Ty): nat {
    match ty
    case OptionTy(inner) => Rank(inner)
    case Named(id) => id + 1
    case _ => 0
  }

  function Higher(a: nat, b: nat): nat { if a > b then a else b }

  /** Flattening keeps to the object the struct itself is in. */
  function FieldRank(field: Field): nat {
    if field.flatten && !field.skipDe then Rank(field.ty) else 0
  }

  function FieldsRank(fields: seq<Field>): (rank: nat)
    ensures forall i | 0 <= i < |fields| :: FieldRank(fields[i]) <= rank
  {
    if fields == [] then 0
    else
      var rest := FieldsRank(fields[1..]);
      assert forall i | 0 < i < |fields| :: fields[i] == fields[1..][i - 1];
      Higher(FieldRank(fields[0]), rest)
  }

  function ShapeRank(shape: Shape): nat {
    match shape.style
    case NewtypeStyle => if |shape.fields| == 1 then Rank(shape.fields[0].ty) else 0
    case StructStyle => FieldsRank(shape.fields)
    case _ => 0
  }

  function VariantsRank(variants: seq<Variant>): (rank: nat)
    ensures forall i | 0 <= i < |variants| && !variants[i].skipDe :: ShapeRank(variants[i].shape) <= rank
  {
    if variants == [] then 0
    else
      var rest := VariantsRank(variants[1..]);
      assert forall i | 0 < i < |variants| :: variants[i] == variants[1..][i - 1];
      Higher(if variants[0].skipDe then 0 else ShapeRank(variants[0].shape), rest)
  }

  /** An externally or adjacently tagged payload is a value of its own. */
  function DeclRank(decl: Decl): nat {
    match decl.body
    case StructBody(shape) => ShapeRank(shape)
    case EnumBody(External, _) => 0
    case EnumBody(Adjacent(_, _), _) => 0
    case EnumBody(_, variants) => VariantsRank(variants)
  }

  /** No type hands a value on to itself, so that decoding ends: a type comes after those
      it hands its own value on to. */
  predicate Ranked(env: Env) {
    forall id | 0 <= id < |env| :: DeclRank(env[id]) <= id
  }

  type RankedEnv = env: Env | Ranked(env) witness []

  // -------------------------------------------------------------------------- scalars

  /** The integer a number holds, when it holds one within the safe range. */
  function ExactInteger(n: Number): Option<int> {
    if n.Finite? && -MAX_SAFE_INTEGER as real <= n.value <= MAX_SAFE_INTEGER as real
       && n.value.Floor as real == n.value
    then Some(n.value.Floor) else None
  }

  /** What `JSON.stringify` drops: such a property counts as missing. */
  predicate IsAbsent(js: Js) { js.Undefined? || js.Opaque? }

  predicate IsNothing(js: Js) { js.Null? || js.Undefined? }

  /** The value under the earliest of `names` that is not absent. */
  function FieldValue(props: Props, names: seq<string>): (value: Option<Js>)
    ensures value.Some? ==> exists k | k in props :: props[k] == value.value
  {
    if names == [] then None
    else if names[0] in props && !IsAbsent(props[names[0]]) then Some(props[names[0]])
    else FieldValue(props, names[1..])
  }

  function KeyFromText(ty: KeyTy, text: string): Option<Key> {
    match ty
    case TextKey => Some(KText(text))
    case IntKey(lo, hi) =>
      var parsed := ParseKey(text, lo, hi);
      if parsed.Some? then Some(KInt(parsed.value)) else None
  }

  /** The text an integer key was read from: `-0` also reads as zero and, not being an
      array index, is enumerated after `0`. */
  function TextOfKey(props: Props, key: Key): string {
    if key == KInt(0) && "-0" in props && !IsAbsent(props["-0"]) then "-0" else KeyText(key)
  }

  function Kept(props: Props): set<string> {
    set text | text in props && !IsAbsent(props[text])
  }

  function KeysRead(ty: KeyTy, texts: set<string>): set<Key>
    requires forall text | text in texts :: KeyFromText(ty, text).Some?
  {
    set text | text in texts :: KeyFromText(ty, text).value
  }

  lemma TextOfKeyKept(ty: KeyTy, props: Props)
    ensures forall text | text in props && !IsAbsent(props[text]) && KeyFromText(ty, text).Some? ::
      var from := TextOfKey(props, KeyFromText(ty, text).value); from in props && !IsAbsent(props[from])
  {
    forall text | text in props && !IsAbsent(props[text]) && KeyFromText(ty, text).Some?
      ensures var from := TextOfKey(props, KeyFromText(ty, text).value); from in props && !IsAbsent(props[from])
    {
      if ty.IntKey? {
        ParsedKeyPrintsBack(text, ty.lo, ty.hi);
        if text == "-0" { assert text[1..] == "0" && "0"[..0] == []; }
      }
    }
  }

  function Decode(env: RankedEnv, ty: Ty, js: Js): Option<Val>
    decreases Height(js), Rank(ty), 1, ty
  {
    match ty
    case UnitTy => if IsNothing(js) then Some(VUnit) else None
    case BoolTy => if js.Bool? then Some(VBool(js.b)) else None
    case IntTy(lo, hi) =>
      var i := if js.Num? then ExactInteger(js.n) else None;
      if i.Some? && lo <= i.value <= hi then Some(VInt(i.value)) else None
    case FloatTy => if js.Num? then Some(VFloat(js.n)) else None
    case TextTy => if js.Str? then Some(VText(js.s)) else None
    case OptionTy(inner) =>
      if IsNothing(js) then Some(VNone)
      else
        var w := Decode(env, inner, js);
        if w.Some? then Some(VSome(w.value)) else None
    case VecTy(item) =>
      if js.Arr? && forall i | 0 <= i < |js.items| :: Decode(env, item, js.items[i]).Some?
      then Some(VList(seq(|js.items|, i requires 0 <= i < |js.items| && Decode(env, item, js.items[i]).Some? =>
                            Decode(env, item, js.items[i]).value)))
      else None
    case TupleTy(tys) =>
      if js.Arr? && |js.items| == |tys| && forall i | 0 <= i < |tys| :: Decode(env, tys[i], js.items[i]).Some?
      then Some(VList(seq(|tys|, i requires 0 <= i < |tys| && Decode(env, tys[i], js.items[i]).Some? =>
                            Decode(env, tys[i], js.items[i]).value)))
      else None
    case MapTy(keyTy, item) => if js.Obj? then DecodeEntries(env, keyTy, item, js.props) else None
    case Named(id) => if id < |env| then DecodeDecl(env, env[id], js) else None
  }

  /** A map, unless one kept property has no key or value of its types. */
  function DecodeEntries(env: RankedEnv, keyTy: KeyTy, item: Ty, props: Props): Option<Val>
    decreases Height(Obj(props)), 0, 0
  {
    var kept := Kept(props);
    if forall text | text in kept ::
         KeyFromText(keyTy, text).Some? && Decode(env, item, props[text]).Some?
    then
      var keys := KeysRead(keyTy, kept);
      TextOfKeyKept(keyTy, props);
      Some(VMap(map k | k in keys :: Decode(env, item, props[TextOfKey(props, k)]).value))
    else None
  }

  function DecodeDecl(env: RankedEnv, decl: Decl, js: Js): Option<Val>
    decreases Height(js), DeclRank(decl), 5
  {
    match decl.body
    case StructBody(shape) =>
      var vals := DecodePayload(env, decl.denyUnknown, None, shape, js);
      if vals.Some? then Some(VStruct(vals.value)) else None
    case EnumBody(External, variants) => DecodeExternal(env, decl.denyUnknown, variants, js)
    case EnumBody(Internal(tag), variants) => DecodeInternal(env, decl.denyUnknown, tag, variants, js)
    case EnumBody(Adjacent(tag, content), variants) =>
      DecodeAdjacent(env, decl.denyUnknown, tag, content, variants, js)
    case EnumBody(Untagged, variants) => DecodeUntagged(env, decl.denyUnknown, variants, 0, js)
  }

  /** What `js` holds of one shape; a struct next to its internal tag ignores `tag`. */
  function DecodePayload(env: RankedEnv, deny: bool, tag: Option<string>, shape: Shape, js: Js): Option<seq<Val>>
    decreases Height(js), ShapeRank(shape), 3
  {
    match shape.style
    case UnitStyle => if IsNothing(js) then Some([]) else None
    case NewtypeStyle =>
      if |shape.fields| != 1 then None
      else
        var v := Decode(env, shape.fields[0].ty, js);
        if v.Some? then Some([v.value]) else None
    case TupleStyle => if js.Arr? then DecodeItems(env, shape.fields, js.items) else None
    case StructStyle =>
      if !js.Obj? then None
      else
        var own := OwnKeys(tag, shape.fields);
        if deny && !shape.HasFlatten() && exists k | k in js.props :: k !in own then None
        else DecodeFields(env, shape.fields, js.props, own)
  }

  /** The items of a tuple, whose skipped fields take no position. */
  function DecodeItems(env: RankedEnv, fields: seq<Field>, items: seq<Js>): Option<seq<Val>>
    decreases Height(Arr(items)), 0, 2, |fields|
  {
    if fields == [] then if items == [] then Some([]) else None
    else if fields[0].skipDe then
      var rest := DecodeItems(env, fields[1..], items);
      if rest.Some? then Some([fields[0].Fallback()] + rest.value) else None
    else if items == [] then None
    else
      assert ItemsHeight(items) >= ItemsHeight(items[1..]);
      var v := Decode(env, fields[0].ty, items[0]);
      var rest := DecodeItems(env, fields[1..], items[1..]);
      if v.Some? && rest.Some? then Some([v.value] + rest.value) else None
  }

  /** What flattened fields do not get to see. */
  function OwnKeys(tag: Option<string>, fields: seq<Field>): set<string> {
    (if tag.Some? then {tag.value} else {}) +
    set i, name | 0 <= i < |fields| && !fields[i].skipDe && !fields[i].flatten && name in fields[i].Accepted() :: name
  }

  function DecodeFields(env: RankedEnv, fields: seq<Field>, props: Props, own: set<string>): Option<seq<Val>>
    decreases Height(Obj(props)), FieldsRank(fields), 2, |fields|
  {
    if fields == [] then Some([])
    else
      var v := DecodeField(env, fields[0], props, own);
      var more := DecodeFields(env, fields[1..], props, own);
      if v.Some? && more.Some? then Some([v.value] + more.value) else None
  }

  /** A flattened field sees what `own` leaves over, and a flattened `Option` takes a
      failure there for `None`. */
  function DecodeField(env: RankedEnv, field: Field, props: Props, own: set<string>): Option<Val>
    decreases Height(Obj(props)), FieldRank(field), 2, 0
  {
    if field.skipDe then Some(field.Fallback())
    else if field.flatten then
      var rest := props - own;
      RestIsNoDeeper(props, own);
      if field.ty.OptionTy? then
        var inner := Decode(env, field.ty.inner, Obj(rest));
        Some(if inner.Some? then VSome(inner.value) else VNone)
      else Decode(env, field.ty, Obj(rest))
    else
      var present := FieldValue(props, field.Accepted());
      if present.Some? then Decode(env, field.ty, present.value)
      else if field.default.Some? then field.default
      else Decode(env, field.ty, Undefined)
  }

  /** The first decodable variant `name` names, or `|variants|`. */
  function NamedVariant(variants: seq<Variant>, name: string): (at: nat)
    ensures at <= |variants|
    ensures at < |variants| ==> !variants[at].skipDe && variants[at].Accepts(name)
    ensures forall i | 0 <= i < at :: variants[i].skipDe || !variants[i].Accepts(name)
  {
    if variants == [] then 0
    else if !variants[0].skipDe && variants[0].Accepts(name) then 0
    else 1 + NamedVariant(variants[1..], name)
  }

  function AsVariant(at: nat, vals: Option<seq<Val>>): Option<Val> {
    if vals.Some? then Some(VVariant(at, vals.value)) else None
  }

  /** Unit variants may also be written as an object with an empty payload. */
  function DecodeExternal(env: RankedEnv, deny: bool, variants: seq<Variant>, js: Js): Option<Val>
    decreases Height(js), 0, 4
  {
    if js.Str? then
      var at := NamedVariant(variants, js.s);
      if at < |variants| && variants[at].shape.style.UnitStyle? then Some(VVariant(at, [])) else None
    else if js.Obj? && |js.props.Keys| == 1 then
      var name := OnlyKey(js.props.Keys);
      var at := NamedVariant(variants, name);
      if at == |variants| then None
      else if variants[at].shape.style.UnitStyle? then
        if IsNothing(js.props[name]) then Some(VVariant(at, [])) else None
      else AsVariant(at, DecodePayload(env, deny, None, variants[at].shape, js.props[name]))
    else None
  }

  function OnlyKey(keys: set<string>): (key: string)
    requires |keys| == 1
    ensures keys == {key}
  {
    OnlyOne(keys);
    var key :| key in keys;
    key
  }

  lemma OnlyOne(keys: set<string>)
    requires |keys| == 1
    ensures exists key :: keys == {key}
    ensures forall a, b | a in keys && b in keys :: a == b
  {
    var key :| key in keys;
    assert |keys - {key}| == 0;
    assert keys == {key};
  }

  function DecodeInternal(env: RankedEnv, deny: bool, tag: string, variants: seq<Variant>, js: Js): Option<Val>
    decreases Height(js), VariantsRank(variants), 4
  {
    if !js.Obj? || tag !in js.props || !js.props[tag].Str? then None
    else
      var at := NamedVariant(variants, js.props[tag].s);
      if at == |variants| then None
      else
        var shape := variants[at].shape;
        match shape.style
        case UnitStyle => Some(VVariant(at, []))
        case NewtypeStyle =>
          RestIsNoDeeper(js.props, {tag});
          AsVariant(at, DecodePayload(env, deny, Some(tag), shape, Obj(js.props - {tag})))
        case _ => AsVariant(at, DecodePayload(env, deny, Some(tag), shape, js))
  }

  function DecodeAdjacent(
      env: RankedEnv, deny: bool, tag: string, content: string, variants: seq<Variant>, js: Js): Option<Val>
    decreases Height(js), 0, 4
  {
    if !js.Obj? || tag !in js.props || !js.props[tag].Str? then None
    else if deny && exists k | k in js.props :: k != tag && k != content then None
    else
      var at := NamedVariant(variants, js.props[tag].s);
      if at == |variants| then None
      else
        var shape := variants[at].shape;
        var payload := FieldValue(js.props, [content]);
        match shape.style
        case UnitStyle => if payload.None? || IsNothing(payload.value) then Some(VVariant(at, [])) else None
        case NewtypeStyle =>
          AsVariant(at, DecodePayload(env, deny, None, shape,
                                      if payload.Some? then payload.value else Undefined))
        case _ =>
          if payload.None? then None
          else AsVariant(at, DecodePayload(env, deny, None, shape, payload.value))
  }

  /** The earliest variant from `from` on whose payload decodes. */
  function DecodeUntagged(env: RankedEnv, deny: bool, variants: seq<Variant>, from: nat, js: Js): Option<Val>
    requires from <= |variants|
    decreases Height(js), VariantsRank(variants), 4, |variants| - from
  {
    if from == |variants| then None
    else
      var vals := if variants[from].skipDe then None
                  else DecodePayload(env, deny, None, variants[from].shape, js);
      if vals.Some? then Some(VVariant(from, vals.value))
      else DecodeUntagged(env, deny, variants, from + 1, js)
  }

  /** The decoded map holds, for each key read, what decodes from that key's property. */
  lemma EntriesDecoded(env: RankedEnv, keyTy: KeyTy, item: Ty, props: Props)
    requires forall text | text in Kept(props) ::
      KeyFromText(keyTy, text).Some? && Decode(env, item, props[text]).Some?
    ensures var decoded := DecodeEntries(env, keyTy, item, props);
      && decoded.Some? && decoded.value.VMap?
      && decoded.value.entries.Keys == KeysRead(keyTy, Kept(props))
      && forall k | k in decoded.value.entries ::
           TextOfKey(props, k) in props && Decode(env, item, props[TextOfKey(props, k)]) == Some(decoded.value.entries[k])
  {
    TextOfKeyKept(keyTy, props);
  }
}
