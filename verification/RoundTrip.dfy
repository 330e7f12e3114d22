/** Decoding an encoded value gives the value back. */
module RoundTrip {
  import opened Wrappers
  import opened Metadata
  import opened Descriptors
  import opened Decimal
  import opened FloatText
  import opened Encoding
  import opened Decoding

  // ------------------------------------------------------------------ conditions

  /** The keys a field writes. */
  function Written(env: Env, field: Field, v: Val): set<string> {
    if field.LeftOut(v) then {}
    else if !field.flatten then {field.ser}
    else
      var js := Encode(env, field.ty, v);
      if js.Some? && js.value.Obj? then js.value.props.Keys else {}
  }

  function AllWritten(env: Env, fields: seq<Field>, vals: seq<Val>): set<string>
    requires |fields| == |vals|
  {
    if fields == [] then {}
    else Written(env, fields[0], vals[0]) + AllWritten(env, fields[1..], vals[1..])
  }

  /** No two fields write one key, and none writes a key of `used`. */
  predicate WriteApart(env: Env, fields: seq<Field>, vals: seq<Val>, used: set<string>)
    requires |fields| == |vals|
  {
    fields != [] ==>
      && Written(env, fields[0], vals[0]) !! used
      && WriteApart(env, fields[1..], vals[1..], used + Written(env, fields[0], vals[0]))
  }

  /** Whether decoding `ty` from an object may depend on its property `key`: a struct
      reads the names and aliases of its fields and what its flattened fields read, and a
      struct without flattened fields that denies unknown ones, a map or an enum reads
      everything. */
  predicate Reads(env: RankedEnv, ty: Ty, key: string)
    decreases Rank(ty), 1, ty
  {
    match ty
    case OptionTy(inner) => Reads(env, inner, key)
    case MapTy(_, _) => true
    case Named(id) =>
      id < |env| &&
      (env[id].body.StructBody? ==> ShapeReads(env, env[id].denyUnknown, env[id].body.shape, key))
    case _ => false
  }

  predicate ShapeReads(env: RankedEnv, deny: bool, shape: Shape, key: string)
    decreases ShapeRank(shape), 2
  {
    match shape.style
    case NewtypeStyle => |shape.fields| == 1 && Reads(env, shape.fields[0].ty, key)
    case StructStyle =>
      || (deny && !shape.HasFlatten())
      || exists i | 0 <= i < |shape.fields| ::
           !shape.fields[i].skipDe &&
           (if shape.fields[i].flatten then Reads(env, shape.fields[i].ty, key)
            else key in shape.fields[i].Accepted())
    case _ => false
  }

  /** A type that never decodes from a missing field. */
  predicate NeedsValue(ty: Ty) {
    ty.BoolTy? || ty.IntTy? || ty.FloatTy? || ty.TextTy? || ty.VecTy? || ty.TupleTy? || ty.MapTy?
  }

  /** A struct that cannot decode from an object with `keys`: it lacks a required field. */
  predicate LacksField(env: Env, ty: Ty, keys: set<string>) {
    ty.Named? && ty.id < |env| && env[ty.id].body.StructBody? && env[ty.id].body.shape.style.StructStyle? &&
    var fields := env[ty.id].body.shape.fields;
    exists i | 0 <= i < |fields| ::
      && !fields[i].skipDe && !fields[i].flatten && fields[i].default.None? && NeedsValue(fields[i].ty)
      && forall name | name in fields[i].Accepted() :: name !in keys
  }

  /** What a missing key decodes to is `v`. */
  predicate MissingMeans(field: Field, v: Val) {
    if field.default.Some? then field.default.value == v
    else (field.ty.OptionTy? && v == VNone) || (field.ty.UnitTy? && v == VUnit)
  }

  /** `v` has type `ty`, and nothing in it is lost on the way to JavaScript and back. */
  ghost predicate Recoverable(env: RankedEnv, ty: Ty, v: Val)
    decreases v, 3
  {
    match (ty, v)
    case (UnitTy, VUnit) => true
    case (BoolTy, VBool(_)) => true
    case (IntTy(lo, hi), VInt(i)) => lo <= i <= hi
    case (FloatTy, VFloat(_)) => true
    case (TextTy, VText(_)) => true
    case (OptionTy(_), VNone) => true
    case (OptionTy(inner), VSome(w)) => Encode(env, inner, w) != Some(Null) && Recoverable(env, inner, w)
    case (VecTy(item), VList(items)) => forall i | 0 <= i < |items| :: Recoverable(env, item, items[i])
    case (TupleTy(tys), VList(items)) =>
      |tys| == |items| && forall i | 0 <= i < |items| :: Recoverable(env, tys[i], items[i])
    case (MapTy(_, item), VMap(entries)) => forall k | k in entries :: Recoverable(env, item, entries[k])
    case (Named(id), _) => id < |env| && RecoverableDecl(env, env[id], v)
    case _ => false
  }

  ghost predicate RecoverableDecl(env: RankedEnv, decl: Decl, v: Val)
    decreases v, 2
  {
    match (decl.body, v)
    case (StructBody(shape), VStruct(vals)) =>
      |shape.fields| == |vals| && RecoverableShape(env, decl.denyUnknown, None, shape, vals)
    case (EnumBody(tagging, variants), VVariant(at, vals)) =>
      && at < |variants| && |variants[at].shape.fields| == |vals|
      && (if tagging.Untagged?
          then !variants[at].skipDe && RefusedBefore(env, decl.denyUnknown, variants, at, vals)
          else NamedVariant(variants, variants[at].ser) == at)
      && (if tagging.Internal? && variants[at].shape.style.NewtypeStyle?
          then RecoverableMerged(env, tagging.tag, variants[at].shape, vals)
          else RecoverableShape(env, decl.denyUnknown,
                                if tagging.Internal? then Some(tagging.tag) else None, variants[at].shape, vals))
      && (tagging.Internal? ==> !variants[at].shape.style.TupleStyle?)
      && (tagging.Adjacent? ==> tagging.tag != tagging.content)
    case _ => false
  }

  /** No variant before `at` decodes from the untagged payload of variant `at`. */
  ghost predicate RefusedBefore(
      env: RankedEnv, deny: bool, variants: seq<Variant>, at: nat, vals: seq<Val>)
    requires at < |variants|
  {
    var js := EncodePayload(env, variants[at].shape, vals);
    js.Some? ==>
      forall i | 0 <= i < at ::
        variants[i].skipDe || DecodePayload(env, deny, None, variants[i].shape, js.value).None?
  }

  /** A newtype payload merged next to its tag: an object without the tag's key. */
  ghost predicate RecoverableMerged(env: RankedEnv, tag: string, shape: Shape, vals: seq<Val>)
    requires |shape.fields| == |vals|
    decreases vals, 1
  {
    |vals| == 1 && Recoverable(env, shape.fields[0].ty, vals[0]) &&
    var js := Encode(env, shape.fields[0].ty, vals[0]);
    js.Some? ==> js.value.Obj? && tag !in js.value.props
  }

  ghost predicate RecoverableShape(
      env: RankedEnv, deny: bool, tag: Option<string>, shape: Shape, vals: seq<Val>)
    requires |shape.fields| == |vals|
    decreases vals, 1
  {
    match shape.style
    case UnitStyle => vals == []
    case NewtypeStyle => |vals| == 1 && Recoverable(env, shape.fields[0].ty, vals[0])
    case TupleStyle =>
      forall i | 0 <= i < |vals| :: var field := shape.fields[i];
        && field.skipSer == field.skipDe
        && (if field.skipDe then vals[i] == field.Fallback() else Recoverable(env, field.ty, vals[i]))
    case StructStyle =>
      var tags := if tag.Some? then {tag.value} else {};
      var keys := tags + AllWritten(env, shape.fields, vals);
      var own := OwnKeys(tag, shape.fields);
      && WriteApart(env, shape.fields, vals, tags)
      && (deny && !shape.HasFlatten() ==> keys <= own)
      && forall i | 0 <= i < |vals| :: RecoverableField(env, shape.fields[i], vals[i], keys, keys - own)
  }

  /** `keys` are all the keys of the object, `rest` those the shape does not claim. */
  ghost predicate RecoverableField(
      env: RankedEnv, field: Field, v: Val, keys: set<string>, rest: set<string>)
    decreases v, 4
  {
    if field.skipDe then v == field.Fallback()
    else if !field.flatten then
      if field.LeftOut(v) then
        MissingMeans(field, v) && forall name | name in field.Accepted() :: name !in keys
      else
        && Recoverable(env, field.ty, v)
        && field.ser in field.Accepted()
        && forall name | name in field.Accepted() && name in keys :: name == field.ser
    else if v == VNone then field.ty.OptionTy? && LacksField(env, field.ty.inner, rest)
    else
      && !field.LeftOut(v)
      && Written(env, field, v) <= rest
      && (forall k | k in rest && k !in Written(env, field, v) :: !Reads(env, field.ty, k))
      && Recoverable(env, field.ty, v)
      && var js := Encode(env, field.ty, v); js.Some? ==> js.value.Obj?
  }

  // ------------------------------------------------------------- what is written

  lemma {:induction false} EncodedIsPresent(env: Env, ty: Ty, v: Val)
    requires Encode(env, ty, v).Some?
    ensures !IsAbsent(Encode(env, ty, v).value)
    decreases v, 2
  {
    match (ty, v)
    case (OptionTy(inner), VSome(w)) => EncodedIsPresent(env, inner, w);
    case (Named(id), VStruct(vals)) =>
      var shape := env[id].body.shape;
      assert Encode(env, ty, v) == EncodePayload(env, shape, vals);
      PayloadIsPresent(env, shape, vals);
    case (Named(id), VVariant(at, vals)) =>
      var variant, tagging := env[id].body.variants[at], env[id].body.tagging;
      assert Encode(env, ty, v) == EncodeVariant(env, tagging, variant, vals);
      if tagging.Untagged? { PayloadIsPresent(env, variant.shape, vals); }
    case _ =>
  }

  lemma {:induction false} PayloadIsPresent(env: Env, shape: Shape, vals: seq<Val>)
    requires EncodePayload(env, shape, vals).Some?
    ensures !IsAbsent(EncodePayload(env, shape, vals).value)
    decreases vals, 1
  {
    if shape.style.NewtypeStyle? { EncodedIsPresent(env, shape.fields[0].ty, vals[0]); }
  }

  /** The value `props` holds for what `field` wrote. */
  ghost predicate Holds(env: Env, props: Props, field: Field, v: Val) {
    !field.LeftOut(v) ==>
      var js := Encode(env, field.ty, v);
      && js.Some?
      && (!field.flatten ==> field.ser in props && props[field.ser] == js.value)
      && (field.flatten && js.value.Obj? ==>
            forall k | k in js.value.props :: k in props && props[k] == js.value.props[k])
  }

  /** Fields that write apart leave each other's properties, and `base`, as they are. */
  lemma {:induction false} FieldsWritten(env: Env, fields: seq<Field>, vals: seq<Val>, base: Props)
    requires |fields| == |vals| && WriteApart(env, fields, vals, base.Keys)
    requires EncodeFields(env, fields, vals, base).Some?
    ensures var props := EncodeFields(env, fields, vals, base).value;
      && props.Keys == base.Keys + AllWritten(env, fields, vals)
      && (forall k | k in base :: props[k] == base[k])
      && (forall i | 0 <= i < |fields| :: Holds(env, props, fields[i], vals[i]))
    decreases |fields|
  {
    if fields != [] {
      var next := EncodeField(env, fields[0], vals[0], base).value;
      FieldWritten(env, fields[0], vals[0], base);
      assert next.Keys == base.Keys + Written(env, fields[0], vals[0]);
      FieldsWritten(env, fields[1..], vals[1..], next);
      var props := EncodeFields(env, fields, vals, base).value;
      assert props == EncodeFields(env, fields[1..], vals[1..], next).value;
      StillHolds(env, next, props, fields[0], vals[0]);
      forall i | 0 <= i < |fields| ensures Holds(env, props, fields[i], vals[i]) {
        if i > 0 { assert Holds(env, props, fields[1..][i - 1], vals[1..][i - 1]); }
      }
    }
  }

  lemma FieldWritten(env: Env, field: Field, v: Val, base: Props)
    requires Written(env, field, v) !! base.Keys && EncodeField(env, field, v, base).Some?
    ensures var next := EncodeField(env, field, v, base).value;
      && next.Keys == base.Keys + Written(env, field, v)
      && (forall k | k in base :: next[k] == base[k])
      && Holds(env, next, field, v)
  {}

  lemma StillHolds(env: Env, props: Props, larger: Props, field: Field, v: Val)
    requires Holds(env, props, field, v)
    requires forall k | k in props :: k in larger && larger[k] == props[k]
    ensures Holds(env, larger, field, v)
  {}

  // ---------------------------------------------------------------- what is read

  ghost predicate Agree(env: RankedEnv, ty: Ty, p: Props, q: Props) {
    forall k :: Reads(env, ty, k) ==> (k in p <==> k in q) && (k in p ==> p[k] == q[k])
  }

  ghost predicate SameAt(p: Props, q: Props, names: seq<string>) {
    forall k | k in names :: (k in p <==> k in q) && (k in p ==> p[k] == q[k])
  }

  lemma {:induction false} FieldValueSame(p: Props, q: Props, names: seq<string>)
    requires SameAt(p, q, names)
    ensures FieldValue(p, names) == FieldValue(q, names)
  {
    if names != [] {
      assert names[0] in names;
      FieldValueSame(p, q, names[1..]);
    }
  }

  /** Decoding from an object depends only on the properties its type reads. */
  lemma {:induction false} DecodeDependsOnReads(env: RankedEnv, ty: Ty, p: Props, q: Props)
    requires Agree(env, ty, p, q)
    ensures Decode(env, ty, Obj(p)) == Decode(env, ty, Obj(q))
    decreases Rank(ty), 1, ty
  {
    match ty
    case OptionTy(inner) => DecodeDependsOnReads(env, inner, p, q);
    case MapTy(_, _) => ReadsAll(env, ty, p, q);
    case Named(id) =>
      if id < |env| {
        if env[id].body.StructBody? {
          var shape := env[id].body.shape;
          forall k | ShapeReads(env, env[id].denyUnknown, shape, k)
            ensures (k in p <==> k in q) && (k in p ==> p[k] == q[k])
          {
            assert Reads(env, ty, k);
          }
          PayloadDependsOnReads(env, env[id].denyUnknown, shape, p, q);
        } else {
          ReadsAll(env, ty, p, q);
        }
      }
    case _ =>
  }

  lemma ReadsAll(env: RankedEnv, ty: Ty, p: Props, q: Props)
    requires Agree(env, ty, p, q) && forall k :: Reads(env, ty, k)
    ensures p == q
  {
    assert forall k :: k in p <==> k in q;
  }

  lemma {:induction false} PayloadDependsOnReads(
      env: RankedEnv, deny: bool, shape: Shape, p: Props, q: Props)
    requires forall k :: ShapeReads(env, deny, shape, k) ==>
      (k in p <==> k in q) && (k in p ==> p[k] == q[k])
    ensures DecodePayload(env, deny, None, shape, Obj(p)) == DecodePayload(env, deny, None, shape, Obj(q))
    decreases ShapeRank(shape), 3
  {
    match shape.style
    case NewtypeStyle =>
      if |shape.fields| == 1 {
        forall k | Reads(env, shape.fields[0].ty, k)
          ensures (k in p <==> k in q) && (k in p ==> p[k] == q[k])
        {
          assert ShapeReads(env, deny, shape, k);
        }
        DecodeDependsOnReads(env, shape.fields[0].ty, p, q);
      }
    case StructStyle =>
      if deny && !shape.HasFlatten() {
        forall k ensures (k in p <==> k in q) && (k in p ==> p[k] == q[k]) {
          assert ShapeReads(env, deny, shape, k);
        }
        assert p == q;
      } else {
        var own := OwnKeys(None, shape.fields);
        forall i | 0 <= i < |shape.fields|
          ensures DecodeField(env, shape.fields[i], p, own) == DecodeField(env, shape.fields[i], q, own)
        {
          FieldDependsOnReads(env, deny, shape, i, p, q, own);
        }
        SameFields(env, shape.fields, p, q, own);
      }
    case _ =>
  }

  lemma {:induction false} FieldDependsOnReads(
      env: RankedEnv, deny: bool, shape: Shape, i: nat, p: Props, q: Props, own: set<string>)
    requires shape.style.StructStyle? && i < |shape.fields|
    requires forall k :: ShapeReads(env, deny, shape, k) ==>
      (k in p <==> k in q) && (k in p ==> p[k] == q[k])
    ensures DecodeField(env, shape.fields[i], p, own) == DecodeField(env, shape.fields[i], q, own)
    decreases ShapeRank(shape), 2
  {
    var field := shape.fields[i];
    if !field.skipDe {
      if field.flatten {
        var ty := if field.ty.OptionTy? then field.ty.inner else field.ty;
        forall k | Reads(env, ty, k)
          ensures (k in p - own <==> k in q - own) && (k in p - own ==> (p - own)[k] == (q - own)[k])
        {
          assert ShapeReads(env, deny, shape, k);
        }
        DecodeDependsOnReads(env, ty, p - own, q - own);
      } else {
        forall k | k in field.Accepted() ensures (k in p <==> k in q) && (k in p ==> p[k] == q[k]) {
          assert ShapeReads(env, deny, shape, k);
        }
        FieldValueSame(p, q, field.Accepted());
      }
    }
  }

  lemma {:induction false} SameFields(
      env: RankedEnv, fields: seq<Field>, p: Props, q: Props, own: set<string>)
    requires forall i | 0 <= i < |fields| ::
      DecodeField(env, fields[i], p, own) == DecodeField(env, fields[i], q, own)
    ensures DecodeFields(env, fields, p, own) == DecodeFields(env, fields, q, own)
    decreases |fields|
  {
    if fields != [] {
      forall i | 0 <= i < |fields[1..]|
        ensures DecodeField(env, fields[1..][i], p, own) == DecodeField(env, fields[1..][i], q, own)
      {
        assert fields[1..][i] == fields[i + 1];
      }
      SameFields(env, fields[1..], p, q, own);
    }
  }

  lemma {:induction false} AllFieldsDecode(
      env: RankedEnv, fields: seq<Field>, props: Props, own: set<string>, vals: seq<Val>)
    requires |fields| == |vals|
    requires forall i | 0 <= i < |fields| :: DecodeField(env, fields[i], props, own) == Some(vals[i])
    ensures DecodeFields(env, fields, props, own) == Some(vals)
    decreases |fields|
  {
    if fields != [] {
      forall i | 0 <= i < |fields[1..]|
        ensures DecodeField(env, fields[1..][i], props, own) == Some(vals[1..][i])
      {
        assert fields[1..][i] == fields[i + 1];
      }
      AllFieldsDecode(env, fields[1..], props, own, vals[1..]);
      assert [vals[0]] + vals[1..] == vals;
    }
  }

  lemma {:induction false} OneFieldFails(
      env: RankedEnv, fields: seq<Field>, props: Props, own: set<string>, i: nat)
    requires i < |fields| && DecodeField(env, fields[i], props, own).None?
    ensures DecodeFields(env, fields, props, own).None?
    decreases |fields|
  {
    if i > 0 { OneFieldFails(env, fields[1..], props, own, i - 1); }
  }

  lemma {:induction false} NoFieldValue(props: Props, names: seq<string>)
    requires forall name | name in names :: name !in props
    ensures FieldValue(props, names).None?
  {
    if names != [] {
      assert names[0] in names;
      NoFieldValue(props, names[1..]);
    }
  }

  lemma {:induction false} OneFieldValue(props: Props, names: seq<string>, ser: string)
    requires ser in names && ser in props && !IsAbsent(props[ser])
    requires forall name | name in names && name in props :: name == ser
    ensures FieldValue(props, names) == Some(props[ser])
  {
    if names[0] != ser {
      assert names[0] in names;
      OneFieldValue(props, names[1..], ser);
    }
  }

  lemma LackingFieldFails(env: RankedEnv, ty: Ty, props: Props)
    requires LacksField(env, ty, props.Keys)
    ensures Decode(env, ty, Obj(props)).None?
  {
    var decl := env[ty.id];
    var fields := decl.body.shape.fields;
    var i :| 0 <= i < |fields| && !fields[i].skipDe && !fields[i].flatten && fields[i].default.None?
             && NeedsValue(fields[i].ty) && forall name | name in fields[i].Accepted() :: name !in props.Keys;
    var own := OwnKeys(None, fields);
    NoFieldValue(props, fields[i].Accepted());
    assert DecodeField(env, fields[i], props, own).None?;
    OneFieldFails(env, fields, props, own, i);
    assert DecodePayload(env, decl.denyUnknown, None, decl.body.shape, Obj(props)).None?;
  }

  // --------------------------------------------------------------- the round trip

  /** The main result: a recoverable value decodes from what it encodes to. */
  lemma {:induction false} DecodesBack(env: RankedEnv, ty: Ty, v: Val)
    requires Recoverable(env, ty, v) && Encode(env, ty, v).Some?
    ensures Decode(env, ty, Encode(env, ty, v).value) == Some(v)
    decreases v, 4
  {
    match (ty, v)
    case (OptionTy(inner), VSome(w)) =>
      DecodesBack(env, inner, w);
      EncodedIsPresent(env, inner, w);
    case (VecTy(item), VList(_)) => ListDecodesBack(env, item, v);
    case (TupleTy(tys), VList(_)) => TupleDecodesBack(env, tys, v);
    case (MapTy(keyTy, item), VMap(_)) => EntriesDecodeBack(env, keyTy, item, v);
    case (Named(id), VStruct(vals)) =>
      var decl := env[id];
      assert Encode(env, ty, v) == EncodePayload(env, decl.body.shape, vals);
      PayloadDecodesBack(env, decl.denyUnknown, None, decl.body.shape, vals, map[]);
    case (Named(id), VVariant(at, vals)) =>
      var decl := env[id];
      assert Encode(env, ty, v) == EncodeVariant(env, decl.body.tagging, decl.body.variants[at], vals);
      VariantDecodesBack(env, decl, at, vals);
    case _ =>
  }

  lemma {:induction false} ListDecodesBack(env: RankedEnv, item: Ty, v: Val)
    requires v.VList? && Recoverable(env, VecTy(item), v) && Encode(env, VecTy(item), v).Some?
    ensures Decode(env, VecTy(item), Encode(env, VecTy(item), v).value) == Some(v)
    decreases v, 3
  {
    var items := v.items;
    forall i | 0 <= i < |items| ensures Decode(env, item, Encode(env, item, items[i]).value) == Some(items[i]) {
      DecodesBack(env, item, items[i]);
    }
    assert Decode(env, VecTy(item), Encode(env, VecTy(item), v).value).value.items == items;
  }

  lemma {:induction false} TupleDecodesBack(env: RankedEnv, tys: seq<Ty>, v: Val)
    requires v.VList? && Recoverable(env, TupleTy(tys), v) && Encode(env, TupleTy(tys), v).Some?
    ensures Decode(env, TupleTy(tys), Encode(env, TupleTy(tys), v).value) == Some(v)
    decreases v, 3
  {
    var items := v.items;
    forall i | 0 <= i < |items|
      ensures Decode(env, tys[i], Encode(env, tys[i], items[i]).value) == Some(items[i])
    {
      DecodesBack(env, tys[i], items[i]);
    }
    assert Decode(env, TupleTy(tys), Encode(env, TupleTy(tys), v).value).value.items == items;
  }

  lemma KeyReadsBack(ty: KeyTy, k: Key)
    requires KeyOfType(ty, k)
    ensures KeyFromText(ty, KeyText(k)) == Some(k)
    ensures KeyText(k) == "-0" ==> ty.TextKey?
  {
    if ty.IntKey? {
      PrintedIntIsCanonical(k.i);
    }
  }

  lemma {:induction false} EntriesDecodeBack(env: RankedEnv, keyTy: KeyTy, item: Ty, v: Val)
    requires v.VMap? && Recoverable(env, MapTy(keyTy, item), v) && EncodeEntries(env, keyTy, item, v).Some?
    ensures DecodeEntries(env, keyTy, item, EncodeEntries(env, keyTy, item, v).value) == Some(v)
    decreases v, 3
  {
    var props := EncodeEntries(env, keyTy, item, v).value;
    EntriesEncoded(env, keyTy, item, v);
    forall k | k in v.entries ensures EntryReadsBack(env, keyTy, item, props, k, v.entries[k]) {
      assert Recoverable(env, item, v.entries[k]);
      DecodesBack(env, item, v.entries[k]);
      EncodedIsPresent(env, item, v.entries[k]);
      TextIsItsOwn(env, keyTy, item, v, k);
    }
    KeysReadBack(keyTy, props, v.entries) by {
      forall k | k in v.entries ensures KeyText(k) in props && !IsAbsent(props[KeyText(k)]) {
        assert EntryReadsBack(env, keyTy, item, props, k, v.entries[k]);
      }
    }
    KeptDecode(env, keyTy, item, props, v.entries);
    EntriesRebuilt(env, keyTy, item, props, v.entries);
  }

  /** Reading `props` at the text of `k` gives `k` and `w`. */
  ghost predicate EntryReadsBack(env: RankedEnv, keyTy: KeyTy, item: Ty, props: Props, k: Key, w: Val) {
    && KeyText(k) in props && !IsAbsent(props[KeyText(k)]) && TextOfKey(props, k) == KeyText(k)
    && Decode(env, item, props[KeyText(k)]) == Some(w)
  }

  lemma KeysReadBack(keyTy: KeyTy, props: Props, entries: map<Key, Val>)
    requires KeysOfType(keyTy, entries)
    requires forall k | k in entries :: KeyText(k) in props && !IsAbsent(props[KeyText(k)])
    requires props.Keys == KeyTexts(entries)
    ensures forall text | text in Kept(props) :: KeyFromText(keyTy, text).Some?
    ensures KeysRead(keyTy, Kept(props)) == entries.Keys
  {
    forall k | k in entries ensures KeyFromText(keyTy, KeyText(k)) == Some(k) {
      KeyReadsBack(keyTy, k);
    }
    forall text | text in Kept(props)
      ensures KeyFromText(keyTy, text).Some? && KeyFromText(keyTy, text).value in entries
    {
      var k := KeyOfText(entries, text);
    }
    forall k | k in entries ensures k in KeysRead(keyTy, Kept(props)) {
      assert KeyText(k) in Kept(props);
    }
  }

  lemma KeptDecode(env: RankedEnv, keyTy: KeyTy, item: Ty, props: Props, entries: map<Key, Val>)
    requires forall k | k in entries :: EntryReadsBack(env, keyTy, item, props, k, entries[k])
    requires props.Keys == KeyTexts(entries)
    ensures forall text | text in Kept(props) :: Decode(env, item, props[text]).Some?
  {
    forall text | text in Kept(props) ensures Decode(env, item, props[text]).Some? {
      var k := KeyOfText(entries, text);
      assert EntryReadsBack(env, keyTy, item, props, k, entries[k]);
    }
  }

  lemma EntriesRebuilt(env: RankedEnv, keyTy: KeyTy, item: Ty, props: Props, entries: map<Key, Val>)
    requires forall text | text in Kept(props) ::
      KeyFromText(keyTy, text).Some? && Decode(env, item, props[text]).Some?
    requires KeysRead(keyTy, Kept(props)) == entries.Keys
    requires forall k | k in entries :: EntryReadsBack(env, keyTy, item, props, k, entries[k])
    ensures DecodeEntries(env, keyTy, item, props) == Some(VMap(entries))
  {
    EntriesDecoded(env, keyTy, item, props);
    var rebuilt := DecodeEntries(env, keyTy, item, props).value.entries;
    forall k | k in entries ensures rebuilt[k] == entries[k] {
      assert EntryReadsBack(env, keyTy, item, props, k, entries[k]);
    }
    assert rebuilt == entries;
  }

  lemma TextIsItsOwn(env: Env, keyTy: KeyTy, item: Ty, v: Val, k: Key)
    requires v.VMap? && EncodeEntries(env, keyTy, item, v).Some? && k in v.entries
    ensures TextOfKey(EncodeEntries(env, keyTy, item, v).value, k) == KeyText(k)
  {
    var props := EncodeEntries(env, keyTy, item, v).value;
    EntriesEncoded(env, keyTy, item, v);
    if k == KInt(0) && "-0" in props {
      var other := KeyOfText(v.entries, "-0");
      KeyReadsBack(keyTy, other);
    }
  }

  /** `base` holds the internal tag, if any, next to the fields. */
  lemma {:induction false} PayloadDecodesBack(
      env: RankedEnv, deny: bool, tag: Option<string>, shape: Shape, vals: seq<Val>, base: Props)
    requires |shape.fields| == |vals| && RecoverableShape(env, deny, tag, shape, vals)
    requires base.Keys == if tag.Some? then {tag.value} else {}
    requires shape.style.StructStyle? ==> EncodeFields(env, shape.fields, vals, base).Some?
    requires !shape.style.StructStyle? ==> EncodePayload(env, shape, vals).Some?
    ensures DecodePayload(env, deny, tag, shape,
              if shape.style.StructStyle? then Obj(EncodeFields(env, shape.fields, vals, base).value)
              else EncodePayload(env, shape, vals).value) == Some(vals)
    ensures shape.style.StructStyle? ==>
      forall k | k in base :: k in EncodeFields(env, shape.fields, vals, base).value &&
        EncodeFields(env, shape.fields, vals, base).value[k] == base[k]
    decreases vals, 2
  {
    match shape.style
    case UnitStyle =>
    case NewtypeStyle =>
      DecodesBack(env, shape.fields[0].ty, vals[0]);
      assert [vals[0]] == vals;
    case TupleStyle => ItemsDecodeBack(env, shape.fields, vals);
    case StructStyle =>
      FieldsWritten(env, shape.fields, vals, base);
      var props := EncodeFields(env, shape.fields, vals, base).value;
      var own := OwnKeys(tag, shape.fields);
      assert (props - own).Keys == props.Keys - own;
      forall i | 0 <= i < |vals|
        ensures DecodeField(env, shape.fields[i], props, own) == Some(vals[i])
      {
        FieldDecodesBack(env, shape.fields[i], vals[i], props, own);
      }
      AllFieldsDecode(env, shape.fields, props, own, vals);
  }

  lemma {:induction false} ItemsDecodeBack(env: RankedEnv, fields: seq<Field>, vals: seq<Val>)
    requires |fields| == |vals| && EncodeItems(env, fields, vals).Some?
    requires forall i | 0 <= i < |vals| ::
      && fields[i].skipSer == fields[i].skipDe
      && if fields[i].skipDe then vals[i] == fields[i].Fallback() else Recoverable(env, fields[i].ty, vals[i])
    ensures DecodeItems(env, fields, EncodeItems(env, fields, vals).value) == Some(vals)
    decreases vals, 1
  {
    if fields != [] {
      ItemsDecodeBack(env, fields[1..], vals[1..]);
      assert [vals[0]] + vals[1..] == vals;
      if !fields[0].skipDe {
        DecodesBack(env, fields[0].ty, vals[0]);
        var items := EncodeItems(env, fields, vals).value;
        assert items[1..] == EncodeItems(env, fields[1..], vals[1..]).value;
      }
    }
  }

  lemma {:induction false} FieldDecodesBack(
      env: RankedEnv, field: Field, v: Val, props: Props, own: set<string>)
    requires Holds(env, props, field, v)
    requires RecoverableField(env, field, v, props.Keys, props.Keys - own)
    ensures DecodeField(env, field, props, own) == Some(v)
    decreases v, 5
  {
    if field.skipDe {
    } else if !field.flatten {
      if field.LeftOut(v) {
        NoFieldValue(props, field.Accepted());
      } else {
        DecodesBack(env, field.ty, v);
        EncodedIsPresent(env, field.ty, v);
        OneFieldValue(props, field.Accepted(), field.ser);
      }
    } else if v == VNone {
      assert (props - own).Keys == props.Keys - own;
      LackingFieldFails(env, field.ty.inner, props - own);
    } else {
      var js := Encode(env, field.ty, v).value;
      DecodesBack(env, field.ty, v);
      forall k | Reads(env, field.ty, k)
        ensures (k in js.props <==> k in props - own) && (k in js.props ==> js.props[k] == (props - own)[k])
      {
        assert Written(env, field, v) == js.props.Keys;
      }
      DecodeDependsOnReads(env, field.ty, js.props, props - own);
    }
  }

  lemma {:induction false} VariantDecodesBack(env: RankedEnv, decl: Decl, at: nat, vals: seq<Val>)
    requires decl.body.EnumBody? && RecoverableDecl(env, decl, VVariant(at, vals))
    requires EncodeVariant(env, decl.body.tagging, decl.body.variants[at], vals).Some?
    ensures DecodeDecl(env, decl, EncodeVariant(env, decl.body.tagging, decl.body.variants[at], vals).value)
            == Some(VVariant(at, vals))
    decreases vals, 4
  {
    match decl.body.tagging
    case External => ExternalDecodesBack(env, decl, at, vals);
    case Internal(tag) => InternalDecodesBack(env, decl, tag, at, vals);
    case Adjacent(tag, content) => AdjacentDecodesBack(env, decl, tag, content, at, vals);
    case Untagged =>
      var variants := decl.body.variants;
      PayloadDecodesBack(env, decl.denyUnknown, None, variants[at].shape, vals, map[]);
      FirstDecodes(env, decl.denyUnknown, variants, 0, at, EncodePayload(env, variants[at].shape, vals).value);
  }

  lemma {:induction false} FirstDecodes(
      env: RankedEnv, deny: bool, variants: seq<Variant>, from: nat, at: nat, js: Js)
    requires from <= at < |variants| && !variants[at].skipDe
    requires DecodePayload(env, deny, None, variants[at].shape, js).Some?
    requires forall i | from <= i < at ::
      variants[i].skipDe || DecodePayload(env, deny, None, variants[i].shape, js).None?
    ensures DecodeUntagged(env, deny, variants, from, js)
            == AsVariant(at, DecodePayload(env, deny, None, variants[at].shape, js))
    decreases at - from
  {
    if from < at { FirstDecodes(env, deny, variants, from + 1, at, js); }
  }

  lemma {:induction false} ExternalDecodesBack(env: RankedEnv, decl: Decl, at: nat, vals: seq<Val>)
    requires decl.body.EnumBody? && decl.body.tagging == External
    requires RecoverableDecl(env, decl, VVariant(at, vals))
    requires EncodeVariant(env, External, decl.body.variants[at], vals).Some?
    ensures DecodeExternal(env, decl.denyUnknown, decl.body.variants,
                           EncodeVariant(env, External, decl.body.variants[at], vals).value) == Some(VVariant(at, vals))
    decreases vals, 3
  {
    var variant := decl.body.variants[at];
    var shape := variant.shape;
    if !shape.style.UnitStyle? {
      var js := EncodeVariant(env, External, variant, vals).value;
      PayloadDecodesBack(env, decl.denyUnknown, None, shape, vals, map[]);
      assert js.props.Keys == {variant.ser};
    }
  }

  lemma {:induction false} InternalDecodesBack(env: RankedEnv, decl: Decl, tag: string, at: nat, vals: seq<Val>)
    requires decl.body.EnumBody? && decl.body.tagging == Internal(tag)
    requires RecoverableDecl(env, decl, VVariant(at, vals))
    requires EncodeVariant(env, Internal(tag), decl.body.variants[at], vals).Some?
    ensures DecodeInternal(env, decl.denyUnknown, tag, decl.body.variants,
                           EncodeVariant(env, Internal(tag), decl.body.variants[at], vals).value)
            == Some(VVariant(at, vals))
    decreases vals, 3
  {
    var variant := decl.body.variants[at];
    var shape := variant.shape;
    var base: Props := map[tag := Str(variant.ser)];
    if shape.style.NewtypeStyle? {
      DecodesBack(env, shape.fields[0].ty, vals[0]);
      var inner := Encode(env, shape.fields[0].ty, vals[0]).value;
      assert (base + inner.props) - {tag} == inner.props;
      assert [vals[0]] == vals;
    } else if shape.style.StructStyle? {
      PayloadDecodesBack(env, decl.denyUnknown, Some(tag), shape, vals, base);
      var props := EncodeFields(env, shape.fields, vals, base).value;
      assert EncodeVariant(env, Internal(tag), variant, vals) == Some(Obj(props));
      assert tag in base && props[tag] == Str(variant.ser);
    } else {
      assert EncodeFields(env, shape.fields, vals, base) == Some(base);
      assert EncodeVariant(env, Internal(tag), variant, vals) == Some(Obj(base));
    }
  }

  lemma {:induction false} AdjacentDecodesBack(
      env: RankedEnv, decl: Decl, tag: string, content: string, at: nat, vals: seq<Val>)
    requires decl.body.EnumBody? && decl.body.tagging == Adjacent(tag, content)
    requires RecoverableDecl(env, decl, VVariant(at, vals))
    requires EncodeVariant(env, Adjacent(tag, content), decl.body.variants[at], vals).Some?
    ensures DecodeAdjacent(env, decl.denyUnknown, tag, content, decl.body.variants,
                           EncodeVariant(env, Adjacent(tag, content), decl.body.variants[at], vals).value)
            == Some(VVariant(at, vals))
    decreases vals, 3
  {
    var variant := decl.body.variants[at];
    var shape := variant.shape;
    var js := EncodeVariant(env, Adjacent(tag, content), variant, vals).value;
    if shape.style.UnitStyle? {
      NoFieldValue(js.props, [content]);
    } else {
      PayloadDecodesBack(env, decl.denyUnknown, None, shape, vals, map[]);
      if shape.style.NewtypeStyle? { EncodedIsPresent(env, shape.fields[0].ty, vals[0]); }
      OneFieldValue(js.props, [content], content);
    }
  }

  // ------------------------------------------------------- where it is not kept

  /** `Some(w)` comes back exactly when `w` is not itself written as `null`. */
  lemma OptionRecoversExactly(env: RankedEnv, inner: Ty, w: Val)
    requires Recoverable(env, inner, w) && Encode(env, inner, w).Some?
    ensures Decode(env, OptionTy(inner), Encode(env, OptionTy(inner), VSome(w)).value) == Some(VSome(w))
            <==> Encode(env, inner, w) != Some(Null)
  {
    if Encode(env, inner, w) != Some(Null) {
      DecodesBack(env, OptionTy(inner), VSome(w));
    }
  }

  /** An untagged variant comes back exactly when no earlier one decodes its payload. */
  lemma {:induction false} UntaggedRecoversExactly(env: RankedEnv, decl: Decl, at: nat, vals: seq<Val>)
    requires decl.body.EnumBody? && decl.body.tagging == Untagged && at < |decl.body.variants|
    requires var variant := decl.body.variants[at];
      && !variant.skipSer && !variant.skipDe && |variant.shape.fields| == |vals|
      && RecoverableShape(env, decl.denyUnknown, None, variant.shape, vals)
      && EncodePayload(env, variant.shape, vals).Some?
    ensures DecodeDecl(env, decl, EncodePayload(env, decl.body.variants[at].shape, vals).value)
              == Some(VVariant(at, vals))
            <==> RefusedBefore(env, decl.denyUnknown, decl.body.variants, at, vals)
  {
    var variants := decl.body.variants;
    var js := EncodePayload(env, variants[at].shape, vals).value;
    PayloadDecodesBack(env, decl.denyUnknown, None, variants[at].shape, vals, map[]);
    if RefusedBefore(env, decl.denyUnknown, variants, at, vals) {
      FirstDecodes(env, decl.denyUnknown, variants, 0, at, js);
    } else {
      var first := FirstDecoder(env, decl.denyUnknown, variants, at, js);
      FirstDecodes(env, decl.denyUnknown, variants, 0, first, js);
    }
  }

  lemma {:induction false} FirstDecoder(
      env: RankedEnv, deny: bool, variants: seq<Variant>, at: nat, js: Js)
    returns (first: nat)
    requires at <= |variants|
    requires exists i | 0 <= i < at ::
      !variants[i].skipDe && DecodePayload(env, deny, None, variants[i].shape, js).Some?
    ensures first < at && !variants[first].skipDe
    ensures DecodePayload(env, deny, None, variants[first].shape, js).Some?
    ensures forall i | 0 <= i < first ::
      variants[i].skipDe || DecodePayload(env, deny, None, variants[i].shape, js).None?
    decreases at
  {
    var i :| 0 <= i < at && !variants[i].skipDe
             && DecodePayload(env, deny, None, variants[i].shape, js).Some?;
    if exists j | 0 <= j < i :: !variants[j].skipDe && DecodePayload(env, deny, None, variants[j].shape, js).Some? {
      first := FirstDecoder(env, deny, variants, i, js);
    } else {
      first := i;
    }
  }

  /** A flattened string map takes every key its struct does not claim, those of another
      flattened field included: it comes back exactly when it wrote all of them. */
  lemma {:induction false} FlattenedMapRecoversExactly(
      env: RankedEnv, field: Field, v: Val, props: Props, own: set<string>)
    requires field.flatten && !field.skipDe && field.ty.MapTy? && field.ty.key.TextKey? && v.VMap?
    requires !field.LeftOut(v) && Recoverable(env, field.ty, v)
    requires Holds(env, props, field, v) && Written(env, field, v) <= props.Keys - own
    requires forall k | k in props :: !IsAbsent(props[k])
    ensures DecodeField(env, field, props, own) == Some(v)
            <==> Written(env, field, v) == props.Keys - own
  {
    var inner := EncodeEntries(env, field.ty.key, field.ty.value, v).value;
    EntriesEncoded(env, field.ty.key, field.ty.value, v);
    assert Encode(env, field.ty, v) == Some(Obj(inner)) && Written(env, field, v) == inner.Keys;
    assert DecodeField(env, field, props, own) == Decode(env, field.ty, Obj(props - own));
    DecodesBack(env, field.ty, v);
    EntriesRecoverExactly(env, field.ty.value, v, inner, props - own);
  }

  /** A map read back from `rest`, which holds what it wrote as `inner`. */
  lemma EntriesRecoverExactly(env: RankedEnv, item: Ty, v: Val, inner: Props, rest: Props)
    requires v.VMap? && EncodeEntries(env, TextKey, item, v) == Some(inner)
    requires DecodeEntries(env, TextKey, item, inner) == Some(v)
    requires forall k | k in inner :: k in rest && rest[k] == inner[k]
    requires forall k | k in rest :: !IsAbsent(rest[k])
    ensures DecodeEntries(env, TextKey, item, rest) == Some(v) <==> inner.Keys == rest.Keys
  {
    var k := SameOrMore(inner, rest);
    if inner.Keys != rest.Keys {
      ForeignKeyIsTaken(env, item, v, rest, k);
    }
  }

  lemma SameOrMore(inner: Props, rest: Props) returns (k: string)
    requires forall k | k in inner :: k in rest && rest[k] == inner[k]
    ensures if inner.Keys == rest.Keys then inner == rest else k in rest && k !in inner
  {
    k := "";
    if inner.Keys != rest.Keys {
      k :| k in rest && k !in inner;
    }
  }

  /** A key the map did not write shows up in what is decoded. */
  lemma ForeignKeyIsTaken(env: RankedEnv, item: Ty, v: Val, rest: Props, k: string)
    requires v.VMap? && EncodeEntries(env, TextKey, item, v).Some?
    requires k in Kept(rest) && k !in EncodeEntries(env, TextKey, item, v).value
    ensures DecodeEntries(env, TextKey, item, rest) != Some(v)
  {
    EntriesEncoded(env, TextKey, item, v);
    if DecodeEntries(env, TextKey, item, rest).Some? {
      EveryKeyDecodes(env, item, rest, k);
      assert KText(k) !in v.entries by { assert KeyText(KText(k)) == k; }
    }
  }

  lemma EveryKeyDecodes(env: RankedEnv, item: Ty, props: Props, k: string)
    requires DecodeEntries(env, TextKey, item, props).Some? && k in Kept(props)
    ensures KText(k) in DecodeEntries(env, TextKey, item, props).value.entries
  {
    EntriesDecoded(env, TextKey, item, props);
    assert KeyFromText(TextKey, k) == Some(KText(k));
  }
}
