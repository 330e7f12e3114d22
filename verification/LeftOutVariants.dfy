/** The same disagreement for the struct variants of tagged enums (see `LeftOutFields`). */
module LeftOutVariants {
  import opened Wrappers
  import opened Metadata
  import opened Validation
  import opened Descriptors
  import opened Encoding
  import opened DerivedSchema
  import opened EncodedIsValid
  import opened LeftOutFields

  /** Struct variant `at` of the tagged enum `id` encodes from `vals`, and meets the
      conditions of `EncodableVariant` but for what its fields leave out. */
  ghost predicate StructVariant(
      env: Env, deps: seq<Schema>, id: nat, tagging: Tagging, variants: seq<Variant>, at: nat, vals: seq<Val>)
  {
    && id < |env| && WellFormed(env) && Faithful(env, deps)
    && env[id].body == EnumBody(tagging, variants) && !tagging.Untagged?
    && at < |variants| && variants[at].shape.style.StructStyle? && |variants[at].shape.fields| == |vals|
    && SeparateFields(env, id, variants[at].shape.fields, vals)
    && (tagging.Internal? ==> tagging.tag !in OpenKeysOf(env, variants[at].shape.fields, vals))
    && EncodeVariant(env, tagging, variants[at], vals).Some?
  }

  ghost predicate NothingLeftOut(env: Env, id: nat, fields: seq<Field>, vals: seq<Val>)
    requires id < |env| && |fields| == |vals|
  {
    forall i | 0 <= i < |vals| :: LeavesOutNothingRequired(env, id, fields[i], vals[i])
  }

  /** A struct variant of a tagged enum encodes to a valid value exactly when no flattened
      field that is left out had something to require. */
  lemma LeftOutFieldsDecideVariant(
      env: Env, deps: seq<Schema>, id: nat, tagging: Tagging, variants: seq<Variant>, at: nat, vals: seq<Val>)
    requires StructVariant(env, deps, id, tagging, variants, at, vals)
    ensures TsOf(env, id).Some?
    ensures Valid(deps, true, {}, TsOf(env, id).value, EncodeVariant(env, tagging, variants[at], vals).value)
            <==> NothingLeftOut(env, id, variants[at].shape.fields, vals)
  {
    assert WellFormedDecl(env, id) && WellFormedVariant(env, id, tagging, variants[at]);
    assert TsOf(env, id) == EnumType(env, id, tagging, variants);
    assert !SkippedVariant(env[id], variants[at]);
    if NothingLeftOut(env, id, variants[at].shape.fields, vals) {
      EncodedVariantIsValid(env, deps, {}, id, tagging, variants, at, vals);
    } else {
      match tagging
      case External => ExternalIsRefused(env, deps, id, variants, at, vals);
      case Internal(tag) => InternalIsRefused(env, deps, id, tag, variants, at, vals);
      case Adjacent(tag, content) => AdjacentIsRefused(env, deps, id, tag, content, variants, at, vals);
    }
  }

  // ---------------------------------------------------------------- externally tagged

  /** Every member of a union is that of a described variant. */
  lemma {:induction false} AlternativeIsOf(env: Env, id: nat, tagging: Tagging, variants: seq<Variant>, j: nat)
    returns (at: nat)
    requires id < |env| && Alternatives(env, id, tagging, variants).Some?
    requires j < |Alternatives(env, id, tagging, variants).value|
    ensures at < |variants| && !SkippedVariant(env[id], variants[at])
    ensures Some(Alternatives(env, id, tagging, variants).value[j]) == Alternative(env, id, tagging, variants[at])
    decreases |variants|
  {
    if SkippedVariant(env[id], variants[0]) {
      at := AlternativeIsOf(env, id, tagging, variants[1..], j);
      at := at + 1;
    } else if j == 0 {
      at := 0;
    } else {
      at := AlternativeIsOf(env, id, tagging, variants[1..], j - 1);
      at := at + 1;
    }
  }

  /** A member refuses an object whose one key is another variant's, or whose payload its
      own shape refuses. */
  lemma MemberRefuses(env: Env, deps: seq<Schema>, id: nat, variant: Variant, key: string, payload: Js)
    requires id < |env| && Alternative(env, id, External, variant).Some?
    requires VariantKey(env[id], variant) == key ==>
      ShapeType(env, id, variant.shape).Some? && !variant.shape.style.UnitStyle?
      && !Valid(deps, true, {}, ShapeType(env, id, variant.shape).value, payload)
    ensures !Valid(deps, true, {}, Alternative(env, id, External, variant).value, Obj(map[key := payload]))
  {
    var ty := Alternative(env, id, External, variant).value;
    if ty.Object? {
      assert key in map[key := payload] && ty.fields[0].name == VariantKey(env[id], variant);
      assert Declares(ty.fields, key) <==> ty.fields[0].name == key;
    }
  }

  lemma UnionRefuses(env: Env, deps: seq<Schema>, id: nat, variants: seq<Variant>, at: nat, payload: Js)
    requires id < |env| && DistinctVariants(env[id], variants) && Alternatives(env, id, External, variants).Some?
    requires at < |variants| && !SkippedVariant(env[id], variants[at]) && !variants[at].shape.style.UnitStyle?
    requires ShapeType(env, id, variants[at].shape).Some?
    requires !Valid(deps, true, {}, ShapeType(env, id, variants[at].shape).value, payload)
    ensures !Valid(deps, true, {}, Union(Alternatives(env, id, External, variants).value),
                   Obj(map[VariantKey(env[id], variants[at]) := payload]))
  {
    var key, members := VariantKey(env[id], variants[at]), Alternatives(env, id, External, variants).value;
    forall j | 0 <= j < |members| ensures !Valid(deps, true, {}, members[j], Obj(map[key := payload])) {
      var i := AlternativeIsOf(env, id, External, variants, j);
      OneMemberRefuses(env, deps, id, variants, at, i, payload);
    }
    NoMemberAccepts(deps, members, Obj(map[key := payload]));
  }

  lemma OneMemberRefuses(env: Env, deps: seq<Schema>, id: nat, variants: seq<Variant>, at: nat, i: nat, payload: Js)
    requires id < |env| && DistinctVariants(env[id], variants) && at < |variants| && i < |variants|
    requires !SkippedVariant(env[id], variants[at]) && !SkippedVariant(env[id], variants[i])
    requires !variants[at].shape.style.UnitStyle? && ShapeType(env, id, variants[at].shape).Some?
    requires !Valid(deps, true, {}, ShapeType(env, id, variants[at].shape).value, payload)
    requires Alternative(env, id, External, variants[i]).Some?
    ensures !Valid(deps, true, {}, Alternative(env, id, External, variants[i]).value,
                   Obj(map[VariantKey(env[id], variants[at]) := payload]))
  {
    assert i != at ==> VariantKey(env[id], variants[i]) != VariantKey(env[id], variants[at]);
    MemberRefuses(env, deps, id, variants[i], VariantKey(env[id], variants[at]), payload);
  }

  lemma NoMemberAccepts(deps: seq<Schema>, members: seq<TsType>, js: Js)
    requires forall j | 0 <= j < |members| :: !Valid(deps, true, {}, members[j], js)
    ensures !Valid(deps, true, {}, Union(members), js)
  {}

  lemma ExternalIsRefused(env: Env, deps: seq<Schema>, id: nat, variants: seq<Variant>, at: nat, vals: seq<Val>)
    requires StructVariant(env, deps, id, External, variants, at, vals)
    requires WellFormedDecl(env, id) && EnumType(env, id, External, variants).Some?
    requires !SkippedVariant(env[id], variants[at]) && !NothingLeftOut(env, id, variants[at].shape.fields, vals)
    ensures !Valid(deps, true, {}, EnumType(env, id, External, variants).value,
                   EncodeVariant(env, External, variants[at], vals).value)
  {
    var variant := variants[at];
    assert WellFormedVariant(env, id, External, variant) && !AllUnit(env[id], variants);
    var listed := AlternativeListed(env, id, External, variants, at);
    LeftOutFieldsDecideShape(env, deps, id, variant.shape, vals);
    UnionRefuses(env, deps, id, variants, at, EncodePayload(env, variant.shape, vals).value);
  }

  // ------------------------------------------------- internally and adjacently tagged

  lemma FieldRefuses(
      deps: seq<Schema>, owner: TsType, fields: seq<TsField>, extra: set<string>, rest: Option<TsType>, i: nat, props: Props)
    requires (forall i | 0 <= i < |fields| :: fields[i].ty < owner) && (rest.Some? ==> rest.value < owner)
    requires i < |fields| && if fields[i].name in props then !Valid(deps, true, {}, fields[i].ty, props[fields[i].name])
                             else !fields[i].optional
    ensures !ValidObject(deps, true, {}, owner, fields, extra, rest, Obj(props))
  {}

  /** A tagged object one field of whose entry is not right is refused. */
  lemma FieldIsRefused(
      deps: seq<Schema>, tag: string, entries: seq<TsVariant>, found: nat, ser: string, i: nat, props: Props)
    requires tag in props && props[tag] == Str(ser) && found == FindVariant(entries, ser) && found < |entries|
    requires var fields := entries[found].fields;
      i < |fields| && if fields[i].name in props then !Valid(deps, true, {}, fields[i].ty, props[fields[i].name])
                      else !fields[i].optional
    ensures !Valid(deps, true, {}, Enum(Some(tag), entries), Obj(props))
  {
    var entry, owner := entries[found], Enum(Some(tag), entries);
    FieldRefuses(deps, owner, entry.fields, {tag}, entry.rest, i, props);
    EntryDecides(deps, tag, entries, Obj(props), found);
  }

  lemma EntryDecides(deps: seq<Schema>, tag: string, entries: seq<TsVariant>, js: Js, found: nat)
    requires js.Obj? && tag in js.props && js.props[tag].Str?
    requires found == FindVariant(entries, js.props[tag].s) && found < |entries|
    ensures Valid(deps, true, {}, Enum(Some(tag), entries), js) <==>
      ValidObject(deps, true, {}, Enum(Some(tag), entries), entries[found].fields, {tag}, entries[found].rest, js)
  {
  }

  lemma MissingIsRefused(
      deps: seq<Schema>, tag: string, entries: seq<TsVariant>, acc: ObjectSchema, name: string, ser: string, props: Props)
    requires Requires(acc, name) && name !in props && tag in props && props[tag] == Str(ser)
    requires FindVariant(entries, ser) < |entries| && entries[FindVariant(entries, ser)] == acc.AsVariant(ser)
    ensures !Valid(deps, true, {}, Enum(Some(tag), entries), Obj(props))
  {
    var i :| 0 <= i < |acc.fields| && acc.fields[i].name == name && !acc.fields[i].optional;
    FieldIsRefused(deps, tag, entries, FindVariant(entries, ser), ser, i, props);
  }

  /** `name` is in both with one value, or in neither. */
  predicate SameAt(p: Props, q: Props, name: string) {
    (name in p <==> name in q) && (name in p ==> p[name] == q[name])
  }

  /** What a flattened field writes is declared or open. */
  lemma MergedKeepsClear(
      env: Env, deps: seq<Schema>, id: nat, target: Ty, optional: bool, w: Val, acc: ObjectSchema, name: string)
    requires id < |env| && Encodable(env, deps, target, w) && Expanded(env, id, target).Some?
    requires acc.Flatten(Expanded(env, id, target).value, optional).Some?
    requires name !in NamesOf(acc.Flatten(Expanded(env, id, target).value, optional).value.fields)
    requires name !in OpenKeys(env, target, w)
    ensures var js := Encode(env, target, w).value; js.Obj? ==> name !in js.props
  {
    var ty := Expanded(env, id, target).value;
    var next := acc.Flatten(ty, optional).value;
    FlattenAppends(acc, ty, optional);
    ExpandedValueIsValid(env, deps, {}, id, target, w);
    assert forall i | 0 <= i < |FieldsOf(ty)| :: next.fields[|acc.fields| + i].name == FieldsOf(ty)[i].name;
  }

  /** A key that is neither declared nor open is left alone. */
  lemma OneFieldKeeps(
      env: Env, deps: seq<Schema>, id: nat, field: Field, v: Val, acc: ObjectSchema, props: Props, name: string)
    requires id < |env| && WellFormed(env) && Faithful(env, deps) && Separate(env, field.ty, v)
    requires EncodeField(env, field, v, props).Some? && FieldStep(env, id, field, acc).Some?
    requires name !in NamesOf(FieldStep(env, id, field, acc).value.fields)
    requires field.flatten && !field.LeftOut(v) ==> name !in OpenKeys(env, field.ty, v)
    ensures SameAt(props, EncodeField(env, field, v, props).value, name)
  {
    assert WellFormedDecl(env, id);
    if !field.LeftOut(v) {
      assert !PresenceOf(env[id], field).Omitted?;
      if field.flatten {
        var optional := field.ty.OptionTy?;
        if !(optional && v == VNone) {
          MergedKeepsClear(env, deps, id, if optional then field.ty.inner else field.ty, optional,
                           if optional then v.v else v, acc, name);
        }
      } else {
        assert FieldStep(env, id, field, acc).value.fields[|acc.fields|].name == field.ser;
      }
    }
  }

  lemma {:induction false} FieldsKeep(
      env: Env, deps: seq<Schema>, id: nat, fields: seq<Field>, vals: seq<Val>,
      acc: ObjectSchema, props: Props, name: string)
    requires id < |env| && WellFormed(env) && Faithful(env, deps) && |fields| == |vals|
    requires forall i | 0 <= i < |vals| :: Separate(env, fields[i].ty, vals[i])
    requires EncodeFields(env, fields, vals, props).Some? && ObjectOf(env, id, fields, acc).Some?
    requires name !in NamesOf(ObjectOf(env, id, fields, acc).value.fields) && name !in OpenKeysOf(env, fields, vals)
    ensures SameAt(props, EncodeFields(env, fields, vals, props).value, name)
    decreases |fields|
  {
    if fields != [] {
      var next := FieldStep(env, id, fields[0], acc).value;
      var written := EncodeField(env, fields[0], vals[0], props).value;
      ObjectGrows(env, id, fields[1..], next);
      SubNames(next.fields, ObjectOf(env, id, fields, acc).value.fields);
      OneFieldKeeps(env, deps, id, fields[0], vals[0], acc, props, name);
      FieldsKeep(env, deps, id, fields[1..], vals[1..], next, written, name);
    }
  }

  lemma InternalIsRefused(
      env: Env, deps: seq<Schema>, id: nat, tag: string, variants: seq<Variant>, at: nat, vals: seq<Val>)
    requires StructVariant(env, deps, id, Internal(tag), variants, at, vals)
    requires WellFormedDecl(env, id) && EnumType(env, id, Internal(tag), variants).Some?
    requires !SkippedVariant(env[id], variants[at]) && !NothingLeftOut(env, id, variants[at].shape.fields, vals)
    ensures !Valid(deps, true, {}, EnumType(env, id, Internal(tag), variants).value,
                   EncodeVariant(env, Internal(tag), variants[at], vals).value)
  {
    var variant, fields := variants[at], variants[at].shape.fields;
    var base: Props := map[tag := Str(variant.ser)];
    assert WellFormedVariant(env, id, Internal(tag), variant) && !AllUnit(env[id], variants);
    var entries := VariantEntries(env, id, Internal(tag), variants).value;
    EntryFound(env, id, Internal(tag), variants, at);
    var acc := InternalObject(env, id, variant.shape).value;
    assert EncodeInternal(env, variant.shape, vals, base) == EncodeFields(env, fields, vals, base);
    assert tag !in NamesOf(acc.fields);
    assert Fits(deps, {}, EMPTY, {}, base, base);
    var name := RequiredIsMissing(env, deps, id, fields, vals, EMPTY, {}, base, base);
    FieldsKeep(env, deps, id, fields, vals, EMPTY, base, tag);
    MissingIsRefused(deps, tag, entries, acc, name, variant.ser, EncodeFields(env, fields, vals, base).value);
  }

  lemma AdjacentIsRefused(
      env: Env, deps: seq<Schema>, id: nat, tag: string, content: string, variants: seq<Variant>, at: nat, vals: seq<Val>)
    requires StructVariant(env, deps, id, Adjacent(tag, content), variants, at, vals)
    requires WellFormedDecl(env, id) && EnumType(env, id, Adjacent(tag, content), variants).Some?
    requires !SkippedVariant(env[id], variants[at]) && !NothingLeftOut(env, id, variants[at].shape.fields, vals)
    ensures !Valid(deps, true, {}, EnumType(env, id, Adjacent(tag, content), variants).value,
                   EncodeVariant(env, Adjacent(tag, content), variants[at], vals).value)
  {
    var tagging, variant := Adjacent(tag, content), variants[at];
    assert WellFormedVariant(env, id, tagging, variant) && !AllUnit(env[id], variants);
    EntryFound(env, id, tagging, variants, at);
    LeftOutFieldsDecideShape(env, deps, id, variant.shape, vals);
    AdjacentPayloadDecides(env, deps, id, tag, content, variants, at, EncodePayload(env, variant.shape, vals).value);
  }

  /** Adjacently tagged content its shape refuses is refused. */
  lemma AdjacentPayloadDecides(
      env: Env, deps: seq<Schema>, id: nat, tag: string, content: string, variants: seq<Variant>, at: nat, payload: Js)
    requires id < |env| && VariantEntries(env, id, Adjacent(tag, content), variants).Some? && tag != content
    requires at < |variants| && variants[at].shape.style.StructStyle?
    requires var entries, variant := VariantEntries(env, id, Adjacent(tag, content), variants).value, variants[at];
      var j := FindVariant(entries, variant.ser);
      j < |entries| && Some(entries[j]) == VariantEntry(env, id, Adjacent(tag, content), variant)
    requires ShapeType(env, id, variants[at].shape).Some?
    requires !Valid(deps, true, {}, ShapeType(env, id, variants[at].shape).value, payload)
    ensures !Valid(deps, true, {}, Enum(Some(tag), VariantEntries(env, id, Adjacent(tag, content), variants).value),
                   Obj(map[tag := Str(variants[at].ser)][content := payload]))
  {
    var entry := VariantEntry(env, id, Adjacent(tag, content), variants[at]).value;
    assert entry.fields[0] == TsField(content, ShapeType(env, id, variants[at].shape).value, false);
    var entries := VariantEntries(env, id, Adjacent(tag, content), variants).value;
    FieldIsRefused(deps, tag, entries, FindVariant(entries, variants[at].ser), variants[at].ser, 0,
                   map[tag := Str(variants[at].ser)][content := payload]);
  }
}
