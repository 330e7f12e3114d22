/** Where a derived encoder and its schema disagree: a flattened field that serialization
    leaves out is still described as if it were there, so what its own schema requires is
    missing. That is the only disagreement. */
module LeftOutFields {
  import opened Wrappers
  import opened Metadata
  import opened Validation
  import opened Descriptors
  import opened Encoding
  import opened DerivedSchema
  import opened EncodedIsValid

  /** `Separate` for a struct's fields, without the left-out condition on the struct
      itself. */
  ghost predicate SeparateFields(env: Env, id: nat, fields: seq<Field>, vals: seq<Val>)
    requires id < |env| && |fields| == |vals|
  {
    && (forall i | 0 <= i < |vals| :: Separate(env, fields[i].ty, vals[i]))
    && var acc := ObjectOf(env, id, fields, EMPTY);
       acc.Some? ==> OpenKeysOf(env, fields, vals) !! NamesOf(acc.value.fields)
  }

  ghost predicate Requires(acc: ObjectSchema, name: string) {
    exists i | 0 <= i < |acc.fields| :: acc.fields[i].name == name && !acc.fields[i].optional
  }

  /** No later field writes a name already declared. */
  lemma {:induction false} DeclaredStaysMissing(
      env: Env, deps: seq<Schema>, id: nat, fields: seq<Field>, vals: seq<Val>,
      acc: ObjectSchema, props: Props, name: string)
    requires id < |env| && WellFormed(env) && Faithful(env, deps) && |fields| == |vals|
    requires forall i | 0 <= i < |vals| :: Separate(env, fields[i].ty, vals[i])
    requires EncodeFields(env, fields, vals, props).Some? && ObjectOf(env, id, fields, acc).Some?
    requires Distinct(ObjectOf(env, id, fields, acc).value.fields)
    requires Declares(acc.fields, name) && name !in props && name !in OpenKeysOf(env, fields, vals)
    ensures name !in EncodeFields(env, fields, vals, props).value
    decreases |fields|
  {
    if fields != [] {
      var next := FieldStep(env, id, fields[0], acc).value;
      var written := EncodeField(env, fields[0], vals[0], props).value;
      ObjectGrows(env, id, fields[1..], next);
      SubNames(next.fields, ObjectOf(env, id, fields, acc).value.fields);
      StepGrows(env, id, fields[0], acc);
      StaysDeclared(acc.fields, next.fields, name);
      OneFieldMisses(env, deps, id, fields[0], vals[0], acc, props, name);
      DeclaredStaysMissing(env, deps, id, fields[1..], vals[1..], next, written, name);
    }
  }

  lemma OneFieldMisses(
      env: Env, deps: seq<Schema>, id: nat, field: Field, v: Val, acc: ObjectSchema, props: Props, name: string)
    requires id < |env| && WellFormed(env) && Faithful(env, deps) && Separate(env, field.ty, v)
    requires EncodeField(env, field, v, props).Some? && FieldStep(env, id, field, acc).Some?
    requires Distinct(FieldStep(env, id, field, acc).value.fields)
    requires Declares(acc.fields, name) && name !in props
    requires field.flatten && !field.LeftOut(v) ==> name !in OpenKeys(env, field.ty, v)
    ensures name !in EncodeField(env, field, v, props).value
  {
    assert WellFormedDecl(env, id);
    var next := FieldStep(env, id, field, acc).value;
    if !field.LeftOut(v) {
      assert !PresenceOf(env[id], field).Omitted?;
      if field.flatten {
        var optional := field.ty.OptionTy?;
        var target := if optional then field.ty.inner else field.ty;
        var ty := Expanded(env, id, target).value;
        FlattenAppends(acc, ty, optional);
        if !(optional && v == VNone) {
          var w := if optional then v.v else v;
          ExpandedValueIsValid(env, deps, {}, id, target, w);
          var js := Encode(env, target, w).value;
          assert js.Obj? ==> name !in js.props;
        }
      } else {
        var at :| 0 <= at < |acc.fields| && acc.fields[at].name == name;
        assert next.fields[at] == acc.fields[at] && next.fields[|acc.fields|].name == field.ser;
      }
    }
  }

  /** What holds before field `fields[0]` of a struct is encoded next to `base`. */
  ghost predicate Underway(
      env: Env, deps: seq<Schema>, id: nat, fields: seq<Field>, vals: seq<Val>,
      acc: ObjectSchema, open: set<string>, base: Props, props: Props)
  {
    && id < |env| && WellFormed(env) && Faithful(env, deps) && |fields| == |vals|
    && (forall i | 0 <= i < |vals| :: Separate(env, fields[i].ty, vals[i]))
    && EncodeFields(env, fields, vals, props).Some? && ObjectOf(env, id, fields, acc).Some?
    && Fits(deps, {}, acc, open, base, props)
    && var final := ObjectOf(env, id, fields, acc).value.fields;
       Distinct(final) && (open + OpenKeysOf(env, fields, vals)) !! NamesOf(final) && base.Keys !! NamesOf(final)
       && base.Keys !! OpenKeysOf(env, fields, vals)
  }

  /** A field the condition fails for leaves a required name missing. */
  lemma RequiredIsMissingHere(
      env: Env, deps: seq<Schema>, id: nat, fields: seq<Field>, vals: seq<Val>,
      acc: ObjectSchema, open: set<string>, base: Props, props: Props)
    returns (name: string)
    requires Underway(env, deps, id, fields, vals, acc, open, base, props)
    requires fields != [] && !LeavesOutNothingRequired(env, id, fields[0], vals[0])
    ensures Requires(ObjectOf(env, id, fields, acc).value, name)
    ensures name !in EncodeFields(env, fields, vals, props).value
  {
    var next := FieldStep(env, id, fields[0], acc).value;
    name := MergedRequires(env, id, fields, acc, vals[0]);
    assert EncodeField(env, fields[0], vals[0], props) == Some(props);
    DeclaredStaysMissing(env, deps, id, fields[1..], vals[1..], next, props, name);
  }

  /** A merged struct that is left out declares a field that must be there. */
  lemma MergedRequires(env: Env, id: nat, fields: seq<Field>, acc: ObjectSchema, v: Val) returns (name: string)
    requires id < |env| && fields != [] && ObjectOf(env, id, fields, acc).Some?
    requires !LeavesOutNothingRequired(env, id, fields[0], v)
    ensures FieldStep(env, id, fields[0], acc).Some?
    ensures Requires(ObjectOf(env, id, fields, acc).value, name)
    ensures name in NamesOf(FieldStep(env, id, fields[0], acc).value.fields) - NamesOf(acc.fields)
  {
    var next := FieldStep(env, id, fields[0], acc).value;
    var final := ObjectOf(env, id, fields, acc).value;
    var ty := Expanded(env, id, fields[0].ty).value;
    ObjectGrows(env, id, fields[1..], next);
    FlattenAppends(acc, ty, false);
    var i :| 0 <= i < |FieldsOf(ty)| && !FieldsOf(ty)[i].optional;
    name := FieldsOf(ty)[i].name;
    var at := |acc.fields| + i;
    assert next.fields[at].name == name && final.fields[at] == next.fields[at];
  }

  /** One field the condition holds for leaves the rest to decide. */
  lemma EncodingContinues(
      env: Env, deps: seq<Schema>, id: nat, fields: seq<Field>, vals: seq<Val>,
      acc: ObjectSchema, open: set<string>, base: Props, props: Props)
    returns (next: ObjectSchema, wider: set<string>, written: Props)
    requires Underway(env, deps, id, fields, vals, acc, open, base, props)
    requires fields != [] && LeavesOutNothingRequired(env, id, fields[0], vals[0])
    ensures Underway(env, deps, id, fields[1..], vals[1..], next, wider, base, written)
    ensures ObjectOf(env, id, fields, acc) == ObjectOf(env, id, fields[1..], next)
    ensures EncodeFields(env, fields, vals, props) == EncodeFields(env, fields[1..], vals[1..], written)
  {
    next := FieldStep(env, id, fields[0], acc).value;
    written := EncodeField(env, fields[0], vals[0], props).value;
    var more := if fields[0].flatten && !fields[0].LeftOut(vals[0])
                then OpenKeys(env, fields[0].ty, vals[0]) else {};
    wider := open + more;
    var final := ObjectOf(env, id, fields, acc).value.fields;
    ObjectGrows(env, id, fields[1..], next);
    SubNames(next.fields, final);
    assert open + OpenKeysOf(env, fields, vals) == wider + OpenKeysOf(env, fields[1..], vals[1..]);
    EncodedFieldFits(env, deps, {}, id, fields[0], vals[0], acc, open, base, props);
  }

  /** The first field the condition fails for decides. */
  lemma {:induction false} RequiredIsMissing(
      env: Env, deps: seq<Schema>, id: nat, fields: seq<Field>, vals: seq<Val>,
      acc: ObjectSchema, open: set<string>, base: Props, props: Props)
    returns (name: string)
    requires Underway(env, deps, id, fields, vals, acc, open, base, props)
    requires exists i | 0 <= i < |vals| :: !LeavesOutNothingRequired(env, id, fields[i], vals[i])
    ensures Requires(ObjectOf(env, id, fields, acc).value, name)
    ensures name !in EncodeFields(env, fields, vals, props).value
    decreases |fields|
  {
    if LeavesOutNothingRequired(env, id, fields[0], vals[0]) {
      var next, wider, written := EncodingContinues(env, deps, id, fields, vals, acc, open, base, props);
      var i :| 0 <= i < |vals| && !LeavesOutNothingRequired(env, id, fields[i], vals[i]);
      assert !LeavesOutNothingRequired(env, id, fields[1..][i - 1], vals[1..][i - 1]);
      name := RequiredIsMissing(env, deps, id, fields[1..], vals[1..], next, wider, base, written);
    } else {
      name := RequiredIsMissingHere(env, deps, id, fields, vals, acc, open, base, props);
    }
  }

  /** A struct whose parts meet the other conditions encodes to a valid value exactly when
      no flattened field that is left out had something to require. */
  lemma LeftOutFieldsDecideValidity(
      env: Env, deps: seq<Schema>, id: nat, vals: seq<Val>)
    requires id < |env| && WellFormed(env) && Faithful(env, deps) && TsOf(env, id).Some?
    requires env[id].body.StructBody? && env[id].body.shape.style.StructStyle?
    requires var fields := env[id].body.shape.fields;
      |fields| == |vals| && SeparateFields(env, id, fields, vals)
    requires Encode(env, Named(id), VStruct(vals)).Some?
    ensures Valid(deps, true, {}, TsOf(env, id).value, Encode(env, Named(id), VStruct(vals)).value)
            <==> forall i | 0 <= i < |vals| ::
                   LeavesOutNothingRequired(env, id, env[id].body.shape.fields[i], vals[i])
  {
    var shape := env[id].body.shape;
    assert WellFormedDecl(env, id);
    assert Encode(env, Named(id), VStruct(vals)) == EncodePayload(env, shape, vals);
    assert TsOf(env, id) == ShapeType(env, id, shape);
    LeftOutFieldsDecideShape(env, deps, id, shape, vals);
  }

  lemma LeftOutFieldsDecideShape(env: Env, deps: seq<Schema>, id: nat, shape: Shape, vals: seq<Val>)
    requires id < |env| && WellFormed(env) && Faithful(env, deps)
    requires shape.style.StructStyle? && WellFormedShape(env, id, shape) && ShapeType(env, id, shape).Some?
    requires |shape.fields| == |vals| && SeparateFields(env, id, shape.fields, vals)
    requires EncodePayload(env, shape, vals).Some?
    ensures Valid(deps, true, {}, ShapeType(env, id, shape).value, EncodePayload(env, shape, vals).value)
            <==> forall i | 0 <= i < |vals| :: LeavesOutNothingRequired(env, id, shape.fields[i], vals[i])
  {
    if forall i | 0 <= i < |vals| :: LeavesOutNothingRequired(env, id, shape.fields[i], vals[i]) {
      EncodedShapeIsValid(env, deps, {}, id, shape, vals);
    } else {
      LeftOutFieldIsRefused(env, deps, id, shape, vals);
    }
  }

  lemma LeftOutFieldIsRefused(env: Env, deps: seq<Schema>, id: nat, shape: Shape, vals: seq<Val>)
    requires id < |env| && WellFormed(env) && Faithful(env, deps)
    requires shape.style.StructStyle? && WellFormedShape(env, id, shape) && ObjectOf(env, id, shape.fields, EMPTY).Some?
    requires |shape.fields| == |vals| && SeparateFields(env, id, shape.fields, vals)
    requires EncodeFields(env, shape.fields, vals, map[]).Some?
    requires exists i | 0 <= i < |vals| :: !LeavesOutNothingRequired(env, id, shape.fields[i], vals[i])
    ensures !Valid(deps, true, {}, ShapeType(env, id, shape).value, EncodePayload(env, shape, vals).value)
  {
    var final := ObjectOf(env, id, shape.fields, EMPTY).value;
    var name := RequiredIsMissing(env, deps, id, shape.fields, vals, EMPTY, {}, map[], map[]);
    MissingIsInvalid(deps, final, name, EncodeFields(env, shape.fields, vals, map[]).value);
  }

  lemma MissingIsInvalid(deps: seq<Schema>, acc: ObjectSchema, name: string, props: Props)
    requires Requires(acc, name) && name !in props
    ensures !Valid(deps, true, {}, acc.AsType(), Obj(props))
  {}

  /** The smallest instance: a struct flattening `{ x: String }` that is always skipped
      encodes to `{}`, which its own schema refuses. */
  lemma SkippedFlattenedStructIsRefused(deps: seq<Schema>)
    ensures exists env: Env, v: Val ::
      && WellFormed(env) && |env| == 2 && Encode(env, Named(1), v) == Some(Obj(map[]))
      && TsOf(env, 1).Some? && !Valid(deps, true, {}, TsOf(env, 1).value, Obj(map[]))
  {
    var shown := TsField("x", String, false);
    SkippingSchema();
    SkippingEncodes();
    assert EMPTY.Push(shown).fields[0] == shown;
    MissingIsInvalid(deps, EMPTY.Push(shown), "x", map[]);
  }

  const SKIPPED_VALUE: Val := VStruct([VStruct([VText("a")])])

  lemma SkippingEncodes()
    ensures Encode(SkippingEnv(), Named(1), SKIPPED_VALUE) == Some(Obj(map[]))
  {
    var env := SkippingEnv();
    var fields := env[1].body.shape.fields;
    assert fields[1..] == [];
    assert EncodeFields(env, fields, SKIPPED_VALUE.fields, map[]) == Some(map[]);
    assert Encode(env, Named(1), SKIPPED_VALUE) == EncodePayload(env, env[1].body.shape, SKIPPED_VALUE.fields);
  }

  /** `Inner { x: String }` and `Outer`, which flattens one and never serializes it. */
  function SkippingEnv(): Env {
    var x := Field(TextTy, "x", "x", [], false, false, false, None, None, VText(""));
    var skipped := Field(Named(0), "inner", "inner", [], true, true, false, None, None, VStruct([VText("")]));
    [Decl("Inner", StructBody(Shape(StructStyle, [x])), true, true, false),
     Decl("Outer", StructBody(Shape(StructStyle, [skipped])), true, true, false)]
  }

  lemma SkippingSchema()
    ensures var acc := EMPTY.Push(TsField("x", String, false));
      WellFormed(SkippingEnv()) && TsOf(SkippingEnv(), 1) == Some(acc.AsType())
  {
    var env := SkippingEnv();
    var shown := TsField("x", String, false);
    var acc := EMPTY.Push(shown);
    var inner, outer := env[0].body.shape, env[1].body.shape;
    assert acc.fields == [shown] && inner.fields[1..] == [] && outer.fields[1..] == [];
    assert ObjectOf(env, 0, [], acc) == Some(acc) && ObjectOf(env, 1, [], acc) == Some(acc);
    assert ObjectOf(env, 0, inner.fields, EMPTY) == Some(acc);
    assert TsOf(env, 0) == ShapeType(env, 0, inner) == Some(Object([shown]));
    assert EMPTY.Flatten(Object([shown]), false) == Some(acc) by {
      assert [shown][1..] == [] && shown.(optional := false || false) == shown;
      assert acc.MergeFields([], false) == Some(acc);
    }
    assert FieldStep(env, 1, outer.fields[0], EMPTY) == Some(acc);
    assert ObjectOf(env, 1, outer.fields, EMPTY) == Some(acc);
    assert TsOf(env, 1) == ShapeType(env, 1, outer);
    assert WellFormedDecl(env, 0) && WellFormedDecl(env, 1);
  }
}
