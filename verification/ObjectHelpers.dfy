/** The runtime helpers of derived code that change objects in place: schema assembly
    (src/contract/schema/object.rs) and property merging (src/contract/codec/derive.rs). */
module ObjectHelpers {
  import opened Wrappers
  import opened Metadata
  import Encoding
  import D = DerivedSchema

  class ObjectSchemaBuilder {
    var fields: seq<TsField>
    var rest: Option<TsType>

    constructor ()
      ensures View() == D.EMPTY
    {
      fields, rest := [], None;
    }

    ghost function View(): D.ObjectSchema
      reads this
    {
      D.ObjectSchema(fields, rest)
    }

    method Field(field: TsField)
      modifies this
      ensures View() == old(View()).Push(field)
    {
      fields := fields + [field];
    }

    /** `ObjectSchema.Flatten` in place; `ok` is false exactly where the program panics. */
    method Flatten(ty: TsType, allOptional: bool) returns (described: bool)
      modifies this
      ensures described == old(View()).Flatten(ty, allOptional).Some?
      ensures described ==> View() == old(View()).Flatten(ty, allOptional).value
    {
      match ty {
        case Object(more) =>
          described := MergeFields(more, allOptional);
        case OpenObject(more, openRest) =>
          described := MergeFields(more, allOptional);
          if described {
            described := MergeRest(openRest);
          }
        case Record(StringKey, item) =>
          described := MergeRest(item);
        case Json =>
          described := MergeRest(Json);
        case NullType =>
          described := true;
        case Void =>
          described := true;
        case _ =>
          described := false;
      }
    }

    method MergeFields(more: seq<TsField>, allOptional: bool) returns (described: bool)
      modifies this`fields
      ensures described == old(View()).MergeFields(more, allOptional).Some?
      ensures described ==> View() == old(View()).MergeFields(more, allOptional).value
    {
      ghost var all := View().MergeFields(more, allOptional);
      assert more[0..] == more;
      for i := 0 to |more|
        invariant rest == old(rest)
        invariant View().MergeFields(more[i..], allOptional) == all
      {
        assert more[i..][1..] == more[i + 1..] && more[i..][0] == more[i];
        if Declares(fields, more[i].name) {
          return false;
        }
        fields := fields + [more[i].(optional := more[i].optional || allOptional)];
      }
      described := true;
    }

    method MergeRest(more: TsType) returns (described: bool)
      modifies this`rest
      ensures described == old(View()).MergeRest(more).Some?
      ensures described ==> View() == old(View()).MergeRest(more).value
    {
      if rest.Some? {
        return rest.value == more;
      }
      rest := Some(more);
      described := true;
    }
  }

  /** No field is declared twice by what is flattened: the assembled fields keep distinct
      names. */
  predicate DistinctNames(fields: seq<TsField>) {
    forall i, j | 0 <= i < j < |fields| :: fields[i].name != fields[j].name
  }

  lemma {:induction false} FlattenedNamesStayDistinct(schema: D.ObjectSchema, ty: TsType, allOptional: bool)
    requires DistinctNames(schema.fields) && schema.Flatten(ty, allOptional).Some?
    ensures DistinctNames(schema.Flatten(ty, allOptional).value.fields)
    ensures schema.fields <= schema.Flatten(ty, allOptional).value.fields
  {
    match ty
    case Object(more) => MergedNamesStayDistinct(schema, more, allOptional);
    case OpenObject(more, _) => MergedNamesStayDistinct(schema, more, allOptional);
    case _ =>
  }

  lemma {:induction false} MergedNamesStayDistinct(schema: D.ObjectSchema, more: seq<TsField>, allOptional: bool)
    requires DistinctNames(schema.fields) && schema.MergeFields(more, allOptional).Some?
    ensures DistinctNames(schema.MergeFields(more, allOptional).value.fields)
    ensures schema.fields <= schema.MergeFields(more, allOptional).value.fields
    decreases |more|
  {
    if more != [] {
      var next := schema.Push(more[0].(optional := more[0].optional || allOptional));
      MergedNamesStayDistinct(next, more[1..], allOptional);
    }
  }

  // ------------------------------------------------------------------- properties

  /** A plain JavaScript object. */
  class JsObject {
    var props: map<string, Js>

    constructor (props: map<string, Js>)
      ensures this.props == props
    {
      this.props := props;
    }

    /** Copies the properties of `source` into this object; `null` and `undefined` add
        nothing, and anything but a plain object is refused. */
    method MergeObject(source: Js) returns (merged: bool)
      modifies this
      ensures merged == Encoding.Merge(old(props), source).Some?
      ensures props == if merged then Encoding.Merge(old(props), source).value else old(props)
    {
      if source.Null? || source.Undefined? {
        return true;
      }
      if !source.Obj? {
        return false;
      }
      var pending := source.props.Keys;
      while pending != {}
        invariant pending <= source.props.Keys
        invariant props == old(props) + (map key | key in source.props && key !in pending :: source.props[key])
      {
        var key :| key in pending;
        pending := pending - {key};
        props := props[key := source.props[key]];
      }
      assert (map key | key in source.props && key !in pending :: source.props[key]) == source.props;
      merged := true;
    }

    /** A copy of this object without the `excluded` keys. */
    method Without(excluded: seq<string>) returns (left: JsObject)
      ensures fresh(left) && left.props == props - (set key | key in excluded)
    {
      left := new JsObject(map[]);
      var pending := props.Keys;
      while pending != {}
        invariant pending <= props.Keys
        invariant left.props == map key | key in props && key !in pending && key !in excluded :: props[key]
      {
        var key :| key in pending;
        pending := pending - {key};
        if key !in excluded {
          left.props := left.props[key := props[key]];
        }
      }
    }

    /** Whether every key is one of `known`. */
    method OnlyKnownFields(known: seq<string>) returns (accepted: bool)
      ensures accepted <==> forall key | key in props :: key in known
    {
      var pending := props.Keys;
      while pending != {}
        invariant pending <= props.Keys
        invariant forall key | key in props && key !in pending :: key in known
      {
        var key :| key in pending;
        pending := pending - {key};
        if key !in known {
          return false;
        }
      }
      accepted := true;
    }
  }
}
