/** List query parameters and the operator allow-list for the `q` filter
    (app/conf/query_params.py). `json.loads` is a parameter that yields the parsed tree,
    or `None` when the text is not JSON. */
module QueryParams {
  import opened Wrappers
  import opened Json
  import opened Errors

  /** The eleven query operators a filter may use. */
  const AllowedOperators: set<string> :=
    {"$eq", "$gt", "$gte", "$in", "$lt", "$lte", "$ne", "$nin", "$or", "$and", "$nor"}

  /** A key that starts with `$` and is not an allowed operator. */
  predicate Forbidden(key: string)
  {
    |key| > 0 && key[0] == '$' && key !in AllowedOperators
  }

  // ---------------------------------------------------------------- the traversal

  /** `check_allowed_keys` on a dict: the first forbidden key met, members in order and
      each member's value searched before the next member. */
  function CheckObject(ms: seq<Member>): (r: Option<string>)
    ensures r.Some? ==> Forbidden(r.value)
    decreases ms
  {
    if ms == [] then None
    else if Forbidden(ms[0].key) then Some(ms[0].key)
    else
      var inner := CheckValue(ms[0].value);
      if inner.Some? then inner else CheckObject(ms[1..])
  }

  /** A member's value: a dict is searched, a list has its dict items searched, and any
      other value is not looked into. */
  function CheckValue(v: Json): (r: Option<string>)
    ensures r.Some? ==> Forbidden(r.value)
    ensures !v.JObj? && !v.JArr? ==> r.None?
    decreases v
  {
    match v
    case JObj(ms) => CheckObject(ms)
    case JArr(items) => CheckItems(items)
    case _ => None
  }

  /** The items of a list: only those that are themselves dicts are searched. */
  function CheckItems(items: seq<Json>): (r: Option<string>)
    ensures r.Some? ==> Forbidden(r.value)
    ensures (forall i :: 0 <= i < |items| ==> !items[i].JObj?) ==> r.None?
    decreases items
  {
    if items == [] then None
    else
      var first := if items[0].JObj? then CheckObject(items[0].members) else None;
      if first.Some? then first else CheckItems(items[1..])
  }

  // ---------------------------------------------------------------- reference definition

  /** Every key the traversal inspects in a dict, in the order it inspects them. */
  function ObjectKeys(ms: seq<Member>): seq<string>
    decreases ms
  {
    if ms == [] then [] else [ms[0].key] + ValueKeys(ms[0].value) + ObjectKeys(ms[1..])
  }

  /** The keys inspected below a member's value. */
  function ValueKeys(v: Json): seq<string>
    decreases v
  {
    match v
    case JObj(ms) => ObjectKeys(ms)
    case JArr(items) => ItemsKeys(items)
    case _ => []
  }

  /** The keys inspected in a list's dict items. */
  function ItemsKeys(items: seq<Json>): seq<string>
    decreases items
  {
    if items == [] then []
    else (if items[0].JObj? then ObjectKeys(items[0].members) else []) + ItemsKeys(items[1..])
  }

  /** The first forbidden key of a sequence of keys. */
  function FirstForbidden(keys: seq<string>): (r: Option<string>)
    ensures r.None? <==> forall i :: 0 <= i < |keys| ==> !Forbidden(keys[i])
    ensures r.Some? ==> Forbidden(r.value) && r.value in keys
  {
    if keys == [] then None
    else if Forbidden(keys[0]) then Some(keys[0])
    else FirstForbidden(keys[1..])
  }

  lemma {:induction false} FirstForbiddenAppend(a: seq<string>, b: seq<string>)
    ensures FirstForbidden(a + b) == if FirstForbidden(a).Some? then FirstForbidden(a) else FirstForbidden(b)
  {
    if a != [] {
      assert (a + b)[1..] == a[1..] + b;
      FirstForbiddenAppend(a[1..], b);
    } else {
      assert a + b == b;
    }
  }

  /** The traversal reports exactly the first forbidden key among the keys it inspects. */
  lemma {:induction false} CheckObjectIsFirstForbidden(ms: seq<Member>)
    ensures CheckObject(ms) == FirstForbidden(ObjectKeys(ms))
    decreases ms
  {
    if ms != [] {
      CheckValueIsFirstForbidden(ms[0].value);
      CheckObjectIsFirstForbidden(ms[1..]);
      FirstForbiddenAppend([ms[0].key] + ValueKeys(ms[0].value), ObjectKeys(ms[1..]));
      FirstForbiddenAppend([ms[0].key], ValueKeys(ms[0].value));
      assert FirstForbidden([ms[0].key]) == if Forbidden(ms[0].key) then Some(ms[0].key) else None by {
        assert [ms[0].key][1..] == [];
      }
    }
  }

  lemma {:induction false} CheckValueIsFirstForbidden(v: Json)
    ensures CheckValue(v) == FirstForbidden(ValueKeys(v))
    decreases v
  {
    match v
    case JObj(ms) => CheckObjectIsFirstForbidden(ms);
    case JArr(items) => CheckItemsIsFirstForbidden(items);
    case _ =>
  }

  lemma {:induction false} CheckItemsIsFirstForbidden(items: seq<Json>)
    ensures CheckItems(items) == FirstForbidden(ItemsKeys(items))
    decreases items
  {
    if items != [] {
      if items[0].JObj? {
        CheckObjectIsFirstForbidden(items[0].members);
      }
      CheckItemsIsFirstForbidden(items[1..]);
      FirstForbiddenAppend(if items[0].JObj? then ObjectKeys(items[0].members) else [], ItemsKeys(items[1..]));
    }
  }

  /** A dict passes exactly when no inspected key is forbidden; a rejected key is an
      inspected key that starts with `$` and is not an allowed operator. Keys without
      `$` and scalar values therefore never cause a rejection. */
  lemma CheckObjectSpec(ms: seq<Member>)
    ensures CheckObject(ms).None? <==> forall i :: 0 <= i < |ObjectKeys(ms)| ==> !Forbidden(ObjectKeys(ms)[i])
    ensures CheckObject(ms).Some? ==>
              var k := CheckObject(ms).value;
              k in ObjectKeys(ms) && |k| > 0 && k[0] == '$' && k !in AllowedOperators
  {
    CheckObjectIsFirstForbidden(ms);
  }

  /** A forbidden key directly in the dict is always reported (possibly after an earlier one). */
  lemma TopLevelForbiddenRejected(ms: seq<Member>, i: int)
    requires 0 <= i < |ms| && Forbidden(ms[i].key)
    ensures CheckObject(ms).Some?
  {
    CheckObjectIsFirstForbidden(ms);
    ObjectKeysContainTopLevel(ms, i);
  }

  lemma {:induction false} ObjectKeysContainTopLevel(ms: seq<Member>, i: int)
    requires 0 <= i < |ms|
    ensures ms[i].key in ObjectKeys(ms)
    decreases ms
  {
    if i > 0 {
      ObjectKeysContainTopLevel(ms[1..], i - 1);
    }
  }

  /** Dicts nested in a dict value and dicts directly in a list are searched; a dict in a
      list inside a list is not. */
  lemma NestingExamples()
    ensures CheckObject([Member("a", JObj([Member("$where", JInt(1))]))]) == Some("$where")
    ensures CheckObject([Member("a", JArr([JObj([Member("$where", JInt(1))])]))]) == Some("$where")
    ensures CheckObject([Member("a", JArr([JArr([JObj([Member("$where", JInt(1))])])]))]) == None
  {
    assert Forbidden("$where");
  }

  // ---------------------------------------------------------------- the validator

  /** `validate_query`: an empty or absent `q` gives `None`; otherwise the parsed text
      must be a dict (anything else has no `.items()`), every inspected operator must be
      allowed, and then `q` itself is returned. */
  function ValidateQuery(q: Option<string>, loads: string -> Option<Json>): (r: Result<Option<string>, Exception>)
    ensures q.None? || q.value == "" ==> r == Ok(None)
    ensures q.Some? && q.value != "" && r.Ok? ==> r.value == q
    ensures q.Some? && q.value != "" ==>
              (r.Ok? <==> loads(q.value).Some? && loads(q.value).value.JObj? &&
                          CheckObject(loads(q.value).value.members).None?)
    ensures q.Some? && q.value != "" && loads(q.value).None? ==> r == Err(JsonDecodeError)
    ensures q.Some? && q.value != "" && loads(q.value).Some? && !loads(q.value).value.JObj? ==>
              r == Err(AttributeError)
    ensures q.Some? && q.value != "" && loads(q.value).Some? && loads(q.value).value.JObj? &&
            FirstForbidden(ObjectKeys(loads(q.value).value.members)).Some? ==>
              r == Err(HttpException(400, "Unauthorized query operator: " +
                                          FirstForbidden(ObjectKeys(loads(q.value).value.members)).value))
  {
    if q.None? || q.value == "" then Ok(None)
    else match loads(q.value)
      case None => Err(JsonDecodeError)
      case Some(JObj(ms)) =>
        CheckObjectIsFirstForbidden(ms);
        (match CheckObject(ms)
         case Some(k) => Err(HttpException(400, "Unauthorized query operator: " + k))
         case None => Ok(q))
      case Some(_) => Err(AttributeError)
  }

  /** The documented example filters, parsed, pass the allow-list. */
  lemma DocumentedExamplesPass()
    ensures CheckObject([Member("username", JStr("john_doe1"))]) == None
    ensures CheckObject([Member("age", JObj([Member("$gte", JInt(25))]))]) == None
    ensures CheckObject([Member("$or", JArr([JObj([Member("username", JStr("john_doe1"))]),
                                            JObj([Member("age", JObj([Member("$gte", JInt(25))]))])]))]) == None
    ensures CheckObject([Member("$and", JArr([JObj([Member("username", JStr("john_doe1"))]),
                                            JObj([Member("age", JObj([Member("$gte", JInt(25))]))])]))]) == None
    ensures CheckObject([Member("$nor", JArr([JObj([Member("username", JStr("john_doe1"))]),
                                            JObj([Member("age", JObj([Member("$gte", JInt(25))]))])]))]) == None
    ensures CheckObject([Member("username", JObj([Member("$in", JArr([JStr("john_doe1"), JStr("john_doe2")]))]))]) == None
    ensures CheckObject([Member("username", JObj([Member("$nin", JArr([JStr("john_doe1"), JStr("john_doe2")]))]))]) == None
  {
    assert "username"[0] != '$' && "age"[0] != '$';
  }

  // ---------------------------------------------------------------- the model

  /** `QueryParams`: the filter, the page offset (given as `page`), the limit and the sort. */
  datatype QueryParams = QueryParams(q: Option<string>, offset: int, limit: int, sort: string)

  /** The field defaults; defaults are not validated. */
  const Defaults: QueryParams := QueryParams(None, 0, 10, "+_id")

  /** Bounds on the length of `q`. */
  const MinQueryLength: int := 3
  const MaxQueryLength: int := 1000

  /** `q` is absent or within its length bounds. */
  predicate QueryLengthOk(q: Option<string>)
  {
    q.None? || MinQueryLength <= |q.value| <= MaxQueryLength
  }

  /** The validator runs on `q` and raises something other than the `ValueError` of
      invalid JSON: pydantic does not convert it, so it leaves construction as it is. */
  predicate ValidatorEscapes(q: Option<string>, loads: string -> Option<Json>)
  {
    QueryLengthOk(q) && ValidateQuery(q, loads).Err? && ValidateQuery(q, loads).error != JsonDecodeError
  }

  /** `q` fails as a field: outside its length bounds, or not JSON. */
  predicate QueryFieldFails(q: Option<string>, loads: string -> Option<Json>)
  {
    !QueryLengthOk(q) || ValidateQuery(q, loads) == Err(JsonDecodeError)
  }

  /** Building `QueryParams` from request values. Fields are validated in order: `q`'s
      length bounds, then its validator, then `page >= 0`. Field failures, including the
      `ValueError` that invalid JSON raises inside the validator, are collected into one
      `ValidationError`; the validator's other exceptions propagate at once. */
  function MakeQueryParams(q: Option<string>, page: int, limit: int, sort: string, loads: string -> Option<Json>)
    : (r: Result<QueryParams, Exception>)
    ensures r.Ok? <==>
              (q.Some? ==> MinQueryLength <= |q.value| <= MaxQueryLength) && page >= 0 &&
              ValidateQuery(q, loads).Ok?
    ensures r.Ok? ==> r.value == QueryParams(ValidateQuery(q, loads).value, page, limit, sort)
    ensures r.Ok? ==> r.value.offset >= 0 && (r.value.q.Some? ==> MinQueryLength <= |r.value.q.value| <= MaxQueryLength)
    ensures ValidatorEscapes(q, loads) ==> r == Err(ValidateQuery(q, loads).error)
    ensures !ValidatorEscapes(q, loads) && (QueryFieldFails(q, loads) || page < 0) ==>
              r == Err(ValidationError((if QueryFieldFails(q, loads) then ["q"] else []) +
                                       (if page < 0 then ["page"] else [])))
  {
    var qCheck: Result<Option<string>, Exception> :=
      if q.Some? && !(MinQueryLength <= |q.value| <= MaxQueryLength) then Err(ValidationError(["q"]))
      else match ValidateQuery(q, loads)
        case Err(JsonDecodeError) => Err(ValidationError(["q"]))
        case other => other;
    if qCheck.Err? && !qCheck.error.ValidationError? then Err(qCheck.error)
    else
      var failed := (if qCheck.Err? then ["q"] else []) + (if page < 0 then ["page"] else []);
      if failed != [] then Err(ValidationError(failed))
      else Ok(QueryParams(qCheck.value, page, limit, sort))
  }

  /** Absent parameters give the defaults, which satisfy the field constraints. */
  lemma DefaultsAreValid(loads: string -> Option<Json>)
    ensures MakeQueryParams(None, 0, 10, "+_id", loads) == Ok(Defaults)
    ensures Defaults.offset >= 0 && Defaults.limit == 10 && Defaults.sort == "+_id"
  {
  }
}
