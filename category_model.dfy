/** The `Category` schema (api/models/Category.js): a named bucket under a parent group. */
module CategoryModel {
  import opened Wrappers
  import opened Http
  import opened UtcDates

  /** The `type` enum: `'milk'` or `'general'`. */
  datatype Kind = Milk | General

  datatype Category = Category(
    id: ObjectId,
    userId: ObjectId,
    parentCategory: string,
    name: string,
    kind: Kind,
    createdAt: Instant)

  function KindName(k: Kind): string {
    match k
    case Milk => "milk"
    case General => "general"
  }

  /** The enum validator: only the two listed names are accepted. */
  function ParseKind(s: string): (r: Option<Kind>)
    ensures r.Some? <==> s == "milk" || s == "general"
    ensures r.Some? ==> KindName(r.value) == s
  {
    if s == "milk" then Some(Milk)
    else if s == "general" then Some(General)
    else None
  }

  lemma KindRoundTrip(k: Kind)
    ensures ParseKind(KindName(k)) == Some(k)
  {
  }

  /** Required `parentCategory` and `name`: present and non-empty. */
  predicate Valid(c: Category) {
    c.parentCategory != "" && c.name != ""
  }

  /**
   * `new Category({...}).save()` at time `now`: an absent `type` takes the
   * default `general`, a present one must be in the enum, and `createdAt`
   * defaults to `now`. `None` is a validation failure.
   */
  function Create(id: ObjectId, userId: ObjectId, parent: Option<string>, name: Option<string>,
                  kind: Option<string>, now: Instant): (r: Option<Category>)
    ensures r.Some? <==> Truthy(parent) && Truthy(name) && (kind.None? || ParseKind(kind.value).Some?)
    ensures r.Some? ==> Valid(r.value)
    ensures r.Some? ==> && r.value.id == id && r.value.userId == userId
                        && r.value.parentCategory == parent.value && r.value.name == name.value
                        && r.value.createdAt == now
    ensures r.Some? ==> r.value.kind == if kind.None? then General else ParseKind(kind.value).value
  {
    var k := if kind.None? then Some(General) else ParseKind(kind.value);
    if !Truthy(parent) || !Truthy(name) || k.None? then None
    else Some(Category(id, userId, parent.value, name.value, k.value, now))
  }
}
