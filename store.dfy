/**
 * The MongoDB database behind the API, as three in-memory collections in
 * store order, plus the counter fresh `_id`s are drawn from.
 */
module Store {
  import opened Http
  import opened UserModel
  import opened CategoryModel
  import opened EntryModel
  import opened Seqs

  /** Every id is below the counter and no two documents share one. */
  ghost predicate UserIdsOk(users: seq<User>, nextId: ObjectId) {
    && (forall i :: 0 <= i < |users| ==> users[i].id < nextId)
    && (forall i, j :: 0 <= i < j < |users| ==> users[i].id != users[j].id)
  }

  ghost predicate CategoryIdsOk(cats: seq<Category>, nextId: ObjectId) {
    && (forall i :: 0 <= i < |cats| ==> cats[i].id < nextId)
    && (forall i, j :: 0 <= i < j < |cats| ==> cats[i].id != cats[j].id)
  }

  ghost predicate EntryIdsOk(es: seq<Entry>, nextId: ObjectId) {
    && (forall i :: 0 <= i < |es| ==> es[i].id < nextId)
    && (forall i, j :: 0 <= i < j < |es| ==> es[i].id != es[j].id)
  }

  class Database {
    var users: seq<User>
    var categories: seq<Category>
    var entries: seq<Entry>
    var nextId: ObjectId

    /**
     * What the schemas and indexes guarantee of the stored collections.
     * Entries are not required to be valid: updates bypass the validators.
     */
    ghost predicate Valid()
      reads this
    {
      && UserIdsOk(users, nextId)
      && (forall i :: 0 <= i < |users| ==> UserModel.Valid(users[i]))
      && UniqueIndexes(users)
      && CategoryIdsOk(categories, nextId)
      && (forall i :: 0 <= i < |categories| ==> CategoryModel.Valid(categories[i]))
      && EntryIdsOk(entries, nextId)
    }

    /** An empty database. */
    constructor ()
      ensures Valid()
      ensures users == [] && categories == [] && entries == [] && nextId == 0
    {
      users := [];
      categories := [];
      entries := [];
      nextId := 0;
    }

    /** Draws an `_id` no stored document has. */
    method FreshId() returns (id: ObjectId)
      requires Valid()
      modifies this
      ensures Valid()
      ensures id == old(nextId) && nextId == id + 1
      ensures users == old(users) && categories == old(categories) && entries == old(entries)
    {
      id := nextId;
      nextId := nextId + 1;
    }
  }

  /** Removing one document keeps the ids distinct and below the counter. */
  lemma EntryIdsRemove(es: seq<Entry>, nextId: ObjectId, i: int)
    requires EntryIdsOk(es, nextId) && 0 <= i < |es|
    ensures EntryIdsOk(es[..i] + es[i + 1..], nextId)
  {
    var r := es[..i] + es[i + 1..];
    forall a, b | 0 <= a < b < |r| ensures r[a].id != r[b].id {
      var a' := if a < i then a else a + 1;
      var b' := if b < i then b else b + 1;
      assert r[a] == es[a'] && r[b] == es[b'];
    }
  }

  lemma CategoryIdsRemove(cs: seq<Category>, nextId: ObjectId, i: int)
    requires CategoryIdsOk(cs, nextId) && 0 <= i < |cs|
    ensures CategoryIdsOk(cs[..i] + cs[i + 1..], nextId)
  {
    var r := cs[..i] + cs[i + 1..];
    forall a, b | 0 <= a < b < |r| ensures r[a].id != r[b].id {
      var a' := if a < i then a else a + 1;
      var b' := if b < i then b else b + 1;
      assert r[a] == cs[a'] && r[b] == cs[b'];
    }
  }

  /** With distinct ids, the document with a given id is the only one. */
  lemma EntryIdUnique(es: seq<Entry>, nextId: ObjectId, i: int, j: int)
    requires EntryIdsOk(es, nextId) && 0 <= i < |es| && 0 <= j < |es| && es[i].id == es[j].id
    ensures i == j
  {
  }

  lemma CategoryIdUnique(cs: seq<Category>, nextId: ObjectId, i: int, j: int)
    requires CategoryIdsOk(cs, nextId) && 0 <= i < |cs| && 0 <= j < |cs| && cs[i].id == cs[j].id
    ensures i == j
  {
  }

  lemma EntryIdsTail(es: seq<Entry>, nextId: ObjectId)
    requires EntryIdsOk(es, nextId) && es != []
    ensures EntryIdsOk(es[1..], nextId)
    ensures forall y :: y in es[1..] ==> y.id != es[0].id
  {
    var tail := es[1..];
    forall a, b | 0 <= a < b < |tail| ensures tail[a].id != tail[b].id {
      assert tail[a] == es[a + 1] && tail[b] == es[b + 1];
    }
    forall y | y in tail ensures y.id != es[0].id {
      var k :| 0 <= k < |tail| && tail[k] == y;
      assert es[k + 1] == y;
    }
  }

  lemma EntryIdsCons(x: Entry, rest: seq<Entry>, nextId: ObjectId)
    requires EntryIdsOk(rest, nextId) && x.id < nextId
    requires forall y :: y in rest ==> y.id != x.id
    ensures EntryIdsOk([x] + rest, nextId)
  {
    var r := [x] + rest;
    forall a, b | 0 <= a < b < |r| ensures r[a].id != r[b].id {
      assert r[b] == rest[b - 1];
      if a > 0 {
        assert r[a] == rest[a - 1];
      } else {
        assert rest[b - 1] in rest;
      }
    }
  }

  /** Keeping a subsequence of the entries keeps their ids distinct. */
  lemma {:induction false} EntryIdsFilter(es: seq<Entry>, nextId: ObjectId, p: Entry -> bool)
    requires EntryIdsOk(es, nextId)
    ensures EntryIdsOk(Filter(es, p), nextId)
  {
    if es != [] {
      EntryIdsTail(es, nextId);
      EntryIdsFilter(es[1..], nextId, p);
      if p(es[0]) {
        EntryIdsCons(es[0], Filter(es[1..], p), nextId);
      }
    }
  }

  /** Raising the counter keeps every stored id below it. */
  lemma IdsGrow(users: seq<User>, es: seq<Entry>, n: ObjectId, m: ObjectId)
    requires UserIdsOk(users, n) && EntryIdsOk(es, n) && n <= m
    ensures UserIdsOk(users, m) && EntryIdsOk(es, m)
  {
  }
}
