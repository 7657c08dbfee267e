/** The client table behind the JPA repository: a map from generated id to row, the
    ids in insertion order (what `findAll` returns), and the identity counter. */
module Repository {
  import opened Wrappers
  import opened Entity

  /** What `save` does: the row it wrote, or one of the two ways it fails. */
  datatype SaveOutcome =
    | Saved(client: Client)
    | IntegrityViolation  // DataIntegrityViolationException
    | OtherFailure        // any other exception raised by the store

  /** What the database does on a `save` beyond the unique constraints the model
      checks itself: nothing, reject the row for another integrity reason (a value
      longer than its column, say), or fail in some other way. */
  datatype StoreFault = NoFault | ConstraintFault | OtherFault

  /** Every listed client has an id, and the ids strictly ascend: each row at most
      once, in store order. */
  predicate IdsIncreasing(cs: seq<Client>)
  {
    forall i, j :: 0 <= i < j < |cs| ==> IdBefore(cs[i], cs[j])
  }

  predicate IdBefore(a: Client, b: Client)
  {
    a.clientId.Some? && b.clientId.Some? && a.clientId.value < b.clientId.value
  }

  predicate Increasing(ids: seq<int>)
  {
    forall i, j :: 0 <= i < j < |ids| ==> ids[i] < ids[j]
  }

  /** The rows listed by `ids`, in that order. */
  function Project(rows: map<int, Client>, ids: seq<int>): (cs: seq<Client>)
    requires forall i :: 0 <= i < |ids| ==> ids[i] in rows
    ensures |cs| == |ids|
    ensures forall i :: 0 <= i < |ids| ==> cs[i] == rows[ids[i]]
  {
    if ids == [] then [] else [rows[ids[0]]] + Project(rows, ids[1..])
  }

  /** The rows of `cs` the query `firstName LIKE key OR mobileNumber LIKE key OR
      idNumber LIKE key` selects; a NULL column or a NULL key never matches. */
  predicate KeyMatches(c: Client, key: Option<string>, like: (string, string) -> bool)
  {
    && key.Some?
    && (|| (c.firstName.Some? && like(c.firstName.value, key.value))
        || (c.mobileNumber.Some? && like(c.mobileNumber.value, key.value))
        || (c.idNumber.Some? && like(c.idNumber.value, key.value)))
  }

  /** The selected elements of `cs`, each as often as it occurs there and in the
      order of `cs` (see also `FilterByKeyAppend`); a NULL key keeps none. */
  function FilterByKey(cs: seq<Client>, key: Option<string>, like: (string, string) -> bool): (r: seq<Client>)
    ensures |r| <= |cs|
    ensures forall c :: c in r <==> c in cs && KeyMatches(c, key, like)
    ensures key.None? ==> r == []
  {
    if cs == [] then []
    else
      if KeyMatches(cs[0], key, like) then [cs[0]] + FilterByKey(cs[1..], key, like)
      else FilterByKey(cs[1..], key, like)
  }

  /** Putting the head of an ascending list before ascending elements taken from its
      tail keeps the ids ascending. */
  lemma IdsIncreasingCons(cs: seq<Client>, rest: seq<Client>)
    requires cs != [] && IdsIncreasing(cs) && IdsIncreasing(rest)
    requires forall c :: c in rest ==> c in cs[1..]
    ensures IdsIncreasing([cs[0]] + rest)
  {
    var r := [cs[0]] + rest;
    forall i, j | 0 <= i < j < |r|
      ensures IdBefore(r[i], r[j])
    {
      if i == 0 {
        assert r[j] == rest[j - 1] && rest[j - 1] in cs[1..];
        var k :| 0 <= k < |cs[1..]| && cs[1..][k] == r[j];
        assert cs[k + 1] == r[j];
      } else {
        assert r[i] == rest[i - 1] && r[j] == rest[j - 1];
      }
    }
  }

  /** Filtering keeps the store order: a list with ascending ids filters to one. */
  lemma {:induction false} FilterKeepsIdsIncreasing(cs: seq<Client>, key: Option<string>, like: (string, string) -> bool)
    requires IdsIncreasing(cs)
    ensures IdsIncreasing(FilterByKey(cs, key, like))
  {
    if cs != [] {
      assert IdsIncreasing(cs[1..]) by {
        forall i, j | 0 <= i < j < |cs[1..]| ensures IdBefore(cs[1..][i], cs[1..][j]) {
          assert cs[1..][i] == cs[i + 1] && cs[1..][j] == cs[j + 1];
        }
      }
      FilterKeepsIdsIncreasing(cs[1..], key, like);
      if KeyMatches(cs[0], key, like) {
        IdsIncreasingCons(cs, FilterByKey(cs[1..], key, like));
      }
    }
  }

  /** The rows listed by ascending ids, each row carrying its own id, have
      ascending ids. */
  lemma ProjectIdsIncreasing(rows: map<int, Client>, ids: seq<int>)
    requires forall i :: 0 <= i < |ids| ==> ids[i] in rows && rows[ids[i]].clientId == Some(ids[i])
    requires Increasing(ids)
    ensures IdsIncreasing(Project(rows, ids))
  {
    var cs := Project(rows, ids);
    forall i, j | 0 <= i < j < |cs| ensures IdBefore(cs[i], cs[j]) {
      assert cs[i] == rows[ids[i]] && cs[j] == rows[ids[j]];
    }
  }

  /** Filtering a concatenation filters each part and keeps the parts in order. */
  lemma {:induction false} FilterByKeyAppend(a: seq<Client>, b: seq<Client>, key: Option<string>, like: (string, string) -> bool)
    ensures FilterByKey(a + b, key, like) == FilterByKey(a, key, like) + FilterByKey(b, key, like)
  {
    if a == [] {
      assert a + b == b;
    } else {
      var ab := a + b;
      assert ab != [] && ab[0] == a[0] && ab[1..] == a[1..] + b;
      FilterByKeyAppend(a[1..], b, key, like);
      var rest := FilterByKey(a[1..] + b, key, like);
      if KeyMatches(a[0], key, like) {
        assert FilterByKey(ab, key, like) == [a[0]] + rest;
        assert FilterByKey(a, key, like) == [a[0]] + FilterByKey(a[1..], key, like);
      } else {
        assert FilterByKey(ab, key, like) == rest;
        assert FilterByKey(a, key, like) == FilterByKey(a[1..], key, like);
      }
    }
  }

  /** A strictly increasing list of ids has no repeats, so it is as long as the set
      of ids it lists. */
  lemma {:induction false} IncreasingCardinality(ids: seq<int>, keys: set<int>)
    requires Increasing(ids)
    requires forall i :: 0 <= i < |ids| ==> ids[i] in keys
    requires forall k :: k in keys ==> k in ids
    ensures |ids| == |keys|
  {
    if ids == [] {
      assert forall k :: k in keys ==> k in ids && |ids| == 0;
      assert keys == {};
    } else {
      var rest := keys - {ids[0]};
      assert keys == rest + {ids[0]} && ids[0] !in rest;
      forall i | 0 <= i < |ids[1..]| ensures ids[1..][i] in rest {
        assert ids[1..][i] == ids[i + 1] && ids[0] < ids[i + 1];
      }
      forall k | k in rest ensures k in ids[1..] {
        var i :| 0 <= i < |ids| && ids[i] == k;
        assert i != 0;
        assert ids[1..][i - 1] == k;
      }
      IncreasingCardinality(ids[1..], rest);
    }
  }

  class ClientRepository {
    var rows: map<int, Client>
    var order: seq<int>
    var nextId: int
    /** The database's `LIKE` semantics, which the model does not spell out. */
    const like: (string, string) -> bool

    /** Every row carries its own key as clientId, every key is below the counter,
        `order` lists the keys once each in ascending order, and the unique columns
        are unique. */
    ghost predicate Valid()
      reads this
    {
      && 0 < nextId
      && (forall id :: id in rows ==> rows[id].clientId == Some(id) && 0 < id < nextId)
      && Increasing(order)
      && (forall i :: 0 <= i < |order| ==> order[i] in rows)
      && (forall id :: id in rows ==> id in order)
      && Unique(rows)
    }

    constructor (like: (string, string) -> bool)
      ensures Valid() && rows == map[] && order == [] && this.like == like
    {
      rows := map[];
      order := [];
      nextId := 1;
      this.like := like;
    }

    /** `findById`. */
    function FindById(id: int): (r: Option<Client>)
      reads this
      ensures r.Some? <==> id in rows
      ensures r.Some? ==> r.value == rows[id]
    {
      if id in rows then Some(rows[id]) else None
    }

    /** `findAll`: every row exactly once, in insertion order. */
    function FindAll(): (cs: seq<Client>)
      reads this
      requires Valid()
      ensures |cs| == |order| == |rows|
      ensures forall i :: 0 <= i < |cs| ==> cs[i] == rows[order[i]]
      ensures forall id :: id in rows ==> rows[id] in cs
      ensures IdsIncreasing(cs)
    {
      IncreasingCardinality(order, rows.Keys);
      ProjectIdsIncreasing(rows, order);
      assert forall id :: id in rows ==> exists i :: 0 <= i < |order| && order[i] == id;
      Project(rows, order)
    }

    /** `findByKey`: the rows the key selects, each once, in store order; a NULL key
        selects nothing. */
    function FindByKey(key: Option<string>): (cs: seq<Client>)
      reads this
      requires Valid()
      ensures key.None? ==> cs == []
      ensures IdsIncreasing(cs)
      ensures forall c :: c in cs ==> c.clientId.Some? && c.clientId.value in rows
                                      && c == rows[c.clientId.value] && KeyMatches(c, key, like)
      ensures forall id :: id in rows && KeyMatches(rows[id], key, like) ==> rows[id] in cs
    {
      FilterKeepsIdsIncreasing(FindAll(), key, like);
      FilterByKey(FindAll(), key, like)
    }

    /** The key `save(client)` writes at: the client's own id when it names an
        existing row (an update), a fresh id otherwise (an insert). */
    function SaveTarget(client: Client): int
      reads this
    {
      if client.clientId.Some? && client.clientId.value in rows then client.clientId.value else nextId
    }

    /** `save`. A fault other than an integrity violation raises OtherFailure. A
        collision on a unique column with another row, or any other integrity
        reason the database has, raises IntegrityViolation. Both leave the table as
        it was. Otherwise the row is written under its target key with that key as
        clientId. */
    method Save(client: Client, fault: StoreFault) returns (r: SaveOutcome)
      requires Valid()
      modifies this
      ensures Valid()
      ensures fault == OtherFault ==> r == OtherFailure && unchanged(this)
      ensures fault == ConstraintFault ==> r == IntegrityViolation && unchanged(this)
      ensures fault == NoFault && CollidesWithOthers(old(rows), old(SaveTarget(client)), client) ==>
                r == IntegrityViolation && unchanged(this)
      ensures fault == NoFault && !CollidesWithOthers(old(rows), old(SaveTarget(client)), client) ==>
                var id := old(SaveTarget(client));
                && id in rows && r == Saved(client.(clientId := Some(id)))
                && rows == old(rows)[id := client.(clientId := Some(id))]
                && (id in old(rows) ==> order == old(order) && nextId == old(nextId))
                && (id !in old(rows) ==> id == old(nextId) && order == old(order) + [id] && nextId == id + 1)
    {
      if fault == OtherFault {
        return OtherFailure;
      }
      if fault == ConstraintFault {
        return IntegrityViolation;
      }
      var id := SaveTarget(client);
      if CollidesWithOthers(rows, id, client) {
        return IntegrityViolation;
      }
      var stored := client.(clientId := Some(id));
      assert !CollidesWithOthers(rows, id, stored);
      WriteKeepsUnique(rows, id, stored);
      if id !in rows {
        order := order + [id];
        nextId := nextId + 1;
      }
      rows := rows[id := stored];
      r := Saved(stored);
    }
  }
}
