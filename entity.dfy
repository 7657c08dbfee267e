/** The persisted `Client` record and the uniqueness invariant its table declares. */
module Entity {
  import opened Wrappers

  /** One row of the client table. `clientId` is the generated primary key (null until
      the store assigns it); every other column is a nullable string. */
  datatype Client = Client(
    clientId: Option<int>,
    firstName: Option<string>,
    lastName: Option<string>,
    idNumber: Option<string>,
    mobileNumber: Option<string>,
    physicalAddress: Option<string>)

  /** Two column values collide under a SQL unique constraint: both present and equal
      (NULLs never collide). */
  predicate Clash(x: Option<string>, y: Option<string>)
  {
    x.Some? && x == y
  }

  /** `a` and `b` collide on one of the two unique columns, idNumber or mobileNumber. */
  predicate Collide(a: Client, b: Client)
  {
    Clash(a.idNumber, b.idNumber) || Clash(a.mobileNumber, b.mobileNumber)
  }

  /** The table invariant: no two distinct rows share an idNumber or a mobileNumber. */
  ghost predicate Unique(rows: map<int, Client>)
  {
    forall a, b :: a in rows && b in rows && a != b ==> !Collide(rows[a], rows[b])
  }

  /** Some row other than `self` collides with `c`: the condition under which the
      database rejects writing `c` at key `self`. */
  predicate CollidesWithOthers(rows: map<int, Client>, self: int, c: Client)
  {
    exists k :: k in rows && k != self && Collide(rows[k], c)
  }

  /** Writing a non-colliding record at any key keeps the table invariant. */
  lemma WriteKeepsUnique(rows: map<int, Client>, self: int, c: Client)
    requires Unique(rows)
    requires !CollidesWithOthers(rows, self, c)
    ensures Unique(rows[self := c])
  {
  }

  /** The names and the address carry no constraint: two rows that agree on them but
      differ on both unique columns may coexist. */
  lemma NamesAndAddressNotUnique(first: string, last: string, address: string)
    ensures Unique(map[
      1 := Client(Some(1), Some(first), Some(last), Some("1111111111111"), Some("000000"), Some(address)),
      2 := Client(Some(2), Some(first), Some(last), Some("2222222222222"), Some("111111"), Some(address))])
  {
  }
}
