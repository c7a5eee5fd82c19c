/**
 * The four tables the routers read and write (users, clubs, events and
 * club members), kept as sequences of rows in primary-key order, and
 * the by-id operations the ORM offers on them (`findUnique`, `update`,
 * `delete`) as functions with map-like laws.
 */
module Store {
  import opened Common
  import opened Listing

  /** A stored row: the id the store assigns, its creation time, and the entity's fields. */
  datatype Row<T> = Row(id: int, createdAt: int, data: T)

  /** An account; `password` holds the bcrypt hash, never the plaintext. */
  datatype UserData = UserData(name: string, email: string, password: string, role: Role)

  datatype ClubData = ClubData(name: string, description: string, image: Option<string>, facebookUrl: Option<string>)

  datatype EventData = EventData(
    title: string, description: string, clubId: int,
    startDate: int, endDate: int, location: Option<string>, image: Option<string>)

  /** One membership row; `createdAt` of its row is the `joinedAt` time. */
  datatype MemberData = MemberData(clubId: int, userId: int, role: string)

  /** The `createdAt` ordering key. */
  function CreatedAt<T>(row: Row<T>): int { row.createdAt }

  ghost predicate UniqueIds<T>(rows: seq<Row<T>>) {
    forall i, j :: 0 <= i < j < |rows| ==> rows[i].id != rows[j].id
  }

  ghost predicate IdsBelow<T>(rows: seq<Row<T>>, next: int) {
    forall i :: 0 <= i < |rows| ==> rows[i].id < next
  }

  /** `findUnique({ where: { id } })`: the row with that id, if any. */
  function Find<T>(rows: seq<Row<T>>, id: int): (r: Option<Row<T>>)
    ensures r.Some? ==> r.value in rows && r.value.id == id
    ensures r.None? <==> forall i :: 0 <= i < |rows| ==> rows[i].id != id
  {
    if rows == [] then None
    else if rows[0].id == id then Some(rows[0])
    else Find(rows[1..], id)
  }

  /** The fields of the row with that id replaced by `data`; id and creation time kept. */
  function Replaced<T>(rows: seq<Row<T>>, id: int, data: T): (r: seq<Row<T>>)
    ensures |r| == |rows|
    ensures forall i :: 0 <= i < |rows| ==> r[i].id == rows[i].id && r[i].createdAt == rows[i].createdAt
  {
    if rows == [] then []
    else [if rows[0].id == id then Row(id, rows[0].createdAt, data) else rows[0]] + Replaced(rows[1..], id, data)
  }

  /** The rows whose id differs from `id`, in their original order. */
  function Without<T>(rows: seq<Row<T>>, id: int): (r: seq<Row<T>>)
    ensures |r| <= |rows|
    ensures forall i :: 0 <= i < |r| ==> r[i] in rows && r[i].id != id
    ensures forall i :: 0 <= i < |rows| && rows[i].id != id ==> rows[i] in r
  {
    if rows == [] then []
    else
      assert rows == [rows[0]] + rows[1..];
      (if rows[0].id == id then [] else [rows[0]]) + Without(rows[1..], id)
  }

  /** After an insert under a fresh id that id finds the new row, and every other id reads as before. */
  lemma {:induction false} FindAfterInsert<T>(rows: seq<Row<T>>, row: Row<T>, other: int)
    requires forall i :: 0 <= i < |rows| ==> rows[i].id != row.id
    ensures Find(rows + [row], row.id) == Some(row)
    ensures other != row.id ==> Find(rows + [row], other) == Find(rows, other)
  {
    if rows != [] {
      assert (rows + [row])[1..] == rows[1..] + [row];
      FindAfterInsert(rows[1..], row, other);
    }
  }

  /** After an update the row holds the new fields and every other row reads as before. */
  lemma {:induction false} FindAfterUpdate<T>(rows: seq<Row<T>>, id: int, data: T, other: int)
    ensures Find(Replaced(rows, id, data), id)
         == (match Find(rows, id) case None => None case Some(row) => Some(Row(id, row.createdAt, data)))
    ensures other != id ==> Find(Replaced(rows, id, data), other) == Find(rows, other)
  {
    if rows != [] {
      FindAfterUpdate(rows[1..], id, data, other);
      assert Replaced(rows, id, data)[1..] == Replaced(rows[1..], id, data);
    }
  }

  /** After a delete the id is gone. */
  lemma DeleteRemovesId<T>(rows: seq<Row<T>>, id: int)
    ensures Find(Without(rows, id), id).None?
  {
  }

  /** After a delete every other row reads as before. */
  lemma {:induction false} FindAfterDelete<T>(rows: seq<Row<T>>, id: int, other: int)
    requires other != id
    ensures Find(Without(rows, id), other) == Find(rows, other)
  {
    if rows != [] {
      FindAfterDelete(rows[1..], id, other);
      var t := Without(rows[1..], id);
      if rows[0].id == id {
        assert Without(rows, id) == t;
      } else {
        assert Without(rows, id) == [rows[0]] + t;
        assert ([rows[0]] + t)[1..] == t;
      }
    }
  }

  /** Deleting a present id from a table with unique ids removes exactly one row. */
  lemma {:induction false} DeleteRemovesOne<T>(rows: seq<Row<T>>, id: int)
    requires UniqueIds(rows) && Find(rows, id).Some?
    ensures |Without(rows, id)| == |rows| - 1
  {
    if rows[0].id == id {
      assert forall i :: 0 <= i < |rows[1..]| ==> rows[1..][i].id != id;
      DeleteNothing(rows[1..], id);
    } else {
      DeleteRemovesOne(rows[1..], id);
    }
  }

  /** Deleting an absent id changes nothing. */
  lemma {:induction false} DeleteNothing<T>(rows: seq<Row<T>>, id: int)
    requires forall i :: 0 <= i < |rows| ==> rows[i].id != id
    ensures Without(rows, id) == rows
  {
    if rows != [] {
      DeleteNothing(rows[1..], id);
      assert [rows[0]] + rows[1..] == rows;
    }
  }

  lemma UpdateKeepsIds<T>(rows: seq<Row<T>>, id: int, data: T, next: int)
    requires UniqueIds(rows) && IdsBelow(rows, next)
    ensures UniqueIds(Replaced(rows, id, data)) && IdsBelow(Replaced(rows, id, data), next)
  {
  }

  lemma {:induction false} DeleteKeepsIds<T>(rows: seq<Row<T>>, id: int, next: int)
    requires UniqueIds(rows) && IdsBelow(rows, next)
    ensures UniqueIds(Without(rows, id)) && IdsBelow(Without(rows, id), next)
  {
    if rows != [] {
      TailKeepsIds(rows, next);
      DeleteKeepsIds(rows[1..], id, next);
      var t := Without(rows[1..], id);
      if rows[0].id == id {
        assert Without(rows, id) == t;
      } else {
        forall k | 0 <= k < |t| ensures rows[0].id != t[k].id {
          var m :| 0 <= m < |rows[1..]| && rows[1..][m] == t[k];
          assert rows[m + 1] == t[k];
        }
        assert Without(rows, id) == [rows[0]] + t;
        ConsKeepsIds(rows[0], t, next);
      }
    }
  }

  /** Dropping the first row keeps ids unique and below the counter. */
  lemma TailKeepsIds<T>(rows: seq<Row<T>>, next: int)
    requires rows != [] && UniqueIds(rows) && IdsBelow(rows, next)
    ensures UniqueIds(rows[1..]) && IdsBelow(rows[1..], next)
  {
    var t := rows[1..];
    forall i, j | 0 <= i < j < |t| ensures t[i].id != t[j].id {
      assert t[i] == rows[i + 1] && t[j] == rows[j + 1];
    }
  }

  /** A row whose id is new and below the counter can go in front. */
  lemma ConsKeepsIds<T>(row: Row<T>, t: seq<Row<T>>, next: int)
    requires UniqueIds(t) && IdsBelow(t, next) && row.id < next
    requires forall k :: 0 <= k < |t| ==> row.id != t[k].id
    ensures UniqueIds([row] + t) && IdsBelow([row] + t, next)
  {
    var r := [row] + t;
    forall i, j | 0 <= i < j < |r| ensures r[i].id != r[j].id {
      assert r[j] == t[j - 1];
      if i > 0 {
        assert r[i] == t[i - 1];
      }
    }
    forall i | 0 <= i < |r| ensures r[i].id < next {
      if i > 0 {
        assert r[i] == t[i - 1];
      }
    }
  }

  /** What a write the database refuses reports: Prisma's P2002 and P2025. */
  datatype Outcome<T> = Done(value: T) | UniqueViolation | RecordNotFound

  /** One table: its rows in primary-key order and the next autoincrement id. */
  class Table<T> {
    var rows: seq<Row<T>>
    var nextId: int

    ghost predicate Valid()
      reads this
    {
      UniqueIds(rows) && IdsBelow(rows, nextId)
    }

    constructor ()
      ensures Valid() && rows == [] && nextId == 1
    {
      rows, nextId := [], 1;
    }

    /** `create`: a new row with a fresh id, appended. */
    method Insert(data: T, now: int) returns (row: Row<T>)
      requires Valid()
      modifies this
      ensures Valid()
      ensures row == Row(old(nextId), now, data) && rows == old(rows) + [row] && nextId == old(nextId) + 1
    {
      row := Row(nextId, now, data);
      rows := rows + [row];
      nextId := nextId + 1;
    }

    /** `update({ where: { id } })`: replaces the row's fields, or reports P2025 when there is none. */
    method Update(id: int, data: T) returns (found: bool)
      requires Valid()
      modifies this
      ensures Valid() && nextId == old(nextId)
      ensures found == Find(old(rows), id).Some?
      ensures rows == if found then Replaced(old(rows), id, data) else old(rows)
    {
      found := Find(rows, id).Some?;
      if found {
        UpdateKeepsIds(rows, id, data, nextId);
        rows := Replaced(rows, id, data);
      }
    }

    /** `delete({ where: { id } })`: removes the row, or reports P2025 when there is none. */
    method Delete(id: int) returns (found: bool)
      requires Valid()
      modifies this
      ensures Valid() && nextId == old(nextId)
      ensures found == Find(old(rows), id).Some?
      ensures rows == if found then Without(old(rows), id) else old(rows)
    {
      found := Find(rows, id).Some?;
      if found {
        DeleteKeepsIds(rows, id, nextId);
        rows := Without(rows, id);
      }
    }

    /** `deleteMany({ where })`: removes every row `matches` accepts and reports how many. */
    method DeleteWhere(matches: Row<T> -> bool) returns (count: nat)
      requires Valid()
      modifies this
      ensures Valid() && nextId == old(nextId)
      ensures rows == Filter(old(rows), (r: Row<T>) => !matches(r))
      ensures count == |old(rows)| - |rows|
      ensures forall i :: 0 <= i < |rows| ==> !matches(rows[i])
    {
      var keep := (r: Row<T>) => !matches(r);
      FilterKeepsIds(rows, keep, nextId);
      var kept := Filter(rows, keep);
      count := |rows| - |kept|;
      rows := kept;
    }
  }

  lemma {:induction false} FilterKeepsIds<T>(rows: seq<Row<T>>, keep: Row<T> -> bool, next: int)
    requires UniqueIds(rows) && IdsBelow(rows, next)
    ensures UniqueIds(Filter(rows, keep)) && IdsBelow(Filter(rows, keep), next)
  {
    if rows != [] {
      TailKeepsIds(rows, next);
      FilterKeepsIds(rows[1..], keep, next);
      var t := Filter(rows[1..], keep);
      if keep(rows[0]) {
        forall k | 0 <= k < |t| ensures rows[0].id != t[k].id {
          var m :| 0 <= m < |rows[1..]| && rows[1..][m] == t[k];
          assert rows[m + 1] == t[k];
        }
        assert Filter(rows, keep) == [rows[0]] + t;
        ConsKeepsIds(rows[0], t, next);
      } else {
        assert Filter(rows, keep) == t;
      }
    }
  }

  /** The database: one table per model. */
  class Db {
    const users: Table<UserData>
    const clubs: Table<ClubData>
    const events: Table<EventData>
    const members: Table<MemberData>

    /** Every table is valid and user emails are unique (the `@unique` email column). */
    ghost predicate Valid()
      reads this, users, clubs, events, members
    {
      && users.Valid() && clubs.Valid() && events.Valid() && members.Valid()
      && UniqueEmails(users.rows)
    }

    constructor ()
      ensures Valid()
      ensures users.rows == [] && clubs.rows == [] && events.rows == [] && members.rows == []
      ensures fresh(users) && fresh(clubs) && fresh(events) && fresh(members)
    {
      users := new Table();
      clubs := new Table();
      events := new Table();
      members := new Table();
    }

    /** `user.create`: refused with P2002 when the email is already taken. */
    method CreateUser(data: UserData, now: int) returns (r: Outcome<Row<UserData>>)
      requires Valid()
      modifies users
      ensures Valid()
      ensures FindByEmail(old(users.rows), data.email).Some? ==> r == UniqueViolation && users.rows == old(users.rows)
      ensures FindByEmail(old(users.rows), data.email).None? ==>
                && r == Done(Row(old(users.nextId), now, data))
                && users.rows == old(users.rows) + [r.value]
    {
      if FindByEmail(users.rows, data.email).Some? {
        return UniqueViolation;
      }
      var row := users.Insert(data, now);
      r := Done(row);
    }

    /** `user.update`: P2025 when the id is absent, P2002 when the new email belongs to another user. */
    method UpdateUser(id: int, data: UserData) returns (r: Outcome<()>)
      requires Valid()
      modifies users
      ensures Valid()
      ensures r == (if Find(old(users.rows), id).None? then RecordNotFound
                    else if EmailTakenByOther(old(users.rows), data.email, id) then UniqueViolation
                    else Done(()))
      ensures users.rows == if r.Done? then Replaced(old(users.rows), id, data) else old(users.rows)
    {
      if Find(users.rows, id).None? {
        return RecordNotFound;
      }
      if EmailTakenByOther(users.rows, data.email, id) {
        return UniqueViolation;
      }
      ReplacedKeepsEmailsUnique(users.rows, id, data);
      var found := users.Update(id, data);
      r := Done(());
    }
  }

  /** Some user other than `id` already has this email. */
  predicate EmailTakenByOther(users: seq<Row<UserData>>, email: string, id: int) {
    var other := FindByEmail(users, email);
    other.Some? && other.value.id != id
  }

  lemma ReplacedKeepsEmailsUnique(users: seq<Row<UserData>>, id: int, data: UserData)
    requires UniqueIds(users) && UniqueEmails(users) && !EmailTakenByOther(users, data.email, id)
    ensures UniqueEmails(Replaced(users, id, data))
  {
    var r := Replaced(users, id, data);
    ReplacedAt(users, id, data);
    forall i, j | 0 <= i < j < |r| ensures r[i].data.email != r[j].data.email {
      if users[i].id == id {
        assert users[j].id != id;
        assert users[j] in users;
      } else if users[j].id == id {
        assert users[i] in users;
      }
    }
  }

  /** Row by row, `Replaced` swaps in the new fields exactly where the id matches. */
  lemma {:induction false} ReplacedAt<T>(rows: seq<Row<T>>, id: int, data: T)
    ensures forall i :: 0 <= i < |rows| ==>
      Replaced(rows, id, data)[i] == if rows[i].id == id then Row(id, rows[i].createdAt, data) else rows[i]
  {
    if rows != [] {
      ReplacedAt(rows[1..], id, data);
      var r := Replaced(rows, id, data);
      assert r[1..] == Replaced(rows[1..], id, data);
      forall i | 1 <= i < |rows| ensures r[i] == if rows[i].id == id then Row(id, rows[i].createdAt, data) else rows[i] {
        assert r[i] == r[1..][i - 1] && rows[i] == rows[1..][i - 1];
      }
    }
  }

  lemma {:induction false} WithoutKeepsEmailsUnique(users: seq<Row<UserData>>, id: int)
    requires UniqueEmails(users)
    ensures UniqueEmails(Without(users, id))
  {
    if users != [] {
      WithoutKeepsEmailsUnique(users[1..], id);
      var t := Without(users[1..], id);
      if users[0].id != id {
        forall k | 0 <= k < |t| ensures users[0].data.email != t[k].data.email {
          var m :| 0 <= m < |users[1..]| && users[1..][m] == t[k];
          assert users[m + 1] == t[k];
        }
        assert Without(users, id) == [users[0]] + t;
      }
    }
  }

  ghost predicate UniqueEmails(users: seq<Row<UserData>>) {
    forall i, j :: 0 <= i < j < |users| ==> users[i].data.email != users[j].data.email
  }

  /** `findUnique({ where: { email } })`. */
  function FindByEmail(users: seq<Row<UserData>>, email: string): (r: Option<Row<UserData>>)
    ensures r.Some? ==> r.value in users && r.value.data.email == email
    ensures r.None? <==> forall i :: 0 <= i < |users| ==> users[i].data.email != email
  {
    if users == [] then None
    else if users[0].data.email == email then Some(users[0])
    else FindByEmail(users[1..], email)
  }
}
