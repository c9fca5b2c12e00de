/**
 * The rows of the users and events tables and the single-row lookups
 * (`db.scalar(select(...).where(...))`) the core runs against them.
 * A table is the sequence of its rows; a lookup yields the first row that
 * matches, which under the unique constraints is the only one.
 */
module Models {
  import opened Common

  datatype Role = Organizer | Participant

  datatype User = User(id: int, username: string, hashedPassword: string, role: Role)

  datatype Event = Event(
    id: int,
    title: string,
    description: string,
    price: Option<int>,
    maxCapacity: Option<int>,
    eventDate: int,
    organizerId: int)

  /** The primary-key constraint of the users table. */
  ghost predicate UniqueUserIds(users: seq<User>) {
    forall i, j :: 0 <= i < j < |users| ==> users[i].id != users[j].id
  }

  /** The unique constraint on users.username. */
  ghost predicate UniqueUsernames(users: seq<User>) {
    forall i, j :: 0 <= i < j < |users| ==> users[i].username != users[j].username
  }

  /** The primary-key constraint of the events table. */
  ghost predicate UniqueEventIds(events: seq<Event>) {
    forall i, j :: 0 <= i < j < |events| ==> events[i].id != events[j].id
  }

  /** rows[k] is the first row the condition matches. */
  ghost predicate FirstMatchAt<T>(rows: seq<T>, matches: T -> bool, k: int) {
    0 <= k < |rows| && matches(rows[k]) && forall j :: 0 <= j < k ==> !matches(rows[j])
  }

  /**
   * `db.scalar(select(...).where(...))`: the first row, in table order, that
   * the condition matches, or None when no row does.
   */
  function FindFirst<T>(rows: seq<T>, matches: T -> bool): (r: Option<T>)
    ensures r.None? <==> forall x :: x in rows ==> !matches(x)
    ensures r.Some? ==> exists k :: FirstMatchAt(rows, matches, k) && rows[k] == r.value
  {
    if rows == [] then None
    else if matches(rows[0]) then (assert FirstMatchAt(rows, matches, 0); Some(rows[0]))
    else
      var r := FindFirst(rows[1..], matches);
      assert r.Some? ==> exists k :: FirstMatchAt(rows, matches, k) && rows[k] == r.value by {
        if r.Some? {
          var k :| FirstMatchAt(rows[1..], matches, k) && rows[1..][k] == r.value;
          assert forall j :: 0 < j <= k ==> rows[j] == rows[1..][j - 1];
          assert FirstMatchAt(rows, matches, k + 1);
        }
      }
      r
  }

  /** When at most one row matches, a lookup finds the row that does. */
  lemma FindFirstUnique<T>(rows: seq<T>, matches: T -> bool, x: T)
    requires x in rows && matches(x)
    requires forall i, j :: 0 <= i < j < |rows| && matches(rows[i]) ==> !matches(rows[j])
    ensures FindFirst(rows, matches) == Some(x)
  {
    var r := FindFirst(rows, matches);
    assert r.Some?;
    var k :| FirstMatchAt(rows, matches, k) && rows[k] == r.value;
    var m :| 0 <= m < |rows| && rows[m] == x;
    assert !(m < k);
    assert !(k < m);
  }

  /** A lookup on a table with one row appended finds an old match first, else the new row. */
  lemma {:induction false} FindFirstAppend<T>(rows: seq<T>, x: T, matches: T -> bool)
    ensures FindFirst(rows + [x], matches) ==
              if FindFirst(rows, matches).Some? then FindFirst(rows, matches)
              else if matches(x) then Some(x) else None
  {
    if rows != [] {
      assert (rows + [x])[1..] == rows[1..] + [x];
      FindFirstAppend(rows[1..], x, matches);
    }
  }

  /** `select(User).where(User.id == id)`. */
  function FindUserById(users: seq<User>, id: int): (r: Option<User>)
    ensures r.Some? ==> r.value in users && r.value.id == id
    ensures r.None? <==> forall u :: u in users ==> u.id != id
  {
    FindFirst(users, (u: User) => u.id == id)
  }

  /** `select(User).where(User.username == username)`. */
  function FindUserByUsername(users: seq<User>, username: string): (r: Option<User>)
    ensures r.Some? ==> r.value in users && r.value.username == username
    ensures r.None? <==> forall u :: u in users ==> u.username != username
  {
    FindFirst(users, (u: User) => u.username == username)
  }

  /** `select(Event).where(Event.id == id)`. */
  function FindEventById(events: seq<Event>, id: int): (r: Option<Event>)
    ensures r.Some? ==> r.value in events && r.value.id == id
    ensures r.None? <==> forall e :: e in events ==> e.id != id
  {
    FindFirst(events, (e: Event) => e.id == id)
  }

  /** Under the primary key, looking up a stored user's id yields that user. */
  lemma FindStoredUserById(users: seq<User>, u: User)
    requires UniqueUserIds(users) && u in users
    ensures FindUserById(users, u.id) == Some(u)
  {
    FindFirstUnique(users, (v: User) => v.id == u.id, u);
  }

  /** Under the unique username constraint, looking up a stored username yields its row. */
  lemma FindStoredUserByUsername(users: seq<User>, u: User)
    requires UniqueUsernames(users) && u in users
    ensures FindUserByUsername(users, u.username) == Some(u)
  {
    FindFirstUnique(users, (v: User) => v.username == u.username, u);
  }

  /** Under the primary key, looking up a stored event's id yields that event. */
  lemma FindStoredEventById(events: seq<Event>, e: Event)
    requires UniqueEventIds(events) && e in events
    ensures FindEventById(events, e.id) == Some(e)
  {
    FindFirstUnique(events, (v: Event) => v.id == e.id, e);
  }

  /** Appending an event row: an older row with the id is still found first. */
  lemma FindEventByIdAppend(events: seq<Event>, e: Event, id: int)
    ensures FindEventById(events + [e], id) ==
              if FindEventById(events, id).Some? then FindEventById(events, id)
              else if e.id == id then Some(e) else None
  {
    FindFirstAppend(events, e, (v: Event) => v.id == id);
  }

  /** Appending a user row: an older row with the username is still found first. */
  lemma FindUserByUsernameAppend(users: seq<User>, u: User, username: string)
    ensures FindUserByUsername(users + [u], username) ==
              if FindUserByUsername(users, username).Some? then FindUserByUsername(users, username)
              else if u.username == username then Some(u) else None
  {
    FindFirstAppend(users, u, (v: User) => v.username == username);
  }
}
