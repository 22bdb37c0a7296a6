/**
 * The `User` JPA entity (table `users`): its six columns, the NOT NULL and
 * UNIQUE column rules, and the `@PrePersist` / `@PreUpdate` timestamp hooks.
 */
module Entity {
  import opened Wrappers

  /** A `java.util.UUID`, kept as its canonical text (what `toString` gives). */
  datatype Uuid = Uuid(text: string)

  /** A `LocalDateTime` reading, as a tick count of the service's clock. */
  type Instant = int

  /** The value of a `User` entity: every Java field may be null. */
  datatype UserRecord = UserRecord(
    id: Option<Uuid>,
    username: Option<string>,
    email: Option<string>,
    password: Option<string>,
    createdAt: Option<Instant>,
    updatedAt: Option<Instant>)

  /** The `nullable = false` columns: id, username, email and password. */
  predicate Persistable(r: UserRecord) {
    r.id.Some? && r.username.Some? && r.email.Some? && r.password.Some?
  }

  /** What `onCreate` leaves: `createdAt` from the first clock reading,
      `updatedAt` from the second, nothing else touched. */
  function Created(r: UserRecord, first: Instant, second: Instant): (created: UserRecord) {
    r.(createdAt := Some(first), updatedAt := Some(second))
  }

  /** What `onUpdate` leaves: only `updatedAt` changes. */
  function Touched(r: UserRecord, now: Instant): (touched: UserRecord) {
    r.(updatedAt := Some(now))
  }

  /** The record after one `onUpdate` per clock reading, in order. */
  function AfterUpdates(r: UserRecord, clock: seq<Instant>): (updated: UserRecord)
    decreases |clock|
  {
    if clock == [] then r else AfterUpdates(Touched(r, clock[0]), clock[1..])
  }

  predicate NonDecreasing(clock: seq<Instant>) {
    forall i, j | 0 <= i < j < |clock| :: clock[i] <= clock[j]
  }

  /** Both timestamps set, and the record was not updated before it was created. */
  predicate TimestampsOrdered(r: UserRecord) {
    r.createdAt.Some? && r.updatedAt.Some? && r.createdAt.value <= r.updatedAt.value
  }

  /** Any number of `onUpdate` calls changes `updatedAt` alone; after at least
      one, it holds the last clock reading. */
  lemma {:induction false} UpdatesChangeOnlyUpdatedAt(r: UserRecord, clock: seq<Instant>)
    ensures AfterUpdates(r, clock) == r.(updatedAt := if clock == [] then r.updatedAt else Some(clock[|clock| - 1]))
    decreases |clock|
  {
    if clock != [] {
      UpdatesChangeOnlyUpdatedAt(Touched(r, clock[0]), clock[1..]);
      if |clock| > 1 {
        assert clock[1..][|clock[1..]| - 1] == clock[|clock| - 1];
      }
    }
  }

  /** With a non-decreasing clock, `onCreate` followed by any number of
      `onUpdate` calls keeps `createdAt <= updatedAt`, keeps the first reading
      in `createdAt`, and touches no other field. */
  lemma LifecycleKeepsTimestampsOrdered(r: UserRecord, clock: seq<Instant>)
    requires |clock| >= 2 && NonDecreasing(clock)
    ensures var u := AfterUpdates(Created(r, clock[0], clock[1]), clock[2..]);
      && TimestampsOrdered(u)
      && u.createdAt == Some(clock[0])
      && u.id == r.id && u.username == r.username
      && u.email == r.email && u.password == r.password
  {
    var c := Created(r, clock[0], clock[1]);
    UpdatesChangeOnlyUpdatedAt(c, clock[2..]);
    assert clock[0] <= clock[|clock| - 1];
  }

  /** The `User` entity object: Lombok getters and setters over six fields. */
  class User {
    var id: Option<Uuid>
    var username: Option<string>
    var email: Option<string>
    var password: Option<string>
    var createdAt: Option<Instant>
    var updatedAt: Option<Instant>

    function Record(): (r: UserRecord)
      reads this
    {
      UserRecord(id, username, email, password, createdAt, updatedAt)
    }

    /** An entity holding the field values `r`. */
    constructor (r: UserRecord)
      ensures Record() == r
    {
      id, username, email, password := r.id, r.username, r.email, r.password;
      createdAt, updatedAt := r.createdAt, r.updatedAt;
    }

    /** `setId`, used by the id generator when the entity is first persisted. */
    method SetId(newId: Option<Uuid>)
      modifies this
      ensures Record() == old(Record()).(id := newId)
    {
      id := newId;
    }

    /** `setPassword`. */
    method SetPassword(p: Option<string>)
      modifies this
      ensures Record() == old(Record()).(password := p)
    {
      password := p;
    }

    /** `@PrePersist onCreate`: two clock readings, one per timestamp. */
    method OnCreate(first: Instant, second: Instant)
      modifies this
      ensures Record() == Created(old(Record()), first, second)
      ensures first <= second ==> TimestampsOrdered(Record())
    {
      createdAt := Some(first);
      updatedAt := Some(second);
    }

    /** `@PreUpdate onUpdate`: one clock reading. */
    method OnUpdate(now: Instant)
      modifies this
      ensures Record() == Touched(old(Record()), now)
      ensures old(TimestampsOrdered(Record())) && old(updatedAt.value) <= now ==> TimestampsOrdered(Record())
    {
      updatedAt := Some(now);
    }
  }
}
