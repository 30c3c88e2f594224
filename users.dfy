/**
 * The user directory's data: stored records, the session's view of the caller,
 * the password encoder, and the record store behind `AppUserRepository`.
 */
module Users {
  import opened Wrappers
  import opened Strings

  /** An encoded password as the store keeps it. */
  type Hash = string

  /** The `PasswordEncoder` bean: `encode(raw)` and `matches(raw, encoded)`. */
  datatype PasswordEncoder = PasswordEncoder(encode: string -> Hash, matches: (string, Hash) -> bool)

  /** What BCrypt guarantees of its two operations: a password matches its own encoding. */
  ghost predicate Sound(enc: PasswordEncoder) {
    forall p :: enc.matches(p, enc.encode(p))
  }

  /** A stored `AppUser` (timestamps are not modelled). */
  datatype UserRecord = UserRecord(id: int, email: string, name: string, password: Hash, role: string)

  /** The password-free projection every response carries. */
  datatype PublicUser = PublicUser(id: int, email: string, name: string, role: string)

  function Public(u: UserRecord): PublicUser {
    PublicUser(u.id, u.email, u.name, u.role)
  }

  const AdminRole: string := "ADMIN"
  const UserRole: string := "USER"

  /** Role values are compared exactly, before any trimming or case change. */
  predicate IsValidRole(role: string) {
    role == UserRole || role == AdminRole
  }

  predicate IsAdmin(u: UserRecord) {
    u.role == AdminRole
  }

  /**
   * The two session attributes: "user" (a snapshot taken at login or at the
   * last self-update) and "authenticated" (false stands for both null and FALSE).
   */
  datatype Session = Session(user: Option<UserRecord>, authenticated: bool)

  /** What a fresh or invalidated session holds. */
  const EmptySession := Session(None, false)

  /** The gate every handler runs first: a user is present and the flag is TRUE. */
  predicate IsAuthenticated(s: Session) {
    s.user.Some? && s.authenticated
  }

  predicate Increasing(ids: seq<int>) {
    forall i, j :: 0 <= i < j < |ids| ==> ids[i] < ids[j]
  }

  /** The ids of `us`, in order. */
  function Ids(us: seq<UserRecord>): (ids: seq<int>)
    ensures |ids| == |us| && forall i :: 0 <= i < |us| ==> ids[i] == us[i].id
  {
    seq(|us|, i requires 0 <= i < |us| => us[i].id)
  }

  /** Records listed in strictly increasing id order. */
  predicate IdsIncreasing(us: seq<UserRecord>) {
    Increasing(Ids(us))
  }

  /**
   * The store's contents: records by id, the order `findAll` lists them in, and
   * the id the next inserted record receives.
   */
  datatype Directory = Directory(records: map<int, UserRecord>, order: seq<int>, nextId: int)

  const EmptyDirectory := Directory(map[], [], 1)

  /** Ids are keys of their own records, below the next id, and listed once each in increasing order. */
  ghost predicate WellFormed(d: Directory) {
    && (forall id :: id in d.records ==> d.records[id].id == id && id < d.nextId)
    && (forall i :: 0 <= i < |d.order| ==> d.order[i] in d.records)
    && (forall id :: id in d.records ==> id in d.order)
    && Increasing(d.order)
  }

  /** Every stored email is already lower-case, as every write path leaves it. */
  ghost predicate EmailsLowerCase(d: Directory) {
    forall id :: id in d.records ==> IsLowerCase(d.records[id].email)
  }

  /** No two records share an email. */
  ghost predicate UniqueEmails(d: Directory) {
    forall i, j :: i in d.records && j in d.records && d.records[i].email == d.records[j].email ==> i == j
  }

  /** `findAll()`: every record once, in increasing id order. */
  function FindAll(d: Directory): (us: seq<UserRecord>)
    requires WellFormed(d)
    ensures |us| == |d.order|
    ensures forall id :: id in d.records ==> d.records[id] in us
    ensures forall u :: u in us ==> u.id in d.records && d.records[u.id] == u
    ensures IdsIncreasing(us)
  {
    var us := seq(|d.order|, i requires 0 <= i < |d.order| => d.records[d.order[i]]);
    EveryRecordListed(d, us);
    us
  }

  lemma EveryRecordListed(d: Directory, us: seq<UserRecord>)
    requires WellFormed(d)
    requires |us| == |d.order| && forall i :: 0 <= i < |d.order| ==> us[i] == d.records[d.order[i]]
    ensures forall id :: id in d.records ==> d.records[id] in us
  {
    forall id | id in d.records
      ensures d.records[id] in us
    {
      var i :| 0 <= i < |d.order| && d.order[i] == id;
      assert us[i] == d.records[id];
    }
  }

  function FindById(d: Directory, id: int): Option<UserRecord> {
    if id in d.records then Some(d.records[id]) else None
  }

  /** The first of `us` whose email is exactly `e`. */
  function FirstWithEmail(us: seq<UserRecord>, e: string): (r: Option<UserRecord>)
    ensures r.Some? ==> r.value in us && r.value.email == e
    ensures r.None? <==> forall u :: u in us ==> u.email != e
  {
    if us == [] then None
    else if us[0].email == e then Some(us[0])
    else FirstWithEmail(us[1..], e)
  }

  /** `findByEmail(e)`: an exact, case-sensitive lookup. */
  function FindByEmail(d: Directory, e: string): (r: Option<UserRecord>)
    requires WellFormed(d)
    ensures r.Some? ==> r.value.id in d.records && d.records[r.value.id] == r.value && r.value.email == e
    ensures r.None? <==> forall id :: id in d.records ==> d.records[id].email != e
  {
    FirstWithEmail(FindAll(d), e)
  }

  /** An email as the handlers store it: trimmed and lower-cased. */
  function NormalEmail(e: string): string {
    ToLower(Trim(e))
  }

  /** `findByEmail(e)` finds a record other than `id`. */
  predicate EmailTakenByOther(d: Directory, e: string, id: int)
    requires WellFormed(d)
  {
    var f := FindByEmail(d, e);
    f.Some? && f.value.id != id
  }

  /** With unique emails the lookup finds THE record holding `e`, if any. */
  lemma FindByEmailUnique(d: Directory, e: string, id: int)
    requires WellFormed(d) && UniqueEmails(d)
    requires id in d.records && d.records[id].email == e
    ensures FindByEmail(d, e) == Some(d.records[id])
  {
  }

  /** A lookup that finds nothing, or finds `id` itself, rules out every other holder of `e`. */
  lemma NoOtherHolder(d: Directory, e: string, id: int)
    requires WellFormed(d) && UniqueEmails(d)
    requires FindByEmail(d, e).None? || FindByEmail(d, e).value.id == id
    ensures forall j :: j in d.records && j != id ==> d.records[j].email != e
  {
    forall j | j in d.records && j != id
      ensures d.records[j].email != e
    {
      if d.records[j].email == e {
        FindByEmailUnique(d, e, j);
      }
    }
  }

  /** Replacing a record by one whose email no other record holds keeps emails unique. */
  lemma PutKeepsEmailsUnique(d: Directory, u: UserRecord)
    requires WellFormed(d) && UniqueEmails(d) && u.id in d.records
    requires forall j :: j in d.records && j != u.id ==> d.records[j].email != u.email
    ensures UniqueEmails(Put(d, u))
  {
  }

  /** `save()` of a new entity: the store assigns the next id and lists the record last. */
  function Insert(d: Directory, u: UserRecord): (r: Directory)
    requires WellFormed(d)
    ensures WellFormed(r)
    ensures d.nextId !in d.records
    ensures r.records == d.records[d.nextId := u.(id := d.nextId)]
    ensures FindAll(r) == FindAll(d) + [u.(id := d.nextId)]
  {
    var r := Directory(d.records[d.nextId := u.(id := d.nextId)], d.order + [d.nextId], d.nextId + 1);
    InsertWellFormed(d, r);
    assert FindAll(r) == FindAll(d) + [u.(id := d.nextId)] by {
      var a, b := FindAll(r), FindAll(d);
      assert |a| == |b| + 1;
      forall i | 0 <= i < |b| ensures a[i] == b[i] {
        assert d.order[i] in d.records;
      }
    }
    r
  }

  /** A record inserted under an email no stored record holds is what the lookup then finds. */
  lemma InsertThenFindByEmail(d: Directory, u: UserRecord)
    requires WellFormed(d) && FindByEmail(d, u.email).None?
    ensures FindByEmail(Insert(d, u), u.email) == Some(u.(id := d.nextId))
  {
    var r := Insert(d, u);
    assert d.nextId in r.records && r.records[d.nextId].email == u.email;
  }

  lemma InsertWellFormed(d: Directory, r: Directory)
    requires WellFormed(d)
    requires d.nextId in r.records && r.records[d.nextId].id == d.nextId
    requires r == Directory(d.records[d.nextId := r.records[d.nextId]], d.order + [d.nextId], d.nextId + 1)
    ensures WellFormed(r) && d.nextId !in d.records
  {
    forall i | 0 <= i < |d.order| ensures d.order[i] < d.nextId {
      assert d.order[i] in d.records;
    }
  }

  /** `save()` of an entity that exists: its record is replaced, nothing else moves. */
  function Put(d: Directory, u: UserRecord): (r: Directory)
    requires WellFormed(d) && u.id in d.records
    ensures WellFormed(r)
    ensures r.records == d.records[u.id := u] && r.order == d.order && r.nextId == d.nextId
  {
    Directory(d.records[u.id := u], d.order, d.nextId)
  }

  /** `ids` without `x`, in the same order. */
  function Without(ids: seq<int>, x: int): (r: seq<int>)
    ensures forall y :: y in r <==> y in ids && y != x
    ensures Increasing(ids) ==> Increasing(r)
  {
    if ids == [] then []
    else if ids[0] == x then Without(ids[1..], x)
    else
      var rest := Without(ids[1..], x);
      if Increasing(ids) then
        HeadBelowTail(ids);
        IncreasingCons(ids[0], rest);
        [ids[0]] + rest
      else
        [ids[0]] + rest
  }

  lemma HeadBelowTail(ids: seq<int>)
    requires Increasing(ids) && ids != []
    ensures forall y :: y in ids[1..] ==> ids[0] < y
  {
    forall y | y in ids[1..] ensures ids[0] < y {
      var k :| 0 <= k < |ids[1..]| && ids[1..][k] == y;
      assert ids[k + 1] == y;
    }
  }

  lemma IncreasingCons(a: int, t: seq<int>)
    requires Increasing(t) && forall y :: y in t ==> a < y
    ensures Increasing([a] + t)
  {
    forall i, j | 0 <= i < j < |[a] + t| ensures ([a] + t)[i] < ([a] + t)[j] {
      if i == 0 {
        assert t[j - 1] in t;
      }
    }
  }

  /** `delete()`: the record with that id disappears, every other one stays. */
  function Remove(d: Directory, id: int): (r: Directory)
    requires WellFormed(d)
    ensures WellFormed(r)
    ensures r.records == d.records - {id} && r.nextId == d.nextId
  {
    var r := Directory(d.records - {id}, Without(d.order, id), d.nextId);
    RemoveWellFormed(d, id, r);
    r
  }

  lemma RemoveWellFormed(d: Directory, id: int, r: Directory)
    requires WellFormed(d)
    requires r == Directory(d.records - {id}, Without(d.order, id), d.nextId)
    ensures WellFormed(r)
  {
    forall i | 0 <= i < |r.order| ensures r.order[i] in r.records {
      assert r.order[i] in r.order;
    }
    forall k | k in r.records ensures k in r.order {
      assert k in d.order;
    }
  }

  /** The number of distinct values in an increasing sequence is its length. */
  lemma {:induction false} IncreasingCard(ids: seq<int>)
    requires Increasing(ids)
    ensures |set x | x in ids| == |ids|
  {
    if ids != [] {
      IncreasingCard(ids[1..]);
      assert (set x | x in ids) == {ids[0]} + (set x | x in ids[1..]);
      assert ids[0] !in (set x | x in ids[1..]);
    }
  }

  /** `findAll()` lists as many records as the store holds. */
  lemma FindAllCount(d: Directory)
    requires WellFormed(d)
    ensures |FindAll(d)| == |d.records|
  {
    IncreasingCard(d.order);
    var ks := set x | x in d.order;
    forall x | x in d.order ensures x in d.records {
      var i :| 0 <= i < |d.order| && d.order[i] == x;
    }
    forall x | x in d.records ensures x in ks {
      assert x in d.order;
    }
    assert d.records.Keys == ks;
  }

  /** The repository bean: the store, updated in place by `save` and `delete`. */
  class UserRepository {
    var records: map<int, UserRecord>
    var order: seq<int>
    var nextId: int

    function State(): Directory
      reads this
    {
      Directory(records, order, nextId)
    }

    ghost predicate Valid()
      reads this
    {
      WellFormed(State())
    }

    constructor ()
      ensures Valid() && State() == EmptyDirectory
    {
      records, order, nextId := map[], [], 1;
    }

    /** `save(u)` for an entity without id; returns the stored record with its new id. */
    method SaveNew(u: UserRecord) returns (saved: UserRecord)
      requires Valid()
      modifies this
      ensures Valid()
      ensures saved == u.(id := old(nextId)) && old(nextId) !in old(records)
      ensures State() == Insert(old(State()), u)
    {
      ghost var after := Insert(State(), u);
      saved := u.(id := nextId);
      records := records[nextId := saved];
      order := order + [nextId];
      nextId := nextId + 1;
    }

    /** `save(u)` for an entity read from the store. */
    method SaveExisting(u: UserRecord)
      requires Valid() && u.id in records
      modifies this
      ensures Valid()
      ensures State() == Put(old(State()), u)
    {
      ghost var after := Put(State(), u);
      records := records[u.id := u];
    }

    /** `delete(u)`. */
    method Delete(u: UserRecord)
      requires Valid()
      modifies this
      ensures Valid()
      ensures State() == Remove(old(State()), u.id)
    {
      ghost var after := Remove(State(), u.id);
      records := records - {u.id};
      order := Without(order, u.id);
    }
  }
}
