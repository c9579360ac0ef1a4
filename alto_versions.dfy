// The ALTO version table and AltoVersionService: each page (PID "uuid:<u>")
// has numbered versions, each with an owner and a review state; the service
// fetches version 0 from Kramerius, creates and overwrites versions, and
// moves versions through the review states.
module AltoVersions {
  import opened Wrappers
  import opened JavaText
  import opened Uuids
  import opened Users
  import Akubra
  import OH = ObjectHierarchy
  import DigitalObjects

  datatype AltoVersionState = Active | Pending | Rejected | Archived

  /**
   * One row of alto_versions.  The digital object is held by its uuid and
   * the owner as the loaded user; `contentHash` and `presentInInstances`
   * are the columns the repository's queries name.
   */
  datatype AltoVersion = AltoVersion(
    id: int,
    digitalObject: Option<Uuid>,
    version: int,
    user: Option<User>,
    instance: string,
    state: Option<AltoVersionState>,
    contentHash: Option<string>,
    presentInInstances: seq<string>)

  datatype WithContent = WithContent(altoVersion: AltoVersion, content: Akubra.Bytes)

  datatype AltoError =
    | BadPid(e: PidError)                      // IllegalArgumentException from parseUuid
    | AlreadyExists(pid: string)               // AltoVersionAlreadyExistsException
    | AltoNotFound(pid: string)                // AltoNotFoundException
    | VersionNotFound(pid: string)             // AltoVersionNotFoundException
    | VersionIdNotFound(id: int)               // AltoVersionNotFoundException for an unknown row id
    | RowNotFound(id: int)                     // RuntimeException("Digital object not found with ID: ...")
    | NotPending(id: int)                      // IllegalStateException of the guarded transition
    | NullObject                               // NullPointerException on a row without digital object
    | NonUnique(count: nat)                    // IncorrectResultSizeDataAccessException
    | DuplicateVersion(uuid: Uuid, version: int) // the unique (uuid, version) constraint
    | NullColumn(column: string)               // a NOT NULL column saved as null
    | Storage(se: Akubra.StoreError)
    | UserLookup(ue: UserError)
    | Diverges                                 // a cyclic parent chain in Kramerius' answers

  predicate OfObject(r: AltoVersion, u: Uuid)
  {
    r.digitalObject == Some(u)
  }

  predicate OwnedBy(r: AltoVersion, userId: int)
  {
    r.user.Some? && r.user.value.id == userId
  }

  // ---------------------------------------------------------------------
  // The table and its constraints

  predicate UniqueIds(rows: seq<AltoVersion>)
  {
    forall i, j :: 0 <= i < j < |rows| ==> rows[i].id != rows[j].id
  }

  /** The unique (uuid, version) constraint; rows without an object are not constrained. */
  predicate UniqueVersions(rows: seq<AltoVersion>)
  {
    forall i, j :: 0 <= i < j < |rows| && rows[i].digitalObject.Some? && rows[i].digitalObject == rows[j].digitalObject ==>
      rows[i].version != rows[j].version
  }

  /** The NOT NULL columns uuid, user_id and state. */
  predicate NotNull(r: AltoVersion)
  {
    r.digitalObject.Some? && r.user.Some? && r.state.Some?
  }

  predicate TableValid(rows: seq<AltoVersion>, nextId: int)
  {
    UniqueIds(rows) && UniqueVersions(rows)
    && forall i :: 0 <= i < |rows| ==> rows[i].id < nextId && NotNull(rows[i])
  }

  datatype Inserted = Inserted(rows: seq<AltoVersion>, nextId: int, row: AltoVersion)

  predicate VersionTaken(rows: seq<AltoVersion>, digitalObject: Option<Uuid>, version: int)
  {
    digitalObject.Some? && exists i :: 0 <= i < |rows| && rows[i].digitalObject == digitalObject && rows[i].version == version
  }

  /**
   * save of a new row: a null NOT NULL column is refused, then the unique
   * constraint refuses a taken version; otherwise the identity column
   * assigns the id.
   */
  function InsertRow(rows: seq<AltoVersion>, nextId: int, row: AltoVersion): (r: Result<Inserted, AltoError>)
    ensures r.Err? <==> !NotNull(row) || VersionTaken(rows, row.digitalObject, row.version)
    ensures !NotNull(row) ==> r.Err? && r.error.NullColumn?
    ensures r.Ok? ==>
      r.value.row == row.(id := nextId) && r.value.rows == rows + [r.value.row] && r.value.nextId == nextId + 1
    ensures r.Ok? && TableValid(rows, nextId) ==> TableValid(r.value.rows, r.value.nextId)
  {
    if row.digitalObject.None? then Err(NullColumn("uuid"))
    else if row.user.None? then Err(NullColumn("user_id"))
    else if row.state.None? then Err(NullColumn("state"))
    else if VersionTaken(rows, row.digitalObject, row.version) then Err(DuplicateVersion(row.digitalObject.value, row.version))
    else Ok(Inserted(rows + [row.(id := nextId)], nextId + 1, row.(id := nextId)))
  }

  /** The WHERE clauses of the repository's queries. */
  datatype Query =
    | OfUuid(u: Uuid)
    | OwnOf(u: Uuid, userId: int)
    | ActiveOf(u: Uuid)
    | PendingOwnOf(u: Uuid, userId: int)
    | ActiveOwnOf(u: Uuid, userId: int)
    | EngineCandidateOf(u: Uuid, userId: int, hash: string)
    | VersionOf(u: Uuid, version: int)
    | InstanceOf(u: Uuid, instance: string)
    | WithId(id: int)

  predicate Matches(q: Query, x: AltoVersion)
  {
    match q
    case OfUuid(u) => OfObject(x, u)
    case OwnOf(u, userId) => OfObject(x, u) && OwnedBy(x, userId)
    case ActiveOf(u) => OfObject(x, u) && x.state == Some(Active)
    case PendingOwnOf(u, userId) => OfObject(x, u) && OwnedBy(x, userId) && x.state == Some(Pending)
    case ActiveOwnOf(u, userId) => OfObject(x, u) && OwnedBy(x, userId) && x.state == Some(Active)
    case EngineCandidateOf(u, userId, hash) =>
      OfObject(x, u) && OwnedBy(x, userId) && x.contentHash == Some(hash) && EngineCandidateState(x.state)
    case VersionOf(u, version) => OfObject(x, u) && x.version == version
    case InstanceOf(u, instance) => OfObject(x, u) && x.instance == instance
    case WithId(id) => x.id == id
  }

  /** The rows a query matches, in table order. */
  function Select(rows: seq<AltoVersion>, q: Query): (r: seq<AltoVersion>)
    ensures forall x :: x in r <==> x in rows && Matches(q, x)
    ensures |r| <= |rows|
  {
    if |rows| == 0 then []
    else
      assert forall x :: x in rows <==> x == rows[0] || x in rows[1..];
      (if Matches(q, rows[0]) then [rows[0]] else []) + Select(rows[1..], q)
  }

  /** An Optional-returning derived query, its failure told as this service's error. */
  function Single(sel: seq<AltoVersion>): (r: Result<Option<AltoVersion>, AltoError>)
    ensures r == Ok(None) <==> |sel| == 0
    ensures r.Ok? && r.value.Some? <==> |sel| == 1
    ensures r.Ok? && r.value.Some? ==> r.value.value == sel[0]
    ensures r.Err? ==> r.error == NonUnique(|sel|)
  {
    match DigitalObjects.Single(sel)
    case Ok(found) => Ok(found)
    case Err(e) => Err(NonUnique(e.count))
  }

  /** A LIMIT 1 query: the first match in table order. */
  function First(sel: seq<AltoVersion>): (r: Option<AltoVersion>)
    ensures r.None? <==> |sel| == 0
    ensures r.Some? ==> r.value == sel[0]
  {
    if |sel| == 0 then None else Some(sel[0])
  }

  // ---------------------------------------------------------------------
  // AltoVersionRepository's queries

  /** findAllByDigitalObjectUuid */
  function FindAllByUuid(rows: seq<AltoVersion>, u: Uuid): (r: seq<AltoVersion>)
    ensures forall x :: x in r <==> x in rows && OfObject(x, u)
  {
    Select(rows, OfUuid(u))
  }

  /** existsByDigitalObjectUuid */
  predicate ExistsByUuid(rows: seq<AltoVersion>, u: Uuid)
  {
    exists i :: 0 <= i < |rows| && OfObject(rows[i], u)
  }

  /** existsByDigitalObjectUuid holds exactly when findAllByDigitalObjectUuid finds something. */
  lemma ExistsIffFindAll(rows: seq<AltoVersion>, u: Uuid)
    ensures ExistsByUuid(rows, u) <==> |FindAllByUuid(rows, u)| > 0
  {
    if ExistsByUuid(rows, u) {
      var i :| 0 <= i < |rows| && OfObject(rows[i], u);
      assert rows[i] in FindAllByUuid(rows, u);
    }
    if |FindAllByUuid(rows, u)| > 0 {
      var x := FindAllByUuid(rows, u)[0];
      assert x in FindAllByUuid(rows, u);
      var i :| 0 <= i < |rows| && rows[i] == x;
      assert OfObject(rows[i], u);
    }
  }

  /** The object's rows owned by the user, in table order. */
  function OwnRows(rows: seq<AltoVersion>, u: Uuid, userId: int): (r: seq<AltoVersion>)
    ensures forall x :: x in r <==> x in rows && OfObject(x, u) && OwnedBy(x, userId)
  {
    Select(rows, OwnOf(u, userId))
  }

  /** The object's ACTIVE rows, in table order. */
  function ActiveRows(rows: seq<AltoVersion>, u: Uuid): (r: seq<AltoVersion>)
    ensures forall x :: x in r <==> x in rows && OfObject(x, u) && x.state == Some(Active)
  {
    Select(rows, ActiveOf(u))
  }

  /** findActive */
  function FindActive(rows: seq<AltoVersion>, u: Uuid): (r: Result<Option<AltoVersion>, AltoError>)
    ensures r.Ok? && r.value.Some? ==> r.value.value in rows && OfObject(r.value.value, u) && r.value.value.state == Some(Active)
    ensures r == Ok(None) <==> forall x :: x in rows && OfObject(x, u) ==> x.state != Some(Active)
  {
    var sel := ActiveRows(rows, u);
    assert |sel| > 0 ==> sel[0] in sel;
    Single(sel)
  }

  /** findPendingForUser */
  function FindPendingForUser(rows: seq<AltoVersion>, u: Uuid, userId: int): (r: Result<Option<AltoVersion>, AltoError>)
    ensures r.Ok? && r.value.Some? ==>
      r.value.value in rows && OfObject(r.value.value, u) && OwnedBy(r.value.value, userId)
      && r.value.value.state == Some(Pending)
    ensures r == Ok(None) <==>
      forall x :: x in rows && OfObject(x, u) && OwnedBy(x, userId) ==> x.state != Some(Pending)
  {
    var sel := Select(rows, PendingOwnOf(u, userId));
    assert |sel| > 0 ==> sel[0] in sel;
    Single(sel)
  }

  /** findActiveForUser */
  function FindActiveForUser(rows: seq<AltoVersion>, u: Uuid, userId: int): (r: Result<Option<AltoVersion>, AltoError>)
    ensures r.Ok? && r.value.Some? ==>
      r.value.value in rows && OfObject(r.value.value, u) && OwnedBy(r.value.value, userId)
      && r.value.value.state == Some(Active)
    ensures r == Ok(None) <==>
      forall x :: x in rows && OfObject(x, u) && OwnedBy(x, userId) ==> x.state != Some(Active)
  {
    var sel := Select(rows, ActiveOwnOf(u, userId));
    assert |sel| > 0 ==> sel[0] in sel;
    Single(sel)
  }

  predicate EngineCandidateState(s: Option<AltoVersionState>)
  {
    s == Some(Active) || s == Some(Pending) || s == Some(Archived)
  }

  /** findEngineUpdateCandidate: owner and content hash match, and the state is not REJECTED (nor null). */
  function FindEngineUpdateCandidate(rows: seq<AltoVersion>, u: Uuid, userId: int, hash: string)
    : (r: Result<Option<AltoVersion>, AltoError>)
    ensures r.Ok? && r.value.Some? ==>
      r.value.value in rows && OfObject(r.value.value, u) && OwnedBy(r.value.value, userId)
      && r.value.value.contentHash == Some(hash) && r.value.value.state != Some(Rejected)
      && r.value.value.state.Some?
    ensures r == Ok(None) <==>
      forall x :: x in rows && OfObject(x, u) && OwnedBy(x, userId) && x.contentHash == Some(hash) ==>
        !EngineCandidateState(x.state)
  {
    var sel := Select(rows, EngineCandidateOf(u, userId, hash));
    assert |sel| > 0 ==> sel[0] in sel;
    Single(sel)
  }

  /** findByDigitalObjectUuidAndVersion */
  function FindByUuidAndVersion(rows: seq<AltoVersion>, u: Uuid, version: int): (r: Result<Option<AltoVersion>, AltoError>)
    ensures r.Ok? && r.value.Some? ==> r.value.value in rows && OfObject(r.value.value, u) && r.value.value.version == version
    ensures r == Ok(None) <==> forall x :: x in rows && OfObject(x, u) ==> x.version != version
  {
    var sel := Select(rows, VersionOf(u, version));
    assert |sel| > 0 ==> sel[0] in sel;
    Single(sel)
  }

  /** Under the unique (uuid, version) constraint the version lookup never finds two rows. */
  lemma FindByUuidAndVersionUnique(rows: seq<AltoVersion>, u: Uuid, version: int)
    requires UniqueVersions(rows)
    ensures FindByUuidAndVersion(rows, u, version).Ok?
  {
    VersionSelectAtMostOne(rows, u, version);
  }

  lemma {:induction false} VersionSelectAtMostOne(rows: seq<AltoVersion>, u: Uuid, version: int)
    requires UniqueVersions(rows)
    ensures |Select(rows, VersionOf(u, version))| <= 1
    decreases |rows|
  {
    if |rows| > 0 {
      var p := VersionOf(u, version);
      var tail := rows[1..];
      assert forall i :: 0 <= i < |tail| ==> tail[i] == rows[i + 1];
      VersionSelectAtMostOne(tail, u, version);
      if Matches(p, rows[0]) {
        assert forall i :: 0 <= i < |tail| ==> !Matches(p, tail[i]) by {
          forall i | 0 <= i < |tail|
            ensures !Matches(p, tail[i])
          {
            assert tail[i] == rows[i + 1];
          }
        }
        SelectNoMatch(tail, p);
      }
    }
  }

  lemma {:induction false} SelectNoMatch(rows: seq<AltoVersion>, p: Query)
    requires forall i :: 0 <= i < |rows| ==> !Matches(p, rows[i])
    ensures Select(rows, p) == []
    decreases |rows|
  {
    if |rows| > 0 {
      assert !Matches(p, rows[0]);
      assert forall i :: 0 <= i < |rows[1..]| ==> rows[1..][i] == rows[i + 1];
      SelectNoMatch(rows[1..], p);
    }
  }

  /** The first two selected rows come from different positions of the table. */
  lemma {:induction false} SelectTwo(rows: seq<AltoVersion>, p: Query)
    requires |Select(rows, p)| >= 2
    ensures exists i, j :: 0 <= i < j < |rows| && rows[i] == Select(rows, p)[0] && rows[j] == Select(rows, p)[1]
  {
    var rest := Select(rows[1..], p);
    if Matches(p, rows[0]) {
      assert rest[0] in rows[1..];
      var j :| 0 <= j < |rows[1..]| && rows[1..][j] == rest[0];
      assert rows[j + 1] == Select(rows, p)[1];
    } else {
      SelectTwo(rows[1..], p);
      var i, j :| 0 <= i < j < |rows[1..]| && rows[1..][i] == rest[0] && rows[1..][j] == rest[1];
      assert rows[i + 1] == Select(rows, p)[0] && rows[j + 1] == Select(rows, p)[1];
    }
  }

  /** findByDigitalObjectUuidAndUserId: the user's row of the object, when there is exactly one. */
  function FindByUuidAndUserId(rows: seq<AltoVersion>, u: Uuid, userId: int): (r: Result<Option<AltoVersion>, AltoError>)
    ensures r.Ok? && r.value.Some? ==> r.value.value in rows && OfObject(r.value.value, u) && OwnedBy(r.value.value, userId)
    ensures r == Ok(None) <==> forall x :: x in rows && OfObject(x, u) ==> !OwnedBy(x, userId)
  {
    var sel := OwnRows(rows, u, userId);
    assert |sel| > 0 ==> sel[0] in sel;
    Single(sel)
  }

  /** findFirstByDigitalObjectUuidAndInstance */
  function FindFirstByUuidAndInstance(rows: seq<AltoVersion>, u: Uuid, instance: string): (r: Option<AltoVersion>)
    ensures r.Some? ==> r.value in rows && OfObject(r.value, u) && r.value.instance == instance
    ensures r.None? <==> forall x :: x in rows && OfObject(x, u) ==> x.instance != instance
  {
    var sel := Select(rows, InstanceOf(u, instance));
    assert |sel| > 0 ==> sel[0] in sel;
    First(sel)
  }

  /** findFirstByDigitalObjectUuidOrderByVersionDesc: the row of the object with the highest version. */
  function MaxVersionRow(rows: seq<AltoVersion>, u: Uuid): (r: Option<AltoVersion>)
    ensures r.None? <==> forall x :: x in rows ==> !OfObject(x, u)
    ensures r.Some? ==>
      r.value in rows && OfObject(r.value, u) && forall x :: x in rows && OfObject(x, u) ==> x.version <= r.value.version
  {
    if |rows| == 0 then None
    else
      assert forall x :: x in rows <==> x == rows[0] || x in rows[1..];
      var rest := MaxVersionRow(rows[1..], u);
      if !OfObject(rows[0], u) then rest
      else if rest.Some? && rest.value.version > rows[0].version then rest
      else Some(rows[0])
  }

  /**
   * findRelated: among the object's rows owned by the user or ACTIVE, a row
   * of the user's comes first; LIMIT 1 keeps the first in table order.
   */
  function FindRelated(rows: seq<AltoVersion>, u: Uuid, userId: int): (r: Option<AltoVersion>)
    ensures r.Some? ==> r.value in rows && OfObject(r.value, u) && (OwnedBy(r.value, userId) || r.value.state == Some(Active))
    ensures (exists x :: x in rows && OfObject(x, u) && OwnedBy(x, userId)) ==> r.Some? && OwnedBy(r.value, userId)
    ensures r.None? <==> forall x :: x in rows && OfObject(x, u) ==> !OwnedBy(x, userId) && x.state != Some(Active)
  {
    var own := OwnRows(rows, u, userId);
    var active := ActiveRows(rows, u);
    assert |own| > 0 ==> own[0] in own;
    assert |active| > 0 ==> active[0] in active;
    if |own| > 0 then Some(own[0]) else First(active)
  }

  /** findById on the primary key. */
  function FindById(rows: seq<AltoVersion>, id: int): (r: Option<AltoVersion>)
    ensures r.Some? ==> r.value in rows && r.value.id == id
    ensures r.None? <==> forall x :: x in rows ==> x.id != id
  {
    var sel := Select(rows, WithId(id));
    assert |sel| > 0 ==> sel[0] in sel;
    First(sel)
  }

  // ---------------------------------------------------------------------
  // State changes as values

  /** setState on the row with the given id, then save. */
  function SetStateById(rows: seq<AltoVersion>, id: int, s: AltoVersionState): (r: seq<AltoVersion>)
    ensures |r| == |rows|
    ensures forall i :: 0 <= i < |rows| ==> r[i].(state := rows[i].state) == rows[i]
    ensures forall i :: 0 <= i < |rows| ==> r[i].state == if rows[i].id == id then Some(s) else rows[i].state
  {
    seq(|rows|, i requires 0 <= i < |rows| => if rows[i].id == id then rows[i].(state := Some(s)) else rows[i])
  }

  /** setObjectActive's effect: the target becomes ACTIVE, the object's other ACTIVE rows ARCHIVED. */
  function Accepted(rows: seq<AltoVersion>, id: int, o: Uuid): (r: seq<AltoVersion>)
    ensures |r| == |rows|
    ensures forall i :: 0 <= i < |rows| ==> r[i].(state := rows[i].state) == rows[i]
  {
    seq(|rows|, i requires 0 <= i < |rows| => AcceptedRow(rows[i], id, o))
  }

  function AcceptedRow(x: AltoVersion, id: int, o: Uuid): AltoVersion
  {
    if x.id == id then x.(state := Some(Active))
    else if OfObject(x, o) && x.state == Some(Active) then x.(state := Some(Archived))
    else x
  }

  /** Changing only states keeps the table's constraints. */
  lemma StatesOnlyKeepValid(rows: seq<AltoVersion>, after: seq<AltoVersion>, nextId: int)
    requires TableValid(rows, nextId)
    requires |after| == |rows| && forall i :: 0 <= i < |rows| ==> after[i].(state := rows[i].state) == rows[i]
    requires forall i :: 0 <= i < |rows| ==> after[i].state.Some?
    ensures TableValid(after, nextId)
  {
    forall i | 0 <= i < |rows|
      ensures after[i].id == rows[i].id && after[i].digitalObject == rows[i].digitalObject && after[i].version == rows[i].version
    {
      assert after[i].(state := rows[i].state).id == after[i].id;
    }
  }

  /** removeInstanceAssociation's effect on one row. */
  function WithoutInstance(x: AltoVersion, u: Uuid, instance: string): (r: AltoVersion)
  {
    if OfObject(x, u) then x.(presentInInstances := Without(x.presentInInstances, instance)) else x
  }

  function Without(xs: seq<string>, instance: string): (r: seq<string>)
    ensures forall y :: y in r <==> y in xs && y != instance
  {
    if |xs| == 0 then []
    else
      assert forall y :: y in xs <==> y == xs[0] || y in xs[1..];
      (if xs[0] == instance then [] else [xs[0]]) + Without(xs[1..], instance)
  }

  function RemoveInstance(rows: seq<AltoVersion>, u: Uuid, instance: string): (r: seq<AltoVersion>)
    ensures |r| == |rows|
  {
    seq(|rows|, i requires 0 <= i < |rows| => WithoutInstance(rows[i], u, instance))
  }

  /**
   * removeInstanceAssociation drops exactly the given instance from the
   * object's rows, keeps every other instance, and touches nothing else.
   */
  lemma RemoveInstanceEffect(rows: seq<AltoVersion>, u: Uuid, instance: string, i: nat, y: string)
    requires i < |rows|
    ensures var after := RemoveInstance(rows, u, instance);
      after[i].(presentInInstances := rows[i].presentInInstances) == rows[i]
      && (y in after[i].presentInInstances <==> y in rows[i].presentInInstances && !(OfObject(rows[i], u) && y == instance))
  {
  }

  // ---------------------------------------------------------------------
  // Derived getters

  /** getPid: null without a digital object. */
  function PagePid(r: AltoVersion): (p: Option<string>)
    ensures p.None? <==> r.digitalObject.None?
    ensures p.Some? ==> ToUuid(p) == Ok(r.digitalObject)
  {
    match r.digitalObject
    case None => None
    case Some(u) => ToUuidOfPid(u); Some(PidOf(u))
  }

  /** getUsername: null without a user. */
  function Username(r: AltoVersion): (n: Option<string>)
    ensures n.None? <==> r.user.None?
    ensures n.Some? ==> n.value == r.user.value.username
  {
    match r.user
    case None => None
    case Some(user) => Some(user.username)
  }

  /** getPageTitle: null without a digital object; the foreign key keeps the object stored. */
  function PageTitle(objs: OH.Objects, r: AltoVersion): (t: Option<string>)
    ensures r.digitalObject.None? ==> t.None?
    ensures r.digitalObject.Some? && r.digitalObject.value in objs ==> t == objs[r.digitalObject.value].title
  {
    match r.digitalObject
    case None => None
    case Some(u) => if u in objs then objs[u].title else None
  }

  /** Where getParent() starts: the parent of the row's object. */
  function ParentStart(objs: OH.Objects, r: AltoVersion): Option<Uuid>
  {
    match r.digitalObject
    case None => None
    case Some(u) => if u in objs then objs[u].parent else None
  }

  function UuidTexts(us: seq<Uuid>): (r: seq<string>)
    ensures |r| == |us| && forall k :: 0 <= k < |us| ==> r[k] == UuidText(us[k])
  {
    seq(|us|, k requires 0 <= k < |us| => UuidText(us[k]))
  }

  function Titles(objs: OH.Objects, us: seq<Uuid>): (r: seq<Option<string>>)
    requires forall k :: 0 <= k < |us| ==> us[k] in objs
    ensures |r| == |us| && forall k :: 0 <= k < |us| ==> r[k] == objs[us[k]].title
  {
    seq(|us|, k requires 0 <= k < |us| => objs[us[k]].title)
  }

  /** getAncestorPids as a value: the uuid texts from the nearest parent up to the root. */
  function AncestorPidsSpec(objs: OH.Objects, r: AltoVersion): Result<seq<string>, AltoError>
  {
    var c := OH.Ancestry(objs, ParentStart(objs, r));
    if c.complete then Ok(UuidTexts(c.visited)) else Err(Diverges)
  }

  /** getAncestorTitles as a value: the titles along the same chain. */
  function AncestorTitlesSpec(objs: OH.Objects, r: AltoVersion): Result<seq<Option<string>>, AltoError>
  {
    var c := OH.Ancestry(objs, ParentStart(objs, r));
    if c.complete then
      OH.ClimbShape(objs, ParentStart(objs, r), |objs|);
      Ok(Titles(objs, c.visited))
    else Err(Diverges)
  }

  /**
   * Both walks follow one chain: they succeed together, have the same
   * length, pair each uuid with its title, are empty without a digital
   * object, and never list the page itself.
   */
  lemma AncestorsAgree(objs: OH.Objects, r: AltoVersion)
    requires forall v :: v in objs ==> objs[v].uuid == v
    ensures AncestorPidsSpec(objs, r).Ok? <==> AncestorTitlesSpec(objs, r).Ok?
    ensures r.digitalObject.None? ==> AncestorPidsSpec(objs, r) == Ok([]) && AncestorTitlesSpec(objs, r) == Ok([])
    ensures AncestorPidsSpec(objs, r).Ok? ==>
      var ps := AncestorPidsSpec(objs, r).value; var ts := AncestorTitlesSpec(objs, r).value;
      |ps| == |ts|
      && (forall k :: 0 <= k < |ps| ==> exists v :: v in objs && ps[k] == UuidText(v) && ts[k] == objs[v].title)
      && (r.digitalObject.Some? ==> UuidText(r.digitalObject.value) !in ps)
  {
    var start := ParentStart(objs, r);
    var c := OH.Ancestry(objs, start);
    if c.complete {
      OH.ClimbShape(objs, start, |objs|);
      var ps := UuidTexts(c.visited);
      forall k | 0 <= k < |ps|
        ensures exists v :: v in objs && ps[k] == UuidText(v) && AncestorTitlesSpec(objs, r).value[k] == objs[v].title
      {
        assert c.visited[k] in objs;
      }
      if r.digitalObject.Some? {
        var u := r.digitalObject.value;
        if UuidText(u) in ps {
          var k :| 0 <= k < |ps| && ps[k] == UuidText(u);
          assert c.visited[k] == u;
          PageNotItsOwnAncestor(objs, u, k);
        }
      }
    }
  }

  /** A chain that reaches a root from an object's parent never comes back to the object. */
  lemma PageNotItsOwnAncestor(objs: OH.Objects, u: Uuid, k: nat)
    requires u in objs
    requires OH.Ancestry(objs, objs[u].parent).complete
    requires k < |OH.Ancestry(objs, objs[u].parent).visited|
    ensures OH.Ancestry(objs, objs[u].parent).visited[k] != u
  {
    var fuel := |objs|;
    var c := OH.Climb(objs, objs[u].parent, fuel);
    var whole := OH.Climb(objs, Some(u), fuel + 1);
    assert whole.visited == [u] + c.visited && whole.complete;
    OH.ClimbDistinct(objs, Some(u), fuel + 1);
    assert whole.visited[0] == u && whole.visited[k + 1] == c.visited[k];
  }

  // ---------------------------------------------------------------------
  // fetchNewAlto as values

  /** Kramerius metadata from the page upwards until a null answer (a null parentPid asks for nothing). */
  function Chain(kram: OH.Kramerius, pid: Option<string>, fuel: nat): Result<seq<KrameriusObjectMetadata>, AltoError>
    decreases fuel
  {
    if pid.None? || pid.value !in kram then Ok([])
    else if fuel == 0 then Err(Diverges)
    else
      var m := kram[pid.value];
      match Chain(kram, m.parentPid, fuel - 1)
      case Err(e) => Err(e)
      case Ok(rest) => Ok([m] + rest)
  }

  /**
   * The collected chain starts with the page's metadata, each entry is
   * followed by its parent's, and it ends at an entry whose parent Kramerius
   * does not know (or that has none); it is empty exactly when the page is unknown.
   */
  lemma {:induction false} ChainShape(kram: OH.Kramerius, pid: Option<string>, fuel: nat)
    requires Chain(kram, pid, fuel).Ok?
    ensures var c := Chain(kram, pid, fuel).value;
      (|c| == 0 <==> pid.None? || pid.value !in kram)
      && (|c| > 0 ==> pid.Some? && pid.value in kram && c[0] == kram[pid.value])
      && (forall k :: 0 <= k < |c| - 1 ==>
            c[k].parentPid.Some? && c[k].parentPid.value in kram && c[k + 1] == kram[c[k].parentPid.value])
      && (|c| > 0 ==> c[|c| - 1].parentPid.None? || c[|c| - 1].parentPid.value !in kram)
    decreases fuel
  {
    if pid.Some? && pid.value in kram {
      var m := kram[pid.value];
      ChainShape(kram, m.parentPid, fuel - 1);
      var rest := Chain(kram, m.parentPid, fuel - 1).value;
      var c := Chain(kram, pid, fuel).value;
      assert c == [m] + rest;
      assert forall k :: 1 <= k < |c| ==> c[k] == rest[k - 1];
    }
  }

  function PrependChain(stack: seq<KrameriusObjectMetadata>, r: Result<seq<KrameriusObjectMetadata>, AltoError>)
    : Result<seq<KrameriusObjectMetadata>, AltoError>
  {
    match r
    case Err(e) => Err(e)
    case Ok(rest) => Ok(stack + rest)
  }

  lemma PrependChainNil(r: Result<seq<KrameriusObjectMetadata>, AltoError>)
    ensures PrependChain([], r) == r
  {
    if r.Ok? {
      assert [] + r.value == r.value;
    }
  }

  /**
   * One entry of the linking loop: a stored object is reused as it is,
   * a missing one is created from the metadata under `target`.
   */
  function LinkStep(objs: OH.Objects, target: Option<Uuid>, m: KrameriusObjectMetadata)
    : (r: (OH.Objects, Result<Uuid, AltoError>))
    ensures forall v :: v in objs ==> v in r.0 && r.0[v] == objs[v]
    ensures r.1.Ok? ==> UuidOfPid(m.pid) == Ok(r.1.value) && r.1.value in r.0
    ensures r.1.Err? <==> UuidOfPid(m.pid).Err?
    ensures r.1.Err? ==> r.0 == objs
    ensures r.1.Ok? && r.1.value in objs ==> r.0 == objs
    ensures r.1.Ok? && r.1.value !in objs ==> r.0 == objs[r.1.value := OH.BuildObject(m, target).value]
    ensures (forall v :: v in objs ==> objs[v].uuid == v) ==> forall v :: v in r.0 ==> r.0[v].uuid == v
  {
    match UuidOfPid(m.pid)
    case Err(e) => (objs, Err(BadPid(e)))
    case Ok(u) =>
      if u in objs then (objs, Ok(u))
      else
        var o := OH.BuildObject(m, target).value;
        (objs[u := o], Ok(u))
  }

  /** The loop as written: the Stack iterated in push order, so from the page upwards. */
  function LinkLeafFirst(objs: OH.Objects, stack: seq<KrameriusObjectMetadata>, target: Option<Uuid>)
    : (r: (OH.Objects, Result<Option<Uuid>, AltoError>))
    ensures forall v :: v in objs ==> v in r.0 && r.0[v] == objs[v]
    ensures (forall v :: v in objs ==> objs[v].uuid == v) ==> forall v :: v in r.0 ==> r.0[v].uuid == v
    decreases |stack|
  {
    if |stack| == 0 then (objs, Ok(target))
    else
      var (next, r) := LinkStep(objs, target, stack[0]);
      if r.Err? then (next, Err(r.error)) else LinkLeafFirst(next, stack[1..], Some(r.value))
  }

  /** The loop as intended: popping the Stack, so from the root down to the page. */
  function LinkRootFirst(objs: OH.Objects, stack: seq<KrameriusObjectMetadata>, target: Option<Uuid>)
    : (r: (OH.Objects, Result<Option<Uuid>, AltoError>))
    ensures forall v :: v in objs ==> v in r.0 && r.0[v] == objs[v]
    ensures (forall v :: v in objs ==> objs[v].uuid == v) ==> forall v :: v in r.0 ==> r.0[v].uuid == v
    decreases |stack|
  {
    if |stack| == 0 then (objs, Ok(target))
    else
      var (next, r) := LinkStep(objs, target, stack[|stack| - 1]);
      if r.Err? then (next, Err(r.error)) else LinkRootFirst(next, stack[..|stack| - 1], Some(r.value))
  }

  lemma LinkRootFirstUnfold(objs: OH.Objects, stack: seq<KrameriusObjectMetadata>, target: Option<Uuid>)
    requires OH.AllPidsParse(stack) && |stack| > 0
    ensures var n := |stack| - 1; var step := LinkStep(objs, target, stack[n]);
      step.1 == Ok(OH.UuidsOf(stack)[n])
      && LinkRootFirst(objs, stack, target) == LinkRootFirst(step.0, stack[..n], Some(OH.UuidsOf(stack)[n]))
  {
  }

  lemma LinkLeafFirstUnfold(objs: OH.Objects, stack: seq<KrameriusObjectMetadata>, target: Option<Uuid>)
    requires OH.AllPidsParse(stack) && |stack| > 0
    ensures var step := LinkStep(objs, target, stack[0]);
      step.1 == Ok(OH.UuidsOf(stack)[0])
      && LinkLeafFirst(objs, stack, target) == LinkLeafFirst(step.0, stack[1..], Some(OH.UuidsOf(stack)[0]))
  {
  }

  /** Linking root first ends at the page, the stack's first entry. */
  lemma {:induction false} LinkRootFirstTarget(objs: OH.Objects, stack: seq<KrameriusObjectMetadata>, target: Option<Uuid>)
    requires OH.AllPidsParse(stack)
    ensures LinkRootFirst(objs, stack, target).1 == Ok(if |stack| == 0 then target else Some(OH.UuidsOf(stack)[0]))
    decreases |stack|
  {
    if |stack| > 0 {
      var n := |stack| - 1;
      LinkRootFirstUnfold(objs, stack, target);
      InitUuids(stack);
      LinkRootFirstTarget(LinkStep(objs, target, stack[n]).0, stack[..n], Some(OH.UuidsOf(stack)[n]));
    }
  }

  /** No uuid occurs twice. */
  predicate Distinct(us: seq<Uuid>)
  {
    forall i, j :: 0 <= i < j < |us| ==> us[i] != us[j]
  }

  lemma DistinctAt(us: seq<Uuid>, i: nat, j: nat)
    requires Distinct(us) && i < j < |us|
    ensures us[i] != us[j]
  {
  }

  /**
   * Linking root first creates each missing entry under the entry above it
   * (the root-most under `target`), when the entries name distinct objects.
   */
  lemma {:induction false} LinkRootFirstParents(objs: OH.Objects, stack: seq<KrameriusObjectMetadata>,
                                                target: Option<Uuid>, k: nat)
    requires OH.AllPidsParse(stack) && k < |stack|
    requires Distinct(OH.UuidsOf(stack))
    requires OH.UuidsOf(stack)[k] !in objs
    ensures var after := LinkRootFirst(objs, stack, target).0; var us := OH.UuidsOf(stack);
      us[k] in after
      && after[us[k]] == OH.BuildObject(stack[k], if k + 1 < |stack| then Some(us[k + 1]) else target).value
    decreases |stack|
  {
    var n := |stack| - 1;
    var us := OH.UuidsOf(stack);
    InitUuids(stack);
    var next := LinkStep(objs, target, stack[n]).0;
    if k < n {
      InitDistinct(stack);
      DistinctAt(us, k, n);
      assert us[k] !in next;
      LinkRootFirstParents(next, stack[..n], Some(us[n]), k);
      LinkRootFirstShift(objs, stack, target, k);
    } else {
      LinkRootFirstTop(objs, stack, target);
    }
  }

  /** The root-most entry, when missing, is created under `target`. */
  lemma LinkRootFirstTop(objs: OH.Objects, stack: seq<KrameriusObjectMetadata>, target: Option<Uuid>)
    requires OH.AllPidsParse(stack) && |stack| > 0
    requires OH.UuidsOf(stack)[|stack| - 1] !in objs
    ensures var after := LinkRootFirst(objs, stack, target).0; var n := |stack| - 1; var us := OH.UuidsOf(stack);
      us[n] in after && after[us[n]] == OH.BuildObject(stack[n], target).value
  {
    var n := |stack| - 1;
    var us := OH.UuidsOf(stack);
    LinkRootFirstUnfold(objs, stack, target);
    var step := LinkStep(objs, target, stack[n]);
    assert step.0[us[n]] == OH.BuildObject(stack[n], target).value;
    var r := LinkRootFirst(step.0, stack[..n], Some(us[n]));
    assert us[n] in r.0 && r.0[us[n]] == step.0[us[n]];
  }

  /** What linking the stack without its last entry creates, linking the whole stack creates. */
  lemma LinkRootFirstShift(objs: OH.Objects, stack: seq<KrameriusObjectMetadata>, target: Option<Uuid>, k: nat)
    requires OH.AllPidsParse(stack) && k + 1 < |stack|
    requires OH.AllPidsParse(stack[..|stack| - 1])
    requires var n := |stack| - 1; var us := OH.UuidsOf(stack); var init := stack[..n];
      var after := LinkRootFirst(LinkStep(objs, target, stack[n]).0, init, Some(us[n])).0;
      var vs := OH.UuidsOf(init);
      vs[k] in after && after[vs[k]] == OH.BuildObject(init[k], if k + 1 < n then Some(vs[k + 1]) else Some(us[n])).value
    ensures var after := LinkRootFirst(objs, stack, target).0; var us := OH.UuidsOf(stack);
      us[k] in after && after[us[k]] == OH.BuildObject(stack[k], Some(us[k + 1])).value
  {
    var n := |stack| - 1;
    var us := OH.UuidsOf(stack);
    LinkRootFirstUnfold(objs, stack, target);
    InitUuids(stack);
    var init := stack[..n];
    var vs := OH.UuidsOf(init);
    assert vs[k] == us[k] && init[k] == stack[k];
    assert (if k + 1 < n then Some(vs[k + 1]) else Some(us[n])) == Some(us[k + 1]);
  }

  /** Without its last entry, the stack keeps every other entry and its uuid. */
  lemma InitUuids(stack: seq<KrameriusObjectMetadata>)
    requires OH.AllPidsParse(stack) && |stack| > 0
    ensures var init := stack[..|stack| - 1]; var us := OH.UuidsOf(stack);
      OH.AllPidsParse(init) && us == OH.UuidsOf(init) + [us[|stack| - 1]]
      && forall i :: 0 <= i < |init| ==> init[i] == stack[i]
  {
    var init := stack[..|stack| - 1];
    assert forall i :: 0 <= i < |init| ==> init[i] == stack[i];
    assert OH.AllPidsParse(init);
  }

  /** The stack without its last entry names distinct objects too. */
  lemma InitDistinct(stack: seq<KrameriusObjectMetadata>)
    requires OH.AllPidsParse(stack) && |stack| > 0
    requires Distinct(OH.UuidsOf(stack))
    ensures OH.AllPidsParse(stack[..|stack| - 1]) && Distinct(OH.UuidsOf(stack[..|stack| - 1]))
  {
    InitUuids(stack);
    var us := OH.UuidsOf(stack);
    var vs := OH.UuidsOf(stack[..|stack| - 1]);
    forall i, j | 0 <= i < j < |vs| ensures vs[i] != vs[j] {
      assert vs[i] == us[i] && vs[j] == us[j];
      DistinctAt(us, i, j);
    }
  }

  /** As written, linking ends at the stack's last entry: the root of the chain, not the page. */
  lemma {:induction false} LinkLeafFirstTarget(objs: OH.Objects, stack: seq<KrameriusObjectMetadata>, target: Option<Uuid>)
    requires OH.AllPidsParse(stack)
    ensures LinkLeafFirst(objs, stack, target).1
      == Ok(if |stack| == 0 then target else Some(OH.UuidsOf(stack)[|stack| - 1]))
    decreases |stack|
  {
    if |stack| > 0 {
      LinkLeafFirstUnfold(objs, stack, target);
      assert OH.AllPidsParse(stack[1..]);
      if |stack| > 1 { TailUuidAt(stack, |stack| - 2); }
      LinkLeafFirstTarget(LinkStep(objs, target, stack[0]).0, stack[1..], Some(OH.UuidsOf(stack)[0]));
    }
  }

  /**
   * As written, each missing entry is created under the entry handled just
   * before it: the page under `target`, every ancestor under its own child.
   */
  lemma {:induction false} LinkLeafFirstParents(objs: OH.Objects, stack: seq<KrameriusObjectMetadata>,
                                                target: Option<Uuid>, k: nat)
    requires OH.AllPidsParse(stack) && k < |stack|
    requires Distinct(OH.UuidsOf(stack))
    requires OH.UuidsOf(stack)[k] !in objs
    ensures var after := LinkLeafFirst(objs, stack, target).0; var us := OH.UuidsOf(stack);
      us[k] in after && after[us[k]] == OH.BuildObject(stack[k], if k == 0 then target else Some(us[k - 1])).value
    decreases |stack|
  {
    var us := OH.UuidsOf(stack);
    if k == 0 {
      LinkLeafFirstHead(objs, stack, target);
    } else {
      var next := LinkStep(objs, target, stack[0]).0;
      LinkLeafFirstUnfold(objs, stack, target);
      TailUuidAt(stack, k - 1);
      if k > 1 { TailUuidAt(stack, k - 2); }
      RestDistinct(stack);
      LinkLeafFirstStillMissing(objs, stack, target, k);
      LinkLeafFirstParents(next, stack[1..], Some(us[0]), k - 1);
    }
  }

  /** The rest of the stack after its first entry names distinct objects too. */
  lemma RestDistinct(stack: seq<KrameriusObjectMetadata>)
    requires OH.AllPidsParse(stack) && |stack| > 0
    requires Distinct(OH.UuidsOf(stack))
    ensures OH.AllPidsParse(stack[1..]) && Distinct(OH.UuidsOf(stack[1..]))
  {
    assert OH.AllPidsParse(stack[1..]);
    var vs := OH.UuidsOf(stack[1..]);
    forall i, j | 0 <= i < j < |vs| ensures vs[i] != vs[j] {
      TailUuidAt(stack, i);
      TailUuidAt(stack, j);
      DistinctAt(OH.UuidsOf(stack), i + 1, j + 1);
    }
  }

  /** After the first entry, the rest of the stack holds entry `i + 1` as entry `i`. */
  lemma TailUuidAt(stack: seq<KrameriusObjectMetadata>, i: nat)
    requires OH.AllPidsParse(stack) && i + 1 < |stack|
    ensures OH.AllPidsParse(stack[1..]) && stack[1..][i] == stack[i + 1]
    ensures OH.UuidsOf(stack[1..])[i] == OH.UuidsOf(stack)[i + 1]
  {
    assert OH.AllPidsParse(stack[1..]);
    assert stack[1..][i] == stack[i + 1];
  }

  /** Handling the first entry does not create entry `k`. */
  lemma LinkLeafFirstStillMissing(objs: OH.Objects, stack: seq<KrameriusObjectMetadata>, target: Option<Uuid>, k: nat)
    requires OH.AllPidsParse(stack) && 0 < k < |stack|
    requires Distinct(OH.UuidsOf(stack))
    requires OH.UuidsOf(stack)[k] !in objs
    ensures OH.UuidsOf(stack)[k] !in LinkStep(objs, target, stack[0]).0
  {
    DistinctAt(OH.UuidsOf(stack), 0, k);
  }

  /** The first entry, when missing, is created under `target` and kept by the rest of the loop. */
  lemma LinkLeafFirstHead(objs: OH.Objects, stack: seq<KrameriusObjectMetadata>, target: Option<Uuid>)
    requires OH.AllPidsParse(stack) && |stack| > 0
    requires OH.UuidsOf(stack)[0] !in objs
    ensures var after := LinkLeafFirst(objs, stack, target).0; var u := OH.UuidsOf(stack)[0];
      u in after && after[u] == OH.BuildObject(stack[0], target).value
  {
    LinkLeafFirstUnfold(objs, stack, target);
    var u := OH.UuidsOf(stack)[0];
    var next := LinkStep(objs, target, stack[0]).0;
    assert u in next && next[u] == OH.BuildObject(stack[0], target).value;
  }

  /** The version-0 row fetchNewAlto builds: owner, object, instance and version 0; the state is a parameter. */
  function InitialRow(digitalObject: Option<Uuid>, user: User, instance: string, state: Option<AltoVersionState>)
    : AltoVersion
  {
    AltoVersion(0, digitalObject, 0, Some(user), instance, state, None, [])
  }

  /** The stored state the service works on: the table, the digital objects and the blob store. */
  datatype World = World(rows: seq<AltoVersion>, nextId: int, objects: OH.Objects, blobs: map<string, Akubra.Bytes>)

  datatype Outcome<T> = Outcome(world: World, result: Result<T, AltoError>)

  /** retrieveDsBinaryContent(obj.getDigitalObject().getPid(), ds, obj.getVersion()) */
  function RowContent(blobs: map<string, Akubra.Bytes>, row: AltoVersion, ds: Akubra.Datastream)
    : (r: Result<Akubra.Bytes, AltoError>)
    ensures row.digitalObject.None? ==> r == Err(NullObject)
    ensures row.digitalObject.Some? ==>
      (r.Ok? <==> Akubra.DsKey(PidOf(row.digitalObject.value), ds, row.version) in blobs)
      && (r.Ok? ==> r.value == blobs[Akubra.DsKey(PidOf(row.digitalObject.value), ds, row.version)])
  {
    match row.digitalObject
    case None => Err(NullObject)
    case Some(u) =>
      var key := Akubra.DsKey(PidOf(u), ds, row.version);
      if key in blobs then Ok(blobs[key]) else Err(Storage(Akubra.NotFound(PidOf(u), key)))
  }

  /** new AltoVersionWithContent(row, retrieveDsBinaryContent(...)) */
  function WithItsContent(blobs: map<string, Akubra.Bytes>, row: AltoVersion): (r: Result<WithContent, AltoError>)
    ensures r.Ok? <==> RowContent(blobs, row, Akubra.Alto).Ok?
    ensures r.Ok? ==> r.value.altoVersion == row && r.value.content == RowContent(blobs, row, Akubra.Alto).value
  {
    match RowContent(blobs, row, Akubra.Alto)
    case Err(e) => Err(e)
    case Ok(c) => Ok(WithContent(row, c))
  }

  /** Different objects never share a blob key. */
  lemma DsKeyDistinctObjects(u: Uuid, v: Uuid, ds: Akubra.Datastream, version: int)
    requires u != v
    ensures Akubra.DsKey(PidOf(u), ds, version) != Akubra.DsKey(PidOf(v), ds, version)
  {
    var ku := Akubra.DsKey(PidOf(u), ds, version);
    var kv := Akubra.DsKey(PidOf(v), ds, version);
    assert ku[..41] == PidOf(u) && kv[..41] == PidOf(v);
    if ku == kv {
      PidOfInjective(u, v);
    }
  }

  // ---------------------------------------------------------------------
  // fetchNewAlto

  /** The last stage: save the version-0 row, then read its content back under its object's PID. */
  function StoreInitial(w: World, users: seq<User>, target: Option<Uuid>, instance: string, userId: int,
                        state: Option<AltoVersionState>): Outcome<WithContent>
  {
    match GetUserById(users, userId)
    case Err(e) => Outcome(w, Err(UserLookup(e)))
    case Ok(user) =>
      match InsertRow(w.rows, w.nextId, InitialRow(target, user, instance, state))
      case Err(e) => Outcome(w, Err(e))
      case Ok(ins) =>
        var w2 := w.(rows := ins.rows, nextId := ins.nextId);
        Outcome(w2, WithItsContent(w2.blobs, ins.row))
  }

  function Linked(objs: OH.Objects, stack: seq<KrameriusObjectMetadata>, leafFirst: bool)
    : (OH.Objects, Result<Option<Uuid>, AltoError>)
  {
    if leafFirst then LinkLeafFirst(objs, stack, None) else LinkRootFirst(objs, stack, None)
  }

  /** Link the chain's objects, store the ALTO as version 0 of `pid`, and save the row. */
  function LinkAndStore(w: World, users: seq<User>, stack: seq<KrameriusObjectMetadata>, pid: string,
                        alto: Akubra.Bytes, instance: string, userId: int, leafFirst: bool,
                        state: Option<AltoVersionState>): Outcome<WithContent>
  {
    var (objs, t) := Linked(w.objects, stack, leafFirst);
    if t.Err? then Outcome(w.(objects := objs), Err(t.error))
    else
      StoreInitial(w.(objects := objs, blobs := w.blobs[Akubra.DsKey(pid, Akubra.Alto, 0) := alto]),
                   users, t.value, instance, userId, state)
  }

  /**
   * fetchNewAlto with the linking order and the initial state as
   * parameters; the FOXML and Kramerius' metadata answers are inputs.
   */
  function FetchOutcome(w: World, users: seq<User>, kram: OH.Kramerius, foxml: Akubra.Foxml, pid: string,
                        instance: string, userId: int, leafFirst: bool, state: Option<AltoVersionState>)
    : Outcome<WithContent>
  {
    match UuidOfPid(pid)
    case Err(e) => Outcome(w, Err(BadPid(e)))
    case Ok(u) =>
      if ExistsByUuid(w.rows, u) then Outcome(w, Err(AlreadyExists(pid)))
      else
        match Akubra.LatestDsContent(foxml, Akubra.DatastreamId(Akubra.Alto))
        case Err(e) => Outcome(w, Err(Storage(e)))
        case Ok(None) => Outcome(w, Err(AltoNotFound(pid)))
        case Ok(Some(alto)) =>
          match Chain(kram, Some(pid), |kram|)
          case Err(e) => Outcome(w, Err(e))
          case Ok(stack) => LinkAndStore(w, users, stack, pid, alto, instance, userId, leafFirst, state)
  }

  /** fetchNewAlto as written: the Stack iterated leaf first, version 0 built without a state. */
  function FetchAsWritten(w: World, users: seq<User>, kram: OH.Kramerius, foxml: Akubra.Foxml, pid: string,
                          instance: string, userId: int): Outcome<WithContent>
  {
    FetchOutcome(w, users, kram, foxml, pid, instance, userId, true, None)
  }

  /** fetchNewAlto as intended: objects linked root first, version 0 saved ACTIVE. */
  function FetchSpec(w: World, users: seq<User>, kram: OH.Kramerius, foxml: Akubra.Foxml, pid: string,
                     instance: string, userId: int): Outcome<WithContent>
  {
    FetchOutcome(w, users, kram, foxml, pid, instance, userId, false, Some(Active))
  }

  /** Appending a row appends it to a selection it matches. */
  lemma {:induction false} SelectAppend(rows: seq<AltoVersion>, x: AltoVersion, p: Query)
    ensures Select(rows + [x], p) == Select(rows, p) + (if Matches(p, x) then [x] else [])
    decreases |rows|
  {
    if |rows| > 0 {
      SelectAppend(rows[1..], x, p);
      SelectAppendStep(rows, x, p);
    }
  }

  lemma SelectAppendStep(rows: seq<AltoVersion>, x: AltoVersion, p: Query)
    requires |rows| > 0
    requires Select(rows[1..] + [x], p) == Select(rows[1..], p) + (if Matches(p, x) then [x] else [])
    ensures Select(rows + [x], p) == Select(rows, p) + (if Matches(p, x) then [x] else [])
  {
    var head := if Matches(p, rows[0]) then [rows[0]] else [];
    var tail := if Matches(p, x) then [x] else [];
    var mid := Select(rows[1..], p);
    calc {
      Select(rows + [x], p);
      { assert (rows + [x])[0] == rows[0]; }
      head + Select((rows + [x])[1..], p);
      { assert (rows + [x])[1..] == rows[1..] + [x]; }
      head + (mid + tail);
      { SeqAssoc(head, mid, tail); }
      (head + mid) + tail;
    }
  }

  /** With unique ids, a selection whose rows are all one row holds it at most once. */
  lemma SelectAtMostOne(rows: seq<AltoVersion>, p: Query, y: AltoVersion)
    requires UniqueIds(rows)
    requires forall k :: 0 <= k < |Select(rows, p)| ==> Select(rows, p)[k] == y
    ensures |Select(rows, p)| <= 1
  {
    if |Select(rows, p)| >= 2 {
      SelectTwo(rows, p);
    }
  }

  /** The saved version-0 row of a page without versions is the page's only ACTIVE row. */
  lemma StoreInitialOutcome(w: World, users: seq<User>, u: Uuid, instance: string, userId: int)
    requires TableValid(w.rows, w.nextId) && !ExistsByUuid(w.rows, u)
    requires GetUserById(users, userId).Ok?
    requires Akubra.DsKey(PidOf(u), Akubra.Alto, 0) in w.blobs
    ensures var out := StoreInitial(w, users, Some(u), instance, userId, Some(Active));
      var row := InitialRow(Some(u), GetUserById(users, userId).value, instance, Some(Active)).(id := w.nextId);
      out.result == Ok(WithContent(row, w.blobs[Akubra.DsKey(PidOf(u), Akubra.Alto, 0)]))
      && out.world == w.(rows := w.rows + [row], nextId := w.nextId + 1)
      && TableValid(out.world.rows, out.world.nextId)
      && FindActive(out.world.rows, u) == Ok(Some(row))
  {
    var user := GetUserById(users, userId).value;
    var row := InitialRow(Some(u), user, instance, Some(Active));
    assert !VersionTaken(w.rows, row.digitalObject, row.version);
    var ins := InsertRow(w.rows, w.nextId, row);
    assert ins.Ok? && ins.value.row == row.(id := w.nextId);
    ActiveOfNewObject(w.rows, row.(id := w.nextId), u);
  }

  /** A row appended for an object without rows is that object's only ACTIVE row, when it is ACTIVE. */
  lemma ActiveOfNewObject(rows: seq<AltoVersion>, x: AltoVersion, u: Uuid)
    requires !ExistsByUuid(rows, u) && OfObject(x, u) && x.state == Some(Active)
    ensures FindActive(rows + [x], u) == Ok(Some(x))
  {
    SelectAppend(rows, x, ActiveOf(u));
    NoActiveOfNewObject(rows, u);
    assert ActiveRows(rows + [x], u) == [] + [x];
  }

  /** An object without rows has no ACTIVE rows. */
  lemma {:induction false} NoActiveOfNewObject(rows: seq<AltoVersion>, u: Uuid)
    requires !ExistsByUuid(rows, u)
    ensures ActiveRows(rows, u) == []
    decreases |rows|
  {
    if |rows| > 0 {
      assert !OfObject(rows[0], u);
      assert forall i :: 0 <= i < |rows| - 1 ==> rows[1..][i] == rows[i + 1];
      NoActiveOfNewObject(rows[1..], u);
    }
  }

  /**
   * A first fetch of a page whose chain names distinct objects creates the
   * missing objects root first, each under the next one up, stores version 0
   * as the page's only ACTIVE row, and returns it with the fetched ALTO.
   */
  lemma FetchSpecOutcome(w: World, users: seq<User>, kram: OH.Kramerius, foxml: Akubra.Foxml, u: Uuid,
                         instance: string, userId: int, alto: Akubra.Bytes)
    requires TableValid(w.rows, w.nextId) && !ExistsByUuid(w.rows, u)
    requires Akubra.LatestDsContent(foxml, Akubra.DatastreamId(Akubra.Alto)) == Ok(Some(alto))
    requires PidOf(u) in kram && kram[PidOf(u)].pid == PidOf(u)
    requires Chain(kram, Some(PidOf(u)), |kram|).Ok?
    requires OH.AllPidsParse(Chain(kram, Some(PidOf(u)), |kram|).value)
    requires Distinct(OH.UuidsOf(Chain(kram, Some(PidOf(u)), |kram|).value))
    requires GetUserById(users, userId).Ok?
    ensures var out := FetchSpec(w, users, kram, foxml, PidOf(u), instance, userId);
      var stack := Chain(kram, Some(PidOf(u)), |kram|).value; var us := OH.UuidsOf(stack);
      var row := InitialRow(Some(u), GetUserById(users, userId).value, instance, Some(Active)).(id := w.nextId);
      out.result == Ok(WithContent(row, alto))
      && out.world.rows == w.rows + [row]
      && TableValid(out.world.rows, out.world.nextId)
      && FindActive(out.world.rows, u) == Ok(Some(row))
      && (forall k :: 0 <= k < |stack| && us[k] !in w.objects ==>
            us[k] in out.world.objects
            && out.world.objects[us[k]]
               == OH.BuildObject(stack[k], if k + 1 < |stack| then Some(us[k + 1]) else None).value)
  {
    var pid := PidOf(u);
    var stack := Chain(kram, Some(pid), |kram|).value;
    FetchReachesLinking(w, users, kram, foxml, u, instance, userId, alto, false, Some(Active));
    RootFirstLinksPage(w.objects, kram, u);
    var objs := LinkRootFirst(w.objects, stack, None).0;
    var w2 := w.(objects := objs, blobs := w.blobs[Akubra.DsKey(pid, Akubra.Alto, 0) := alto]);
    assert LinkAndStore(w, users, stack, pid, alto, instance, userId, false, Some(Active))
        == StoreInitial(w2, users, Some(u), instance, userId, Some(Active));
    StoreInitialOutcome(w2, users, u, instance, userId);
  }

  /** Linking the page's chain root first ends at the page and builds each missing entry under its parent. */
  lemma RootFirstLinksPage(objs: OH.Objects, kram: OH.Kramerius, u: Uuid)
    requires PidOf(u) in kram && kram[PidOf(u)].pid == PidOf(u)
    requires Chain(kram, Some(PidOf(u)), |kram|).Ok?
    requires OH.AllPidsParse(Chain(kram, Some(PidOf(u)), |kram|).value)
    requires Distinct(OH.UuidsOf(Chain(kram, Some(PidOf(u)), |kram|).value))
    ensures var stack := Chain(kram, Some(PidOf(u)), |kram|).value; var us := OH.UuidsOf(stack);
      var linked := LinkRootFirst(objs, stack, None);
      linked.1 == Ok(Some(u))
      && forall k :: 0 <= k < |stack| && us[k] !in objs ==>
           us[k] in linked.0
           && linked.0[us[k]] == OH.BuildObject(stack[k], if k + 1 < |stack| then Some(us[k + 1]) else None).value
  {
    var pid := PidOf(u);
    ToUuidOfPid(u);
    var stack := Chain(kram, Some(pid), |kram|).value;
    var us := OH.UuidsOf(stack);
    ChainShape(kram, Some(pid), |kram|);
    assert stack[0] == kram[pid];
    assert us[0] == u;
    LinkRootFirstTarget(objs, stack, None);
    forall k | 0 <= k < |stack| && us[k] !in objs
      ensures us[k] in LinkRootFirst(objs, stack, None).0
      ensures LinkRootFirst(objs, stack, None).0[us[k]]
              == OH.BuildObject(stack[k], if k + 1 < |stack| then Some(us[k + 1]) else None).value
    {
      LinkRootFirstParents(objs, stack, None, k);
    }
  }

  /** As written, fetchNewAlto never returns a row and never adds one to the table. */
  lemma FetchAsWrittenNeverSaves(w: World, users: seq<User>, kram: OH.Kramerius, foxml: Akubra.Foxml, pid: string,
                                 instance: string, userId: int)
    ensures var out := FetchAsWritten(w, users, kram, foxml, pid, instance, userId);
      out.result.Err? && out.world.rows == w.rows && out.world.nextId == w.nextId
  {
  }

  /**
   * As written, a first fetch that reaches the save is refused for the null
   * state, after the objects were linked and the ALTO was written to the
   * blob store.
   */
  lemma FetchAsWrittenRefusedAtSave(w: World, users: seq<User>, kram: OH.Kramerius, foxml: Akubra.Foxml, u: Uuid,
                                    instance: string, userId: int, alto: Akubra.Bytes)
    requires !ExistsByUuid(w.rows, u)
    requires Akubra.LatestDsContent(foxml, Akubra.DatastreamId(Akubra.Alto)) == Ok(Some(alto))
    requires PidOf(u) in kram
    requires Chain(kram, Some(PidOf(u)), |kram|).Ok?
    requires OH.AllPidsParse(Chain(kram, Some(PidOf(u)), |kram|).value)
    requires GetUserById(users, userId).Ok?
    ensures var out := FetchAsWritten(w, users, kram, foxml, PidOf(u), instance, userId);
      out.result == Err(NullColumn("state"))
      && out.world.rows == w.rows
      && Akubra.DsKey(PidOf(u), Akubra.Alto, 0) in out.world.blobs
      && out.world.blobs[Akubra.DsKey(PidOf(u), Akubra.Alto, 0)] == alto
  {
    ToUuidOfPid(u);
    var stack := Chain(kram, Some(PidOf(u)), |kram|).value;
    LinkLeafFirstTarget(w.objects, stack, None);
  }

  /**
   * Even with the state set, linking leaf first attaches version 0 to the
   * root of the chain instead of the page, creates the page without a parent
   * and the root under its child, and then reads the content from the root's
   * key, where nothing was stored.
   */
  lemma FetchLeafFirstMisfiles(w: World, users: seq<User>, kram: OH.Kramerius, foxml: Akubra.Foxml, u: Uuid,
                               instance: string, userId: int, alto: Akubra.Bytes)
    requires TableValid(w.rows, w.nextId) && !ExistsByUuid(w.rows, u)
    requires Akubra.LatestDsContent(foxml, Akubra.DatastreamId(Akubra.Alto)) == Ok(Some(alto))
    requires PidOf(u) in kram && kram[PidOf(u)].pid == PidOf(u)
    requires Chain(kram, Some(PidOf(u)), |kram|).Ok?
    requires |Chain(kram, Some(PidOf(u)), |kram|).value| >= 2
    requires OH.AllPidsParse(Chain(kram, Some(PidOf(u)), |kram|).value)
    requires var us := OH.UuidsOf(Chain(kram, Some(PidOf(u)), |kram|).value);
      Distinct(us) && us[0] !in w.objects && us[|us| - 1] !in w.objects
      && !ExistsByUuid(w.rows, us[|us| - 1])
      && Akubra.DsKey(PidOf(us[|us| - 1]), Akubra.Alto, 0) !in w.blobs
    requires GetUserById(users, userId).Ok?
    ensures var stack := Chain(kram, Some(PidOf(u)), |kram|).value; var us := OH.UuidsOf(stack);
      var root := us[|us| - 1];
      var out := FetchOutcome(w, users, kram, foxml, PidOf(u), instance, userId, true, Some(Active));
      out.result == Err(Storage(Akubra.NotFound(PidOf(root), Akubra.DsKey(PidOf(root), Akubra.Alto, 0))))
      && |out.world.rows| == |w.rows| + 1 && out.world.rows[|w.rows|].digitalObject == Some(root)
      && u in out.world.objects && out.world.objects[u].parent.None?
      && root in out.world.objects && out.world.objects[root].parent == Some(us[|us| - 2])
      && Akubra.DsKey(PidOf(u), Akubra.Alto, 0) in out.world.blobs
      && out.world.blobs[Akubra.DsKey(PidOf(u), Akubra.Alto, 0)] == alto
  {
    var pid := PidOf(u);
    var stack := Chain(kram, Some(pid), |kram|).value;
    FetchReachesLinking(w, users, kram, foxml, u, instance, userId, alto, true, Some(Active));
    var us := OH.UuidsOf(stack);
    var n := |us| - 1;
    ToUuidOfPid(u);
    ChainShape(kram, Some(pid), |kram|);
    assert stack[0] == kram[pid];
    assert us[0] == u;
    LinkLeafFirstTarget(w.objects, stack, None);
    LinkLeafFirstParents(w.objects, stack, None, 0);
    LinkLeafFirstParents(w.objects, stack, None, n);
    var root := us[n];
    DsKeyDistinctObjects(root, u, Akubra.Alto, 0);
    var objs := LinkLeafFirst(w.objects, stack, None).0;
    var w2 := w.(objects := objs, blobs := w.blobs[Akubra.DsKey(pid, Akubra.Alto, 0) := alto]);
    assert LinkAndStore(w, users, stack, pid, alto, instance, userId, true, Some(Active))
        == StoreInitial(w2, users, Some(root), instance, userId, Some(Active));
    StoreInitialMissingContent(w2, users, root, instance, userId, Some(Active));
    assert UuidOfPid(stack[0].pid).Ok? && UuidOfPid(stack[n].pid).Ok?;
    assert objs[u].parent.None?;
    assert objs[root].parent == Some(us[n - 1]);
    var out := FetchOutcome(w, users, kram, foxml, pid, instance, userId, true, Some(Active));
    assert out.world.objects == objs;
  }

  /** A fetch of a page without versions whose ALTO and chain are found goes on to linking and storing. */
  lemma FetchReachesLinking(w: World, users: seq<User>, kram: OH.Kramerius, foxml: Akubra.Foxml, u: Uuid,
                            instance: string, userId: int, alto: Akubra.Bytes, leafFirst: bool,
                            state: Option<AltoVersionState>)
    requires !ExistsByUuid(w.rows, u)
    requires Akubra.LatestDsContent(foxml, Akubra.DatastreamId(Akubra.Alto)) == Ok(Some(alto))
    requires Chain(kram, Some(PidOf(u)), |kram|).Ok?
    ensures FetchOutcome(w, users, kram, foxml, PidOf(u), instance, userId, leafFirst, state)
      == LinkAndStore(w, users, Chain(kram, Some(PidOf(u)), |kram|).value, PidOf(u), alto, instance, userId,
                      leafFirst, state)
  {
    ToUuidOfPid(u);
  }

  /**
   * Saving version 0 for an object without rows succeeds, and reading it
   * back fails when nothing is stored under that object's key.
   */
  lemma StoreInitialMissingContent(w: World, users: seq<User>, v: Uuid, instance: string, userId: int,
                                   state: Option<AltoVersionState>)
    requires !ExistsByUuid(w.rows, v) && state.Some?
    requires GetUserById(users, userId).Ok?
    requires Akubra.DsKey(PidOf(v), Akubra.Alto, 0) !in w.blobs
    ensures var out := StoreInitial(w, users, Some(v), instance, userId, state);
      out.result == Err(Storage(Akubra.NotFound(PidOf(v), Akubra.DsKey(PidOf(v), Akubra.Alto, 0))))
      && out.world == w.(rows := w.rows + [InitialRow(Some(v), GetUserById(users, userId).value, instance, state)
                                             .(id := w.nextId)],
                         nextId := w.nextId + 1)
  {
    var row := InitialRow(Some(v), GetUserById(users, userId).value, instance, state);
    assert !VersionTaken(w.rows, row.digitalObject, row.version);
  }

  // ---------------------------------------------------------------------
  // Reading versions

  /** findRelatedAlto: null without a related row, else that row with its content. */
  function FindRelatedAltoSpec(w: World, pid: string, userId: int): (r: Result<Option<WithContent>, AltoError>)
    ensures UuidOfPid(pid).Err? ==> r == Err(BadPid(UuidOfPid(pid).error))
    ensures UuidOfPid(pid).Ok? ==> var u := UuidOfPid(pid).value;
      (r == Ok(None) <==> forall x :: x in w.rows && OfObject(x, u) ==> !OwnedBy(x, userId) && x.state != Some(Active))
      && (r.Ok? && r.value.Some? ==>
            var row := r.value.value.altoVersion;
            row in w.rows && OfObject(row, u) && (OwnedBy(row, userId) || row.state == Some(Active))
            && ((exists x :: x in w.rows && OfObject(x, u) && OwnedBy(x, userId)) ==> OwnedBy(row, userId))
            && Akubra.DsKey(PidOf(u), Akubra.Alto, row.version) in w.blobs
            && r.value.value.content == w.blobs[Akubra.DsKey(PidOf(u), Akubra.Alto, row.version)])
  {
    match UuidOfPid(pid)
    case Err(e) => Err(BadPid(e))
    case Ok(u) =>
      match FindRelated(w.rows, u, userId)
      case None => Ok(None)
      case Some(row) =>
        match WithItsContent(w.blobs, row)
        case Err(e) => Err(e)
        case Ok(c) => Ok(Some(c))
  }

  /** getAltoVersion: the row of that version with its content, or AltoVersionNotFoundException. */
  function GetAltoVersionSpec(w: World, pid: string, version: int): (r: Result<WithContent, AltoError>)
    ensures UuidOfPid(pid).Err? ==> r == Err(BadPid(UuidOfPid(pid).error))
    ensures UuidOfPid(pid).Ok? ==> var u := UuidOfPid(pid).value;
      (r == Err(VersionNotFound(pid)) <==> forall x :: x in w.rows && OfObject(x, u) ==> x.version != version)
      && (r.Ok? ==>
            r.value.altoVersion in w.rows && OfObject(r.value.altoVersion, u) && r.value.altoVersion.version == version
            && Akubra.DsKey(PidOf(u), Akubra.Alto, version) in w.blobs
            && r.value.content == w.blobs[Akubra.DsKey(PidOf(u), Akubra.Alto, version)])
  {
    match UuidOfPid(pid)
    case Err(e) => Err(BadPid(e))
    case Ok(u) =>
      match FindByUuidAndVersion(w.rows, u, version)
      case Err(e) => Err(e)
      case Ok(None) => Err(VersionNotFound(pid))
      case Ok(Some(row)) => WithItsContent(w.blobs, row)
  }

  /** getActiveAlto: the ACTIVE row with its content, or AltoVersionNotFoundException. */
  function GetActiveSpec(w: World, pid: string): (r: Result<WithContent, AltoError>)
    ensures UuidOfPid(pid).Err? ==> r == Err(BadPid(UuidOfPid(pid).error))
    ensures UuidOfPid(pid).Ok? ==> var u := UuidOfPid(pid).value;
      (r == Err(VersionNotFound(pid)) <==> forall x :: x in w.rows && OfObject(x, u) ==> x.state != Some(Active))
      && (r.Ok? ==>
            r.value.altoVersion in w.rows && OfObject(r.value.altoVersion, u) && r.value.altoVersion.state == Some(Active)
            && Akubra.DsKey(PidOf(u), Akubra.Alto, r.value.altoVersion.version) in w.blobs
            && r.value.content == w.blobs[Akubra.DsKey(PidOf(u), Akubra.Alto, r.value.altoVersion.version)])
  {
    match UuidOfPid(pid)
    case Err(e) => Err(BadPid(e))
    case Ok(u) =>
      match FindActive(w.rows, u)
      case Err(e) => Err(e)
      case Ok(None) => Err(VersionNotFound(pid))
      case Ok(Some(row)) => WithItsContent(w.blobs, row)
  }

  /** getOcr: the row's ALTO converted by `toOcr`, or AltoVersionNotFoundException for an unknown id. */
  function GetOcrSpec(w: World, id: int, toOcr: Akubra.Bytes -> string): (r: Result<string, AltoError>)
    ensures r == Err(VersionIdNotFound(id)) <==> forall x :: x in w.rows ==> x.id != id
    ensures r.Ok? ==>
      exists x :: x in w.rows && x.id == id && RowContent(w.blobs, x, Akubra.Alto).Ok?
        && r.value == toOcr(RowContent(w.blobs, x, Akubra.Alto).value)
  {
    match FindById(w.rows, id)
    case None => Err(VersionIdNotFound(id))
    case Some(row) =>
      match RowContent(w.blobs, row, Akubra.Alto)
      case Err(e) => Err(e)
      case Ok(c) => Ok(toOcr(c))
  }

  // ---------------------------------------------------------------------
  // Writing versions

  /** The row createNewAltoVersion saves: owner, instance and object of the max row, the next version, PENDING. */
  function NextVersionRow(m: AltoVersion): AltoVersion
  {
    AltoVersion(0, m.digitalObject, m.version + 1, m.user, m.instance, Some(Pending), None, [])
  }

  /** createNewAltoVersion */
  function CreateSpec(w: World, pid: string, content: Akubra.Bytes): (out: Outcome<WithContent>)
    ensures UuidOfPid(pid).Ok? && !ExistsByUuid(w.rows, UuidOfPid(pid).value) ==>
      out == Outcome(w, Err(VersionNotFound(pid)))
  {
    match UuidOfPid(pid)
    case Err(e) => Outcome(w, Err(BadPid(e)))
    case Ok(u) =>
      match MaxVersionRow(w.rows, u)
      case None => Outcome(w, Err(VersionNotFound(pid)))
      case Some(m) => CreateAbove(w, pid, m, content)
  }

  /** Store the content under the version above m, then insert m's successor row. */
  function CreateAbove(w: World, pid: string, m: AltoVersion, content: Akubra.Bytes): Outcome<WithContent>
  {
    var w2 := w.(blobs := w.blobs[Akubra.DsKey(pid, Akubra.Alto, m.version + 1) := content]);
    match InsertRow(w2.rows, w2.nextId, NextVersionRow(m))
    case Err(e) => Outcome(w2, Err(e))
    case Ok(ins) => Outcome(w2.(rows := ins.rows, nextId := ins.nextId), Ok(WithContent(ins.row, content)))
  }

  /**
   * A new version is one above every existing version of the page, PENDING,
   * owned by the owner of the highest version (not the caller), never
   * refused by the unique constraint, and its content is stored under it.
   */
  lemma CreateFresh(w: World, pid: string, content: Akubra.Bytes)
    requires TableValid(w.rows, w.nextId)
    requires UuidOfPid(pid).Ok? && ExistsByUuid(w.rows, UuidOfPid(pid).value)
    ensures var u := UuidOfPid(pid).value; var out := CreateSpec(w, pid, content);
      var m := MaxVersionRow(w.rows, u);
      m.Some? && out.result.Ok?
      && var row := out.result.value.altoVersion;
      OfObject(row, u) && row.state == Some(Pending)
      && (forall x :: x in w.rows && OfObject(x, u) ==> x.version < row.version)
      && row.version == m.value.version + 1
      && row.user == m.value.user && row.instance == m.value.instance
      && out.result.value.content == content
      && out.world.rows == w.rows + [row]
      && TableValid(out.world.rows, out.world.nextId)
      && out.world.blobs == w.blobs[Akubra.DsKey(pid, Akubra.Alto, row.version) := content]
  {
    var u := UuidOfPid(pid).value;
    var i :| 0 <= i < |w.rows| && OfObject(w.rows[i], u);
    assert w.rows[i] in w.rows;
    var m := MaxVersionRow(w.rows, u).value;
    assert CreateSpec(w, pid, content) == CreateAbove(w, pid, m, content);
    CreateAboveFresh(w, pid, u, m, content);
  }

  /** CreateFresh once the highest version m of the page is known. */
  lemma CreateAboveFresh(w: World, pid: string, u: Uuid, m: AltoVersion, content: Akubra.Bytes)
    requires TableValid(w.rows, w.nextId) && MaxVersionRow(w.rows, u) == Some(m)
    ensures var out := CreateAbove(w, pid, m, content);
      out.result == Ok(WithContent(NextVersionRow(m).(id := w.nextId), content))
      && out.world.rows == w.rows + [NextVersionRow(m).(id := w.nextId)]
      && TableValid(out.world.rows, out.world.nextId)
      && out.world.blobs == w.blobs[Akubra.DsKey(pid, Akubra.Alto, m.version + 1) := content]
  {
    NextVersionFree(w.rows, w.nextId, u, m);
    var row := NextVersionRow(m).(id := w.nextId);
    var ins := InsertRow(w.rows, w.nextId, NextVersionRow(m));
    assert ins.Ok?;
    assert ins.value == Inserted(w.rows + [row], w.nextId + 1, row);
    CreateAboveInserts(w, pid, m, content);
  }

  lemma CreateAboveInserts(w: World, pid: string, m: AltoVersion, content: Akubra.Bytes)
    requires InsertRow(w.rows, w.nextId, NextVersionRow(m)).Ok?
    ensures var out := CreateAbove(w, pid, m, content); var ins := InsertRow(w.rows, w.nextId, NextVersionRow(m)).value;
      out.result == Ok(WithContent(ins.row, content))
      && out.world.rows == ins.rows && out.world.nextId == ins.nextId
      && out.world.blobs == w.blobs[Akubra.DsKey(pid, Akubra.Alto, m.version + 1) := content]
  {
  }

  /** The highest version's successor is a complete row whose version the page has not taken. */
  lemma NextVersionFree(rows: seq<AltoVersion>, nextId: int, u: Uuid, m: AltoVersion)
    requires TableValid(rows, nextId)
    requires MaxVersionRow(rows, u) == Some(m)
    ensures NotNull(NextVersionRow(m)) && NextVersionRow(m).digitalObject == Some(u)
    ensures !VersionTaken(rows, NextVersionRow(m).digitalObject, m.version + 1)
  {
    var j :| 0 <= j < |rows| && rows[j] == m;
    assert NotNull(rows[j]);
    forall k | 0 <= k < |rows| && rows[k].digitalObject == Some(u)
      ensures rows[k].version != m.version + 1
    {
      assert rows[k] in rows && OfObject(rows[k], u);
    }
  }

  /** updateAltoVersion: overwrite the related row's content at its version and set it PENDING. */
  function UpdateSpec(w: World, pid: string, userId: int, content: Akubra.Bytes): Outcome<WithContent>
  {
    match UuidOfPid(pid)
    case Err(e) => Outcome(w, Err(BadPid(e)))
    case Ok(u) =>
      match FindRelated(w.rows, u, userId)
      case None => Outcome(w, Err(AltoNotFound(pid)))
      case Some(row) =>
        var w2 := w.(blobs := w.blobs[Akubra.DsKey(pid, Akubra.Alto, row.version) := content],
                     rows := SetStateById(w.rows, row.id, Pending));
        Outcome(w2, Ok(WithContent(row.(state := Some(Pending)), content)))
  }

  /** updateOrCreateAlto: overwrite the user's PENDING row, otherwise create the next version. */
  function UpdateOrCreateSpec(w: World, pid: string, userId: int, content: Akubra.Bytes): Outcome<WithContent>
  {
    match UuidOfPid(pid)
    case Err(e) => Outcome(w, Err(BadPid(e)))
    case Ok(u) =>
      match FindByUuidAndUserId(w.rows, u, userId)
      case Err(e) => Outcome(w, Err(e))
      case Ok(None) => CreateSpec(w, pid, content)
      case Ok(Some(x)) =>
        if x.state == Some(Pending) then UpdateSpec(w, pid, userId, content) else CreateSpec(w, pid, content)
  }

  /**
   * The user's only row, when PENDING, is overwritten in place: same row,
   * same version, the table unchanged and the content replaced at that
   * version.  Without a row of the user's, or with a non-PENDING one, a new
   * version is created; two rows of the user's are an error.
   */
  lemma UpdateOrCreateBranches(w: World, u: Uuid, pid: string, userId: int, content: Akubra.Bytes)
    requires TableValid(w.rows, w.nextId) && UuidOfPid(pid) == Ok(u)
    ensures var out := UpdateOrCreateSpec(w, pid, userId, content); var q := FindByUuidAndUserId(w.rows, u, userId);
      (q.Ok? && q.value.Some? && q.value.value.state == Some(Pending) ==>
         out.result == Ok(WithContent(q.value.value, content))
         && out.world.rows == w.rows
         && out.world.blobs == w.blobs[Akubra.DsKey(pid, Akubra.Alto, q.value.value.version) := content])
      && (q == Ok(None) || (q.Ok? && q.value.Some? && q.value.value.state != Some(Pending)) ==>
            out == CreateSpec(w, pid, content))
      && (q.Err? ==> out == Outcome(w, Err(q.error)) && q.error.NonUnique?)
  {
    var q := FindByUuidAndUserId(w.rows, u, userId);
    if q.Ok? && q.value.Some? && q.value.value.state == Some(Pending) {
      var x := q.value.value;
      assert OwnRows(w.rows, u, userId)[0] == x;
      var after := SetStateById(w.rows, x.id, Pending);
      forall i | 0 <= i < |w.rows|
        ensures after[i] == w.rows[i]
      {
        if w.rows[i].id == x.id {
          var j :| 0 <= j < |w.rows| && w.rows[j] == x;
          assert i == j;
        }
      }
    }
  }

  // ---------------------------------------------------------------------
  // Review states

  /** setObjectActive */
  function AcceptSpec(w: World, id: int): Outcome<()>
  {
    match FindById(w.rows, id)
    case None => Outcome(w, Err(RowNotFound(id)))
    case Some(t) =>
      match t.digitalObject
      case None => Outcome(w, Err(NullObject))
      case Some(o) => Outcome(w.(rows := Accepted(w.rows, id, o)), Ok(()))
  }

  /**
   * After accepting, the target is the object's only ACTIVE row, the
   * object's previously ACTIVE rows are ARCHIVED, every other row is
   * unchanged, and the table stays valid; an unknown id changes nothing.
   */
  lemma AcceptLeavesOneActive(w: World, id: int)
    requires TableValid(w.rows, w.nextId)
    ensures FindById(w.rows, id).None? ==> AcceptSpec(w, id) == Outcome(w, Err(RowNotFound(id)))
    ensures FindById(w.rows, id).Some? ==>
      var t := FindById(w.rows, id).value; var o := t.digitalObject.value; var out := AcceptSpec(w, id);
      var after := out.world.rows;
      out.result.Ok?
      && FindActive(after, o) == Ok(Some(t.(state := Some(Active))))
      && TableValid(after, w.nextId)
      && |after| == |w.rows|
      && (forall i :: 0 <= i < |w.rows| && !OfObject(w.rows[i], o) ==> after[i] == w.rows[i])
      && (forall i :: 0 <= i < |w.rows| && OfObject(w.rows[i], o) && w.rows[i].id != id ==>
            after[i] == if w.rows[i].state == Some(Active) then w.rows[i].(state := Some(Archived)) else w.rows[i])
  {
    if FindById(w.rows, id).Some? {
      var t := FindById(w.rows, id).value;
      var j :| 0 <= j < |w.rows| && w.rows[j] == t;
      assert NotNull(w.rows[j]);
      var o := t.digitalObject.value;
      var after := Accepted(w.rows, id, o);
      assert AcceptSpec(w, id) == Outcome(w.(rows := after), Ok(()));
      AcceptedKeepsValid(w.rows, id, o, w.nextId);
      AcceptedOneActive(w.rows, id, o, j);
      AcceptedElsewhere(w.rows, id, o, j);
    }
  }

  /** Accepting only changes states, and to non-null ones. */
  lemma AcceptedKeepsValid(rows: seq<AltoVersion>, id: int, o: Uuid, nextId: int)
    requires TableValid(rows, nextId)
    ensures TableValid(Accepted(rows, id, o), nextId)
  {
    var after := Accepted(rows, id, o);
    forall i | 0 <= i < |rows|
      ensures after[i].state.Some?
    {
      assert after[i] == AcceptedRow(rows[i], id, o);
      assert NotNull(rows[i]);
    }
    StatesOnlyKeepValid(rows, after, nextId);
  }

  /** Accepting row `j` of object `o` archives that object's other ACTIVE rows and touches no other row. */
  lemma AcceptedElsewhere(rows: seq<AltoVersion>, id: int, o: Uuid, j: nat)
    requires UniqueIds(rows) && j < |rows| && rows[j].id == id && OfObject(rows[j], o)
    ensures var after := Accepted(rows, id, o);
      (forall i :: 0 <= i < |rows| && !OfObject(rows[i], o) ==> after[i] == rows[i])
      && (forall i :: 0 <= i < |rows| && OfObject(rows[i], o) && rows[i].id != id ==>
            after[i] == if rows[i].state == Some(Active) then rows[i].(state := Some(Archived)) else rows[i])
  {
    forall i | 0 <= i < |rows| && !OfObject(rows[i], o)
      ensures Accepted(rows, id, o)[i] == rows[i]
    {
      assert i != j;
    }
  }

  /** Accepting row `j` of object `o` leaves it that object's only ACTIVE row. */
  lemma AcceptedOneActive(rows: seq<AltoVersion>, id: int, o: Uuid, j: nat)
    requires UniqueIds(rows) && j < |rows| && rows[j].id == id && OfObject(rows[j], o)
    ensures FindActive(Accepted(rows, id, o), o) == Ok(Some(rows[j].(state := Some(Active))))
  {
    var after := Accepted(rows, id, o);
    var t' := rows[j].(state := Some(Active));
    assert after[j] == t';
    forall k | 0 <= k < |ActiveRows(after, o)|
      ensures ActiveRows(after, o)[k] == t'
    {
      var x := ActiveRows(after, o)[k];
      assert x in ActiveRows(after, o);
      var i :| 0 <= i < |after| && after[i] == x;
      if rows[i].id == id {
        assert i == j;
      }
    }
    assert after[j] in ActiveRows(after, o);
    SelectAtMostOne(after, ActiveOf(o), t');
  }

  /** setStateForObject: any state, from any state. */
  function SetStateSpec(w: World, id: int, s: AltoVersionState): Outcome<()>
  {
    match FindById(w.rows, id)
    case None => Outcome(w, Err(RowNotFound(id)))
    case Some(_) => Outcome(w.(rows := SetStateById(w.rows, id, s)), Ok(()))
  }

  /** The documented transition for reject and archive: only from PENDING. */
  function SetStateIfPendingSpec(w: World, id: int, s: AltoVersionState): Outcome<()>
  {
    match FindById(w.rows, id)
    case None => Outcome(w, Err(RowNotFound(id)))
    case Some(t) =>
      if t.state != Some(Pending) then Outcome(w, Err(NotPending(id)))
      else Outcome(w.(rows := SetStateById(w.rows, id, s)), Ok(()))
  }

  /**
   * The guarded transition succeeds exactly on a PENDING row and then does
   * what the unguarded one does; the unguarded one also moves an ACTIVE or
   * REJECTED row.  Either way only that row's state changes.
   */
  lemma GuardedStateTransition(w: World, id: int, s: AltoVersionState)
    requires TableValid(w.rows, w.nextId)
    ensures var g := SetStateIfPendingSpec(w, id, s); var f := FindById(w.rows, id);
      (g.result.Ok? <==> f.Some? && f.value.state == Some(Pending))
      && (g.result.Ok? ==> g == SetStateSpec(w, id, s))
      && (g.result.Err? ==> g.world == w)
      && (f.Some? ==>
            SetStateSpec(w, id, s).result.Ok?
            && FindById(SetStateSpec(w, id, s).world.rows, id) == Some(f.value.(state := Some(s)))
            && TableValid(SetStateSpec(w, id, s).world.rows, w.nextId))
  {
    var f := FindById(w.rows, id);
    if f.Some? {
      var after := SetStateById(w.rows, id, s);
      StatesOnlyKeepValid(w.rows, after, w.nextId);
      var j :| 0 <= j < |w.rows| && w.rows[j] == f.value;
      assert after[j] == f.value.(state := Some(s));
      assert after[j] in after;
      var g := FindById(after, id).value;
      var i :| 0 <= i < |after| && after[i] == g;
      assert i == j;
    }
  }

  /** Every PID-taking operation refuses a PID without the "uuid:" prefix and changes nothing. */
  lemma PidPrefixRequired(w: World, users: seq<User>, kram: OH.Kramerius, foxml: Akubra.Foxml, pid: string,
                          instance: string, userId: int, version: int, content: Akubra.Bytes)
    requires !StartsWith(pid, PidPrefix)
    ensures var e := BadPid(NotUuidPid(pid));
      FindRelatedAltoSpec(w, pid, userId) == Err(e)
      && GetAltoVersionSpec(w, pid, version) == Err(e)
      && GetActiveSpec(w, pid) == Err(e)
      && FetchSpec(w, users, kram, foxml, pid, instance, userId) == Outcome(w, Err(e))
      && CreateSpec(w, pid, content) == Outcome(w, Err(e))
      && UpdateSpec(w, pid, userId, content) == Outcome(w, Err(e))
      && UpdateOrCreateSpec(w, pid, userId, content) == Outcome(w, Err(e))
  {
  }
}
