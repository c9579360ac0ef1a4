// The `domain` copy of the older digital-object versioning: a table of rows
// keyed (instance, pid, version) with integer versions, the ALTO blobs in the
// datastream store, and DigitalObjectService's operations over both.
module DomainObjects {
  import opened Wrappers
  import Akubra
  import opened DigitalObjects

  type Row = DigitalObject<int>
  type Blobs = map<string, Akubra.Bytes>
  type Found = WithContent<int, Akubra.Bytes>

  datatype DomainError =
    | NotFound(pid: string)            // "Digital object not found for PID"
    | AlreadyExists(pid: string)       // "Digital object with PID already exists"
    | AltoNotInFoxml(pid: string)      // "ALTO datastream not found in FOXML"
    | OriginalNotFound(pid: string)    // "Original ALTO not found"
    | NoUpdateCandidate(pid: string)   // "No ALTO version available for update"
    | IdNotFound(id: int)              // "Digital object not found with ID"
    | NullState                        // List.of(...).contains(null) throws
    | DuplicateKey(instance: Option<string>, pid: string, version: int)
    | Query(query: QueryError)
    | Storage(storage: Akubra.StoreError)

  // ---------------------------------------------------------------------
  // The table

  /** The unique constraint on (instance_id, pid, version); a null instance never clashes. */
  predicate SameKey(a: Row, b: Row)
  {
    a.instance.Some? && a.instance == b.instance && a.pid == b.pid && a.version == b.version
  }

  predicate KeyTaken(rows: seq<Row>, row: Row)
  {
    exists i :: 0 <= i < |rows| && SameKey(rows[i], row)
  }

  /** Ids come from the sequence and are distinct; no two rows share a key. */
  predicate TableValid(rows: seq<Row>, nextId: int)
  {
    (forall i :: 0 <= i < |rows| ==> rows[i].id < nextId)
    && DistinctIds(rows)
    && (forall i, j :: 0 <= i < j < |rows| ==> !SameKey(rows[i], rows[j]))
  }

  datatype Inserted = Inserted(rows: seq<Row>, nextId: int, row: Row)

  /**
   * save of a new row: the unique constraint refuses a taken key; the
   * sequence gives the id and the persist callback stamps the date.  The
   * sequence value is drawn before the insert, so a refused insert still
   * uses it up: callers advance `nextId` on failure.
   */
  function InsertRow(rows: seq<Row>, nextId: int, row: Row, now: int): (r: Result<Inserted, DomainError>)
    ensures r.Err? <==> KeyTaken(rows, row)
  {
    if KeyTaken(rows, row) then Err(DuplicateKey(row.instance, row.pid, row.version))
    else
      var saved := row.(id := nextId, date := now);
      Ok(Inserted(rows + [saved], nextId + 1, saved))
  }

  lemma InsertKeepsValid(rows: seq<Row>, nextId: int, row: Row, now: int)
    requires TableValid(rows, nextId) && InsertRow(rows, nextId, row, now).Ok?
    ensures var ins := InsertRow(rows, nextId, row, now).value;
      TableValid(ins.rows, ins.nextId) && ins.rows == rows + [ins.row] && ins.row.id == nextId
  {
    var ins := InsertRow(rows, nextId, row, now).value;
    assert forall i :: 0 <= i < |rows| ==> (SameKey(rows[i], ins.row) <==> SameKey(rows[i], row));
  }

  /** findByPidAndUserId */
  function FindByPidAndUserId(rows: seq<Row>, pid: string, userId: int): Result<Option<Row>, QueryError>
  {
    Single(ByPidAnd(rows, pid, UserIs(userId)))
  }

  /** findByPidAndVersion */
  function FindByPidAndVersion(rows: seq<Row>, pid: string, version: Option<int>): Result<Option<Row>, QueryError>
  {
    Single(ByPidAnd(rows, pid, VersionIs(version)))
  }

  /** findByPidAndInstanceId */
  function FindByPidAndInstanceId(rows: seq<Row>, pid: string, instance: Option<string>): Result<Option<Row>, QueryError>
  {
    Single(ByPidAnd(rows, pid, InstanceIs(instance)))
  }

  /** findActive */
  function FindActive(rows: seq<Row>, pid: string): Result<Option<Row>, QueryError>
  {
    Single(ByPidAnd(rows, pid, StateIs(Active)))
  }

  /** findFirstByPidOrderByVersionDesc */
  function MaxVersionRow(rows: seq<Row>, pid: string): (r: Option<Row>)
    ensures r.None? <==> forall x :: x in rows ==> x.pid != pid
    ensures r.Some? ==> r.value in rows && r.value.pid == pid
  {
    if |rows| == 0 then None
    else
      assert forall x :: x in rows <==> x == rows[0] || x in rows[1..];
      var rest := MaxVersionRow(rows[1..], pid);
      if rows[0].pid != pid then rest
      else if rest.Some? && rest.value.version > rows[0].version then rest
      else Some(rows[0])
  }

  /** The row found has the greatest version of the PID, whatever its state or owner. */
  lemma {:induction false} MaxVersionIsMax(rows: seq<Row>, pid: string, x: Row)
    requires x in rows && x.pid == pid
    ensures MaxVersionRow(rows, pid).Some? && x.version <= MaxVersionRow(rows, pid).value.version
    decreases |rows|
  {
    assert forall y :: y in rows <==> y == rows[0] || y in rows[1..];
    if x != rows[0] {
      MaxVersionIsMax(rows[1..], pid, x);
    } else if MaxVersionRow(rows[1..], pid).Some? {
      MaxVersionIsMax(rows[1..], pid, MaxVersionRow(rows[1..], pid).value);
    }
  }

  predicate Related(x: Row, pid: string, userId: int)
  {
    x.pid == pid && (x.userId == userId || x.state == Some(Active))
  }

  /** findRelated: the user's row first, otherwise an ACTIVE one (LIMIT 1). */
  function FindRelated(rows: seq<Row>, pid: string, userId: int): (r: Option<Row>)
    ensures r.None? <==> forall x :: x in rows ==> !Related(x, pid, userId)
    ensures r.Some? ==> r.value in rows && Related(r.value, pid, userId)
  {
    if |rows| == 0 then None
    else
      assert forall x :: x in rows <==> x == rows[0] || x in rows[1..];
      var rest := FindRelated(rows[1..], pid, userId);
      if !Related(rows[0], pid, userId) then rest
      else if rows[0].userId != userId && rest.Some? && rest.value.userId == userId then rest
      else Some(rows[0])
  }

  /** When the user has a row of the PID, findRelated returns one of the user's rows. */
  lemma {:induction false} FindRelatedPrefersUser(rows: seq<Row>, pid: string, userId: int, x: Row)
    requires x in rows && x.pid == pid && x.userId == userId
    ensures FindRelated(rows, pid, userId).Some? && FindRelated(rows, pid, userId).value.userId == userId
    decreases |rows|
  {
    assert forall y :: y in rows <==> y == rows[0] || y in rows[1..];
    if x != rows[0] {
      FindRelatedPrefersUser(rows[1..], pid, userId, x);
    }
  }

  /** Without a row of the user, findRelated falls back to an ACTIVE row. */
  lemma FindRelatedFallsBackToActive(rows: seq<Row>, pid: string, userId: int)
    requires forall x :: x in rows && x.pid == pid ==> x.userId != userId
    ensures var r := FindRelated(rows, pid, userId);
      (r.Some? <==> exists x :: x in rows && x.pid == pid && x.state == Some(Active))
      && (r.Some? ==> r.value.state == Some(Active))
  {
  }

  // ---------------------------------------------------------------------
  // The stored state and the service operations on it

  datatype World = World(rows: seq<Row>, nextId: int, blobs: Blobs)

  datatype Outcome<T> = Outcome(world: World, result: Result<T, DomainError>)

  /** retrieveDsBinaryContent(pid, ALTO, version) */
  function StoredAlto(blobs: Blobs, pid: string, version: int): (r: Result<Akubra.Bytes, DomainError>)
    ensures r.Ok? <==> Akubra.DsKey(pid, Akubra.Alto, version) in blobs
  {
    var key := Akubra.DsKey(pid, Akubra.Alto, version);
    if key in blobs then Ok(blobs[key]) else Err(Storage(Akubra.NotFound(pid, key)))
  }

  /** The stored ALTO of a row. */
  function WithStoredAlto(blobs: Blobs, x: Row): Result<Found, DomainError>
  {
    match StoredAlto(blobs, x.pid, x.version)
    case Err(e) => Err(e)
    case Ok(c) => Ok(WithContent(x, c))
  }

  /** findAlto: the priority query's first row with its content, or null. */
  function FindAltoSpec(w: World, pid: string, version: Option<int>, userId: int, pero: int, alto: int)
    : Result<Option<Found>, DomainError>
  {
    match PriorityPick(w.rows, PriorityKey(pid, version, userId, pero, alto))
    case None => Ok(None)
    case Some(x) =>
      match WithStoredAlto(w.blobs, x)
      case Err(e) => Err(e)
      case Ok(f) => Ok(Some(f))
  }

  /** The version fetchNewAlto gives the new row: the PID's maximum, or 0. */
  function FetchVersion(rows: seq<Row>, pid: string): int
  {
    match MaxVersionRow(rows, pid)
    case None => 0
    case Some(m) => m.version
  }

  /**
   * fetchNewAlto as written: the ALTO taken from the FOXML is only checked
   * for presence; the row is saved without a state, and the content returned
   * is read back from the store at version 0, where this call wrote nothing.
   * A failing read rolls the row back (the id sequence keeps its step).
   */
  function FetchNewAltoAsWritten(w: World, pid: string, instance: Option<string>, userId: int,
                                 foxml: Akubra.Foxml, now: int): Outcome<Found>
  {
    if ExistsByPid(w.rows, pid) then Outcome(w, Err(AlreadyExists(pid)))
    else
      match Akubra.LatestDsContent(foxml, Akubra.DatastreamId(Akubra.Alto))
      case Err(e) => Outcome(w, Err(Storage(e)))
      case Ok(None) => Outcome(w, Err(AltoNotInFoxml(pid)))
      case Ok(Some(_)) =>
        var version := FetchVersion(w.rows, pid);
        match InsertRow(w.rows, w.nextId, DigitalObject(0, userId, instance, pid, version, now, None), now)
        case Err(e) => Outcome(w.(nextId := w.nextId + 1), Err(e))
        case Ok(ins) =>
          match WithStoredAlto(w.blobs, ins.row)
          case Err(e) => Outcome(w.(nextId := ins.nextId), Err(e))
          case Ok(f) => Outcome(w.(rows := ins.rows, nextId := ins.nextId), Ok(f))
  }

  /**
   * fetchNewAlto corrected: the FOXML's ALTO is stored at the new row's
   * version before the row is saved (as the newer version service does), and
   * the row starts NEW, the state the edit path expects of an imported copy.
   */
  function FetchNewAltoSpec(w: World, pid: string, instance: Option<string>, userId: int,
                            foxml: Akubra.Foxml, now: int): Outcome<Found>
  {
    if ExistsByPid(w.rows, pid) then Outcome(w, Err(AlreadyExists(pid)))
    else
      match Akubra.LatestDsContent(foxml, Akubra.DatastreamId(Akubra.Alto))
      case Err(e) => Outcome(w, Err(Storage(e)))
      case Ok(None) => Outcome(w, Err(AltoNotInFoxml(pid)))
      case Ok(Some(alto)) =>
        var version := FetchVersion(w.rows, pid);
        var w2 := w.(blobs := w.blobs[Akubra.DsKey(pid, Akubra.Alto, version) := alto]);
        match InsertRow(w2.rows, w2.nextId, DigitalObject(0, userId, instance, pid, version, now, Some(New)), now)
        case Err(e) => Outcome(w2.(nextId := w2.nextId + 1), Err(e))
        case Ok(ins) =>
          match WithStoredAlto(w2.blobs, ins.row)
          case Err(e) => Outcome(w2.(nextId := ins.nextId), Err(e))
          case Ok(f) => Outcome(w2.(rows := ins.rows, nextId := ins.nextId), Ok(f))
  }

  /** getOriginalAlto: the altoeditor user's row of the PID with its content. */
  function GetOriginalAltoSpec(w: World, pid: string, alto: int): Result<Found, DomainError>
  {
    match FindByPidAndUserId(w.rows, pid, alto)
    case Err(e) => Err(Query(e))
    case Ok(None) => Err(OriginalNotFound(pid))
    case Ok(Some(x)) => WithStoredAlto(w.blobs, x)
  }

  /** The row createNewAltoVersion saves above the maximum `m`: owner and instance are m's. */
  function NextVersionRow(m: Row, pid: string, now: int): Row
  {
    DigitalObject(0, m.userId, m.instance, pid, m.version + 1, now, Some(Edited))
  }

  /**
   * createNewAltoVersion: the content is stored at max + 1, then a row for
   * that version is saved EDITED, owned by the maximum row's owner (the
   * caller's id is not used).
   */
  function CreateSpec(w: World, pid: string, content: Akubra.Bytes, now: int): Outcome<Found>
  {
    match MaxVersionRow(w.rows, pid)
    case None => Outcome(w, Err(NotFound(pid)))
    case Some(m) => CreateAbove(w, pid, m, content, now)
  }

  /** Store the content under the version above m, then save m's successor row. */
  function CreateAbove(w: World, pid: string, m: Row, content: Akubra.Bytes, now: int): Outcome<Found>
  {
    var w2 := w.(blobs := w.blobs[Akubra.DsKey(pid, Akubra.Alto, m.version + 1) := content]);
    match InsertRow(w2.rows, w2.nextId, NextVersionRow(m, pid, now), now)
    case Err(e) => Outcome(w2.(nextId := w2.nextId + 1), Err(e))
    case Ok(ins) => Outcome(w2.(rows := ins.rows, nextId := ins.nextId), Ok(WithContent(ins.row, content)))
  }

  /**
   * updateAltoVersion: the update candidate's content is overwritten at its
   * own version, and the row is set EDITED with a fresh date.
   */
  function UpdateSpec(w: World, pid: string, userId: int, alto: int, content: Akubra.Bytes, now: int): Outcome<Found>
  {
    match UpdatePick(w.rows, UpdateKey(pid, userId, alto))
    case None => Outcome(w, Err(NoUpdateCandidate(pid)))
    case Some(x) =>
      var row := x.(state := Some(Edited), date := now);
      Outcome(w.(blobs := w.blobs[Akubra.DsKey(pid, Akubra.Alto, x.version) := content],
                 rows := ReplaceById(w.rows, x.id, row)),
              Ok(WithContent(row, content)))
  }

  /**
   * updateOrCreateAlto: no row of the user, or a finished one, makes a new
   * version; any other state is edited in place; a row without a state makes
   * the membership test throw.
   */
  function UpdateOrCreateSpec(w: World, pid: string, userId: int, alto: int, content: Akubra.Bytes, now: int)
    : Outcome<Found>
  {
    match FindByPidAndUserId(w.rows, pid, userId)
    case Err(e) => Outcome(w, Err(Query(e)))
    case Ok(None) => CreateSpec(w, pid, content, now)
    case Ok(Some(x)) =>
      if x.state.None? then Outcome(w, Err(NullState))
      else if Finished(x.state.value) then CreateSpec(w, pid, content, now)
      else UpdateSpec(w, pid, userId, alto, content, now)
  }

  /** getOcr: the text of findAlto's content, or a failure when it finds nothing. */
  function GetOcrSpec(w: World, pid: string, version: Option<int>, userId: int, pero: int, alto: int,
                      ocr: Akubra.Bytes -> string): Result<string, DomainError>
  {
    match FindAltoSpec(w, pid, version, userId, pero, alto)
    case Err(e) => Err(e)
    case Ok(None) => Err(NotFound(pid))
    case Ok(Some(f)) => Ok(ocr(f.content))
  }

  // ---------------------------------------------------------------------
  // Properties

  /** The fetched row's version is always 0: the maximum is looked up only after checking that there is no row. */
  lemma FetchVersionZero(w: World, pid: string, instance: Option<string>, userId: int, foxml: Akubra.Foxml, now: int)
    ensures FetchNewAltoAsWritten(w, pid, instance, userId, foxml, now).result.Ok? ==>
      FetchNewAltoAsWritten(w, pid, instance, userId, foxml, now).result.value.digitalObject.version == 0
    ensures FetchNewAltoSpec(w, pid, instance, userId, foxml, now).result.Ok? ==>
      FetchNewAltoSpec(w, pid, instance, userId, foxml, now).result.value.digitalObject.version == 0
  {
    if !ExistsByPid(w.rows, pid) {
      assert forall x :: x in w.rows ==> x.pid != pid;
    }
  }

  /**
   * As written, fetching a new PID whose FOXML has an ALTO fails unless a
   * blob happens to be stored at version 0 already, and nothing is saved.
   */
  lemma FetchAsWrittenMissesContent(w: World, pid: string, instance: Option<string>, userId: int,
                                    foxml: Akubra.Foxml, now: int)
    requires !ExistsByPid(w.rows, pid)
    requires Akubra.LatestDsContent(foxml, Akubra.DatastreamId(Akubra.Alto)).Ok?
    requires Akubra.LatestDsContent(foxml, Akubra.DatastreamId(Akubra.Alto)).value.Some?
    requires Akubra.DsKey(pid, Akubra.Alto, 0) !in w.blobs
    ensures var out := FetchNewAltoAsWritten(w, pid, instance, userId, foxml, now);
      out.result.Err? && out.result.error.Storage? && out.world.rows == w.rows && out.world.blobs == w.blobs
  {
    assert forall x :: x in w.rows ==> x.pid != pid;
    assert FetchVersion(w.rows, pid) == 0;
    assert !KeyTaken(w.rows, DigitalObject(0, userId, instance, pid, 0, now, None));
  }

  /**
   * Corrected fetch: a new PID with an ALTO in its FOXML gets one row,
   * version 0, NEW, owned by the caller, and the returned content is that
   * ALTO, now stored under the row's key.
   */
  lemma FetchStoresAlto(w: World, pid: string, instance: Option<string>, userId: int, foxml: Akubra.Foxml, now: int)
    requires TableValid(w.rows, w.nextId) && !ExistsByPid(w.rows, pid)
    requires Akubra.LatestDsContent(foxml, Akubra.DatastreamId(Akubra.Alto)).Ok?
    requires Akubra.LatestDsContent(foxml, Akubra.DatastreamId(Akubra.Alto)).value.Some?
    ensures var alto := Akubra.LatestDsContent(foxml, Akubra.DatastreamId(Akubra.Alto)).value.value;
      var out := FetchNewAltoSpec(w, pid, instance, userId, foxml, now);
      out.result.Ok?
      && var row := out.result.value.digitalObject;
      out.result.value.content == alto
      && row == DigitalObject(w.nextId, userId, instance, pid, 0, now, Some(New))
      && out.world.rows == w.rows + [row]
      && TableValid(out.world.rows, out.world.nextId)
      && out.world.blobs == w.blobs[Akubra.DsKey(pid, Akubra.Alto, 0) := alto]
  {
    assert forall x :: x in w.rows ==> x.pid != pid;
    var row := DigitalObject(0, userId, instance, pid, 0, now, Some(New));
    assert !KeyTaken(w.rows, row);
    InsertKeepsValid(w.rows, w.nextId, row, now);
  }

  /**
   * As written, the row a successful fetch leaves has no state, and the
   * owner's next save of that page throws instead of editing it.
   */
  lemma NullStateBlocksSave(w: World, pid: string, instance: Option<string>, userId: int, foxml: Akubra.Foxml,
                            now: int, alto: int, content: Akubra.Bytes, later: int)
    requires !ExistsByPid(w.rows, pid)
    requires FetchNewAltoAsWritten(w, pid, instance, userId, foxml, now).result.Ok?
    ensures var w1 := FetchNewAltoAsWritten(w, pid, instance, userId, foxml, now).world;
      UpdateOrCreateSpec(w1, pid, userId, alto, content, later) == Outcome(w1, Err(NullState))
  {
    assert forall x :: x in w.rows ==> x.pid != pid;
    var out := FetchNewAltoAsWritten(w, pid, instance, userId, foxml, now);
    var row := out.result.value.digitalObject;
    assert out.world.rows == w.rows + [row];
    NoneThenAppended(w.rows, row, pid, UserIs(userId));
  }

  /**
   * Corrected: after a fetch, the owner's save edits the fetched row in
   * place: same id and version 0, now EDITED, and the content is stored
   * over the fetched ALTO.
   */
  lemma FetchedAltoIsEditable(w: World, pid: string, instance: Option<string>, userId: int, foxml: Akubra.Foxml,
                              now: int, alto: int, content: Akubra.Bytes, later: int)
    requires TableValid(w.rows, w.nextId) && !ExistsByPid(w.rows, pid)
    requires FetchNewAltoSpec(w, pid, instance, userId, foxml, now).result.Ok?
    ensures var f := FetchNewAltoSpec(w, pid, instance, userId, foxml, now);
      var out := UpdateOrCreateSpec(f.world, pid, userId, alto, content, later);
      out.result.Ok?
      && out.result.value.digitalObject == f.result.value.digitalObject.(state := Some(Edited), date := later)
      && out.world.blobs == f.world.blobs[Akubra.DsKey(pid, Akubra.Alto, 0) := content]
      && |out.world.rows| == |f.world.rows|
  {
    FetchStoresAlto(w, pid, instance, userId, foxml, now);
    var f := FetchNewAltoSpec(w, pid, instance, userId, foxml, now);
    var row := f.result.value.digitalObject;
    assert forall x :: x in w.rows ==> x.pid != pid;
    NoneThenAppended(w.rows, row, pid, UserIs(userId));
    assert FindByPidAndUserId(f.world.rows, pid, userId) == Ok(Some(row));
    var k := UpdateKey(pid, userId, alto);
    UpdatePickFirst(f.world.rows, k, row);
  }

  /** Rows agreeing on id and key: a save that changes only state or date keeps them so. */
  predicate SameSlot(a: Row, b: Row)
  {
    a.id == b.id && a.instance == b.instance && a.pid == b.pid && a.version == b.version
  }

  /** Saving a loaded row with its id and key unchanged keeps the table's constraints. */
  lemma ReplaceKeepsValid(rows: seq<Row>, nextId: int, x: Row, row: Row)
    requires TableValid(rows, nextId) && x in rows && SameSlot(row, x)
    ensures TableValid(ReplaceById(rows, x.id, row), nextId)
  {
    ReplaceOnly(rows, x, row);
  }

  /** Saving a loaded row keeps every entry's id and key; the only entry with its id is the loaded row. */
  lemma ReplaceOnly(rows: seq<Row>, x: Row, row: Row)
    requires DistinctIds(rows) && x in rows && SameSlot(row, x)
    ensures var after := ReplaceById(rows, x.id, row);
      forall i :: 0 <= i < |rows| ==> SameSlot(after[i], rows[i]) && (rows[i].id == x.id ==> rows[i] == x)
  {
    var j :| 0 <= j < |rows| && rows[j] == x;
    assert forall i :: 0 <= i < |rows| && rows[i].id == x.id ==> i == j;
  }

  /**
   * A new version is saved above every version of the PID, owned by the
   * maximum row's owner, in its instance, EDITED; its content is stored
   * under the new version and the table keeps its constraints.
   */
  lemma CreateFresh(w: World, pid: string, content: Akubra.Bytes, now: int)
    requires TableValid(w.rows, w.nextId) && ExistsByPid(w.rows, pid)
    ensures MaxVersionRow(w.rows, pid).Some?
    ensures var out := CreateSpec(w, pid, content, now);
      var m := MaxVersionRow(w.rows, pid).value;
      out.result.Ok?
      && var row := out.result.value.digitalObject;
      out.result.value.content == content
      && row == DigitalObject(w.nextId, m.userId, m.instance, pid, m.version + 1, now, Some(Edited))
      && (forall x :: x in w.rows && x.pid == pid ==> x.version < row.version)
      && out.world.rows == w.rows + [row]
      && TableValid(out.world.rows, out.world.nextId)
      && out.world.blobs == w.blobs[Akubra.DsKey(pid, Akubra.Alto, row.version) := content]
  {
    var i :| 0 <= i < |w.rows| && w.rows[i].pid == pid;
    MaxVersionAbove(w.rows, pid, w.rows[i]);
    var m := MaxVersionRow(w.rows, pid).value;
    NextVersionFree(w.rows, pid, now);
    InsertKeepsValid(w.rows, w.nextId, NextVersionRow(m, pid, now), now);
    assert CreateSpec(w, pid, content, now) == CreateAbove(w, pid, m, content, now);
  }

  /** Every version of the PID is at most the maximum row's. */
  lemma MaxVersionAbove(rows: seq<Row>, pid: string, y: Row)
    requires y in rows && y.pid == pid
    ensures MaxVersionRow(rows, pid).Some?
    ensures forall x :: x in rows && x.pid == pid ==> x.version <= MaxVersionRow(rows, pid).value.version
  {
    forall x | x in rows && x.pid == pid
      ensures x.version <= MaxVersionRow(rows, pid).value.version
    {
      MaxVersionIsMax(rows, pid, x);
    }
  }

  /** The key one above the maximum is free. */
  lemma NextVersionFree(rows: seq<Row>, pid: string, now: int)
    requires MaxVersionRow(rows, pid).Some?
    requires forall x :: x in rows && x.pid == pid ==> x.version <= MaxVersionRow(rows, pid).value.version
    ensures !KeyTaken(rows, NextVersionRow(MaxVersionRow(rows, pid).value, pid, now))
  {
    assert forall k :: 0 <= k < |rows| ==> rows[k] in rows;
  }

  /**
   * The caller's id is not used by createNewAltoVersion: a user without a
   * row of the PID saves a version owned by someone else, and so still has
   * no row of it; the next save makes yet another version.
   */
  lemma CallerWithoutRowStaysWithout(w: World, pid: string, userId: int, alto: int, content: Akubra.Bytes, now: int)
    requires TableValid(w.rows, w.nextId) && ExistsByPid(w.rows, pid)
    requires forall x :: x in w.rows && x.pid == pid ==> x.userId != userId
    ensures var out := UpdateOrCreateSpec(w, pid, userId, alto, content, now);
      out.result.Ok?
      && out.result.value.digitalObject.userId != userId
      && |out.world.rows| == |w.rows| + 1
      && FindByPidAndUserId(out.world.rows, pid, userId) == Ok(None)
  {
    ByPidAndNone(w.rows, pid, UserIs(userId));
    CreateFresh(w, pid, content, now);
    var out := CreateSpec(w, pid, content, now);
    ByPidAndAppend(w.rows, out.result.value.digitalObject, pid, UserIs(userId));
  }

  /**
   * The user's only row of the PID, NEW or EDITED, is the one an edit is
   * written into: same id and version, now EDITED, with the content stored
   * over its version; no row is added.
   */
  lemma OwnDraftEditedInPlace(w: World, pid: string, userId: int, alto: int, content: Akubra.Bytes, now: int, x: Row)
    requires TableValid(w.rows, w.nextId)
    requires FindByPidAndUserId(w.rows, pid, userId) == Ok(Some(x))
    requires x.state == Some(New) || x.state == Some(Edited)
    ensures var out := UpdateOrCreateSpec(w, pid, userId, alto, content, now);
      out.result.Ok?
      && out.result.value == WithContent(x.(state := Some(Edited), date := now), content)
      && out.world.rows == ReplaceById(w.rows, x.id, x.(state := Some(Edited), date := now))
      && TableValid(out.world.rows, out.world.nextId)
      && out.world.blobs == w.blobs[Akubra.DsKey(pid, Akubra.Alto, x.version) := content]
  {
    OwnDraftIsPicked(w.rows, pid, userId, alto, x);
    assert UpdateOrCreateSpec(w, pid, userId, alto, content, now) == UpdateSpec(w, pid, userId, alto, content, now);
    var row := x.(state := Some(Edited), date := now);
    assert UpdateSpec(w, pid, userId, alto, content, now)
        == Outcome(w.(blobs := w.blobs[Akubra.DsKey(pid, Akubra.Alto, x.version) := content],
                      rows := ReplaceById(w.rows, x.id, row)),
                   Ok(WithContent(row, content)));
    ReplaceKeepsValid(w.rows, w.nextId, x, row);
  }

  /** The user's only row of the PID, NEW or EDITED, is the update candidate. */
  lemma OwnDraftIsPicked(rows: seq<Row>, pid: string, userId: int, alto: int, x: Row)
    requires FindByPidAndUserId(rows, pid, userId) == Ok(Some(x))
    requires x.state == Some(New) || x.state == Some(Edited)
    ensures UpdatePick(rows, UpdateKey(pid, userId, alto)) == Some(x)
  {
    DerivedFinder(rows, pid, UserIs(userId));
    UpdatePickPrefersOwn(rows, UpdateKey(pid, userId, alto), x);
  }

  /** A user whose row is ACCEPTED, REJECTED or UPLOADED gets a new version. */
  lemma FinishedStartsNewVersion(w: World, pid: string, userId: int, alto: int, content: Akubra.Bytes, now: int, x: Row)
    requires TableValid(w.rows, w.nextId)
    requires FindByPidAndUserId(w.rows, pid, userId) == Ok(Some(x))
    requires x.state == Some(Accepted) || x.state == Some(Rejected) || x.state == Some(Uploaded)
    ensures UpdateOrCreateSpec(w, pid, userId, alto, content, now) == CreateSpec(w, pid, content, now)
    ensures CreateSpec(w, pid, content, now).result.Ok?
  {
    DerivedFinder(w.rows, pid, UserIs(userId));
    var i :| 0 <= i < |w.rows| && w.rows[i] == x;
    CreateFresh(w, pid, content, now);
  }

  /**
   * A user whose row is ACTIVE or ARCHIVED takes the edit path, where that
   * row is never the candidate: the edit fails when the PID has no
   * candidate, and otherwise goes into another row (another user's UPLOADED
   * row, say).
   */
  lemma SettledRowEditsAnother(w: World, pid: string, userId: int, alto: int, content: Akubra.Bytes, now: int, x: Row)
    requires TableValid(w.rows, w.nextId)
    requires FindByPidAndUserId(w.rows, pid, userId) == Ok(Some(x))
    requires x.state == Some(Active) || x.state == Some(Archived)
    ensures var out := UpdateOrCreateSpec(w, pid, userId, alto, content, now);
      (out.result.Err? <==> forall y :: y in w.rows ==> !IsUpdateCandidate(y, UpdateKey(pid, userId, alto)))
      && (out.result.Ok? ==> out.result.value.digitalObject.id != x.id && |out.world.rows| == |w.rows|)
  {
    DerivedFinder(w.rows, pid, UserIs(userId));
    var p := UpdatePick(w.rows, UpdateKey(pid, userId, alto));
    if p.Some? {
      var i :| 0 <= i < |w.rows| && w.rows[i] == x;
      var j :| 0 <= j < |w.rows| && w.rows[j] == p.value;
      assert i != j;
    }
  }

  /** updateAltoVersion changes only its candidate's state and date, and keeps the table's constraints. */
  lemma UpdateKeepsSlot(w: World, pid: string, userId: int, alto: int, content: Akubra.Bytes, now: int)
    requires TableValid(w.rows, w.nextId)
    requires UpdateSpec(w, pid, userId, alto, content, now).result.Ok?
    ensures var out := UpdateSpec(w, pid, userId, alto, content, now);
      var row := out.result.value.digitalObject;
      TableValid(out.world.rows, out.world.nextId)
      && |out.world.rows| == |w.rows|
      && (forall i :: 0 <= i < |w.rows| ==>
            SameSlot(out.world.rows[i], w.rows[i])
            && (w.rows[i].id != row.id ==> out.world.rows[i] == w.rows[i])
            && (w.rows[i].id == row.id ==> out.world.rows[i] == row))
      && row.state == Some(Edited) && row.date == now
      && out.world.blobs == w.blobs[Akubra.DsKey(pid, Akubra.Alto, row.version) := content]
  {
    var x := UpdatePick(w.rows, UpdateKey(pid, userId, alto)).value;
    var row := x.(state := Some(Edited), date := now);
    ReplaceOnly(w.rows, x, row);
    ReplaceKeepsValid(w.rows, w.nextId, x, row);
  }

  /** getOcr fails with "not found" exactly when the priority query finds nothing. */
  lemma GetOcrFindsAlto(w: World, pid: string, version: Option<int>, userId: int, pero: int, alto: int,
                        ocr: Akubra.Bytes -> string)
    ensures var k := PriorityKey(pid, version, userId, pero, alto);
      var r := GetOcrSpec(w, pid, version, userId, pero, alto, ocr);
      (r == Err(NotFound(pid)) <==> forall x :: x in w.rows ==> !InPriority(x, k))
      && (r.Ok? ==> var p := PriorityPick(w.rows, k).value;
            Akubra.DsKey(p.pid, Akubra.Alto, p.version) in w.blobs
            && r.value == ocr(w.blobs[Akubra.DsKey(p.pid, Akubra.Alto, p.version)]))
  {
  }

  // ---------------------------------------------------------------------
  // The repository and the service as objects over the stored state

  class DigitalObjectRepository {
    var rows: seq<Row>
    var nextId: int

    ghost predicate Valid()
      reads this
    {
      TableValid(rows, nextId)
    }

    constructor ()
      ensures Valid() && rows == [] && nextId == 1
    {
      rows := [];
      nextId := 1;
    }

    /** save of a new row; a refused insert still uses up its sequence value. */
    method Insert(row: Row, now: int) returns (r: Result<Row, DomainError>)
      modifies this
      ensures var ins := InsertRow(old(rows), old(nextId), row, now);
        (ins.Err? ==> r == Err(ins.error) && rows == old(rows) && nextId == old(nextId) + 1)
        && (ins.Ok? ==> r == Ok(ins.value.row) && rows == ins.value.rows && nextId == ins.value.nextId)
      ensures old(Valid()) ==> Valid()
    {
      var ins := InsertRow(rows, nextId, row, now);
      if ins.Err? {
        nextId := nextId + 1;
        return Err(ins.error);
      }
      if Valid() {
        InsertKeepsValid(rows, nextId, row, now);
      }
      rows := ins.value.rows;
      nextId := ins.value.nextId;
      return Ok(ins.value.row);
    }

    /** save of the loaded row `x`, changed only in state and date. */
    method Save(x: Row, row: Row)
      requires x in rows && SameSlot(row, x)
      modifies this
      ensures rows == ReplaceById(old(rows), x.id, row) && nextId == old(nextId)
      ensures old(Valid()) ==> Valid()
    {
      if Valid() {
        ReplaceKeepsValid(rows, nextId, x, row);
      }
      rows := ReplaceById(rows, x.id, row);
    }
  }

  class DigitalObjectService {
    const repo: DigitalObjectRepository
    const store: Akubra.AkubraStore
    /** The ids of the special users PERO and ALTOEDITOR. */
    const pero: int
    const alto: int

    constructor (repo: DigitalObjectRepository, store: Akubra.AkubraStore, pero: int, alto: int)
      ensures this.repo == repo && this.store == store && this.pero == pero && this.alto == alto
    {
      this.repo := repo;
      this.store := store;
      this.pero := pero;
      this.alto := alto;
    }

    ghost predicate Valid()
      reads repo
    {
      repo.Valid()
    }

    /** The stored state as one value. */
    function Now(): World
      reads repo, store
    {
      World(repo.rows, repo.nextId, store.blobs)
    }

    /** The row with its ALTO read from the store. */
    method ContentOf(x: Row) returns (r: Result<Found, DomainError>)
      ensures r == WithStoredAlto(store.blobs, x)
    {
      var c := store.RetrieveDsBinaryContent(x.pid, Akubra.Alto, x.version);
      if c.Err? {
        return Err(Storage(c.error));
      }
      return Ok(WithContent(x, c.value));
    }

    /** findAlto */
    method FindAlto(pid: string, version: Option<int>, userId: int) returns (r: Result<Option<Found>, DomainError>)
      ensures r == FindAltoSpec(Now(), pid, version, userId, pero, alto)
    {
      var found := PriorityPick(repo.rows, PriorityKey(pid, version, userId, pero, alto));
      if found.None? {
        return Ok(None);
      }
      var c := ContentOf(found.value);
      if c.Err? {
        return Err(c.error);
      }
      return Ok(Some(c.value));
    }

    /** fetchNewAlto, corrected: the FOXML's ALTO is stored before the NEW row is saved. */
    method FetchNewAlto(pid: string, instance: Option<string>, userId: int, foxml: Akubra.Foxml, now: int)
      returns (r: Result<Found, DomainError>)
      requires Valid()
      modifies repo, store
      ensures Outcome(Now(), r) == FetchNewAltoSpec(old(Now()), pid, instance, userId, foxml, now)
      ensures Valid()
    {
      if ExistsByPid(repo.rows, pid) {
        return Err(AlreadyExists(pid));
      }
      var latest := Akubra.GetLatestDsVersionBinaryContent(foxml, Akubra.DatastreamId(Akubra.Alto));
      if latest.Err? {
        return Err(Storage(latest.error));
      }
      if latest.value.None? {
        return Err(AltoNotInFoxml(pid));
      }
      var version := FetchVersion(repo.rows, pid);
      store.SaveAltoContent(pid, version, latest.value.value);
      assert forall k :: 0 <= k < |repo.rows| ==> repo.rows[k].pid != pid;
      var saved := repo.Insert(DigitalObject(0, userId, instance, pid, version, now, Some(New)), now);
      r := ContentOf(saved.value);
    }

    /** getOriginalAlto */
    method GetOriginalAlto(pid: string) returns (r: Result<Found, DomainError>)
      ensures r == GetOriginalAltoSpec(Now(), pid, alto)
    {
      var found := FindByPidAndUserId(repo.rows, pid, alto);
      if found.Err? {
        return Err(Query(found.error));
      }
      if found.value.None? {
        return Err(OriginalNotFound(pid));
      }
      r := ContentOf(found.value.value);
    }

    /** createNewAltoVersion */
    method CreateNewAltoVersion(pid: string, content: Akubra.Bytes, now: int) returns (r: Result<Found, DomainError>)
      requires Valid()
      modifies repo, store
      ensures Outcome(Now(), r) == CreateSpec(old(Now()), pid, content, now)
      ensures Valid()
    {
      var m := MaxVersionRow(repo.rows, pid);
      if m.None? {
        return Err(NotFound(pid));
      }
      store.SaveAltoContent(pid, m.value.version + 1, content);
      var saved := repo.Insert(NextVersionRow(m.value, pid, now), now);
      if saved.Err? {
        return Err(saved.error);
      }
      return Ok(WithContent(saved.value, content));
    }

    /** updateAltoVersion */
    method UpdateAltoVersion(pid: string, userId: int, content: Akubra.Bytes, now: int)
      returns (r: Result<Found, DomainError>)
      requires Valid()
      modifies repo, store
      ensures Outcome(Now(), r) == UpdateSpec(old(Now()), pid, userId, alto, content, now)
      ensures Valid()
    {
      var found := UpdatePick(repo.rows, UpdateKey(pid, userId, alto));
      if found.None? {
        return Err(NoUpdateCandidate(pid));
      }
      var x := found.value;
      store.SaveAltoContent(pid, x.version, content);
      var row := x.(state := Some(Edited), date := now);
      repo.Save(x, row);
      return Ok(WithContent(row, content));
    }

    /** updateOrCreateAlto */
    method UpdateOrCreateAlto(pid: string, userId: int, content: Akubra.Bytes, now: int)
      returns (r: Result<Found, DomainError>)
      requires Valid()
      modifies repo, store
      ensures Outcome(Now(), r) == UpdateOrCreateSpec(old(Now()), pid, userId, alto, content, now)
      ensures Valid()
    {
      var own := FindByPidAndUserId(repo.rows, pid, userId);
      if own.Err? {
        return Err(Query(own.error));
      }
      if own.value.None? {
        r := CreateNewAltoVersion(pid, content, now);
        return;
      }
      var st := own.value.value.state;
      if st.None? {
        return Err(NullState);
      }
      if Finished(st.value) {
        r := CreateNewAltoVersion(pid, content, now);
      } else {
        r := UpdateAltoVersion(pid, userId, content, now);
      }
    }

    /** getOcr: findAlto's content converted to text by `ocr`. */
    method GetOcr(pid: string, version: Option<int>, userId: int, ocr: Akubra.Bytes -> string)
      returns (r: Result<string, DomainError>)
      ensures r == GetOcrSpec(Now(), pid, version, userId, pero, alto, ocr)
    {
      var found := FindAlto(pid, version, userId);
      if found.Err? {
        return Err(found.error);
      }
      if found.value.None? {
        return Err(NotFound(pid));
      }
      return Ok(ocr(found.value.value.content));
    }

    /** getKrameriusObjectImage: the image `image` returns for the chosen instance. */
    method GetKrameriusObjectImage(pid: string, instance: Option<string>, image: Option<string> -> Akubra.Bytes)
      returns (r: Result<Akubra.Bytes, DomainError>)
      ensures var i := ImageInstance(repo.rows, pid, instance);
        (i.None? ==> r == Err(NotFound(pid))) && (i.Some? ==> r == Ok(image(i.value)))
    {
      var chosen := ChooseImageInstance(repo.rows, pid, instance);
      if chosen.None? {
        return Err(NotFound(pid));
      }
      return Ok(image(chosen.value));
    }

    /** setStateForObject */
    method SetStateForObject(id: int, s: DigitalObjectState, now: int) returns (r: Result<(), DomainError>)
      requires Valid()
      modifies repo
      ensures var spec := SetState(old(repo.rows), id, s, now);
        (spec.None? ==> r == Err(IdNotFound(id)) && repo.rows == old(repo.rows))
        && (spec.Some? ==> r == Ok(()) && repo.rows == spec.value)
      ensures repo.nextId == old(repo.nextId) && Valid()
    {
      var x := FindById(repo.rows, id);
      if x.None? {
        return Err(IdNotFound(id));
      }
      if x.value.state != Some(s) {
        repo.Save(x.value, x.value.(state := Some(s), date := now));
      }
      return Ok(());
    }
  }
}
