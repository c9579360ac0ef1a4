// The `core` copy of the older digital-object versioning: versions are
// datastream version ids "p.n" kept as text, owners are user ids looked up
// by login, and the content lives in a datastream store read as text.
module CoreObjects {
  import opened Wrappers
  import opened JavaText
  import opened DigitalObjects

  type Row = DigitalObject<string>
  type Found = WithContent<string, string>

  const UserAltoeditor: string := "altoeditor"
  const UserPero: string := "pero"

  /** A row of the users table: logins are unique. */
  datatype Login = Login(id: int, login: string)

  datatype CoreError =
    | UserNotFound(login: string)      // "User not found"
    | NotFound(pid: string)            // "Digital object not found for PID"
    | AlreadyExists(pid: string)       // "Digital object with PID already exists"
    | OriginalNotFound(pid: string)    // "Original ALTO not found"
    | NoUpdateCandidate(pid: string)   // "No ALTO version available for update"
    | IdNotFound(id: int)              // "Digital object not found with ID"
    | NullState                        // List.of(...).contains(null) throws
    | NoCounter(version: string)       // versionParts[1] is out of bounds
    | BadCounter(text: string)         // Integer.parseInt throws
    | Query(query: QueryError)

  // ---------------------------------------------------------------------
  // Users

  /** findByLogin(login).map(User::getId) */
  function UserIdByLogin(users: seq<Login>, login: string): (r: Option<int>)
    ensures r.None? <==> forall u :: u in users ==> u.login != login
    ensures r.Some? ==> Login(r.value, login) in users
  {
    if |users| == 0 then None
    else if users[0].login == login then Some(users[0].id)
    else
      assert forall u :: u in users <==> u == users[0] || u in users[1..];
      UserIdByLogin(users[1..], login)
  }

  /** The id of a user named by a constant login; an unknown login throws. */
  function SpecialUserId(users: seq<Login>, login: string): Result<int, CoreError>
  {
    match UserIdByLogin(users, login)
    case None => Err(UserNotFound(login))
    case Some(id) => Ok(id)
  }

  /** getUserIdByUsername: a null username gives a null id; an unknown one throws. */
  function GetUserIdByUsername(users: seq<Login>, username: Option<string>): (r: Result<Option<int>, CoreError>)
    ensures r == Ok(None) <==> username.None?
    ensures r.Err? <==> username.Some? && forall u :: u in users ==> u.login != username.value
    ensures r.Err? ==> r.error == UserNotFound(username.value)
    ensures r.Ok? && r.value.Some? ==> username.Some? && Login(r.value.value, username.value) in users
  {
    match username
    case None => Ok(None)
    case Some(login) =>
      match SpecialUserId(users, login)
      case Err(e) => Err(e)
      case Ok(id) => Ok(Some(id))
  }

  /** With unique logins, the id found is the one user's with that login. */
  lemma GetUserIdIsUnique(users: seq<Login>, login: string, u: Login)
    requires forall i, j :: 0 <= i < j < |users| ==> users[i].login != users[j].login
    requires u in users && u.login == login
    ensures GetUserIdByUsername(users, Some(login)) == Ok(Some(u.id))
  {
    var id := UserIdByLogin(users, login).value;
    var i :| 0 <= i < |users| && users[i] == u;
    var j :| 0 <= j < |users| && users[j] == Login(id, login);
    assert forall a, b :: 0 <= a < |users| && 0 <= b < |users| && users[a].login == users[b].login ==> a == b;
  }

  // ---------------------------------------------------------------------
  // Version text

  /** The database's order on text: code point by code point, a proper prefix first. */
  predicate LexLe(a: string, b: string)
    decreases |a|
  {
    |a| == 0 || (|b| > 0 && (a[0] < b[0] || (a[0] == b[0] && LexLe(a[1..], b[1..]))))
  }

  lemma {:induction false} LexRefl(a: string)
    ensures LexLe(a, a)
    decreases |a|
  {
    if |a| > 0 {
      LexRefl(a[1..]);
    }
  }

  lemma {:induction false} LexTotal(a: string, b: string)
    ensures LexLe(a, b) || LexLe(b, a)
    decreases |a|
  {
    if |a| > 0 && |b| > 0 && a[0] == b[0] {
      LexTotal(a[1..], b[1..]);
    }
  }

  lemma {:induction false} LexTrans(a: string, b: string, c: string)
    requires LexLe(a, b) && LexLe(b, c)
    ensures LexLe(a, c)
    decreases |a|
  {
    if |a| > 0 && a[0] == b[0] && b[0] == c[0] {
      LexTrans(a[1..], b[1..], c[1..]);
    }
  }

  /**
   * findWithMaxVersionByPid(pid).stream().findFirst(): the first row, in
   * table order, of those whose version is the greatest text.
   */
  function MaxVersionRow(rows: seq<Row>, pid: string): (r: Option<Row>)
    ensures r.None? <==> forall x :: x in rows ==> x.pid != pid
    ensures r.Some? ==> r.value in rows && r.value.pid == pid
  {
    if |rows| == 0 then None
    else
      assert forall x :: x in rows <==> x == rows[0] || x in rows[1..];
      var rest := MaxVersionRow(rows[1..], pid);
      if rows[0].pid != pid then rest
      else if rest.Some? && !LexLe(rest.value.version, rows[0].version) then rest
      else Some(rows[0])
  }

  /** No version of the PID is a greater text than the picked row's. */
  lemma {:induction false} MaxVersionIsMax(rows: seq<Row>, pid: string, x: Row)
    requires x in rows && x.pid == pid
    ensures MaxVersionRow(rows, pid).Some? && LexLe(x.version, MaxVersionRow(rows, pid).value.version)
    decreases |rows|
  {
    assert forall y :: y in rows <==> y == rows[0] || y in rows[1..];
    var rest := MaxVersionRow(rows[1..], pid);
    if x != rows[0] {
      MaxVersionIsMax(rows[1..], pid, x);
      if rows[0].pid == pid && !(rest.Some? && !LexLe(rest.value.version, rows[0].version)) {
        LexTrans(x.version, rest.value.version, rows[0].version);
      }
    } else if rest.Some? && !LexLe(rest.value.version, rows[0].version) {
      LexTotal(rest.value.version, rows[0].version);
    } else {
      LexRefl(x.version);
    }
  }

  /** The fields getNextVersion reads: the text before the first '.', and the integer after it. */
  function VersionFields(v: string): Option<(string, int)>
  {
    var parts := JavaSplit(v, '.');
    if |parts| < 2 then None
    else
      match ParseInt(parts[1])
      case None => None
      case Some(n) => Some((parts[0], n))
  }

  /**
   * getNextVersion: split on every '.', parse the second field and add one
   * with `int` wrap-around; the first field, a '.', and the new number.
   */
  function NextVersion(v: string): (r: Result<string, CoreError>)
    ensures '.' !in v ==> r == Err(NoCounter(v))
  {
    var parts := JavaSplit(v, '.');
    if |parts| < 2 then Err(NoCounter(v))
    else
      match ParseInt(parts[1])
      case None => Err(BadCounter(parts[1]))
      case Some(n) => Ok(parts[0] + "." + IntToString(Wrap32(n + 1)))
  }

  /** No field of a split holds the separator. */
  lemma {:induction false} SplitAllNoSep(s: string, c: char)
    ensures forall k :: 0 <= k < |SplitAll(s, c)| ==> c !in SplitAll(s, c)[k]
    decreases |s|
  {
    if c in s {
      var i := IndexOf(s, c);
      SplitAllNoSep(s[i + 1..], c);
    }
  }

  /** "a.b" with no '.' in a or b and a non-empty b splits into exactly [a, b]. */
  lemma JavaSplitTwo(a: string, b: string)
    requires '.' !in a && '.' !in b && |b| > 0
    ensures JavaSplit(a + "." + b, '.') == [a, b]
  {
    SplitAllTwo(a, '.', b);
    assert (a + "." + b)[|a|] == '.';
  }

  /** The fields of a composed version text are the ones composed. */
  lemma FieldsOfVersion(p: string, n: int)
    requires '.' !in p && IsInt32(n)
    ensures VersionFields(p + "." + IntToString(n)) == Some((p, n))
  {
    IntToStringHasNo(n, '.');
    JavaSplitTwo(p, IntToString(n));
    ParseIntToString(n);
  }

  /** "p.n" becomes "p.(n+1)", the addition wrapping at the largest `int` as Java's does. */
  lemma NextVersionStep(p: string, n: int)
    requires '.' !in p && IsInt32(n)
    ensures NextVersion(p + "." + IntToString(n)) == Ok(p + "." + IntToString(Wrap32(n + 1)))
  {
    FieldsOfVersion(p, n);
    IntToStringHasNo(n, '.');
    JavaSplitTwo(p, IntToString(n));
  }

  /**
   * getNextVersion succeeds exactly when the version has fields, and the
   * result has the same prefix and the counter plus one (wrapping at the
   * largest `int`).
   */
  lemma NextVersionAddsOne(v: string)
    ensures NextVersion(v).Ok? <==> VersionFields(v).Some?
    ensures NextVersion(v).Ok? ==>
      VersionFields(NextVersion(v).value) == Some((VersionFields(v).value.0, Wrap32(VersionFields(v).value.1 + 1)))
  {
    var parts := JavaSplit(v, '.');
    if |parts| >= 2 && ParseInt(parts[1]).Some? {
      NextVersionCounted(v);
    }
  }

  /** NextVersionAddsOne for a version with a readable counter. */
  lemma NextVersionCounted(v: string)
    requires |JavaSplit(v, '.')| >= 2 && ParseInt(JavaSplit(v, '.')[1]).Some?
    ensures var parts := JavaSplit(v, '.'); var k := Wrap32(ParseInt(parts[1]).value + 1);
      NextVersion(v) == Ok(parts[0] + "." + IntToString(k))
      && VersionFields(v) == Some((parts[0], ParseInt(parts[1]).value))
      && VersionFields(parts[0] + "." + IntToString(k)) == Some((parts[0], k))
  {
    var parts := JavaSplit(v, '.');
    var n := ParseInt(parts[1]).value;
    var k := Wrap32(n + 1);
    assert NextVersion(v) == Ok(parts[0] + "." + IntToString(k));
    assert VersionFields(v) == Some((parts[0], n));
    PrefixHasNoDot(v);
    FieldsOfVersion(parts[0], k);
  }

  /** The first field of a split with at least two fields holds no '.'. */
  lemma PrefixHasNoDot(v: string)
    requires |JavaSplit(v, '.')| >= 2
    ensures '.' !in JavaSplit(v, '.')[0]
  {
    SplitAllNoSep(v, '.');
  }

  /** Splitting "p.d.rest" on every '.' starts with p and d. */
  lemma SplitAllFirstTwo(p: string, d: string, rest: string)
    requires '.' !in p && '.' !in d
    ensures var all := SplitAll(p + "." + d + "." + rest, '.');
      |all| >= 2 && all[0] == p && all[1] == d
  {
    assert p + "." + d + "." + rest == p + "." + (d + "." + rest);
    SplitAllCons(p, '.', d + "." + rest);
    SplitAllCons(d, '.', rest);
  }

  /** The first two fields of "p.d.rest" are p and d. */
  lemma SplitKeepsFirstTwo(p: string, d: string, rest: string)
    requires '.' !in p && '.' !in d && |d| > 0
    ensures var parts := JavaSplit(p + "." + d + "." + rest, '.');
      |parts| >= 2 && parts[0] == p && parts[1] == d
  {
    var s := p + "." + d + "." + rest;
    assert s[|p|] == '.';
    SplitAllFirstTwo(p, d, rest);
    var all := SplitAll(s, '.');
    assert all[1] != "";
    assert |DropTrailingEmpty(all)| >= 2;
  }

  /** Anything after a second '.' is dropped. */
  lemma NextVersionDropsTail(p: string, n: int, rest: string)
    requires '.' !in p && IsInt32(n)
    ensures NextVersion(p + "." + IntToString(n) + "." + rest) == NextVersion(p + "." + IntToString(n))
  {
    IntToStringHasNo(n, '.');
    SplitKeepsFirstTwo(p, IntToString(n), rest);
    JavaSplitTwo(p, IntToString(n));
  }

  /** A version's counter, with versions getNextVersion cannot read ranked below every counter. */
  function CounterRank(v: string): int
  {
    match VersionFields(v)
    case None => IntMin - 1
    case Some(f) => f.1
  }

  /** The first row of the PID with the greatest counter. */
  function MaxCounterRow(rows: seq<Row>, pid: string): (r: Option<Row>)
    ensures r.None? <==> forall x :: x in rows ==> x.pid != pid
    ensures r.Some? ==> r.value in rows && r.value.pid == pid
  {
    if |rows| == 0 then None
    else
      assert forall x :: x in rows <==> x == rows[0] || x in rows[1..];
      var rest := MaxCounterRow(rows[1..], pid);
      if rows[0].pid != pid then rest
      else if rest.Some? && CounterRank(rest.value.version) > CounterRank(rows[0].version) then rest
      else Some(rows[0])
  }

  lemma {:induction false} MaxCounterIsMax(rows: seq<Row>, pid: string, x: Row)
    requires x in rows && x.pid == pid
    ensures MaxCounterRow(rows, pid).Some?
    ensures CounterRank(x.version) <= CounterRank(MaxCounterRow(rows, pid).value.version)
    decreases |rows|
  {
    assert forall y :: y in rows <==> y == rows[0] || y in rows[1..];
    if x != rows[0] {
      MaxCounterIsMax(rows[1..], pid, x);
    } else if MaxCounterRow(rows[1..], pid).Some? {
      MaxCounterIsMax(rows[1..], pid, MaxCounterRow(rows[1..], pid).value);
    }
  }

  // ---------------------------------------------------------------------
  // The stored state and the service operations on it

  datatype Ds = Alto | Ocr
  datatype StoreKey = StoreKey(pid: string, ds: Ds, version: string)
  type Store = map<StoreKey, string>

  /** getDatastreamContent: the stored text, or "" when nothing is stored. */
  function ReadAlto(store: Store, pid: string, version: string): string
  {
    var k := StoreKey(pid, Alto, version);
    if k in store then store[k] else ""
  }

  datatype World = World(rows: seq<Row>, nextId: int, store: Store)

  datatype Outcome<T> = Outcome(world: World, result: Result<T, CoreError>)

  /** Ids come from the sequence and are distinct (the table has no other constraint). */
  predicate TableValid(rows: seq<Row>, nextId: int)
  {
    (forall i :: 0 <= i < |rows| ==> rows[i].id < nextId) && DistinctIds(rows)
  }

  /** save of a new row: the sequence gives the id and the persist callback stamps the date. */
  function Insert(w: World, row: Row, now: int): (r: (World, Row))
    ensures r.1 == row.(id := w.nextId, date := now)
    ensures r.0 == w.(rows := w.rows + [r.1], nextId := w.nextId + 1)
  {
    var saved := row.(id := w.nextId, date := now);
    (w.(rows := w.rows + [saved], nextId := w.nextId + 1), saved)
  }

  lemma InsertKeepsValid(w: World, row: Row, now: int)
    requires TableValid(w.rows, w.nextId)
    ensures TableValid(Insert(w, row, now).0.rows, Insert(w, row, now).0.nextId)
  {
  }

  /** findAlto: the first row of the priority query with its content, or null. */
  function FindAltoSpec(w: World, users: seq<Login>, pid: string, version: Option<string>, userId: int)
    : Result<Option<Found>, CoreError>
  {
    match SpecialUserId(users, UserAltoeditor)
    case Err(e) => Err(e)
    case Ok(alto) =>
      match SpecialUserId(users, UserPero)
      case Err(e) => Err(e)
      case Ok(pero) =>
        match PriorityPick(w.rows, PriorityKey(pid, version, userId, pero, alto))
        case None => Ok(None)
        case Some(x) => Ok(Some(WithContent(x, ReadAlto(w.store, x.pid, x.version))))
  }

  /**
   * saveFoxml, as the store it stands for keeps a FOXML: its ALTO
   * datastream becomes readable under the PID at the version the FOXML
   * carries, and nothing else changes.
   */
  function StoreFoxml(store: Store, pid: string, dsVersion: string, alto: string): (r: Store)
    ensures ReadAlto(r, pid, dsVersion) == alto
    ensures forall k :: k != StoreKey(pid, Alto, dsVersion) ==> (k in r <==> k in store) && (k in store ==> r[k] == store[k])
  {
    store[StoreKey(pid, Alto, dsVersion) := alto]
  }

  /**
   * fetchNewAlto with the new row's initial state: the FOXML fetched from
   * Kramerius, whose ALTO datastream is `alto` at version `dsVersion` (the
   * version getDsVersion reports), is saved; the row takes that version and
   * its content is read back at it.  As written the state is left null.
   */
  function FetchWith(w: World, pid: string, instance: Option<string>, userId: int, dsVersion: string, alto: string,
                     now: int, initial: Option<DigitalObjectState>): Outcome<Found>
  {
    if ExistsByPid(w.rows, pid) then Outcome(w, Err(AlreadyExists(pid)))
    else
      var saved := w.(store := StoreFoxml(w.store, pid, dsVersion, alto));
      var (w2, row) := Insert(saved, DigitalObject(0, userId, instance, pid, dsVersion, now, initial), now);
      Outcome(w2, Ok(WithContent(row, ReadAlto(w2.store, pid, dsVersion))))
  }

  function FetchNewAltoAsWritten(w: World, pid: string, instance: Option<string>, userId: int, dsVersion: string,
                                 alto: string, now: int): Outcome<Found>
  {
    FetchWith(w, pid, instance, userId, dsVersion, alto, now, None)
  }

  /** fetchNewAlto corrected: the fetched copy starts NEW, the state the edit path expects. */
  function FetchNewAltoSpec(w: World, pid: string, instance: Option<string>, userId: int, dsVersion: string,
                            alto: string, now: int): Outcome<Found>
  {
    FetchWith(w, pid, instance, userId, dsVersion, alto, now, Some(New))
  }

  /**
   * A fetch of a PID with no rows saves the FOXML's ALTO at its version,
   * appends one row for the caller at that version and returns that ALTO;
   * every other stored datastream is kept.  A PID with rows changes nothing.
   */
  lemma FetchReturnsFoxmlAlto(w: World, pid: string, instance: Option<string>, userId: int, dsVersion: string,
                              alto: string, now: int, initial: Option<DigitalObjectState>)
    ensures var out := FetchWith(w, pid, instance, userId, dsVersion, alto, now, initial);
      (ExistsByPid(w.rows, pid) ==> out == Outcome(w, Err(AlreadyExists(pid))))
      && (!ExistsByPid(w.rows, pid) ==>
            out.result.Ok?
            && out.result.value.content == alto
            && ReadAlto(out.world.store, pid, dsVersion) == alto
            && out.world.rows == w.rows + [out.result.value.digitalObject]
            && out.result.value.digitalObject
               == DigitalObject(w.nextId, userId, instance, pid, dsVersion, now, initial)
            && (forall k :: k != StoreKey(pid, Alto, dsVersion) && k in w.store ==>
                  k in out.world.store && out.world.store[k] == w.store[k]))
  {
    if !ExistsByPid(w.rows, pid) {
      var saved := w.(store := StoreFoxml(w.store, pid, dsVersion, alto));
      var out := FetchWith(w, pid, instance, userId, dsVersion, alto, now, initial);
      assert out.world == Insert(saved, DigitalObject(0, userId, instance, pid, dsVersion, now, initial), now).0;
      assert out.world.store == saved.store;
    }
  }

  /** getOriginalAlto: the altoeditor user's row of the PID with its content. */
  function GetOriginalAltoSpec(w: World, users: seq<Login>, pid: string): Result<Found, CoreError>
  {
    match SpecialUserId(users, UserAltoeditor)
    case Err(e) => Err(e)
    case Ok(alto) =>
      match Single(ByPidAnd(w.rows, pid, UserIs(alto)))
      case Err(e) => Err(Query(e))
      case Ok(None) => Err(OriginalNotFound(pid))
      case Ok(Some(x)) => Ok(WithContent(x, ReadAlto(w.store, x.pid, x.version)))
  }

  /**
   * createNewAltoVersion from the row `m` taken as the maximum: the content
   * is stored under m's next version, then a row for it is saved EDITED,
   * with m's owner and instance (the caller's id is not used).
   */
  function CreateFrom(w: World, pid: string, m: Option<Row>, content: string, now: int): Outcome<Found>
  {
    match m
    case None => Outcome(w, Err(NotFound(pid)))
    case Some(m) =>
      match NextVersion(m.version)
      case Err(e) => Outcome(w, Err(e))
      case Ok(v) =>
        var w2 := w.(store := w.store[StoreKey(pid, Alto, v) := content]);
        var (w3, row) := Insert(w2, DigitalObject(0, m.userId, m.instance, pid, v, now, Some(Edited)), now);
        Outcome(w3, Ok(WithContent(row, content)))
  }

  /** As written: the maximum is taken over the version text. */
  function CreateAsWritten(w: World, pid: string, content: string, now: int): Outcome<Found>
  {
    CreateFrom(w, pid, MaxVersionRow(w.rows, pid), content, now)
  }

  /** Corrected: the maximum is taken over the version counter. */
  function CreateSpec(w: World, pid: string, content: string, now: int): Outcome<Found>
  {
    CreateFrom(w, pid, MaxCounterRow(w.rows, pid), content, now)
  }

  /**
   * updateAltoVersion: the update candidate's content is overwritten at its
   * own version, and the row is set EDITED with a fresh date.
   */
  function UpdateSpec(w: World, users: seq<Login>, pid: string, userId: int, content: string, now: int)
    : Outcome<Found>
  {
    match SpecialUserId(users, UserAltoeditor)
    case Err(e) => Outcome(w, Err(e))
    case Ok(alto) =>
      match UpdatePick(w.rows, UpdateKey(pid, userId, alto))
      case None => Outcome(w, Err(NoUpdateCandidate(pid)))
      case Some(x) =>
        var row := x.(state := Some(Edited), date := now);
        Outcome(w.(store := w.store[StoreKey(pid, Alto, x.version) := content],
                   rows := ReplaceById(w.rows, x.id, row)),
                Ok(WithContent(row, content)))
  }

  /**
   * updateOrCreateAlto: no row of the user, or a finished one, makes a new
   * version; any other state is edited in place; a row without a state makes
   * the membership test throw.
   */
  function UpdateOrCreateSpec(w: World, users: seq<Login>, pid: string, userId: int, content: string, now: int)
    : Outcome<Found>
  {
    match Single(ByPidAnd(w.rows, pid, UserIs(userId)))
    case Err(e) => Outcome(w, Err(Query(e)))
    case Ok(None) => CreateSpec(w, pid, content, now)
    case Ok(Some(x)) =>
      if x.state.None? then Outcome(w, Err(NullState))
      else if Finished(x.state.value) then CreateSpec(w, pid, content, now)
      else UpdateSpec(w, users, pid, userId, content, now)
  }

  /** getOcr: the text of the user's row of that version, converted by `ocr`. */
  function GetOcrSpec(w: World, pid: string, version: Option<string>, userId: int, ocr: string -> string)
    : Result<string, CoreError>
  {
    match Single(ByPidAnd(w.rows, pid, UserAndVersion(userId, version)))
    case Err(e) => Err(Query(e))
    case Ok(None) => Err(NotFound(pid))
    case Ok(Some(x)) => Ok(ocr(ReadAlto(w.store, x.pid, x.version)))
  }

  // ---------------------------------------------------------------------
  // Properties

  /**
   * Version numbering stalls once a counter reaches two digits: with
   * "ALTO.9" and "ALTO.10" stored, the text maximum is "ALTO.9", so the next
   * version is "ALTO.10" again, and its stored content is overwritten.
   */
  lemma VersionNumberingStalls()
    ensures var a := DigitalObject(1, 7, Some("k7"), "uuid:p", "ALTO.9", 0, Some(Accepted));
      var b := DigitalObject(2, 7, Some("k7"), "uuid:p", "ALTO.10", 0, Some(Accepted));
      var w := World([a, b], 3, map[StoreKey("uuid:p", Alto, "ALTO.10") := "tenth"]);
      var out := CreateAsWritten(w, "uuid:p", "eleventh", 5);
      out.result.Ok?
      && out.result.value.digitalObject.version == b.version
      && ReadAlto(w.store, "uuid:p", b.version) == "tenth"
      && ReadAlto(out.world.store, "uuid:p", b.version) == "eleventh"
  {
    var a := DigitalObject(1, 7, Some("k7"), "uuid:p", "ALTO.9", 0, Some(Accepted));
    var b := DigitalObject(2, 7, Some("k7"), "uuid:p", "ALTO.10", 0, Some(Accepted));
    assert LexLe(b.version, a.version);
    assert MaxVersionRow([a, b], "uuid:p") == Some(a) by {
      assert [a, b][1..] == [b];
      assert MaxVersionRow([b], "uuid:p") == Some(b) by {
        assert [b][1..] == [];
      }
    }
    assert a.version == "ALTO" + "." + IntToString(9);
    assert b.version == "ALTO" + "." + IntToString(10);
    NextVersionStep("ALTO", 9);
    assert Wrap32(9 + 1) == 10;
  }

  /**
   * Corrected: the new version's counter is one above every counter of the
   * PID, so its text is no existing version's and the content of every
   * existing version stays as it was.
   */
  lemma CreateIsFresh(w: World, pid: string, content: string, now: int)
    requires TableValid(w.rows, w.nextId) && MaxCounterRow(w.rows, pid).Some?
    requires VersionFields(MaxCounterRow(w.rows, pid).value.version).Some?
    requires VersionFields(MaxCounterRow(w.rows, pid).value.version).value.1 < IntMax
    ensures var out := CreateSpec(w, pid, content, now);
      out.result.Ok?
      && var row := out.result.value.digitalObject;
      row.state == Some(Edited) && row.pid == pid && row.id == w.nextId
      && (forall x :: x in w.rows && x.pid == pid ==>
            x.version != row.version && CounterRank(x.version) < CounterRank(row.version)
            && ReadAlto(out.world.store, pid, x.version) == ReadAlto(w.store, pid, x.version))
      && ReadAlto(out.world.store, pid, row.version) == content
      && out.world.rows == w.rows + [row]
      && TableValid(out.world.rows, out.world.nextId)
  {
    var m := MaxCounterRow(w.rows, pid).value;
    NextCounterAbove(w.rows, pid);
    var v := NextVersion(m.version).value;
    InsertKeepsValid(w.(store := w.store[StoreKey(pid, Alto, v) := content]),
                     DigitalObject(0, m.userId, m.instance, pid, v, now, Some(Edited)), now);
  }

  /** The next version after the greatest counter has a counter above every version of the PID. */
  lemma NextCounterAbove(rows: seq<Row>, pid: string)
    requires MaxCounterRow(rows, pid).Some?
    requires VersionFields(MaxCounterRow(rows, pid).value.version).Some?
    requires VersionFields(MaxCounterRow(rows, pid).value.version).value.1 < IntMax
    ensures NextVersion(MaxCounterRow(rows, pid).value.version).Ok?
    ensures forall x :: x in rows && x.pid == pid ==>
      CounterRank(x.version) < CounterRank(NextVersion(MaxCounterRow(rows, pid).value.version).value)
  {
    var m := MaxCounterRow(rows, pid).value;
    NextVersionAddsOne(m.version);
    var v := NextVersion(m.version).value;
    assert CounterRank(v) == CounterRank(m.version) + 1;
    forall x | x in rows && x.pid == pid
      ensures CounterRank(x.version) < CounterRank(v)
    {
      MaxCounterIsMax(rows, pid, x);
    }
  }

  /** As written, the fetched row has no state and its owner's next save throws. */
  lemma FetchedNullStateBlocksSave(w: World, users: seq<Login>, pid: string, instance: Option<string>, userId: int,
                                   dsVersion: string, alto: string, now: int, content: string, later: int)
    requires !ExistsByPid(w.rows, pid)
    ensures var w1 := FetchNewAltoAsWritten(w, pid, instance, userId, dsVersion, alto, now).world;
      UpdateOrCreateSpec(w1, users, pid, userId, content, later) == Outcome(w1, Err(NullState))
  {
    assert forall x :: x in w.rows ==> x.pid != pid;
    var out := FetchNewAltoAsWritten(w, pid, instance, userId, dsVersion, alto, now);
    NoneThenAppended(w.rows, out.result.value.digitalObject, pid, UserIs(userId));
  }

  /**
   * Corrected: after a fetch, the owner's save edits the fetched row in
   * place, at the fetched version.
   */
  lemma FetchedRowIsEditable(w: World, users: seq<Login>, pid: string, instance: Option<string>, userId: int,
                             dsVersion: string, alto: string, now: int, content: string, later: int)
    requires TableValid(w.rows, w.nextId) && !ExistsByPid(w.rows, pid)
    requires UserIdByLogin(users, UserAltoeditor).Some?
    ensures var f := FetchNewAltoSpec(w, pid, instance, userId, dsVersion, alto, now);
      var out := UpdateOrCreateSpec(f.world, users, pid, userId, content, later);
      f.result.Ok?
      && out.result.Ok?
      && out.result.value.digitalObject == f.result.value.digitalObject.(state := Some(Edited), date := later)
      && ReadAlto(out.world.store, pid, dsVersion) == content
      && |out.world.rows| == |f.world.rows|
  {
    assert forall x :: x in w.rows ==> x.pid != pid;
    var f := FetchNewAltoSpec(w, pid, instance, userId, dsVersion, alto, now);
    var row := f.result.value.digitalObject;
    NoneThenAppended(w.rows, row, pid, UserIs(userId));
    var alto := UserIdByLogin(users, UserAltoeditor).value;
    OwnDraftIsPicked(f.world.rows, pid, userId, alto, row);
  }

  /** The user's only row of the PID, NEW or EDITED, is the update candidate. */
  lemma OwnDraftIsPicked(rows: seq<Row>, pid: string, userId: int, alto: int, x: Row)
    requires Single(ByPidAnd(rows, pid, UserIs(userId))) == Ok(Some(x))
    requires x.state == Some(New) || x.state == Some(Edited)
    ensures UpdatePick(rows, UpdateKey(pid, userId, alto)) == Some(x)
  {
    DerivedFinder(rows, pid, UserIs(userId));
    UpdatePickPrefersOwn(rows, UpdateKey(pid, userId, alto), x);
  }

  /**
   * The user's only row of the PID, NEW or EDITED, is edited in place: same
   * id and version, now EDITED, with the content stored over its version.
   */
  lemma OwnDraftEditedInPlace(w: World, users: seq<Login>, pid: string, userId: int, content: string, now: int,
                              x: Row)
    requires TableValid(w.rows, w.nextId) && UserIdByLogin(users, UserAltoeditor).Some?
    requires Single(ByPidAnd(w.rows, pid, UserIs(userId))) == Ok(Some(x))
    requires x.state == Some(New) || x.state == Some(Edited)
    ensures var out := UpdateOrCreateSpec(w, users, pid, userId, content, now);
      out.result.Ok?
      && out.result.value == WithContent(x.(state := Some(Edited), date := now), content)
      && out.world.rows == ReplaceById(w.rows, x.id, x.(state := Some(Edited), date := now))
      && TableValid(out.world.rows, out.world.nextId)
      && ReadAlto(out.world.store, pid, x.version) == content
  {
    var alto := UserIdByLogin(users, UserAltoeditor).value;
    OwnDraftIsPicked(w.rows, pid, userId, alto, x);
    assert UpdateOrCreateSpec(w, users, pid, userId, content, now) == UpdateSpec(w, users, pid, userId, content, now);
    assert SpecialUserId(users, UserAltoeditor) == Ok(alto);
    var row := x.(state := Some(Edited), date := now);
    assert UpdateSpec(w, users, pid, userId, content, now)
        == Outcome(w.(store := w.store[StoreKey(pid, Alto, x.version) := content],
                      rows := ReplaceById(w.rows, x.id, row)),
                   Ok(WithContent(row, content)));
    ReplaceKeepsValid(w.rows, w.nextId, x.id, row);
  }

  /** Saving a loaded row under its own id keeps every id, so the table stays valid. */
  lemma ReplaceKeepsValid(rows: seq<Row>, nextId: int, id: int, row: Row)
    requires TableValid(rows, nextId) && row.id == id
    ensures TableValid(ReplaceById(rows, id, row), nextId)
  {
    var after := ReplaceById(rows, id, row);
    assert forall i :: 0 <= i < |rows| ==> after[i].id == rows[i].id;
  }

  /** A user whose row is ACCEPTED, REJECTED or UPLOADED gets a new version. */
  lemma FinishedStartsNewVersion(w: World, users: seq<Login>, pid: string, userId: int, content: string, now: int,
                                 x: Row)
    requires Single(ByPidAnd(w.rows, pid, UserIs(userId))) == Ok(Some(x))
    requires x.state.Some? && Finished(x.state.value)
    ensures UpdateOrCreateSpec(w, users, pid, userId, content, now) == CreateSpec(w, pid, content, now)
    ensures CreateSpec(w, pid, content, now).result.Err? ==>
      CreateSpec(w, pid, content, now).result.error == NextVersion(MaxCounterRow(w.rows, pid).value.version).error
  {
    DerivedFinder(w.rows, pid, UserIs(userId));
  }

  /** getOcr finds exactly the user's row of the version asked for. */
  lemma GetOcrOwnVersion(w: World, pid: string, version: Option<string>, userId: int, ocr: string -> string)
    ensures var r := GetOcrSpec(w, pid, version, userId, ocr);
      (r == Err(NotFound(pid)) <==>
         forall x :: x in w.rows ==> !(x.pid == pid && x.userId == userId && Some(x.version) == version))
      && (r.Ok? ==> exists x :: x in w.rows && x.pid == pid && x.userId == userId && Some(x.version) == version
                                && r.value == ocr(ReadAlto(w.store, pid, x.version)))
  {
    DerivedFinder(w.rows, pid, UserAndVersion(userId, version));
  }

  // ---------------------------------------------------------------------
  // The repository, the store and the service as objects

  class DigitalObjectRepository {
    var rows: seq<Row>
    var nextId: int

    ghost predicate Valid()
      reads this
    {
      TableValid(rows, nextId)
    }

    constructor ()
      ensures Valid() && rows == [] && nextId == 1
    {
      rows := [];
      nextId := 1;
    }

    /** save of a new row */
    method Insert(row: Row, now: int) returns (saved: Row)
      modifies this
      ensures saved == row.(id := old(nextId), date := now)
      ensures rows == old(rows) + [saved] && nextId == old(nextId) + 1
      ensures old(Valid()) ==> Valid()
    {
      saved := row.(id := nextId, date := now);
      rows := rows + [saved];
      nextId := nextId + 1;
    }

    /** save of the loaded row `x`, changed only in state and date. */
    method Save(x: Row, row: Row)
      requires Valid() && x in rows && row.id == x.id
      modifies this
      ensures rows == ReplaceById(old(rows), x.id, row) && nextId == old(nextId)
      ensures Valid()
    {
      ReplaceKeepsValid(rows, nextId, x.id, row);
      rows := ReplaceById(rows, x.id, row);
    }
  }

  /** The datastream store, keyed by PID, datastream and version. */
  class DatastreamStore {
    var blobs: Store

    constructor ()
      ensures blobs == map[]
    {
      blobs := map[];
    }

    method SaveAltoContent(pid: string, version: string, content: string)
      modifies this
      ensures blobs == old(blobs)[StoreKey(pid, Alto, version) := content]
    {
      blobs := blobs[StoreKey(pid, Alto, version) := content];
    }

    method SaveOcrContent(pid: string, version: string, content: string)
      modifies this
      ensures blobs == old(blobs)[StoreKey(pid, Ocr, version) := content]
    {
      blobs := blobs[StoreKey(pid, Ocr, version) := content];
    }

    /** saveFoxml: the FOXML's ALTO datastream is kept at the version it carries. */
    method SaveFoxml(pid: string, dsVersion: string, alto: string)
      modifies this
      ensures blobs == StoreFoxml(old(blobs), pid, dsVersion, alto)
    {
      blobs := blobs[StoreKey(pid, Alto, dsVersion) := alto];
    }

    method GetDatastreamContent(pid: string, version: string) returns (content: string)
      ensures content == ReadAlto(blobs, pid, version)
    {
      var k := StoreKey(pid, Alto, version);
      content := if k in blobs then blobs[k] else "";
    }
  }

  class DigitalObjectService {
    const repo: DigitalObjectRepository
    const store: DatastreamStore
    const users: seq<Login>

    constructor (repo: DigitalObjectRepository, store: DatastreamStore, users: seq<Login>)
      ensures this.repo == repo && this.store == store && this.users == users
    {
      this.repo := repo;
      this.store := store;
      this.users := users;
    }

    ghost predicate Valid()
      reads repo
    {
      repo.Valid()
    }

    function Now(): World
      reads repo, store
    {
      World(repo.rows, repo.nextId, store.blobs)
    }

    /** findAlto */
    method FindAlto(pid: string, version: Option<string>, userId: int) returns (r: Result<Option<Found>, CoreError>)
      ensures r == FindAltoSpec(Now(), users, pid, version, userId)
    {
      var alto := SpecialUserId(users, UserAltoeditor);
      if alto.Err? {
        return Err(alto.error);
      }
      var pero := SpecialUserId(users, UserPero);
      if pero.Err? {
        return Err(pero.error);
      }
      var found := PriorityPick(repo.rows, PriorityKey(pid, version, userId, pero.value, alto.value));
      if found.None? {
        return Ok(None);
      }
      var content := store.GetDatastreamContent(found.value.pid, found.value.version);
      return Ok(Some(WithContent(found.value, content)));
    }

    /**
     * fetchNewAlto, corrected: the fetched copy starts NEW.  The FOXML from
     * Kramerius is given by its ALTO datastream: `alto` at `dsVersion`.
     */
    method FetchNewAlto(pid: string, instance: Option<string>, userId: int, dsVersion: string, alto: string, now: int)
      returns (r: Result<Found, CoreError>)
      requires Valid()
      modifies repo, store
      ensures Outcome(Now(), r) == FetchNewAltoSpec(old(Now()), pid, instance, userId, dsVersion, alto, now)
      ensures Valid()
    {
      if ExistsByPid(repo.rows, pid) {
        return Err(AlreadyExists(pid));
      }
      store.SaveFoxml(pid, dsVersion, alto);
      var saved := repo.Insert(DigitalObject(0, userId, instance, pid, dsVersion, now, Some(New)), now);
      var content := store.GetDatastreamContent(pid, dsVersion);
      return Ok(WithContent(saved, content));
    }

    /** getOriginalAlto */
    method GetOriginalAlto(pid: string) returns (r: Result<Found, CoreError>)
      ensures r == GetOriginalAltoSpec(Now(), users, pid)
    {
      var alto := SpecialUserId(users, UserAltoeditor);
      if alto.Err? {
        return Err(alto.error);
      }
      var found := Single(ByPidAnd(repo.rows, pid, UserIs(alto.value)));
      if found.Err? {
        return Err(Query(found.error));
      }
      if found.value.None? {
        return Err(OriginalNotFound(pid));
      }
      var x := found.value.value;
      var content := store.GetDatastreamContent(x.pid, x.version);
      return Ok(WithContent(x, content));
    }

    /** createNewAltoVersion, from the row with the greatest counter. */
    method CreateNewAltoVersion(pid: string, content: string, now: int) returns (r: Result<Found, CoreError>)
      requires Valid()
      modifies repo, store
      ensures Outcome(Now(), r) == CreateSpec(old(Now()), pid, content, now)
      ensures Valid()
    {
      var m := MaxCounterRow(repo.rows, pid);
      if m.None? {
        return Err(NotFound(pid));
      }
      var v := NextVersion(m.value.version);
      if v.Err? {
        return Err(v.error);
      }
      store.SaveAltoContent(pid, v.value, content);
      var saved := repo.Insert(DigitalObject(0, m.value.userId, m.value.instance, pid, v.value, now, Some(Edited)), now);
      return Ok(WithContent(saved, content));
    }

    /** updateAltoVersion */
    method UpdateAltoVersion(pid: string, userId: int, content: string, now: int) returns (r: Result<Found, CoreError>)
      requires Valid()
      modifies repo, store
      ensures Outcome(Now(), r) == UpdateSpec(old(Now()), users, pid, userId, content, now)
      ensures Valid()
    {
      var alto := SpecialUserId(users, UserAltoeditor);
      if alto.Err? {
        return Err(alto.error);
      }
      var found := UpdatePick(repo.rows, UpdateKey(pid, userId, alto.value));
      if found.None? {
        return Err(NoUpdateCandidate(pid));
      }
      var x := found.value;
      store.SaveAltoContent(pid, x.version, content);
      var row := x.(state := Some(Edited), date := now);
      repo.Save(x, row);
      return Ok(WithContent(row, content));
    }

    /** updateOrCreateAlto */
    method UpdateOrCreateAlto(pid: string, userId: int, content: string, now: int) returns (r: Result<Found, CoreError>)
      requires Valid()
      modifies repo, store
      ensures Outcome(Now(), r) == UpdateOrCreateSpec(old(Now()), users, pid, userId, content, now)
      ensures Valid()
    {
      var own := Single(ByPidAnd(repo.rows, pid, UserIs(userId)));
      if own.Err? {
        return Err(Query(own.error));
      }
      if own.value.None? {
        r := CreateNewAltoVersion(pid, content, now);
        return;
      }
      var st := own.value.value.state;
      if st.None? {
        return Err(NullState);
      }
      if Finished(st.value) {
        r := CreateNewAltoVersion(pid, content, now);
      } else {
        r := UpdateAltoVersion(pid, userId, content, now);
      }
    }

    /** getOcr */
    method GetOcr(pid: string, version: Option<string>, userId: int, ocr: string -> string)
      returns (r: Result<string, CoreError>)
      ensures r == GetOcrSpec(Now(), pid, version, userId, ocr)
    {
      var found := Single(ByPidAnd(repo.rows, pid, UserAndVersion(userId, version)));
      if found.Err? {
        return Err(Query(found.error));
      }
      if found.value.None? {
        return Err(NotFound(pid));
      }
      var content := store.GetDatastreamContent(found.value.value.pid, found.value.value.version);
      return Ok(ocr(content));
    }

    /** getKrameriusObjectImage: the image `image` returns for the chosen instance. */
    method GetKrameriusObjectImage(pid: string, instance: Option<string>, image: Option<string> -> seq<bv8>)
      returns (r: Result<seq<bv8>, CoreError>)
      ensures var i := ImageInstance(repo.rows, pid, instance);
        (i.None? ==> r == Err(NotFound(pid))) && (i.Some? ==> r == Ok(image(i.value)))
    {
      var chosen := ChooseImageInstance(repo.rows, pid, instance);
      if chosen.None? {
        return Err(NotFound(pid));
      }
      return Ok(image(chosen.value));
    }

    /** setStateForObject */
    method SetStateForObject(id: int, s: DigitalObjectState, now: int) returns (r: Result<(), CoreError>)
      requires Valid()
      modifies repo
      ensures var spec := SetState(old(repo.rows), id, s, now);
        (spec.None? ==> r == Err(IdNotFound(id)) && repo.rows == old(repo.rows))
        && (spec.Some? ==> r == Ok(()) && repo.rows == spec.value)
      ensures repo.nextId == old(repo.nextId) && Valid()
    {
      var x := FindById(repo.rows, id);
      if x.None? {
        return Err(IdNotFound(id));
      }
      if x.value.state != Some(s) {
        repo.Save(x.value, x.value.(state := Some(s), date := now));
      }
      return Ok(());
    }
  }
}
