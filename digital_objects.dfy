// The rows of the older digital-object table, shared by its two copies (the
// `domain` one with integer versions and the `core` one with "p.n" text
// versions), and the two ranked queries both copies use: the priority pick of
// the ALTO to show, and the pick of the row an edit is written into.
module DigitalObjects {
  import opened Wrappers

  datatype DigitalObjectState = New | Edited | Accepted | Rejected | Uploaded | Active | Archived

  /**
   * One row.  `V` is the version's type; `date` is the clock value the
   * persistence callbacks stamp on every insert and every dirty update.
   */
  datatype DigitalObject<V> = DigitalObject(
    id: int,
    userId: int,
    instance: Option<string>,
    pid: string,
    version: V,
    date: int,
    state: Option<DigitalObjectState>)

  datatype WithContent<V, C> = WithContent(digitalObject: DigitalObject<V>, content: C)

  /** A finder declared to return at most one row found several. */
  datatype QueryError = NonUnique(count: nat)

  // ---------------------------------------------------------------------
  // Plain finders

  /** findAllByPid / findByPid: the rows of the PID, in table order. */
  function ByPid<V(!new)>(rows: seq<DigitalObject<V>>, pid: string): (r: seq<DigitalObject<V>>)
    ensures |r| <= |rows|
    ensures forall x :: x in r <==> x in rows && x.pid == pid
  {
    if |rows| == 0 then []
    else
      var rest := ByPid(rows[1..], pid);
      assert forall x :: x in rows <==> x == rows[0] || x in rows[1..];
      if rows[0].pid == pid then [rows[0]] + rest else rest
  }

  /** existsByPid */
  predicate ExistsByPid<V(!new)>(rows: seq<DigitalObject<V>>, pid: string)
  {
    exists i :: 0 <= i < |rows| && rows[i].pid == pid
  }

  /**
   * A derived query returning an Optional: no row, one row, or
   * IncorrectResultSizeDataAccessException for several.
   */
  function Single<T>(sel: seq<T>): (r: Result<Option<T>, QueryError>)
    ensures r == Ok(None) <==> |sel| == 0
    ensures r.Ok? && r.value.Some? <==> |sel| == 1
    ensures r.Ok? && r.value.Some? ==> r.value.value == sel[0]
    ensures r.Err? ==> r.error == NonUnique(|sel|)
  {
    if |sel| == 0 then Ok(None) else if |sel| == 1 then Ok(Some(sel[0])) else Err(NonUnique(|sel|))
  }

  /** findById */
  function FindById<V(!new)>(rows: seq<DigitalObject<V>>, id: int): (r: Option<DigitalObject<V>>)
    ensures r.None? <==> forall i :: 0 <= i < |rows| ==> rows[i].id != id
    ensures r.Some? ==> r.value in rows && r.value.id == id
  {
    if |rows| == 0 then None
    else if rows[0].id == id then Some(rows[0])
    else
      assert forall i :: 1 <= i < |rows| ==> rows[i] == rows[1..][i - 1];
      FindById(rows[1..], id)
  }

  /** save of a loaded row: every row with its id is replaced, the others are kept. */
  function ReplaceById<V(!new)>(rows: seq<DigitalObject<V>>, id: int, row: DigitalObject<V>): (r: seq<DigitalObject<V>>)
    ensures |r| == |rows|
    ensures forall i :: 0 <= i < |rows| ==> r[i] == (if rows[i].id == id then row else rows[i])
  {
    if |rows| == 0 then []
    else [if rows[0].id == id then row else rows[0]] + ReplaceById(rows[1..], id, row)
  }

  lemma ExistsByPidIffRows<V(!new)>(rows: seq<DigitalObject<V>>, pid: string)
    ensures ExistsByPid(rows, pid) <==> |ByPid(rows, pid)| > 0
  {
    if ExistsByPid(rows, pid) {
      var i :| 0 <= i < |rows| && rows[i].pid == pid;
      assert rows[i] in ByPid(rows, pid);
    }
    if |ByPid(rows, pid)| > 0 {
      assert ByPid(rows, pid)[0] in rows;
    }
  }

  // ---------------------------------------------------------------------
  // Derived finders: `findByPidAnd<Column>`

  /** A column condition of a derived finder; a null argument matches a null column. */
  datatype Column<V> =
    | UserIs(userId: int)
    | VersionIs(version: Option<V>)
    | UserAndVersion(owner: int, ownVersion: Option<V>)
    | InstanceIs(instance: Option<string>)
    | StateIs(state: DigitalObjectState)

  predicate Matches<V(==,!new)>(x: DigitalObject<V>, c: Column<V>)
  {
    match c
    case UserIs(u) => x.userId == u
    case VersionIs(v) => Some(x.version) == v
    case UserAndVersion(u, v) => x.userId == u && Some(x.version) == v
    case InstanceIs(i) => x.instance == i
    case StateIs(s) => x.state == Some(s)
  }

  /** findByPidAnd…: the rows of the PID matching the column, in table order. */
  function ByPidAnd<V(==,!new)>(rows: seq<DigitalObject<V>>, pid: string, c: Column<V>): (r: seq<DigitalObject<V>>)
    ensures forall x :: x in r <==> x in rows && x.pid == pid && Matches(x, c)
  {
    if |rows| == 0 then []
    else
      var rest := ByPidAnd(rows[1..], pid, c);
      assert forall x :: x in rows <==> x == rows[0] || x in rows[1..];
      if rows[0].pid == pid && Matches(rows[0], c) then [rows[0]] + rest else rest
  }

  /** What a derived finder returns: the one matching row, none, or a failure for several. */
  lemma DerivedFinder<V(!new)>(rows: seq<DigitalObject<V>>, pid: string, c: Column<V>)
    ensures var r := Single(ByPidAnd(rows, pid, c));
      (r == Ok(None) <==> forall x :: x in rows ==> !(x.pid == pid && Matches(x, c)))
      && (r.Ok? && r.value.Some? ==>
            r.value.value in rows && r.value.value.pid == pid && Matches(r.value.value, c)
            && forall x :: x in rows && x.pid == pid && Matches(x, c) ==> x == r.value.value)
  {
    var sel := ByPidAnd(rows, pid, c);
    if |sel| > 0 {
      assert sel[0] in sel;
    }
    if |sel| == 1 {
      forall x | x in rows && x.pid == pid && Matches(x, c)
        ensures x == sel[0]
      {
        assert x in sel;
      }
    }
  }

  /** A row appended to a table goes to the end of every selection it matches. */
  lemma {:induction false} ByPidAndAppend<V(!new)>(rows: seq<DigitalObject<V>>, row: DigitalObject<V>, pid: string, c: Column<V>)
    ensures ByPidAnd(rows + [row], pid, c)
         == ByPidAnd(rows, pid, c) + (if row.pid == pid && Matches(row, c) then [row] else [])
    decreases |rows|
  {
    if |rows| > 0 {
      assert (rows + [row])[1..] == rows[1..] + [row];
      ByPidAndAppend(rows[1..], row, pid, c);
    }
  }

  /** A matching row appended to a table with no row of its PID is the only one selected. */
  lemma NoneThenAppended<V(!new)>(rows: seq<DigitalObject<V>>, row: DigitalObject<V>, pid: string, c: Column<V>)
    requires forall x :: x in rows ==> x.pid != pid
    requires row.pid == pid && Matches(row, c)
    ensures ByPidAnd(rows + [row], pid, c) == [row]
  {
    ByPidAndAppend(rows, row, pid, c);
    ByPidAndNone(rows, pid, c);
  }

  lemma {:induction false} ByPidAndNone<V(!new)>(rows: seq<DigitalObject<V>>, pid: string, c: Column<V>)
    requires forall x :: x in rows ==> !(x.pid == pid && Matches(x, c))
    ensures ByPidAnd(rows, pid, c) == []
    decreases |rows|
  {
    if |rows| > 0 {
      assert rows[0] in rows;
      assert forall x :: x in rows[1..] ==> x in rows;
      ByPidAndNone(rows[1..], pid, c);
    }
  }

  // ---------------------------------------------------------------------
  // The priority query: a requested version, then the current user, then
  // the PERO engine's user, then the altoeditor user.

  datatype PriorityKey<V> = PriorityKey(pid: string, version: Option<V>, current: int, pero: int, alto: int)

  /** The query's filter: the PID, one of the three owners, and the version when one is asked for. */
  predicate InPriority<V(==,!new)>(x: DigitalObject<V>, k: PriorityKey<V>)
  {
    x.pid == k.pid
    && (x.userId == k.current || x.userId == k.pero || x.userId == k.alto)
    && (k.version.None? || x.version == k.version.value)
  }

  /** The query's ORDER BY CASE; comparing with a null version is never true. */
  function PriorityRank<V(==,!new)>(x: DigitalObject<V>, k: PriorityKey<V>): nat
  {
    if k.version.Some? && x.version == k.version.value then 0
    else if x.userId == k.current then 1
    else if x.userId == k.pero then 2
    else if x.userId == k.alto then 3
    else 4
  }

  /**
   * The first row of the ordered result (`stream().findFirst()`): a row of
   * the lowest rank, the earliest in table order among equals.
   */
  function PriorityPick<V(==,!new)>(rows: seq<DigitalObject<V>>, k: PriorityKey<V>): (r: Option<DigitalObject<V>>)
    ensures r.None? <==> forall x :: x in rows ==> !InPriority(x, k)
    ensures r.Some? ==> r.value in rows && InPriority(r.value, k)
  {
    if |rows| == 0 then None
    else
      assert forall x :: x in rows <==> x == rows[0] || x in rows[1..];
      var rest := PriorityPick(rows[1..], k);
      if !InPriority(rows[0], k) then rest
      else if rest.Some? && PriorityRank(rest.value, k) < PriorityRank(rows[0], k) then rest
      else Some(rows[0])
  }

  /** No row the query keeps ranks before the picked one. */
  lemma {:induction false} PriorityPickMinimal<V(!new)>(rows: seq<DigitalObject<V>>, k: PriorityKey<V>, x: DigitalObject<V>)
    requires x in rows && InPriority(x, k)
    ensures PriorityPick(rows, k).Some?
    ensures PriorityRank(PriorityPick(rows, k).value, k) <= PriorityRank(x, k)
    decreases |rows|
  {
    assert forall y :: y in rows <==> y == rows[0] || y in rows[1..];
    if x != rows[0] {
      PriorityPickMinimal(rows[1..], k, x);
    } else if PriorityPick(rows[1..], k).Some? {
      var rest := PriorityPick(rows[1..], k).value;
      PriorityPickMinimal(rows[1..], k, rest);
    }
  }

  /** With a version asked for, only rows of that version are shown. */
  lemma PriorityPickVersion<V(!new)>(rows: seq<DigitalObject<V>>, k: PriorityKey<V>)
    requires k.version.Some? && PriorityPick(rows, k).Some?
    ensures PriorityPick(rows, k).value.version == k.version.value
  {
  }

  /**
   * Without a version: the current user's row wins; without one, a PERO row;
   * without either, the altoeditor user's row.
   */
  lemma PriorityPickOwner<V(!new)>(rows: seq<DigitalObject<V>>, k: PriorityKey<V>, x: DigitalObject<V>)
    requires k.version.None? && x in rows && InPriority(x, k)
    ensures var p := PriorityPick(rows, k).value;
      (x.userId == k.current ==> p.userId == k.current)
      && (x.userId == k.pero ==> p.userId == k.current || p.userId == k.pero)
  {
    PriorityPickMinimal(rows, k, x);
  }

  // ---------------------------------------------------------------------
  // The update candidate: the user's NEW or EDITED row, then any UPLOADED
  // row, then the altoeditor user's NEW row; the most recent first within
  // each rank.

  datatype UpdateKey = UpdateKey(pid: string, userId: int, alto: int)

  predicate IsUpdateCandidate<V(!new)>(x: DigitalObject<V>, k: UpdateKey)
  {
    x.pid == k.pid
    && ((x.userId == k.userId && (x.state == Some(New) || x.state == Some(Edited)))
        || x.state == Some(Uploaded)
        || (x.userId == k.alto && x.state == Some(New)))
  }

  function UpdateRank<V(!new)>(x: DigitalObject<V>, k: UpdateKey): nat
  {
    if x.userId == k.userId && (x.state == Some(New) || x.state == Some(Edited)) then 0
    else if x.state == Some(Uploaded) then 1
    else if x.userId == k.alto && x.state == Some(New) then 2
    else 3
  }

  /** `a` comes no later than `b` in the candidate order (rank, then date descending). */
  predicate UpdateNoLater<V(!new)>(a: DigitalObject<V>, b: DigitalObject<V>, k: UpdateKey)
  {
    UpdateRank(a, k) < UpdateRank(b, k) || (UpdateRank(a, k) == UpdateRank(b, k) && a.date >= b.date)
  }

  /**
   * findUpdateCandidate read with LIMIT 1, as the ranked query is meant: the
   * first candidate in that order, the earliest in table order among equals.
   * `UpdateCandidateAsWritten` is the query as declared.
   */
  function UpdatePick<V(!new)>(rows: seq<DigitalObject<V>>, k: UpdateKey): (r: Option<DigitalObject<V>>)
    ensures r.None? <==> forall x :: x in rows ==> !IsUpdateCandidate(x, k)
    ensures r.Some? ==> r.value in rows && IsUpdateCandidate(r.value, k)
  {
    if |rows| == 0 then None
    else
      assert forall x :: x in rows <==> x == rows[0] || x in rows[1..];
      var rest := UpdatePick(rows[1..], k);
      if !IsUpdateCandidate(rows[0], k) then rest
      else if rest.Some? && !UpdateNoLater(rows[0], rest.value, k) then rest
      else Some(rows[0])
  }

  /** The picked candidate comes no later than any other candidate. */
  lemma {:induction false} UpdatePickFirst<V(!new)>(rows: seq<DigitalObject<V>>, k: UpdateKey, x: DigitalObject<V>)
    requires x in rows && IsUpdateCandidate(x, k)
    ensures UpdatePick(rows, k).Some? && UpdateNoLater(UpdatePick(rows, k).value, x, k)
    decreases |rows|
  {
    assert forall y :: y in rows <==> y == rows[0] || y in rows[1..];
    if x != rows[0] {
      UpdatePickFirst(rows[1..], k, x);
    } else if UpdatePick(rows[1..], k).Some? {
      var rest := UpdatePick(rows[1..], k).value;
      UpdatePickFirst(rows[1..], k, rest);
    }
  }

  /**
   * A user's own NEW or EDITED row is always written before any UPLOADED row
   * and before the altoeditor user's original.
   */
  lemma UpdatePickPrefersOwn<V(!new)>(rows: seq<DigitalObject<V>>, k: UpdateKey, x: DigitalObject<V>)
    requires x in rows && x.pid == k.pid && x.userId == k.userId
    requires x.state == Some(New) || x.state == Some(Edited)
    ensures var p := UpdatePick(rows, k).value;
      p.userId == k.userId && (p.state == Some(New) || p.state == Some(Edited)) && p.date >= x.date
  {
    UpdatePickFirst(rows, k, x);
  }

  /** The rows findUpdateCandidate's WHERE clause selects, in table order. */
  function UpdateCandidates<V(!new)>(rows: seq<DigitalObject<V>>, k: UpdateKey): (r: seq<DigitalObject<V>>)
    ensures forall x :: x in r <==> x in rows && IsUpdateCandidate(x, k)
  {
    if |rows| == 0 then []
    else
      assert forall x :: x in rows <==> x == rows[0] || x in rows[1..];
      (if IsUpdateCandidate(rows[0], k) then [rows[0]] else []) + UpdateCandidates(rows[1..], k)
  }

  /**
   * findUpdateCandidate as declared: an Optional-returning query without
   * LIMIT 1, so that two candidates make it fail whatever their order.
   */
  function UpdateCandidateAsWritten<V(!new)>(rows: seq<DigitalObject<V>>, k: UpdateKey)
    : Result<Option<DigitalObject<V>>, QueryError>
  {
    Single(UpdateCandidates(rows, k))
  }

  /**
   * The declared query fails exactly when two or more rows qualify, and
   * where it answers it answers what the ranked pick does.
   */
  lemma AsWrittenAgreesWhenSingle<V(!new)>(rows: seq<DigitalObject<V>>, k: UpdateKey)
    ensures UpdateCandidateAsWritten(rows, k).Err? <==> |UpdateCandidates(rows, k)| >= 2
    ensures UpdateCandidateAsWritten(rows, k).Ok? ==> UpdateCandidateAsWritten(rows, k).value == UpdatePick(rows, k)
  {
    var c := UpdateCandidates(rows, k);
    if |c| == 1 {
      assert c == [c[0]];
      var p := UpdatePick(rows, k).value;
      assert p in c;
    }
  }

  /**
   * The user's EDITED row beside someone's UPLOADED row: the declared query
   * throws, where the ranked pick writes into the user's row.
   */
  lemma UpdateCandidateAsWrittenThrows()
    ensures var k := UpdateKey("uuid:p", 1, 2);
      var own := DigitalObject(1, 1, None, "uuid:p", 0, 5, Some(Edited));
      var uploaded := DigitalObject(2, 3, None, "uuid:p", 1, 4, Some(Uploaded));
      UpdateCandidateAsWritten([own, uploaded], k) == Err(NonUnique(2))
      && UpdatePick([own, uploaded], k) == Some(own)
  {
    var k := UpdateKey("uuid:p", 1, 2);
    var own := DigitalObject(1, 1, None, "uuid:p", 0, 5, Some(Edited));
    var uploaded := DigitalObject(2, 3, None, "uuid:p", 1, 4, Some(Uploaded));
    var rows := [own, uploaded];
    assert rows[1..] == [uploaded] && rows[1..][1..] == [];
    assert IsUpdateCandidate(own, k) && IsUpdateCandidate(uploaded, k);
    assert UpdateCandidates([uploaded], k) == [uploaded] + UpdateCandidates([], k);
    assert UpdateCandidates(rows, k) == [own] + UpdateCandidates([uploaded], k);
  }

  // ---------------------------------------------------------------------
  // Operations both service copies share

  predicate DistinctIds<V(!new)>(rows: seq<DigitalObject<V>>)
  {
    forall i, j :: 0 <= i < j < |rows| ==> rows[i].id != rows[j].id
  }

  /** The states after which an edit starts a new version instead of changing the row. */
  predicate Finished(s: DigitalObjectState)
  {
    s == Accepted || s == Rejected || s == Uploaded
  }

  /** The index of the first row of the PID (`findByPid(pid).stream().findFirst()`). */
  function FirstOfPid<V(!new)>(rows: seq<DigitalObject<V>>, pid: string): (r: Option<nat>)
    ensures r.None? <==> forall i :: 0 <= i < |rows| ==> rows[i].pid != pid
    ensures r.Some? ==> r.value < |rows| && rows[r.value].pid == pid
                        && forall j :: 0 <= j < r.value ==> rows[j].pid != pid
  {
    if |rows| == 0 then None
    else if rows[0].pid == pid then Some(0)
    else
      var rest := FirstOfPid(rows[1..], pid);
      assert forall i :: 1 <= i < |rows| ==> rows[i] == rows[1..][i - 1];
      if rest.None? then None else Some(rest.value + 1)
  }

  /**
   * getKrameriusObjectImage's choice of instance: the one given, otherwise
   * the first row's of the PID; none when the PID has no row.
   */
  function ImageInstance<V(!new)>(rows: seq<DigitalObject<V>>, pid: string, instance: Option<string>)
    : (r: Option<Option<string>>)
    ensures instance.Some? ==> r == Some(instance)
    ensures instance.None? ==> (r.None? <==> forall x :: x in rows ==> x.pid != pid)
    ensures instance.None? && r.Some? ==>
      exists i :: 0 <= i < |rows| && rows[i].pid == pid && r.value == rows[i].instance
                  && forall j :: 0 <= j < i ==> rows[j].pid != pid
  {
    if instance.Some? then Some(instance)
    else
      match FirstOfPid(rows, pid)
      case None => None
      case Some(i) => Some(rows[i].instance)
  }

  /** The instance choice of getKrameriusObjectImage, as both services make it. */
  method ChooseImageInstance<V(!new)>(rows: seq<DigitalObject<V>>, pid: string, instance: Option<string>)
    returns (r: Option<Option<string>>)
    ensures r == ImageInstance(rows, pid, instance)
  {
    if instance.Some? {
      return Some(instance);
    }
    var first := FirstOfPid(rows, pid);
    if first.None? {
      return None;
    }
    return Some(rows[first.value].instance);
  }

  /**
   * setStateForObject: the row with the id gets the state; the update
   * callback stamps the date only when the state actually changes (an
   * unchanged entity is not written).  None for a missing id.
   */
  function SetState<V(!new)>(rows: seq<DigitalObject<V>>, id: int, s: DigitalObjectState, now: int)
    : Option<seq<DigitalObject<V>>>
  {
    match FindById(rows, id)
    case None => None
    case Some(x) =>
      if x.state == Some(s) then Some(rows)
      else Some(ReplaceById(rows, id, x.(state := Some(s), date := now)))
  }

  /**
   * setStateForObject fails exactly for a missing id; otherwise only the row
   * with that id changes, to the new state, its date moving only when the
   * state differs.
   */
  lemma SetStateEffect<V(!new)>(rows: seq<DigitalObject<V>>, id: int, s: DigitalObjectState, now: int)
    requires DistinctIds(rows)
    ensures var r := SetState(rows, id, s, now);
      (r.None? <==> forall i :: 0 <= i < |rows| ==> rows[i].id != id)
      && (r.Some? ==>
            |r.value| == |rows|
            && forall i :: 0 <= i < |rows| ==>
                 (rows[i].id != id ==> r.value[i] == rows[i])
                 && (rows[i].id == id ==>
                       r.value[i] == rows[i].(state := Some(s),
                                              date := if rows[i].state == Some(s) then rows[i].date else now)))
  {
    var x := FindById(rows, id);
    if x.Some? {
      var j :| 0 <= j < |rows| && rows[j] == x.value;
      assert forall i :: 0 <= i < |rows| && rows[i].id == id ==> i == j;
    }
  }

  /** Setting the same state twice is setting it once. */
  lemma SetStateIdempotent<V(!new)>(rows: seq<DigitalObject<V>>, id: int, s: DigitalObjectState, now: int, later: int)
    requires DistinctIds(rows) && SetState(rows, id, s, now).Some?
    ensures SetState(SetState(rows, id, s, now).value, id, s, later) == SetState(rows, id, s, now)
  {
    SetStateEffect(rows, id, s, now);
    var after := SetState(rows, id, s, now).value;
    var y := FindById(after, id).value;
    var j :| 0 <= j < |after| && after[j] == y;
    assert rows[j].id == id;
  }
}
