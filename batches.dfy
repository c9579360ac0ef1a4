// Batch jobs: the batch record, its builder defaults and lifecycle stamps,
// the batch table (ordered lookup by state and the startup sweep that fails
// every RUNNING batch), and the two BatchService copies that set one field
// and save.
module Batches {
  import opened Wrappers
  import opened JavaText
  import Users

  datatype BatchState = Planned | Running | Done | Failed
  datatype BatchSubstate = Downloading | Generating | Saving
  datatype BatchPriority = High | Medium | Low
  datatype BatchType = GenerateForHierarchy | RetrieveHierarchy | Reindex | Single

  /** Clock readings are opaque instants, compared as integers. */
  type Instant = int

  datatype Batch = Batch(
    id: int,
    pid: Option<string>,
    instance: Option<string>,
    objectId: Option<int>,
    batchType: Option<BatchType>,
    state: Option<BatchState>,
    substate: Option<BatchSubstate>,
    priority: Option<BatchPriority>,
    createDate: Option<Instant>,
    updateDate: Option<Instant>,
    estimatedItemCount: Option<int>,
    processedItemCount: Option<int>,
    log: Option<string>,
    createdBy: Option<int>)

  /** A core Batch as `new Batch()` makes it: every field null, no defaults. */
  const EmptyBatch: Batch :=
    Batch(0, None, None, None, None, None, None, None, None, None, None, None, None, None)

  /** Batch.builder().build() of the domain copy: state PLANNED and priority MEDIUM by default. */
  const BuilderDefaults: Batch := EmptyBatch.(state := Some(Planned), priority := Some(Medium))

  /** @PrePersist created(): both stamps take the same instant. */
  function Created(b: Batch, now: Instant): (r: Batch)
    ensures r.createDate == r.updateDate == Some(now)
    ensures r.(createDate := b.createDate, updateDate := b.updateDate) == b
  {
    b.(createDate := Some(now), updateDate := Some(now))
  }

  /** @PreUpdate updated(): only the update stamp moves. */
  function Updated(b: Batch, now: Instant): (r: Batch)
    ensures r.updateDate == Some(now) && r.createDate == b.createDate
    ensures r.(updateDate := b.updateDate) == b
  {
    b.(updateDate := Some(now))
  }

  /** Java's string conversion of a possibly null String. */
  function Text(s: Option<string>): string
  {
    match s
    case None => "null"
    case Some(v) => v
  }

  /** The log a batch process writes when an exception ends its run. */
  function BatchFailedLog(id: int, message: string): string
  {
    "Batch " + IntToString(id) + " failed: " + message
  }

  // ---------------------------------------------------------------------
  // Queries over the table

  predicate IdsAscending(bs: seq<Batch>)
  {
    forall i, j :: 0 <= i < j < |bs| ==> bs[i].id < bs[j].id
  }

  /** findByStateOrderByIdAsc */
  function FindByStateOrderByIdAsc(bs: seq<Batch>, s: BatchState): (r: seq<Batch>)
    requires IdsAscending(bs)
    ensures forall b :: b in r <==> b in bs && b.state == Some(s)
    ensures IdsAscending(r)
  {
    if |bs| == 0 then []
    else
      AscendingTail(bs);
      var rest := FindByStateOrderByIdAsc(bs[1..], s);
      assert forall b :: b in bs <==> b == bs[0] || b in bs[1..];
      if bs[0].state == Some(s) then AscendingCons(bs[0], rest); [bs[0]] + rest else rest
  }

  lemma AscendingTail(bs: seq<Batch>)
    requires IdsAscending(bs) && |bs| > 0
    ensures IdsAscending(bs[1..]) && forall b :: b in bs[1..] ==> bs[0].id < b.id
  {
    forall b | b in bs[1..] ensures bs[0].id < b.id {
      var k :| 0 <= k < |bs[1..]| && bs[1..][k] == b;
      assert b == bs[k + 1];
    }
  }

  lemma AscendingCons(x: Batch, rest: seq<Batch>)
    requires IdsAscending(rest) && forall b :: b in rest ==> x.id < b.id
    ensures IdsAscending([x] + rest)
  {
    var s := [x] + rest;
    forall i, j | 0 <= i < j < |s| ensures s[i].id < s[j].id {
      assert s[j] == rest[j - 1];
      if i > 0 {
        assert s[i] == rest[i - 1];
      } else {
        assert rest[j - 1] in rest;
      }
    }
  }

  function FindById(bs: seq<Batch>, id: int): (r: Option<Batch>)
    ensures r.Some? ==> r.value in bs && r.value.id == id
    ensures r.None? ==> forall i :: 0 <= i < |bs| ==> bs[i].id != id
  {
    if |bs| == 0 then None
    else if bs[0].id == id then Some(bs[0])
    else
      var r := FindById(bs[1..], id);
      assert forall i :: 1 <= i < |bs| ==> bs[i] == bs[1..][i - 1];
      r
  }

  function IndexOfId(bs: seq<Batch>, id: int): (r: Option<nat>)
    ensures r.Some? ==> r.value < |bs| && bs[r.value].id == id
    ensures r.None? ==> forall i :: 0 <= i < |bs| ==> bs[i].id != id
  {
    if |bs| == 0 then None
    else if bs[0].id == id then Some(0)
    else
      match IndexOfId(bs[1..], id)
      case None => None
      case Some(i) => Some(i + 1)
  }

  // ---------------------------------------------------------------------
  // The startup sweep

  function Coalesce(log: Option<string>): string
  {
    match log
    case None => ""
    case Some(l) => l
  }

  /** One row of failAllRunningBatches: a bulk JPQL update, so no @PreUpdate stamp. */
  function FailIfRunning(b: Batch, message: string): Batch
  {
    if b.state == Some(Running) then b.(state := Some(Failed), log := Some(Coalesce(b.log) + message)) else b
  }

  function FailRunning(bs: seq<Batch>, message: string): (r: seq<Batch>)
    ensures |r| == |bs|
    ensures forall i :: 0 <= i < |bs| ==> r[i] == FailIfRunning(bs[i], message)
  {
    if |bs| == 0 then [] else [FailIfRunning(bs[0], message)] + FailRunning(bs[1..], message)
  }

  function CountRunning(bs: seq<Batch>): (n: nat)
    ensures n <= |bs|
  {
    if |bs| == 0 then 0 else (if bs[0].state == Some(Running) then 1 else 0) + CountRunning(bs[1..])
  }

  /** After the sweep no batch is RUNNING, the others are untouched, and the ids keep their order. */
  lemma FailRunningEffect(bs: seq<Batch>, message: string)
    ensures var r := FailRunning(bs, message);
      (forall i :: 0 <= i < |r| ==> r[i].state != Some(Running) && r[i].id == bs[i].id)
      && (forall i :: 0 <= i < |r| ==> bs[i].state != Some(Running) ==> r[i] == bs[i])
      && (forall i :: 0 <= i < |r| ==> bs[i].state == Some(Running) ==>
            r[i].state == Some(Failed) && r[i].log == Some(Coalesce(bs[i].log) + message))
  {
  }

  lemma {:induction false} CountRunningZero(bs: seq<Batch>)
    ensures CountRunning(bs) == 0 <==> forall i :: 0 <= i < |bs| ==> bs[i].state != Some(Running)
  {
    if |bs| > 0 {
      CountRunningZero(bs[1..]);
      assert forall i :: 1 <= i < |bs| ==> bs[i] == bs[1..][i - 1];
    }
  }

  /** The batch table with its id sequence. */
  class BatchRepository {
    var batches: seq<Batch>
    var nextId: int

    ghost predicate Valid()
      reads this
    {
      IdsAscending(batches) && forall i :: 0 <= i < |batches| ==> batches[i].id < nextId
    }

    constructor ()
      ensures Valid() && batches == []
    {
      batches := [];
      nextId := 1;
    }

    /** save() of a new entity: the sequence gives the id, created() stamps it. */
    method Persist(b: Batch, now: Instant) returns (saved: Batch)
      requires Valid()
      modifies this
      ensures Valid()
      ensures saved == Created(b.(id := old(nextId)), now)
      ensures batches == old(batches) + [saved]
    {
      saved := Created(b.(id := nextId), now);
      batches := batches + [saved];
      nextId := nextId + 1;
    }

    /**
     * save() of an entity that has an id: merged into the stored row, which
     * is stamped by updated() only when something changed; an id the table
     * does not hold is persisted as a new row.
     */
    method Save(b: Batch, now: Instant) returns (saved: Batch)
      requires Valid()
      modifies this
      ensures Valid()
      ensures match IndexOfId(old(batches), b.id)
        case Some(i) =>
          saved == (if old(batches)[i] == b then b else Updated(b, now))
          && batches == old(batches)[i := saved]
        case None =>
          saved == Created(b.(id := old(nextId)), now) && batches == old(batches) + [saved]
    {
      match IndexOfId(batches, b.id)
      case Some(i) =>
        saved := if batches[i] == b then b else Updated(b, now);
        batches := batches[i := saved];
      case None =>
        saved := Persist(b, now);
    }

    /** failAllRunningBatches: the number of rows it changed. */
    method FailAllRunningBatches(message: string) returns (count: nat)
      requires Valid()
      modifies this
      ensures Valid()
      ensures batches == FailRunning(old(batches), message)
      ensures count == CountRunning(old(batches))
    {
      var rows := batches;
      var i := 0;
      count := 0;
      var result: seq<Batch> := [];
      while i < |rows|
        invariant 0 <= i <= |rows|
        invariant result == FailRunning(rows[..i], message)
        invariant count == CountRunning(rows[..i])
        invariant batches == rows && nextId == old(nextId)
      {
        CountRunningSnoc(rows[..i], rows[i]);
        FailRunningSnoc(rows[..i], rows[i], message);
        assert rows[..i + 1] == rows[..i] + [rows[i]];
        if rows[i].state == Some(Running) {
          count := count + 1;
        }
        result := result + [FailIfRunning(rows[i], message)];
        i := i + 1;
      }
      assert rows[..i] == rows;
      FailRunningEffect(rows, message);
      batches := result;
    }
  }

  lemma {:induction false} CountRunningSnoc(bs: seq<Batch>, b: Batch)
    ensures CountRunning(bs + [b]) == CountRunning(bs) + (if b.state == Some(Running) then 1 else 0)
  {
    if |bs| > 0 {
      assert (bs + [b])[1..] == bs[1..] + [b];
      CountRunningSnoc(bs[1..], b);
    }
  }

  lemma FailRunningSnoc(bs: seq<Batch>, b: Batch, message: string)
    ensures FailRunning(bs + [b], message) == FailRunning(bs, message) + [FailIfRunning(b, message)]
  {
  }

  datatype BatchError =
    | BatchNotFound(id: int)
    | CreatorNotFound(e: Users.UserError)

  /** domain BatchService.getById: an unknown id throws BatchNotFoundException. */
  function GetById(bs: seq<Batch>, id: int): (r: Result<Batch, BatchError>)
    ensures r.Ok? ==> r.value in bs && r.value.id == id
    ensures r.Err? <==> forall i :: 0 <= i < |bs| ==> bs[i].id != id
  {
    match FindById(bs, id)
    case None => Err(BatchNotFound(id))
    case Some(b) => Ok(b)
  }

  /** core BatchService.getById: an unknown id gives null. */
  function CoreGetById(bs: seq<Batch>, id: int): (r: Option<Batch>)
    ensures r.None? <==> GetById(bs, id).Err?
    ensures r.Some? ==> GetById(bs, id) == Ok(r.value)
  {
    FindById(bs, id)
  }

  /** What each BatchService setter does to the caller's batch before saving it. */
  datatype BatchCall =
    | SetState(s: BatchState)
    | SetSubstate(sub: BatchSubstate)
    | SetFailed(reason: string)
    | SetEstimatedItemCount(n: int)
    | SetProcessedItemCount(n: int)
    | SetRunInfo(estimated: Option<int>, t: BatchType)

  function ApplyCall(b: Batch, c: BatchCall): (r: Batch)
    ensures r.id == b.id && r.createDate == b.createDate && r.priority == b.priority
  {
    match c
    case SetState(s) => b.(state := Some(s))
    case SetSubstate(sub) => b.(substate := Some(sub))
    case SetFailed(reason) => b.(state := Some(Failed), log := Some(reason))
    case SetEstimatedItemCount(n) => b.(estimatedItemCount := Some(n))
    case SetProcessedItemCount(n) => b.(processedItemCount := Some(n))
    case SetRunInfo(n, t) => b.(estimatedItemCount := n, batchType := Some(t))
  }

  function ApplyCalls(b: Batch, cs: seq<BatchCall>): Batch
    decreases |cs|
  {
    if |cs| == 0 then b else ApplyCalls(ApplyCall(b, cs[0]), cs[1..])
  }

  /** One more setter call acts on the batch the earlier ones left. */
  lemma {:induction false} ApplyCallsSnoc(b: Batch, cs: seq<BatchCall>, c: BatchCall)
    ensures ApplyCalls(b, cs + [c]) == ApplyCall(ApplyCalls(b, cs), c)
    decreases |cs|
  {
    if |cs| > 0 {
      assert (cs + [c])[1..] == cs[1..] + [c];
      ApplyCallsSnoc(ApplyCall(b, cs[0]), cs[1..], c);
    }
  }

  predicate SetsState(c: BatchCall)
  {
    c.SetState? || c.SetFailed?
  }

  function StateSetBy(c: BatchCall): BatchState
    requires SetsState(c)
  {
    if c.SetState? then c.s else Failed
  }

  /** The state after a run of setter calls is the one the last state-setting call chose. */
  lemma {:induction false} LastStateWins(b: Batch, cs: seq<BatchCall>, k: nat)
    requires k < |cs| && SetsState(cs[k])
    requires forall j :: k < j < |cs| ==> !SetsState(cs[j])
    ensures ApplyCalls(b, cs).state == Some(StateSetBy(cs[k]))
    decreases |cs|
  {
    if k == 0 {
      NoStateCallsKeepState(ApplyCall(b, cs[0]), cs[1..]);
    } else {
      LastStateWins(ApplyCall(b, cs[0]), cs[1..], k - 1);
    }
  }

  lemma {:induction false} NoStateCallsKeepState(b: Batch, cs: seq<BatchCall>)
    requires forall j :: 0 <= j < |cs| ==> !SetsState(cs[j])
    ensures ApplyCalls(b, cs).state == b.state
    decreases |cs|
  {
    if |cs| > 0 {
      NoStateCallsKeepState(ApplyCall(b, cs[0]), cs[1..]);
    }
  }

  /** Batch.builder().type(t).pid(pid).priority(priority).createdBy(user).build() of the domain copy. */
  function NewBatch(t: BatchType, pid: Option<string>, priority: Option<BatchPriority>, creator: int): (b: Batch)
    ensures b.state == Some(Planned) && b.substate.None?
    ensures b.batchType == Some(t) && b.pid == pid && b.priority == priority && b.createdBy == Some(creator)
    ensures b.log.None? && b.createDate.None? && b.estimatedItemCount.None?
  {
    BuilderDefaults.(batchType := Some(t), pid := pid, priority := priority, createdBy := Some(creator))
  }

  /** What a batch creator returns: the creator is looked up first, then the new batch is persisted. */
  function CreateBatchOutcome(users: seq<Users.User>, nextId: int, t: BatchType, pid: Option<string>,
                              priority: Option<BatchPriority>, userId: int, now: Instant): Result<Batch, BatchError>
  {
    match Users.GetUserById(users, userId)
    case Err(e) => Err(CreatorNotFound(e))
    case Ok(u) => Ok(Created(NewBatch(t, pid, priority, u.id).(id := nextId), now))
  }

  /** An unknown creator saves nothing; otherwise the new batch is PLANNED, of the requested type, pid and priority. */
  lemma CreateBatchOutcomeEffect(users: seq<Users.User>, nextId: int, t: BatchType, pid: Option<string>,
                                 priority: Option<BatchPriority>, userId: int, now: Instant)
    ensures var r := CreateBatchOutcome(users, nextId, t, pid, priority, userId, now);
      (r.Err? <==> forall i :: 0 <= i < |users| ==> users[i].id != userId)
      && (r.Ok? ==>
        r.value.id == nextId && r.value.state == Some(Planned) && r.value.batchType == Some(t)
        && r.value.pid == pid && r.value.priority == priority && r.value.createdBy == Some(userId)
        && r.value.createDate == r.value.updateDate == Some(now))
  {
  }

  method CreateBatch(repo: BatchRepository, users: Users.UserRepository, t: BatchType, pid: Option<string>,
                     priority: Option<BatchPriority>, userId: int, now: Instant)
    returns (r: Result<Batch, BatchError>)
    requires repo.Valid()
    modifies repo
    ensures repo.Valid()
    ensures r == CreateBatchOutcome(users.users, old(repo.nextId), t, pid, priority, userId, now)
    ensures repo.batches == old(repo.batches) + (if r.Ok? then [r.value] else [])
  {
    var user := Users.GetUserById(users.users, userId);
    if user.Err? {
      return Err(CreatorNotFound(user.error));
    }
    var saved := repo.Persist(NewBatch(t, pid, priority, user.value.id), now);
    return Ok(saved);
  }

  /** The domain BatchService: each setter changes the caller's batch and saves it. */
  class BatchService {
    const repo: BatchRepository
    const users: Users.UserRepository

    constructor (repo: BatchRepository, users: Users.UserRepository)
      ensures this.repo == repo && this.users == users
    {
      this.repo := repo;
      this.users := users;
    }

    /** setState / setSubstate / setFailed / setEstimatedItemCount / setProcessedItemCount */
    method Apply(b: Batch, c: BatchCall, now: Instant) returns (updated: Batch)
      requires repo.Valid() && !c.SetRunInfo?
      modifies repo
      ensures repo.Valid()
      ensures updated == ApplyCall(b, c)
      ensures repo.batches == (match IndexOfId(old(repo.batches), b.id)
        case Some(i) => old(repo.batches)[i := if old(repo.batches)[i] == updated then updated else Updated(updated, now)]
        case None => old(repo.batches) + [Created(updated.(id := old(repo.nextId)), now)])
    {
      updated := ApplyCall(b, c);
      var _ := repo.Save(updated, now);
    }

    /** createReindexBatch: a PLANNED batch of type REINDEX created by the given user. */
    method CreateReindexBatch(priority: Option<BatchPriority>, userId: int, now: Instant)
      returns (r: Result<Batch, BatchError>)
      requires repo.Valid()
      modifies repo
      ensures repo.Valid()
      ensures r == CreateBatchOutcome(users.users, old(repo.nextId), Reindex, None, priority, userId, now)
      ensures repo.batches == old(repo.batches) + (if r.Ok? then [r.value] else [])
    {
      r := CreateBatch(repo, users, Reindex, None, priority, userId, now);
    }
  }

  /** The core BatchService copy: same setters, plus setRunInfo. */
  class CoreBatchService {
    const repo: BatchRepository

    constructor (repo: BatchRepository)
      ensures this.repo == repo
    {
      this.repo := repo;
    }

    /** setState / setSubstate / setFailed / setRunInfo */
    method Apply(b: Batch, c: BatchCall, now: Instant) returns (updated: Batch)
      requires repo.Valid() && !c.SetProcessedItemCount?
      modifies repo
      ensures repo.Valid()
      ensures updated == ApplyCall(b, c)
      ensures repo.batches == (match IndexOfId(old(repo.batches), b.id)
        case Some(i) => old(repo.batches)[i := if old(repo.batches)[i] == updated then updated else Updated(updated, now)]
        case None => old(repo.batches) + [Created(updated.(id := old(repo.nextId)), now)])
    {
      updated := ApplyCall(b, c);
      var _ := repo.Save(updated, now);
    }
  }
}
