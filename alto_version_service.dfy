// AltoVersionRepository and AltoVersionService as objects over the stored
// state: the version table, the digital objects and the blob store.  Each
// method is proved against the value-level definition of the same operation
// in module AltoVersions.
module AltoVersionSvc {
  import opened Wrappers
  import opened Uuids
  import opened Users
  import Akubra
  import OH = ObjectHierarchy
  import opened AltoVersions

  /** Changing only the instance lists keeps the table's constraints. */
  lemma RemoveInstanceKeepsValid(rows: seq<AltoVersion>, nextId: int, u: Uuid, instance: string)
    requires TableValid(rows, nextId)
    ensures TableValid(RemoveInstance(rows, u, instance), nextId)
  {
    var after := RemoveInstance(rows, u, instance);
    forall i | 0 <= i < |rows|
      ensures after[i].id == rows[i].id && after[i].digitalObject == rows[i].digitalObject
      ensures after[i].version == rows[i].version && NotNull(after[i])
    {
      RemoveInstanceEffect(rows, u, instance, i, instance);
    }
  }

  class AltoVersionRepository {
    var rows: seq<AltoVersion>
    var nextId: int

    ghost predicate Valid()
      reads this
    {
      TableValid(rows, nextId)
    }

    constructor ()
      ensures Valid() && rows == [] && nextId == 1
    {
      rows := [];
      nextId := 1;
    }

    /** save of a new row: the constraints are checked, then the identity column assigns the id. */
    method Insert(row: AltoVersion) returns (r: Result<AltoVersion, AltoError>)
      modifies this
      ensures var ins := InsertRow(old(rows), old(nextId), row);
        (ins.Err? ==> r == Err(ins.error) && rows == old(rows) && nextId == old(nextId))
        && (ins.Ok? ==> r == Ok(ins.value.row) && rows == ins.value.rows && nextId == ins.value.nextId)
      ensures old(Valid()) ==> Valid()
    {
      var ins := InsertRow(rows, nextId, row);
      if ins.Err? {
        return Err(ins.error);
      }
      rows := ins.value.rows;
      nextId := ins.value.nextId;
      return Ok(ins.value.row);
    }

    /** setState on a loaded row, then save. */
    method SaveState(id: int, s: AltoVersionState)
      modifies this
      ensures rows == SetStateById(old(rows), id, s) && nextId == old(nextId)
      ensures old(Valid()) ==> Valid()
    {
      var after := SetStateById(rows, id, s);
      if Valid() {
        StatesOnlyKeepValid(rows, after, nextId);
      }
      rows := after;
    }

    /** removeInstanceAssociation: a bulk delete over the object's rows. */
    method RemoveInstanceAssociation(u: Uuid, instance: string)
      modifies this
      ensures rows == RemoveInstance(old(rows), u, instance) && nextId == old(nextId)
      ensures old(Valid()) ==> Valid()
    {
      ghost var before := rows;
      var i := 0;
      while i < |rows|
        invariant 0 <= i <= |rows| == |before|
        invariant forall k :: 0 <= k < i ==> rows[k] == WithoutInstance(before[k], u, instance)
        invariant forall k :: i <= k < |rows| ==> rows[k] == before[k]
        invariant nextId == old(nextId)
        decreases |rows| - i
      {
        if OfObject(rows[i], u) {
          var kept := DropInstance(rows[i].presentInInstances, instance);
          rows := rows[i := rows[i].(presentInInstances := kept)];
        }
        i := i + 1;
      }
      assert rows == RemoveInstance(before, u, instance);
      if TableValid(before, nextId) {
        RemoveInstanceKeepsValid(before, nextId, u, instance);
      }
    }
  }

  /** The DELETE on one row's element collection: every entry equal to `instance` goes. */
  method DropInstance(xs: seq<string>, instance: string) returns (kept: seq<string>)
    ensures kept == Without(xs, instance)
  {
    kept := [];
    var i := |xs|;
    while i > 0
      invariant 0 <= i <= |xs|
      invariant kept == Without(xs[i..], instance)
      decreases i
    {
      i := i - 1;
      assert xs[i..][1..] == xs[i + 1..];
      if xs[i] != instance {
        kept := [xs[i]] + kept;
      }
    }
  }

  /** getAncestorPids: follow getParent() from the page's parent until null. */
  method GetAncestorPids(objs: OH.Objects, r: AltoVersion) returns (pids: Result<seq<string>, AltoError>)
    ensures pids == AncestorPidsSpec(objs, r)
  {
    if r.digitalObject.None? {
      return Ok([]);
    }
    var current := ParentStart(objs, r);
    ghost var visited: seq<Uuid> := [];
    var acc: seq<string> := [];
    var fuel: nat := |objs|;
    while current.Some? && current.value in objs
      invariant OH.Ancestry(objs, ParentStart(objs, r)) == OH.Prepended(visited, OH.Climb(objs, current, fuel))
      invariant acc == UuidTexts(visited)
      decreases fuel
    {
      if fuel == 0 {
        assert visited + [] == visited;
        return Err(Diverges);
      }
      var cur := current.value;
      OH.ClimbStep(objs, visited, cur, fuel);
      acc := acc + [UuidText(cur)];
      visited := visited + [cur];
      current := objs[cur].parent;
      fuel := fuel - 1;
    }
    assert visited + [] == visited;
    return Ok(acc);
  }

  /** getAncestorTitles: the same walk, collecting titles. */
  method GetAncestorTitles(objs: OH.Objects, r: AltoVersion) returns (titles: Result<seq<Option<string>>, AltoError>)
    ensures titles == AncestorTitlesSpec(objs, r)
  {
    if r.digitalObject.None? {
      return Ok([]);
    }
    var current := ParentStart(objs, r);
    ghost var visited: seq<Uuid> := [];
    var acc: seq<Option<string>> := [];
    var fuel: nat := |objs|;
    while current.Some? && current.value in objs
      invariant OH.Ancestry(objs, ParentStart(objs, r)) == OH.Prepended(visited, OH.Climb(objs, current, fuel))
      invariant forall k :: 0 <= k < |visited| ==> visited[k] in objs
      invariant acc == Titles(objs, visited)
      decreases fuel
    {
      if fuel == 0 {
        assert visited + [] == visited;
        return Err(Diverges);
      }
      var cur := current.value;
      OH.ClimbStep(objs, visited, cur, fuel);
      acc := acc + [objs[cur].title];
      visited := visited + [cur];
      current := objs[cur].parent;
      fuel := fuel - 1;
    }
    assert visited + [] == visited;
    return Ok(acc);
  }

  class AltoVersionService {
    const repo: AltoVersionRepository
    const objects: OH.ObjectRepository
    const store: Akubra.AkubraStore
    const users: UserRepository

    constructor (repo: AltoVersionRepository, objects: OH.ObjectRepository, store: Akubra.AkubraStore,
                 users: UserRepository)
      ensures this.repo == repo && this.objects == objects && this.store == store && this.users == users
    {
      this.repo := repo;
      this.objects := objects;
      this.store := store;
      this.users := users;
    }

    ghost predicate Valid()
      reads repo, objects
    {
      repo.Valid() && objects.Valid()
    }

    /** The stored state as one value. */
    function Now(): World
      reads repo, objects, store
    {
      World(repo.rows, repo.nextId, objects.objects, store.blobs)
    }

    /** retrieveDsBinaryContent(row.getDigitalObject().getPid(), ds, row.getVersion()) */
    method ContentOf(row: AltoVersion, ds: Akubra.Datastream) returns (r: Result<Akubra.Bytes, AltoError>)
      ensures r == RowContent(store.blobs, row, ds)
    {
      if row.digitalObject.None? {
        return Err(NullObject);
      }
      var c := store.RetrieveDsBinaryContent(PidOf(row.digitalObject.value), ds, row.version);
      if c.Err? {
        return Err(Storage(c.error));
      }
      return Ok(c.value);
    }

    /** findRelatedAlto */
    method FindRelatedAlto(pid: string, userId: int) returns (r: Result<Option<WithContent>, AltoError>)
      ensures r == FindRelatedAltoSpec(Now(), pid, userId)
    {
      var u := UuidOfPid(pid);
      if u.Err? {
        return Err(BadPid(u.error));
      }
      var found := FindRelated(repo.rows, u.value, userId);
      if found.None? {
        return Ok(None);
      }
      var c := ContentOf(found.value, Akubra.Alto);
      if c.Err? {
        return Err(c.error);
      }
      return Ok(Some(WithContent(found.value, c.value)));
    }

    /** The metadata loop of fetchNewAlto: ask for the parent until the answer is null. */
    method CollectChain(pid: string, kram: OH.Kramerius) returns (r: Result<seq<KrameriusObjectMetadata>, AltoError>)
      ensures r == Chain(kram, Some(pid), |kram|)
    {
      var stack: seq<KrameriusObjectMetadata> := [];
      var current: Option<string> := Some(pid);
      var fuel: nat := |kram|;
      PrependChainNil(Chain(kram, Some(pid), |kram|));
      while current.Some? && current.value in kram
        invariant Chain(kram, Some(pid), |kram|) == PrependChain(stack, Chain(kram, current, fuel))
        decreases fuel
      {
        if fuel == 0 {
          ChainEnds(kram, current, fuel, stack);
          return Err(Diverges);
        }
        var metadata := kram[current.value];
        ChainStep(kram, current.value, fuel, stack);
        stack := stack + [metadata];
        current := metadata.parentPid;
        fuel := fuel - 1;
      }
      ChainEnds(kram, current, fuel, stack);
      return Ok(stack);
    }

    /**
     * The linking loop of fetchNewAlto, popping the stack: each stored
     * object is reused, each missing one created under the one before.
     */
    method LinkChain(stack: seq<KrameriusObjectMetadata>) returns (r: Result<Option<Uuid>, AltoError>)
      requires objects.Valid()
      modifies objects
      ensures (objects.objects, r) == LinkRootFirst(old(objects.objects), stack, None)
      ensures objects.Valid()
    {
      ghost var objs := objects.objects;
      var target: Option<Uuid> := None;
      var i := |stack|;
      assert stack[..i] == stack;
      while i > 0
        invariant 0 <= i <= |stack|
        invariant LinkRootFirst(objs, stack, None) == LinkRootFirst(objects.objects, stack[..i], target)
        invariant objects.Valid()
        decreases i
      {
        var metadata := stack[i - 1];
        assert stack[..i][..i - 1] == stack[..i - 1];
        assert stack[..i][i - 1] == metadata;
        var u := UuidOfPid(metadata.pid);
        if u.Err? {
          return Err(BadPid(u.error));
        }
        var existing := objects.FindById(u.value);
        if existing.None? {
          var built := OH.BuildObject(metadata, target);
          objects.Save(built.value);
        }
        target := Some(u.value);
        i := i - 1;
      }
      assert stack[..0] == [];
      return Ok(target);
    }

    /**
     * fetchNewAlto, with the stack popped root first and version 0 saved
     * ACTIVE (see FetchSpec); Kramerius' answers and the FOXML are inputs.
     */
    method FetchNewAlto(pid: string, instance: string, userId: int, kram: OH.Kramerius, foxml: Akubra.Foxml)
      returns (r: Result<WithContent, AltoError>)
      requires Valid()
      modifies repo, objects, store
      ensures Outcome(Now(), r) == FetchSpec(old(Now()), users.users, kram, foxml, pid, instance, userId)
      ensures Valid()
    {
      ghost var w := Now();
      var u := UuidOfPid(pid);
      if u.Err? {
        return Err(BadPid(u.error));
      }
      if ExistsByUuid(repo.rows, u.value) {
        return Err(AlreadyExists(pid));
      }
      var alto := Akubra.GetLatestDsVersionBinaryContent(foxml, Akubra.DatastreamId(Akubra.Alto));
      if alto.Err? {
        return Err(Storage(alto.error));
      }
      if alto.value.None? {
        return Err(AltoNotFound(pid));
      }
      var stack := CollectChain(pid, kram);
      if stack.Err? {
        return Err(stack.error);
      }
      var target := LinkChain(stack.value);
      if target.Err? {
        return Err(target.error);
      }
      ghost var linked := Now();
      store.SaveAltoContent(pid, 0, alto.value.value);
      ghost var w2 := Now();
      assert w2 == w.(objects := linked.objects, blobs := w.blobs[Akubra.DsKey(pid, Akubra.Alto, 0) := alto.value.value]);
      assert FetchSpec(w, users.users, kram, foxml, pid, instance, userId)
          == StoreInitial(w2, users.users, target.value, instance, userId, Some(Active));
      r := SaveInitialVersion(target.value, instance, userId);
    }

    /** The tail of fetchNewAlto: save version 0 for the linked object, ACTIVE, and read its content back. */
    method SaveInitialVersion(target: Option<Uuid>, instance: string, userId: int)
      returns (r: Result<WithContent, AltoError>)
      requires Valid()
      modifies repo
      ensures Outcome(Now(), r) == StoreInitial(old(Now()), users.users, target, instance, userId, Some(Active))
      ensures Valid()
    {
      var user := GetUserById(users.users, userId);
      if user.Err? {
        return Err(UserLookup(user.error));
      }
      var saved := repo.Insert(InitialRow(target, user.value, instance, Some(Active)));
      if saved.Err? {
        return Err(saved.error);
      }
      var c := ContentOf(saved.value, Akubra.Alto);
      if c.Err? {
        return Err(c.error);
      }
      return Ok(WithContent(saved.value, c.value));
    }

    /** getAltoVersion */
    method GetAltoVersion(pid: string, version: int) returns (r: Result<WithContent, AltoError>)
      ensures r == GetAltoVersionSpec(Now(), pid, version)
    {
      var u := UuidOfPid(pid);
      if u.Err? {
        return Err(BadPid(u.error));
      }
      var found := FindByUuidAndVersion(repo.rows, u.value, version);
      if found.Err? {
        return Err(found.error);
      }
      if found.value.None? {
        return Err(VersionNotFound(pid));
      }
      var c := ContentOf(found.value.value, Akubra.Alto);
      if c.Err? {
        return Err(c.error);
      }
      return Ok(WithContent(found.value.value, c.value));
    }

    /** getActiveAlto */
    method GetActiveAlto(pid: string) returns (r: Result<WithContent, AltoError>)
      ensures r == GetActiveSpec(Now(), pid)
    {
      var u := UuidOfPid(pid);
      if u.Err? {
        return Err(BadPid(u.error));
      }
      var found := FindActive(repo.rows, u.value);
      if found.Err? {
        return Err(found.error);
      }
      if found.value.None? {
        return Err(VersionNotFound(pid));
      }
      var c := ContentOf(found.value.value, Akubra.Alto);
      if c.Err? {
        return Err(c.error);
      }
      return Ok(WithContent(found.value.value, c.value));
    }

    /** createNewAltoVersion */
    method CreateNewAltoVersion(pid: string, content: Akubra.Bytes) returns (r: Result<WithContent, AltoError>)
      requires Valid()
      modifies repo, store
      ensures Outcome(Now(), r) == CreateSpec(old(Now()), pid, content)
      ensures Valid()
    {
      var u := UuidOfPid(pid);
      if u.Err? {
        return Err(BadPid(u.error));
      }
      var m := MaxVersionRow(repo.rows, u.value);
      if m.None? {
        return Err(VersionNotFound(pid));
      }
      store.SaveAltoContent(pid, m.value.version + 1, content);
      var saved := repo.Insert(NextVersionRow(m.value));
      if saved.Err? {
        return Err(saved.error);
      }
      return Ok(WithContent(saved.value, content));
    }

    /** updateAltoVersion */
    method UpdateAltoVersion(pid: string, userId: int, content: Akubra.Bytes) returns (r: Result<WithContent, AltoError>)
      requires Valid()
      modifies repo, store
      ensures Outcome(Now(), r) == UpdateSpec(old(Now()), pid, userId, content)
      ensures Valid()
    {
      var u := UuidOfPid(pid);
      if u.Err? {
        return Err(BadPid(u.error));
      }
      var found := FindRelated(repo.rows, u.value, userId);
      if found.None? {
        return Err(AltoNotFound(pid));
      }
      store.SaveAltoContent(pid, found.value.version, content);
      repo.SaveState(found.value.id, Pending);
      return Ok(WithContent(found.value.(state := Some(Pending)), content));
    }

    /** updateOrCreateAlto */
    method UpdateOrCreateAlto(pid: string, userId: int, content: Akubra.Bytes) returns (r: Result<WithContent, AltoError>)
      requires Valid()
      modifies repo, store
      ensures Outcome(Now(), r) == UpdateOrCreateSpec(old(Now()), pid, userId, content)
      ensures Valid()
    {
      var u := UuidOfPid(pid);
      if u.Err? {
        return Err(BadPid(u.error));
      }
      var own := FindByUuidAndUserId(repo.rows, u.value, userId);
      if own.Err? {
        return Err(own.error);
      }
      if own.value.Some? && own.value.value.state == Some(Pending) {
        r := UpdateAltoVersion(pid, userId, content);
      } else {
        r := CreateNewAltoVersion(pid, content);
      }
    }

    /** getOcr: the ALTO of the row converted to text by `toOcr`. */
    method GetOcr(id: int, toOcr: Akubra.Bytes -> string) returns (r: Result<string, AltoError>)
      ensures r == GetOcrSpec(Now(), id, toOcr)
    {
      var found := FindById(repo.rows, id);
      if found.None? {
        return Err(VersionIdNotFound(id));
      }
      var c := ContentOf(found.value, Akubra.Alto);
      if c.Err? {
        return Err(c.error);
      }
      return Ok(toOcr(c.value));
    }

    /** setObjectActive: archive the object's other ACTIVE rows, then save the target ACTIVE. */
    method SetObjectActive(id: int) returns (r: Result<(), AltoError>)
      requires Valid()
      modifies repo
      ensures Outcome(Now(), r) == AcceptSpec(old(Now()), id)
      ensures Valid()
    {
      var t := FindById(repo.rows, id);
      if t.None? {
        return Err(RowNotFound(id));
      }
      if t.value.digitalObject.None? {
        return Err(NullObject);
      }
      var o := t.value.digitalObject.value;
      ghost var before := repo.rows;
      var i := 0;
      while i < |repo.rows|
        invariant 0 <= i <= |repo.rows| == |before|
        invariant forall k :: 0 <= k < i ==> repo.rows[k] == ArchivedRow(before[k], id, o)
        invariant forall k :: i <= k < |repo.rows| ==> repo.rows[k] == before[k]
        invariant repo.nextId == old(repo.nextId)
        invariant repo.Valid()
        decreases |repo.rows| - i
      {
        var x := repo.rows[i];
        if x.id != id && OfObject(x, o) && x.state == Some(Active) {
          ghost var rows := repo.rows;
          repo.SaveState(x.id, Archived);
          forall k | 0 <= k < |rows| && k != i
            ensures repo.rows[k] == rows[k]
          {
            assert rows[k].id != rows[i].id;
          }
        }
        i := i + 1;
      }
      ghost var archived := repo.rows;
      repo.SaveState(id, Active);
      ArchiveThenActivate(before, archived, id, o);
      return Ok(());
    }

    /** setStateForObject */
    method SetStateForObject(id: int, s: AltoVersionState) returns (r: Result<(), AltoError>)
      requires Valid()
      modifies repo
      ensures Outcome(Now(), r) == SetStateSpec(old(Now()), id, s)
      ensures Valid()
    {
      var t := FindById(repo.rows, id);
      if t.None? {
        return Err(RowNotFound(id));
      }
      repo.SaveState(id, s);
      return Ok(());
    }
  }

  /** One answer of the metadata loop moves from the chain still to fetch onto the stack. */
  lemma ChainStep(kram: OH.Kramerius, pid: string, fuel: nat, stack: seq<KrameriusObjectMetadata>)
    requires pid in kram && fuel > 0
    ensures PrependChain(stack, Chain(kram, Some(pid), fuel))
      == PrependChain(stack + [kram[pid]], Chain(kram, kram[pid].parentPid, fuel - 1))
  {
    var rest := Chain(kram, kram[pid].parentPid, fuel - 1);
    if rest.Ok? {
      assert Chain(kram, Some(pid), fuel) == Ok([kram[pid]] + rest.value);
      assert stack + ([kram[pid]] + rest.value) == (stack + [kram[pid]]) + rest.value;
    }
  }

  /** The metadata loop stops on a null answer, or gives up when the fuel is spent. */
  lemma ChainEnds(kram: OH.Kramerius, current: Option<string>, fuel: nat, stack: seq<KrameriusObjectMetadata>)
    ensures current.None? || current.value !in kram ==> PrependChain(stack, Chain(kram, current, fuel)) == Ok(stack)
    ensures current.Some? && current.value in kram && fuel == 0 ==>
      PrependChain(stack, Chain(kram, current, fuel)) == Err(Diverges)
  {
    assert stack + [] == stack;
  }

  /** The first half of setObjectActive on one row: another ACTIVE row of the object is archived. */
  function ArchivedRow(x: AltoVersion, id: int, o: Uuid): AltoVersion
  {
    if x.id != id && OfObject(x, o) && x.state == Some(Active) then x.(state := Some(Archived)) else x
  }

  /** Archiving the others and then activating the target is setObjectActive's effect. */
  lemma ArchiveThenActivate(before: seq<AltoVersion>, archived: seq<AltoVersion>, id: int, o: Uuid)
    requires |archived| == |before| && forall k :: 0 <= k < |before| ==> archived[k] == ArchivedRow(before[k], id, o)
    ensures SetStateById(archived, id, Active) == Accepted(before, id, o)
  {
    var a := SetStateById(archived, id, Active);
    var b := Accepted(before, id, o);
    forall k | 0 <= k < |before|
      ensures a[k] == b[k]
    {
      assert b[k] == AcceptedRow(before[k], id, o);
    }
  }
}
