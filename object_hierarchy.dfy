// The stored object hierarchy (title, model and parent of every page and
// its ancestors) and ObjectHierarchyService: importing a page's ancestor
// chain from Kramerius, storing one object, refreshing page counts up the
// parent chain, and creating hierarchy batches.
module ObjectHierarchy {
  import opened Wrappers
  import opened JavaText
  import opened Uuids
  import Batches
  import Users

  /** A stored hierarchy object; the parent is held by its uuid. */
  datatype HierarchyObject = HierarchyObject(
    uuid: Uuid,
    model: string,
    title: Option<string>,
    level: Option<int>,
    indexInParent: Option<int>,
    parent: Option<Uuid>,
    pagesCount: Option<int>,
    pagesWithAlto: Option<int>)

  type Objects = map<Uuid, HierarchyObject>

  /** getObjectMetadata(pid, instance) for the one instance in use; a missing key is a null answer. */
  type Kramerius = map<string, KrameriusObjectMetadata>

  datatype PageCountStats = PageCountStats(totalPages: Option<int>, pagesWithAlto: Option<int>)

  /** getDescendantPageStats for every stored object; a missing key is a null answer. */
  type PageStats = map<Uuid, PageCountStats>

  datatype HierarchyError =
    | BadPid(e: PidError)              // IllegalArgumentException from a PID parse
    | DigitalObjectNotFound(uuid: Uuid)
    | Diverges                         // a cyclic parent chain: the source loops forever

  /** getPid */
  function ObjectPid(o: HierarchyObject): string
  {
    PidOf(o.uuid)
  }

  /** The builder fed from Kramerius metadata: pid must be "uuid:<u>", the title is clipped. */
  function BuildObject(m: KrameriusObjectMetadata, parent: Option<Uuid>): (r: Result<HierarchyObject, PidError>)
    ensures r.Err? <==> UuidOfPid(m.pid).Err?
    ensures r.Ok? ==> UuidOfPid(m.pid) == Ok(r.value.uuid) && r.value.parent == parent
    ensures r.Ok? ==> r.value.title == ClipTitle(m.title) && r.value.model == m.model
    ensures r.Ok? ==> r.value.pagesCount.None? && r.value.pagesWithAlto.None?
  {
    match UuidOfPid(m.pid)
    case Err(e) => Err(e)
    case Ok(u) => Ok(HierarchyObject(u, m.model, ClipTitle(m.title), m.level, m.indexInParent, parent, None, None))
  }

  // ---------------------------------------------------------------------
  // Parent chains

  /** The objects visited from `start` upwards, and whether the root was reached within `fuel` steps. */
  datatype Climbed = Climbed(visited: seq<Uuid>, complete: bool)

  function Climb(objs: Objects, start: Option<Uuid>, fuel: nat): (r: Climbed)
    ensures |r.visited| <= fuel
    decreases fuel
  {
    if start.None? || start.value !in objs then Climbed([], true)
    else if fuel == 0 then Climbed([], false)
    else
      var rest := Climb(objs, objs[start.value].parent, fuel - 1);
      Climbed([start.value] + rest.visited, rest.complete)
  }

  /** Walking the chain by getParent() until null; cut off after one step per stored object. */
  function Ancestry(objs: Objects, start: Option<Uuid>): Climbed
  {
    Climb(objs, start, |objs|)
  }

  /** A completed climb starts at `start`, follows parent links, stays inside the store, and ends at a root. */
  lemma {:induction false} ClimbShape(objs: Objects, start: Option<Uuid>, fuel: nat)
    requires Climb(objs, start, fuel).complete
    ensures var c := Climb(objs, start, fuel).visited;
      (c == [] <==> start.None? || start.value !in objs)
      && (c != [] ==> c[0] == start.value)
      && (forall k :: 0 <= k < |c| ==> c[k] in objs)
      && (forall k :: 0 <= k < |c| - 1 ==> objs[c[k]].parent == Some(c[k + 1]))
      && (c != [] ==> objs[c[|c| - 1]].parent.None? || objs[c[|c| - 1]].parent.value !in objs)
    decreases fuel
  {
    if start.Some? && start.value in objs {
      var p := objs[start.value].parent;
      ClimbShape(objs, p, fuel - 1);
      var rest := Climb(objs, p, fuel - 1).visited;
      var c := Climb(objs, start, fuel).visited;
      assert c == [start.value] + rest;
      assert forall k :: 1 <= k < |c| ==> c[k] == rest[k - 1];
    }
  }

  /** More fuel than the chain needs does not change a completed climb. */
  lemma {:induction false} ClimbMoreFuel(objs: Objects, start: Option<Uuid>, fuel: nat, more: nat)
    requires Climb(objs, start, fuel).complete
    requires more >= |Climb(objs, start, fuel).visited|
    ensures Climb(objs, start, more) == Climb(objs, start, fuel)
    decreases fuel
  {
    if start.Some? && start.value in objs {
      ClimbMoreFuel(objs, objs[start.value].parent, fuel - 1, more - 1);
    }
  }

  /** The climb from the k-th visited object is the rest of the climb. */
  lemma {:induction false} ClimbSuffix(objs: Objects, start: Option<Uuid>, fuel: nat, k: nat)
    requires Climb(objs, start, fuel).complete
    requires k < |Climb(objs, start, fuel).visited|
    ensures var c := Climb(objs, start, fuel).visited;
      fuel >= k && Climb(objs, Some(c[k]), fuel - k) == Climbed(c[k..], true)
    decreases fuel
  {
    var c := Climb(objs, start, fuel).visited;
    if k > 0 {
      var p := objs[start.value].parent;
      ClimbSuffix(objs, p, fuel - 1, k - 1);
      var rest := Climb(objs, p, fuel - 1).visited;
      assert c[k..] == rest[k - 1..];
    }
  }

  /** A chain that reaches its root never visits an object twice. */
  lemma ClimbDistinct(objs: Objects, start: Option<Uuid>, fuel: nat)
    requires Climb(objs, start, fuel).complete
    ensures var c := Climb(objs, start, fuel).visited;
      forall i, j :: 0 <= i < j < |c| ==> c[i] != c[j]
  {
    var c := Climb(objs, start, fuel).visited;
    forall i, j | 0 <= i < j < |c|
      ensures c[i] != c[j]
    {
      ClimbSuffix(objs, start, fuel, i);
      ClimbSuffix(objs, start, fuel, j);
      ClimbMoreFuel(objs, Some(c[i]), fuel - i, fuel);
      ClimbMoreFuel(objs, Some(c[j]), fuel - j, fuel);
      assert |c[i..]| != |c[j..]|;
    }
  }

  lemma DistinctWithin(c: seq<Uuid>, keys: set<Uuid>)
    requires forall i, j :: 0 <= i < j < |c| ==> c[i] != c[j]
    requires forall k :: 0 <= k < |c| ==> c[k] in keys
    ensures |c| <= |keys|
    decreases |c|
  {
    if |c| > 0 {
      DistinctWithin(c[1..], keys - {c[0]});
    }
  }

  /** The cut-off after one step per stored object only stops chains that would never end. */
  lemma AncestryCutsOnlyCycles(objs: Objects, start: Option<Uuid>, fuel: nat)
    requires Climb(objs, start, fuel).complete
    ensures Ancestry(objs, start) == Climb(objs, start, fuel)
  {
    ClimbShape(objs, start, fuel);
    ClimbDistinct(objs, start, fuel);
    DistinctWithin(Climb(objs, start, fuel).visited, objs.Keys);
    ClimbMoreFuel(objs, start, fuel, |objs|);
  }

  predicate SameLinks(a: Objects, b: Objects)
  {
    a.Keys == b.Keys && forall u :: u in a ==> a[u].parent == b[u].parent
  }

  /** A climb looks only at the stored uuids and parent links. */
  lemma {:induction false} ClimbFollowsLinks(a: Objects, b: Objects, start: Option<Uuid>, fuel: nat)
    requires SameLinks(a, b)
    ensures Climb(a, start, fuel) == Climb(b, start, fuel)
    decreases fuel
  {
    if start.Some? && start.value in a && fuel > 0 {
      ClimbFollowsLinks(a, b, a[start.value].parent, fuel - 1);
    }
  }

  // ---------------------------------------------------------------------
  // Page counts

  function CountOrZero(n: Option<int>): int
  {
    match n
    case None => 0
    case Some(v) => v
  }

  /** The counts a refresh writes: a null answer, or a null field, counts as 0. */
  function SetCounts(o: HierarchyObject, stats: PageStats): (r: HierarchyObject)
    ensures r.(pagesCount := o.pagesCount, pagesWithAlto := o.pagesWithAlto) == o
    ensures stats.Keys !! {o.uuid} ==> r.pagesCount == Some(0) && r.pagesWithAlto == Some(0)
  {
    if o.uuid in stats then
      o.(pagesCount := Some(CountOrZero(stats[o.uuid].totalPages)),
         pagesWithAlto := Some(CountOrZero(stats[o.uuid].pagesWithAlto)))
    else o.(pagesCount := Some(0), pagesWithAlto := Some(0))
  }

  function WithCounts(objs: Objects, stats: PageStats, chain: seq<Uuid>): (r: Objects)
    ensures SameLinks(r, objs)
    ensures forall u :: u in r ==> r[u].uuid == objs[u].uuid
  {
    map u | u in objs :: if u in chain then SetCounts(objs[u], stats) else objs[u]
  }

  /** refreshPageCountsForAncestors as a value: the store afterwards, and whether the walk ended. */
  function RefreshSpec(objs: Objects, stats: PageStats, start: Uuid): (Objects, Result<(), HierarchyError>)
  {
    var cl := Ancestry(objs, Some(start));
    (WithCounts(objs, stats, cl.visited), if cl.complete then Ok(()) else Err(Diverges))
  }

  /**
   * A refresh from a stored object rewrites the counts of that object and of
   * every ancestor, changes nothing else, and running it again changes nothing more.
   */
  lemma RefreshEffect(objs: Objects, stats: PageStats, start: Uuid)
    requires Ancestry(objs, Some(start)).complete
    requires forall u :: u in objs ==> objs[u].uuid == u
    ensures var (after, r) := RefreshSpec(objs, stats, start);
      var c := Ancestry(objs, Some(start)).visited;
      r.Ok? && SameLinks(after, objs)
      && (forall u :: u in c ==> u in objs)
      && (start in objs ==> start in c)
      && (forall u :: u in c ==> after[u] == SetCounts(objs[u], stats))
      && (forall u :: u in objs && u !in c ==> after[u] == objs[u])
      && RefreshSpec(after, stats, start).0 == after
  {
    var after := RefreshSpec(objs, stats, start).0;
    var c := Ancestry(objs, Some(start)).visited;
    ClimbShape(objs, Some(start), |objs|);
    ClimbFollowsLinks(after, objs, Some(start), |objs|);
    assert |after| == |objs| by { assert after.Keys == objs.Keys; }
    assert Ancestry(after, Some(start)).visited == c;
    WithCountsTwice(objs, stats, c);
  }

  /** Rewriting the counts of the same objects twice is rewriting them once. */
  lemma WithCountsTwice(objs: Objects, stats: PageStats, chain: seq<Uuid>)
    ensures WithCounts(WithCounts(objs, stats, chain), stats, chain) == WithCounts(objs, stats, chain)
  {
    var once := WithCounts(objs, stats, chain);
    var twice := WithCounts(once, stats, chain);
    assert twice.Keys == once.Keys;
    forall u | u in once ensures twice[u] == once[u] {
      if u in chain {
        assert once[u].uuid == objs[u].uuid;
      }
    }
  }

  // ---------------------------------------------------------------------
  // fetchAndStore as values

  /** What the upward walk pushed (the requested object first) and the stored ancestor it stopped at, if any. */
  datatype Walked = Walked(stack: seq<KrameriusObjectMetadata>, storedParent: Option<Uuid>)

  function UpwardWalk(objs: Objects, kram: Kramerius, pid: string, fuel: nat): (r: Result<Walked, HierarchyError>)
    ensures r.Ok? ==> |r.value.stack| >= 1
    ensures r.Ok? && r.value.storedParent.Some? ==> r.value.storedParent.value in objs
    decreases fuel
  {
    if pid !in kram then
      match UuidOfPid(pid)
      case Err(e) => Err(BadPid(e))
      case Ok(u) => Err(DigitalObjectNotFound(u))
    else
      var m := kram[pid];
      match m.parentPid
      case None => Ok(Walked([m], None))
      case Some(pp) =>
        match UuidOfPid(pp)
        case Err(e) => Err(BadPid(e))
        case Ok(pu) =>
          if pu in objs then Ok(Walked([m], Some(pu)))
          else if fuel == 0 then Err(Diverges)
          else
            match UpwardWalk(objs, kram, pp, fuel - 1)
            case Err(e) => Err(e)
            case Ok(w) => Ok(Walked([m] + w.stack, w.storedParent))
  }

  /**
   * The walk stops at the first ancestor already stored, or at an object
   * without a parent PID; every PID it passed on the way was looked up and
   * found unstored.
   */
  lemma {:induction false} UpwardWalkStops(objs: Objects, kram: Kramerius, pid: string, fuel: nat)
    requires UpwardWalk(objs, kram, pid, fuel).Ok?
    ensures var w := UpwardWalk(objs, kram, pid, fuel).value; var s := w.stack;
      pid in kram && s[0] == kram[pid]
      && (forall k :: 0 <= k < |s| - 1 ==>
            s[k].parentPid.Some? && s[k].parentPid.value in kram && s[k + 1] == kram[s[k].parentPid.value]
            && UuidOfPid(s[k].parentPid.value).Ok? && UuidOfPid(s[k].parentPid.value).value !in objs)
      && (var last := s[|s| - 1];
          (last.parentPid.None? && w.storedParent.None?)
          || (last.parentPid.Some? && w.storedParent.Some?
              && UuidOfPid(last.parentPid.value) == Ok(w.storedParent.value)))
    decreases fuel
  {
    var m := kram[pid];
    if m.parentPid.Some? {
      var pp := m.parentPid.value;
      if UuidOfPid(pp).value !in objs {
        UpwardWalkStops(objs, kram, pp, fuel - 1);
        var rest := UpwardWalk(objs, kram, pp, fuel - 1).value.stack;
        var s := UpwardWalk(objs, kram, pid, fuel).value.stack;
        assert s == [m] + rest;
        assert forall k :: 1 <= k < |s| ==> s[k] == rest[k - 1];
      }
    }
  }

  /** The unwinding loop: pops the stack root-most first, saving each object under the one saved before. */
  function Unwind(objs: Objects, stack: seq<KrameriusObjectMetadata>, parent: Option<Uuid>)
    : (r: (Objects, Result<Option<Uuid>, HierarchyError>))
    ensures r.1.Ok? && |stack| > 0 ==> r.1.value.Some? && r.1.value.value in r.0
    ensures r.1.Ok? && |stack| == 0 ==> r.1.value == parent
    ensures (forall u :: u in objs ==> objs[u].uuid == u) ==> forall u :: u in r.0 ==> r.0[u].uuid == u
    decreases |stack|
  {
    if |stack| == 0 then (objs, Ok(parent))
    else
      var m := stack[|stack| - 1];
      match BuildObject(m, parent)
      case Err(e) => (objs, Err(BadPid(e)))
      case Ok(o) => Unwind(objs[o.uuid := o], stack[..|stack| - 1], Some(o.uuid))
  }

  predicate AllPidsParse(stack: seq<KrameriusObjectMetadata>)
  {
    forall k :: 0 <= k < |stack| ==> UuidOfPid(stack[k].pid).Ok?
  }

  function UuidsOf(stack: seq<KrameriusObjectMetadata>): (us: seq<Uuid>)
    requires AllPidsParse(stack)
    ensures |us| == |stack|
    ensures forall k :: 0 <= k < |stack| ==> UuidOfPid(stack[k].pid) == Ok(us[k])
  {
    if |stack| == 0 then [] else UuidsOf(stack[..|stack| - 1]) + [UuidOfPid(stack[|stack| - 1].pid).value]
  }

  /** Unwinding a non-empty stack ends at the object of its first entry, the requested one. */
  lemma {:induction false} UnwindResult(objs: Objects, stack: seq<KrameriusObjectMetadata>, parent: Option<Uuid>)
    requires AllPidsParse(stack)
    ensures Unwind(objs, stack, parent).1 == Ok(if |stack| == 0 then parent else Some(UuidsOf(stack)[0]))
    decreases |stack|
  {
    if |stack| > 0 {
      var n := |stack| - 1;
      var o := BuildObject(stack[n], parent).value;
      assert AllPidsParse(stack[..n]);
      UnwindResult(objs[o.uuid := o], stack[..n], Some(o.uuid));
    }
  }

  /** Unwinding leaves every object whose uuid is not on the stack as it was. */
  lemma {:induction false} UnwindKeeps(objs: Objects, stack: seq<KrameriusObjectMetadata>, parent: Option<Uuid>, u: Uuid)
    requires AllPidsParse(stack) && u !in UuidsOf(stack)
    ensures var after := Unwind(objs, stack, parent).0;
      (u in after <==> u in objs) && (u in objs ==> after[u] == objs[u])
    decreases |stack|
  {
    if |stack| > 0 {
      var n := |stack| - 1;
      var o := BuildObject(stack[n], parent).value;
      assert AllPidsParse(stack[..n]);
      assert UuidsOf(stack) == UuidsOf(stack[..n]) + [o.uuid];
      UnwindKeeps(objs[o.uuid := o], stack[..n], Some(o.uuid), u);
    }
  }

  /**
   * When the stack names distinct objects, entry k is saved parented by
   * entry k+1, and the root-most entry by the stored ancestor.
   */
  lemma {:induction false} UnwindSaves(objs: Objects, stack: seq<KrameriusObjectMetadata>, parent: Option<Uuid>, k: nat)
    requires AllPidsParse(stack) && k < |stack|
    requires forall i, j :: 0 <= i < j < |stack| ==> UuidsOf(stack)[i] != UuidsOf(stack)[j]
    ensures var after := Unwind(objs, stack, parent).0; var us := UuidsOf(stack);
      us[k] in after
      && after[us[k]] == BuildObject(stack[k], if k + 1 < |stack| then Some(us[k + 1]) else parent).value
    decreases |stack|
  {
    var n := |stack| - 1;
    var us := UuidsOf(stack);
    var o := BuildObject(stack[n], parent).value;
    var init := stack[..n];
    assert AllPidsParse(init);
    assert us == UuidsOf(init) + [o.uuid];
    if k == n {
      assert o.uuid !in UuidsOf(init);
      UnwindKeeps(objs[o.uuid := o], init, Some(o.uuid), o.uuid);
    } else {
      assert init[k] == stack[k];
      UnwindSaves(objs[o.uuid := o], init, Some(o.uuid), k);
    }
  }

  /** fetchAndStore as a value: the store afterwards and the object returned. */
  function FetchAndStoreSpec(objs: Objects, kram: Kramerius, stats: PageStats, pid: string)
    : (Objects, Result<HierarchyObject, HierarchyError>)
  {
    match UuidOfPid(pid)
    case Err(e) => (objs, Err(BadPid(e)))
    case Ok(u) =>
      if u in objs then (objs, Ok(objs[u]))
      else
        match UpwardWalk(objs, kram, pid, |kram|)
        case Err(e) => (objs, Err(e))
        case Ok(w) =>
          var (saved, r) := Unwind(objs, w.stack, w.storedParent);
          match r
          case Err(e) => (saved, Err(e))
          case Ok(last) =>
            var (refreshed, rr) := RefreshSpec(saved, stats, last.value);
            (refreshed, if rr.Ok? then Ok(saved[last.value]) else Err(rr.error))
  }

  /** A PID already stored is answered from the store, with no change and no Kramerius lookup. */
  lemma FetchStoredAsksNothing(objs: Objects, kram: Kramerius, kram2: Kramerius, stats: PageStats, u: Uuid)
    requires u in objs
    ensures FetchAndStoreSpec(objs, kram, stats, PidOf(u)) == (objs, Ok(objs[u]))
    ensures FetchAndStoreSpec(objs, kram, stats, PidOf(u)) == FetchAndStoreSpec(objs, kram2, stats, PidOf(u))
  {
    ToUuidOfPid(u);
  }

  /** Metadata missing for the requested PID is reported with that PID's uuid and changes nothing. */
  lemma FetchMissingMetadata(objs: Objects, kram: Kramerius, stats: PageStats, u: Uuid)
    requires u !in objs && PidOf(u) !in kram
    ensures FetchAndStoreSpec(objs, kram, stats, PidOf(u)) == (objs, Err(DigitalObjectNotFound(u)))
  {
    ToUuidOfPid(u);
  }

  /**
   * When the pushed objects have distinct uuids, each is saved under the next
   * one up and the root-most one under the stored ancestor (none at a root).
   */
  lemma UnwindChain(objs: Objects, stack: seq<KrameriusObjectMetadata>, parent: Option<Uuid>)
    requires AllPidsParse(stack) && |stack| > 0
    requires forall i, j :: 0 <= i < j < |stack| ==> UuidsOf(stack)[i] != UuidsOf(stack)[j]
    ensures var us := UuidsOf(stack); var saved := Unwind(objs, stack, parent).0;
      (forall k :: 0 <= k < |us| ==> us[k] in saved)
      && (forall k :: 0 <= k < |us| - 1 ==> saved[us[k]].parent == Some(us[k + 1]))
      && saved[us[|us| - 1]].parent == parent
  {
    var us := UuidsOf(stack);
    forall k | 0 <= k < |us|
      ensures us[k] in Unwind(objs, stack, parent).0
      ensures Unwind(objs, stack, parent).0[us[k]].parent == if k + 1 < |us| then Some(us[k + 1]) else parent
    {
      UnwindSaves(objs, stack, parent, k);
    }
    UnwindSaves(objs, stack, parent, |stack| - 1);
  }

  /**
   * The import returns the requested object as saved, keeps the saved links
   * through the refresh, and succeeds exactly when the new chain reaches a root.
   */
  lemma FetchAndStoreOutcome(objs: Objects, kram: Kramerius, stats: PageStats, pid: string)
    requires UuidOfPid(pid).Ok? && UuidOfPid(pid).value !in objs
    requires UpwardWalk(objs, kram, pid, |kram|).Ok?
    requires AllPidsParse(UpwardWalk(objs, kram, pid, |kram|).value.stack)
    ensures var w := UpwardWalk(objs, kram, pid, |kram|).value; var first := UuidsOf(w.stack)[0];
      var saved := Unwind(objs, w.stack, w.storedParent).0;
      var res := FetchAndStoreSpec(objs, kram, stats, pid);
      first in saved
      && SameLinks(res.0, saved)
      && (res.1.Ok? <==> Ancestry(saved, Some(first)).complete)
      && (res.1.Ok? ==> res.1.value == saved[first])
  {
    var w := UpwardWalk(objs, kram, pid, |kram|).value;
    UnwindResult(objs, w.stack, w.storedParent);
  }

  // ---------------------------------------------------------------------
  // store as a value

  /** The parent a single store links to: the stored parent, or none when absent or parentPid is null. */
  function StoredParent(objs: Objects, m: KrameriusObjectMetadata): (r: Result<Option<Uuid>, PidError>)
    ensures m.parentPid.None? ==> r == Ok(None)
    ensures r.Ok? && r.value.Some? ==> r.value.value in objs && ParentUuid(m) == Ok(r.value.value)
    ensures m.parentPid.Some? && ParentUuid(m).Ok? ==>
      r == Ok(if ParentUuid(m).value in objs then Some(ParentUuid(m).value) else None)
  {
    if m.parentPid.None? then Ok(None)
    else
      match ParentUuid(m)
      case Err(e) => Err(e)
      case Ok(pu) => Ok(if pu in objs then Some(pu) else None)
  }

  function StoreSpec(objs: Objects, stats: PageStats, m: KrameriusObjectMetadata)
    : (Objects, Result<HierarchyObject, HierarchyError>)
  {
    match MetadataUuid(m)
    case Err(e) => (objs, Err(BadPid(e)))
    case Ok(u) =>
      if u in objs then (objs, Ok(objs[u]))
      else
        match StoredParent(objs, m)
        case Err(e) => (objs, Err(BadPid(e)))
        case Ok(parent) =>
          match BuildObject(m, parent)
          case Err(e) => (objs, Err(BadPid(e)))
          case Ok(o) =>
            var (refreshed, rr) := RefreshSpec(objs[o.uuid := o], stats, o.uuid);
            (refreshed, if rr.Ok? then Ok(o) else Err(rr.error))
  }

  /** For metadata whose pid is "uuid:<u>", both parsers give u. */
  lemma MetadataOfPid(m: KrameriusObjectMetadata, u: Uuid)
    requires m.pid == PidOf(u)
    ensures MetadataUuid(m) == Ok(u) && UuidOfPid(m.pid) == Ok(u)
  {
    UuidHasNoColon(u);
    ParsePidAgreesWithToUuid(u);
    ToUuidOfPid(u);
  }

  /**
   * store of a "uuid:<u>" object: a stored object is returned unchanged; a new
   * one is saved linked to its stored parent, or to none, and the call
   * succeeds exactly when the refreshed chain reaches a root.
   */
  lemma StoreEffect(objs: Objects, stats: PageStats, m: KrameriusObjectMetadata, u: Uuid)
    requires m.pid == PidOf(u)
    ensures u in objs ==> StoreSpec(objs, stats, m) == (objs, Ok(objs[u]))
    ensures u !in objs && StoredParent(objs, m).Ok? ==>
      var o := HierarchyObject(u, m.model, ClipTitle(m.title), m.level, m.indexInParent,
                               StoredParent(objs, m).value, None, None);
      StoreSpec(objs, stats, m).0 == RefreshSpec(objs[u := o], stats, u).0
      && StoreSpec(objs, stats, m).1 == (if Ancestry(objs[u := o], Some(u)).complete then Ok(o) else Err(Diverges))
  {
    MetadataOfPid(m, u);
  }

  /** store of metadata whose pid is "uuid:<u>" returns the object stored under u. */
  lemma StoreReturnsNamed(objs: Objects, stats: PageStats, m: KrameriusObjectMetadata, u: Uuid)
    requires m.pid == PidOf(u)
    requires forall v :: v in objs ==> objs[v].uuid == v
    requires StoreSpec(objs, stats, m).1.Ok?
    ensures StoreSpec(objs, stats, m).1.value.uuid == u
  {
    MetadataOfPid(m, u);
  }

  // ---------------------------------------------------------------------
  // The repository and the service

  class ObjectRepository {
    var objects: Objects

    ghost predicate Valid()
      reads this
    {
      forall u :: u in objects ==> objects[u].uuid == u
    }

    constructor ()
      ensures Valid() && objects == map[]
    {
      objects := map[];
    }

    /** findById */
    function FindById(u: Uuid): (r: Option<HierarchyObject>)
      reads this
      ensures r.Some? <==> u in objects
      ensures r.Some? ==> r.value == objects[u]
    {
      if u in objects then Some(objects[u]) else None
    }

    /** save: the uuid is the key, so saving an object overwrites any stored one with that uuid. */
    method Save(o: HierarchyObject)
      modifies this
      ensures objects == old(objects)[o.uuid := o]
      ensures old(Valid()) ==> Valid()
    {
      objects := objects[o.uuid := o];
    }
  }

  function Prepended(visited: seq<Uuid>, rest: Climbed): Climbed
  {
    Climbed(visited + rest.visited, rest.complete)
  }

  lemma ClimbStep(objs: Objects, visited: seq<Uuid>, cur: Uuid, fuel: nat)
    requires cur in objs && fuel > 0
    ensures Prepended(visited, Climb(objs, Some(cur), fuel))
      == Prepended(visited + [cur], Climb(objs, objs[cur].parent, fuel - 1))
  {
    var rest := Climb(objs, objs[cur].parent, fuel - 1);
    assert visited + ([cur] + rest.visited) == (visited + [cur]) + rest.visited;
  }

  /** One step of the refresh loop keeps its invariants. */
  lemma RefreshStep(objs: Objects, stats: PageStats, anc: Climbed, visited: seq<Uuid>, cur: Uuid, fuel: nat,
                    m: Objects)
    requires m == WithCounts(objs, stats, visited) && cur in m && fuel > 0
    requires anc == Prepended(visited, Climb(objs, Some(cur), fuel))
    ensures var m' := m[cur := SetCounts(m[cur], stats)];
      m' == WithCounts(objs, stats, visited + [cur])
      && anc == Prepended(visited + [cur], Climb(objs, m[cur].parent, fuel - 1))
      && SameLinks(m', objs)
  {
    assert m[cur].parent == objs[cur].parent;
    WithCountsSnoc(objs, stats, visited, cur);
    ClimbStep(objs, visited, cur, fuel);
  }

  lemma WithCountsSnoc(objs: Objects, stats: PageStats, visited: seq<Uuid>, cur: Uuid)
    requires cur in objs
    ensures WithCounts(objs, stats, visited + [cur])
      == WithCounts(objs, stats, visited)[cur := SetCounts(WithCounts(objs, stats, visited)[cur], stats)]
  {
    var a := WithCounts(objs, stats, visited + [cur]);
    var b := WithCounts(objs, stats, visited)[cur := SetCounts(WithCounts(objs, stats, visited)[cur], stats)];
    assert a.Keys == b.Keys;
    forall u | u in a
      ensures a[u] == b[u]
    {
    }
  }

  lemma PrependWalkNil(r: Result<Walked, HierarchyError>)
    ensures PrependWalk([], r) == r
  {
    if r.Ok? {
      assert [] + r.value.stack == r.value.stack;
    }
  }

  function PrependWalk(stack: seq<KrameriusObjectMetadata>, r: Result<Walked, HierarchyError>): Result<Walked, HierarchyError>
  {
    match r
    case Err(e) => Err(e)
    case Ok(w) => Ok(Walked(stack + w.stack, w.storedParent))
  }

  class ObjectHierarchyService {
    const repo: ObjectRepository
    const batches: Batches.BatchRepository
    const users: Users.UserRepository

    constructor (repo: ObjectRepository, batches: Batches.BatchRepository, users: Users.UserRepository)
      ensures this.repo == repo && this.batches == batches && this.users == users
    {
      this.repo := repo;
      this.batches := batches;
      this.users := users;
    }

    /** refreshPageCountsForAncestors */
    method RefreshPageCountsForAncestors(start: Uuid, stats: PageStats) returns (r: Result<(), HierarchyError>)
      requires repo.Valid()
      modifies repo
      ensures (repo.objects, r) == RefreshSpec(old(repo.objects), stats, start)
      ensures repo.Valid()
    {
      ghost var objs := repo.objects;
      ghost var anc := Ancestry(objs, Some(start));
      ghost var visited: seq<Uuid> := [];
      var fuel: int := |repo.objects|;
      var current: Option<Uuid> := Some(start);
      while current.Some? && current.value in repo.objects
        invariant 0 <= fuel
        invariant repo.objects == WithCounts(objs, stats, visited)
        invariant anc == Prepended(visited, Climb(objs, current, fuel))
        invariant SameLinks(repo.objects, objs)
        invariant repo.Valid()
        decreases fuel
      {
        if fuel == 0 {
          assert Climb(objs, current, fuel) == Climbed([], false);
          assert visited + [] == visited;
          return Err(Diverges);
        }
        var cur := current.value;
        current, fuel := RefreshOne(objs, stats, anc, visited, cur, fuel);
        visited := visited + [cur];
      }
      assert Climb(objs, current, fuel) == Climbed([], true);
      assert visited + [] == visited;
      return Ok(());
    }

    /** One step of the refresh: rewrite the counts of `cur` and move to its parent. */
    method RefreshOne(ghost objs: Objects, stats: PageStats, ghost anc: Climbed, ghost visited: seq<Uuid>, cur: Uuid,
                      fuel: int)
      returns (parent: Option<Uuid>, fuel': int)
      requires repo.Valid() && repo.objects == WithCounts(objs, stats, visited) && cur in repo.objects && fuel > 0
      requires anc == Prepended(visited, Climb(objs, Some(cur), fuel))
      modifies repo
      ensures fuel' == fuel - 1
      ensures repo.Valid() && repo.objects == WithCounts(objs, stats, visited + [cur])
      ensures anc == Prepended(visited + [cur], Climb(objs, parent, fuel'))
      ensures SameLinks(repo.objects, objs)
    {
      var obj := repo.objects[cur];
      RefreshStep(objs, stats, anc, visited, cur, fuel, repo.objects);
      repo.Save(SetCounts(obj, stats));
      parent := obj.parent;
      fuel' := fuel - 1;
    }

    /** The upward loop of fetchAndStore: push metadata until a stored ancestor or a root. */
    method WalkUp(pid: string, kram: Kramerius) returns (r: Result<Walked, HierarchyError>)
      ensures r == UpwardWalk(repo.objects, kram, pid, |kram|)
    {
      var stack: seq<KrameriusObjectMetadata> := [];
      var currentPid := pid;
      var fuel: nat := |kram|;
      PrependWalkNil(UpwardWalk(repo.objects, kram, pid, |kram|));
      while true
        invariant UpwardWalk(repo.objects, kram, pid, |kram|)
          == PrependWalk(stack, UpwardWalk(repo.objects, kram, currentPid, fuel))
        decreases fuel
      {
        if currentPid !in kram {
          var missing := UuidOfPid(currentPid);
          if missing.Err? {
            return Err(BadPid(missing.error));
          }
          return Err(DigitalObjectNotFound(missing.value));
        }
        var metadata := kram[currentPid];
        if metadata.parentPid.None? {
          return Ok(Walked(stack + [metadata], None));
        }
        var parentUuid := UuidOfPid(metadata.parentPid.value);
        if parentUuid.Err? {
          return Err(BadPid(parentUuid.error));
        }
        if parentUuid.value in repo.objects {
          return Ok(Walked(stack + [metadata], Some(parentUuid.value)));
        }
        if fuel == 0 {
          return Err(Diverges);
        }
        ghost var next := UpwardWalk(repo.objects, kram, metadata.parentPid.value, fuel - 1);
        if next.Ok? {
          assert stack + ([metadata] + next.value.stack) == (stack + [metadata]) + next.value.stack;
        }
        stack := stack + [metadata];
        currentPid := metadata.parentPid.value;
        fuel := fuel - 1;
      }
    }

    /** The unwinding loop of fetchAndStore: pop root-most first, save each under the previous one. */
    method UnwindStack(stack: seq<KrameriusObjectMetadata>, top: Option<Uuid>)
      returns (r: Result<Option<Uuid>, HierarchyError>)
      requires repo.Valid()
      modifies repo
      ensures (repo.objects, r) == Unwind(old(repo.objects), stack, top)
      ensures repo.Valid()
    {
      ghost var objs := repo.objects;
      var parent := top;
      var i := |stack|;
      assert stack[..i] == stack;
      while i > 0
        invariant 0 <= i <= |stack|
        invariant Unwind(objs, stack, top) == Unwind(repo.objects, stack[..i], parent)
        invariant repo.Valid()
        decreases i
      {
        var metadata := stack[i - 1];
        assert stack[..i][..i - 1] == stack[..i - 1];
        var built := BuildObject(metadata, parent);
        if built.Err? {
          return Err(BadPid(built.error));
        }
        repo.Save(built.value);
        parent := Some(built.value.uuid);
        i := i - 1;
      }
      assert stack[..0] == [];
      return Ok(parent);
    }

    /** fetchAndStore */
    method FetchAndStore(pid: string, kram: Kramerius, stats: PageStats)
      returns (r: Result<HierarchyObject, HierarchyError>)
      requires repo.Valid()
      modifies repo
      ensures (repo.objects, r) == FetchAndStoreSpec(old(repo.objects), kram, stats, pid)
      ensures repo.Valid()
    {
      var u := UuidOfPid(pid);
      if u.Err? {
        return Err(BadPid(u.error));
      }
      var existing := repo.FindById(u.value);
      if existing.Some? {
        return Ok(existing.value);
      }
      var walked := WalkUp(pid, kram);
      if walked.Err? {
        return Err(walked.error);
      }
      var unwound := UnwindStack(walked.value.stack, walked.value.storedParent);
      if unwound.Err? {
        return Err(unwound.error);
      }
      var last := repo.objects[unwound.value.value];
      var refreshed := RefreshPageCountsForAncestors(unwound.value.value, stats);
      if refreshed.Err? {
        return Err(refreshed.error);
      }
      return Ok(last);
    }

    /** store */
    method Store(m: KrameriusObjectMetadata, stats: PageStats) returns (r: Result<HierarchyObject, HierarchyError>)
      requires repo.Valid()
      modifies repo
      ensures (repo.objects, r) == StoreSpec(old(repo.objects), stats, m)
      ensures repo.Valid()
    {
      var u := MetadataUuid(m);
      if u.Err? {
        return Err(BadPid(u.error));
      }
      var existing := repo.FindById(u.value);
      if existing.Some? {
        return Ok(existing.value);
      }
      var parent := StoredParent(repo.objects, m);
      if parent.Err? {
        return Err(BadPid(parent.error));
      }
      var built := BuildObject(m, parent.value);
      if built.Err? {
        return Err(BadPid(built.error));
      }
      repo.Save(built.value);
      var refreshed := RefreshPageCountsForAncestors(built.value.uuid, stats);
      if refreshed.Err? {
        return Err(refreshed.error);
      }
      return Ok(built.value);
    }

    /** createGenerateAltoBatch */
    method CreateGenerateAltoBatch(pid: string, priority: Option<Batches.BatchPriority>, userId: int, now: Batches.Instant)
      returns (r: Result<Batches.Batch, Batches.BatchError>)
      requires batches.Valid()
      modifies batches
      ensures batches.Valid()
      ensures r == Batches.CreateBatchOutcome(users.users, old(batches.nextId), Batches.GenerateForHierarchy, Some(pid), priority, userId, now)
      ensures batches.batches == old(batches.batches) + (if r.Ok? then [r.value] else [])
    {
      r := Batches.CreateBatch(batches, users, Batches.GenerateForHierarchy, Some(pid), priority, userId, now);
    }

    /** createFetchFromKrameriusBatch */
    method CreateFetchFromKrameriusBatch(pid: string, priority: Option<Batches.BatchPriority>, userId: int, now: Batches.Instant)
      returns (r: Result<Batches.Batch, Batches.BatchError>)
      requires batches.Valid()
      modifies batches
      ensures batches.Valid()
      ensures r == Batches.CreateBatchOutcome(users.users, old(batches.nextId), Batches.RetrieveHierarchy, Some(pid), priority, userId, now)
      ensures batches.batches == old(batches.batches) + (if r.Ok? then [r.value] else [])
    {
      r := Batches.CreateBatch(batches, users, Batches.RetrieveHierarchy, Some(pid), priority, userId, now);
    }
  }
}
