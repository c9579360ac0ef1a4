// RetrieveHierarchyProcess: the batch that imports a whole Kramerius subtree.
// Starting from the batch's PID it stores every object breadth-first; a page
// gets an ALTO version request and is not expanded, any other object queues
// its children.
module RetrieveHierarchy {
  import opened Wrappers
  import opened JavaText
  import opened Uuids
  import opened Batches
  import OH = ObjectHierarchy

  /** What Kramerius answers below the batch's PID: each object's metadata and its children, in order. */
  datatype KTree = KNode(meta: KrameriusObjectMetadata, children: seq<KTree>)

  /** Model.PAGE.isModel: the Kramerius model name of a page. */
  const PageModel: string := "page"

  predicate IsPage(m: KrameriusObjectMetadata)
  {
    m.model == PageModel
  }

  /** What a dequeued object adds to the queue. */
  function Expand(t: KTree): seq<KTree>
  {
    if IsPage(t.meta) then [] else t.children
  }

  function Size(t: KTree): nat
  {
    1 + SizeAll(t.children)
  }

  function SizeAll(ts: seq<KTree>): nat
  {
    if |ts| == 0 then 0 else Size(ts[0]) + SizeAll(ts[1..])
  }

  lemma {:induction false} SizeAllAppend(a: seq<KTree>, b: seq<KTree>)
    ensures SizeAll(a + b) == SizeAll(a) + SizeAll(b)
    decreases |a|
  {
    if |a| > 0 {
      assert (a + b)[1..] == a[1..] + b;
      SizeAllAppend(a[1..], b);
    } else {
      assert a + b == b;
    }
  }

  lemma QueueShrinks(q: seq<KTree>)
    requires |q| > 0
    ensures SizeAll(q[1..] + Expand(q[0])) < SizeAll(q)
  {
    SizeAllAppend(q[1..], Expand(q[0]));
  }

  /** The order in which a FIFO queue starting with `q` is drained. */
  function Bfs(q: seq<KTree>): seq<KrameriusObjectMetadata>
    decreases SizeAll(q)
  {
    if |q| == 0 then []
    else
      QueueShrinks(q);
      [q[0].meta] + Bfs(q[1..] + Expand(q[0]))
  }

  /** One dequeue moves the head of the queue from what is left to do onto what is done. */
  lemma DequeueStep(done: seq<KrameriusObjectMetadata>, q: seq<KTree>)
    requires |q| > 0
    ensures SizeAll(q[1..] + Expand(q[0])) < SizeAll(q)
    ensures done + Bfs(q) == (done + [q[0].meta]) + Bfs(q[1..] + Expand(q[0]))
  {
    QueueShrinks(q);
    var rest := Bfs(q[1..] + Expand(q[0]));
    assert Bfs(q) == [q[0].meta] + rest;
    SeqAssoc(done, [q[0].meta], rest);
  }

  /** Work stopped with a non-empty queue is a strict prefix of the whole traversal. */
  lemma StoppedEarly(done: seq<KrameriusObjectMetadata>, q: seq<KTree>, all: seq<KrameriusObjectMetadata>)
    requires done + Bfs(q) == all && |q| > 0
    ensures IsPrefix(done, all) && done != all
  {
    assert all[..|done|] == done;
  }

  /** The depths of the drained objects, given the depths of the queued ones. */
  function BfsDepths(q: seq<KTree>, ds: seq<nat>): (r: seq<nat>)
    requires |ds| == |q|
    ensures |r| == |Bfs(q)|
    ensures |q| > 0 ==> |r| > 0 && r[0] == ds[0]
    decreases SizeAll(q)
  {
    if |q| == 0 then []
    else
      QueueShrinks(q);
      [ds[0]] + BfsDepths(q[1..] + Expand(q[0]), ds[1..] + seq(|Expand(q[0])|, _ => ds[0] + 1))
  }

  predicate NonDecreasing(ds: seq<nat>)
  {
    forall i, j :: 0 <= i < j < |ds| ==> ds[i] <= ds[j]
  }

  /**
   * Breadth-first: when the queue holds depths in order spanning at most one
   * level, the drained objects come out in order of depth.
   */
  lemma {:induction false} BfsByLevel(q: seq<KTree>, ds: seq<nat>)
    requires |ds| == |q| && NonDecreasing(ds)
    requires |ds| > 0 ==> ds[|ds| - 1] <= ds[0] + 1
    ensures NonDecreasing(BfsDepths(q, ds))
    decreases SizeAll(q)
  {
    if |q| > 0 {
      QueueShrinks(q);
      var ds' := ds[1..] + seq(|Expand(q[0])|, _ => ds[0] + 1);
      NextLevelOrdered(ds, |Expand(q[0])|);
      BfsByLevel(q[1..] + Expand(q[0]), ds');
      var rest := BfsDepths(q[1..] + Expand(q[0]), ds');
      assert BfsDepths(q, ds) == [ds[0]] + rest;
      ConsNonDecreasing(ds[0], rest);
    }
  }

  /** Dequeuing one depth and enqueuing `n` children one level down keeps the queue's depths in order. */
  lemma NextLevelOrdered(ds: seq<nat>, n: nat)
    requires |ds| > 0 && NonDecreasing(ds) && ds[|ds| - 1] <= ds[0] + 1
    ensures var ds' := ds[1..] + seq(n, _ => ds[0] + 1);
      NonDecreasing(ds') && (|ds'| > 0 ==> ds[0] <= ds'[0] && ds'[|ds'| - 1] <= ds'[0] + 1)
  {
    var ds' := ds[1..] + seq(n, _ => ds[0] + 1);
    assert forall k :: 0 <= k < |ds'| ==> ds[0] <= ds'[k] <= ds[0] + 1;
  }

  lemma ConsNonDecreasing(x: nat, rest: seq<nat>)
    requires NonDecreasing(rest) && (|rest| > 0 ==> x <= rest[0])
    ensures NonDecreasing([x] + rest)
  {
    var s := [x] + rest;
    forall i, j | 0 <= i < j < |s| ensures s[i] <= s[j] {
      if i > 0 {
        assert s[i] == rest[i - 1] && s[j] == rest[j - 1];
      } else {
        assert s[j] == rest[j - 1];
      }
    }
  }

  /** Every object below the target, pages not expanded, in one traversal. */
  function Reach(t: KTree): seq<KrameriusObjectMetadata>
    decreases t, 1
  {
    if IsPage(t.meta) then [t.meta] else [t.meta] + ReachAll(t.children)
  }

  function ReachAll(ts: seq<KTree>): seq<KrameriusObjectMetadata>
    decreases ts, 0
  {
    if |ts| == 0 then [] else
      assert ts[0] in ts;
      Reach(ts[0]) + ReachAll(ts[1..])
  }

  lemma {:induction false} ReachAllAppend(a: seq<KTree>, b: seq<KTree>)
    ensures multiset(ReachAll(a + b)) == multiset(ReachAll(a)) + multiset(ReachAll(b))
    decreases |a|
  {
    if |a| > 0 {
      assert (a + b)[0] == a[0];
      assert (a + b)[1..] == a[1..] + b;
      ReachAllAppend(a[1..], b);
    } else {
      assert a + b == b;
    }
  }

  /** The queue is drained of exactly the objects reachable from it, each once. */
  lemma {:induction false} BfsVisitsReachable(q: seq<KTree>)
    ensures multiset(Bfs(q)) == multiset(ReachAll(q))
    decreases SizeAll(q)
  {
    if |q| > 0 {
      QueueShrinks(q);
      BfsVisitsReachable(q[1..] + Expand(q[0]));
      ReachAllAppend(q[1..], Expand(q[0]));
      assert Reach(q[0]) == [q[0].meta] + ReachAll(Expand(q[0])) by {
        if IsPage(q[0].meta) { assert ReachAll([]) == []; }
      }
    }
  }

  /** Starting from one target: every reachable object is stored once and the depths never decrease. */
  lemma RetrieveOrder(t: KTree)
    ensures multiset(Bfs([t])) == multiset(Reach(t))
    ensures Bfs([t])[0] == t.meta
    ensures NonDecreasing(BfsDepths([t], [0]))
  {
    BfsVisitsReachable([t]);
    assert [t][1..] == [];
    BfsByLevel([t], [0]);
  }

  function TargetMissingLog(b: Batch): string
  {
    "Target object with PID " + Text(b.pid) + " not found in Kramerius instance " + Text(b.instance) + "."
  }

  /** The PIDs handed to the ALTO version request, one per stored page, in order. */
  function PagePids(visited: seq<KrameriusObjectMetadata>, stored: seq<OH.HierarchyObject>): seq<string>
    requires |visited| == |stored|
  {
    if |visited| == 0 then []
    else (if IsPage(visited[0]) then [OH.ObjectPid(stored[0])] else []) + PagePids(visited[1..], stored[1..])
  }

  /** Each stored object carries the UUID named by the PID of the metadata it was stored from. */
  ghost predicate StoredUnderPid(visited: seq<KrameriusObjectMetadata>, stored: seq<OH.HierarchyObject>)
    requires |stored| == |visited|
  {
    forall k, u :: 0 <= k < |visited| && visited[k].pid == PidOf(u) ==> stored[k].uuid == u
  }

  lemma StoredUnderPidSnoc(visited: seq<KrameriusObjectMetadata>, stored: seq<OH.HierarchyObject>,
                           m: KrameriusObjectMetadata, o: OH.HierarchyObject)
    requires |stored| == |visited| && StoredUnderPid(visited, stored)
    requires forall u :: m.pid == PidOf(u) ==> o.uuid == u
    ensures StoredUnderPid(visited + [m], stored + [o])
  {
    forall k, u | 0 <= k < |visited| + 1 && (visited + [m])[k].pid == PidOf(u)
      ensures (stored + [o])[k].uuid == u
    {
      if k < |visited| {
        assert (visited + [m])[k] == visited[k];
      }
    }
  }

  predicate IsPrefix<T(==)>(a: seq<T>, b: seq<T>)
  {
    |a| <= |b| && a == b[..|a|]
  }

  class RetrieveHierarchyProcess {
    const batchService: BatchService
    const hierarchy: OH.ObjectHierarchyService
    const batchId: int

    constructor (batchService: BatchService, hierarchy: OH.ObjectHierarchyService, batchId: int)
      ensures this.batchService == batchService && this.hierarchy == hierarchy && this.batchId == batchId
    {
      this.batchService := batchService;
      this.hierarchy := hierarchy;
      this.batchId := batchId;
    }

    /**
     * The queue loop of run: stores each dequeued object, requests an ALTO
     * version for a page, queues the children of anything else. Stops at the
     * first store that throws and returns its error.
     */
    method Drain(target: KTree, stats: OH.PageStats)
      returns (visited: seq<KrameriusObjectMetadata>, stored: seq<OH.HierarchyObject>, pagePids: seq<string>,
               failure: Option<OH.HierarchyError>)
      requires hierarchy.repo.Valid()
      modifies hierarchy.repo
      ensures hierarchy.repo.Valid()
      ensures IsPrefix(visited, Bfs([target]))
      ensures failure.None? <==> visited == Bfs([target])
      ensures |stored| == |visited| && pagePids == PagePids(visited, stored)
      ensures forall k, u :: 0 <= k < |visited| && visited[k].pid == PidOf(u) ==> stored[k].uuid == u
    {
      visited, stored, pagePids := [], [], [];
      var queue: seq<KTree> := [target];
      while |queue| > 0
        invariant hierarchy.repo.Valid()
        invariant visited + Bfs(queue) == Bfs([target])
        invariant |stored| == |visited| && pagePids == PagePids(visited, stored)
        invariant StoredUnderPid(visited, stored)
        decreases SizeAll(queue)
      {
        var current := queue[0];
        DequeueStep(visited, queue);
        ghost var objs := hierarchy.repo.objects;
        var saved := hierarchy.Store(current.meta, stats);
        if saved.Err? {
          StoppedEarly(visited, queue, Bfs([target]));
          return visited, stored, pagePids, Some(saved.error);
        }
        forall u | current.meta.pid == PidOf(u)
          ensures saved.value.uuid == u
        {
          OH.StoreReturnsNamed(objs, stats, current.meta, u);
        }
        StoredUnderPidSnoc(visited, stored, current.meta, saved.value);
        PagePidsSnoc(visited, stored, current.meta, saved.value);
        if IsPage(current.meta) {
          pagePids := pagePids + [OH.ObjectPid(saved.value)];
        }
        visited := visited + [current.meta];
        stored := stored + [saved.value];
        queue := queue[1..] + Expand(current);
      }
      assert visited == Bfs([target]);
      return visited, stored, pagePids, None;
    }

    /**
     * run. `target` is Kramerius' answer for the batch's PID (None: null),
     * `messageOf` the message of the exception a failed store throws.
     * Returns the batch as last set (None when the batch id is unknown and
     * the exception escapes), the metadata stored in order, what store
     * returned for each, and the PIDs whose ALTO version was requested.
     */
    method Run(target: Option<KTree>, stats: OH.PageStats, now: Instant, messageOf: OH.HierarchyError -> string)
      returns (batch: Option<Batch>, visited: seq<KrameriusObjectMetadata>, stored: seq<OH.HierarchyObject>,
               pagePids: seq<string>)
      requires batchService.repo.Valid() && hierarchy.repo.Valid()
      modifies batchService.repo, hierarchy.repo
      ensures batchService.repo.Valid() && hierarchy.repo.Valid()
      ensures GetById(old(batchService.repo.batches), batchId).Err? <==> batch.None?
      ensures batch.None? ==> visited == [] && hierarchy.repo.objects == old(hierarchy.repo.objects)
      ensures batch.Some? ==> batch.value.id == batchId
      ensures batch.Some? && target.None? ==>
        batch.value.state == Some(Failed) && visited == []
        && batch.value.log == Some(TargetMissingLog(GetById(old(batchService.repo.batches), batchId).value))
      ensures batch.Some? && target.Some? ==>
        IsPrefix(visited, Bfs([target.value]))
        && (visited == Bfs([target.value]) ==> batch.value.state == Some(Done))
        && (visited != Bfs([target.value]) ==>
              batch.value.state == Some(Failed)
              && exists e :: batch.value.log == Some(BatchFailedLog(batchId, messageOf(e))))
      ensures |stored| == |visited| && pagePids == PagePids(visited, stored)
      ensures forall k, u :: 0 <= k < |visited| && visited[k].pid == PidOf(u) ==> stored[k].uuid == u
    {
      visited, stored, pagePids := [], [], [];
      var found := GetById(batchService.repo.batches, batchId);
      if found.Err? {
        return None, visited, stored, pagePids;
      }
      var b;
      b, visited, stored, pagePids := RunFound(found.value, target, stats, now, messageOf);
      return Some(b), visited, stored, pagePids;
    }

    /** run once its batch `b0` is found: RUNNING, then a missing target fails it, otherwise the import. */
    method RunFound(b0: Batch, target: Option<KTree>, stats: OH.PageStats, now: Instant,
                    messageOf: OH.HierarchyError -> string)
      returns (after: Batch, visited: seq<KrameriusObjectMetadata>, stored: seq<OH.HierarchyObject>,
               pagePids: seq<string>)
      requires batchService.repo.Valid() && hierarchy.repo.Valid()
      modifies batchService.repo, hierarchy.repo
      ensures batchService.repo.Valid() && hierarchy.repo.Valid()
      ensures after.id == b0.id
      ensures target.None? ==> after.state == Some(Failed) && visited == [] && after.log == Some(TargetMissingLog(b0))
      ensures target.Some? ==>
        IsPrefix(visited, Bfs([target.value]))
        && (visited == Bfs([target.value]) ==> after.state == Some(Done))
        && (visited != Bfs([target.value]) ==>
              after.state == Some(Failed) && exists e :: after.log == Some(BatchFailedLog(b0.id, messageOf(e))))
      ensures |stored| == |visited| && pagePids == PagePids(visited, stored)
      ensures forall k, u :: 0 <= k < |visited| && visited[k].pid == PidOf(u) ==> stored[k].uuid == u
    {
      after := batchService.Apply(b0, SetState(Running), now);
      if target.None? {
        after := batchService.Apply(after, SetFailed(TargetMissingLog(b0)), now);
        return after, [], [], [];
      }
      after, visited, stored, pagePids := Import(after, target.value, stats, now, messageOf);
    }

    /** The try block once the target exists: drain the subtree, then settle the batch. */
    method Import(b: Batch, target: KTree, stats: OH.PageStats, now: Instant, messageOf: OH.HierarchyError -> string)
      returns (after: Batch, visited: seq<KrameriusObjectMetadata>, stored: seq<OH.HierarchyObject>,
               pagePids: seq<string>)
      requires batchService.repo.Valid() && hierarchy.repo.Valid()
      modifies batchService.repo, hierarchy.repo
      ensures batchService.repo.Valid() && hierarchy.repo.Valid()
      ensures after.id == b.id && IsPrefix(visited, Bfs([target]))
      ensures visited == Bfs([target]) ==> after.state == Some(Done)
      ensures visited != Bfs([target]) ==>
        after.state == Some(Failed) && exists e :: after.log == Some(BatchFailedLog(b.id, messageOf(e)))
      ensures |stored| == |visited| && pagePids == PagePids(visited, stored)
      ensures forall k, u :: 0 <= k < |visited| && visited[k].pid == PidOf(u) ==> stored[k].uuid == u
    {
      var failure;
      visited, stored, pagePids, failure := Drain(target, stats);
      if failure.Some? {
        after := batchService.Apply(b, SetFailed(BatchFailedLog(b.id, messageOf(failure.value))), now);
      } else {
        after := batchService.Apply(b, SetState(Done), now);
      }
    }
  }

  lemma {:induction false} PagePidsSnoc(visited: seq<KrameriusObjectMetadata>, stored: seq<OH.HierarchyObject>,
                                        m: KrameriusObjectMetadata, o: OH.HierarchyObject)
    requires |visited| == |stored|
    ensures PagePids(visited + [m], stored + [o])
      == PagePids(visited, stored) + (if IsPage(m) then [OH.ObjectPid(o)] else [])
    decreases |visited|
  {
    if |visited| > 0 {
      assert (visited + [m])[1..] == visited[1..] + [m];
      assert (stored + [o])[1..] == stored[1..] + [o];
      PagePidsSnoc(visited[1..], stored[1..], m, o);
    }
  }
}
