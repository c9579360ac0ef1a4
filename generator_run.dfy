// AltoOcrGeneratorProcess: the batch that runs an OCR engine on one page.
// Both copies (the current one over ALTO versions and the legacy one over
// core digital objects) walk the same steps: RUNNING, find the page's row,
// download its image, run the engine, store the ALTO and the OCR text at the
// row's version, DONE; any failure ends the batch FAILED, and the work
// directory is removed on every way out.
module GeneratorRun {
  import opened Wrappers
  import opened Uuids
  import opened Batches
  import Akubra
  import AV = AltoVersions
  import AltoVersionSvc
  import DigitalObjects
  import Core = CoreObjects

  /** The steps of a run that call outside the process and can throw. */
  datatype Step = CreateWorkDir | Download | Generate | ReadAlto | SaveAlto | ReadOcr | SaveOcr

  /**
   * What the world does during one run: the first step that throws and the
   * exception's message, the engine's verdict and error text, the two files
   * it wrote, and the name of the fresh work directory.
   */
  datatype Env<C> = Env(throwsAt: Option<Step>, message: string, engineOk: bool, engineErr: Option<string>,
                        alto: C, ocr: C, workDir: string)

  /** The two copies differ in how they record the item count before generating. */
  datatype Copy = Current | Legacy

  /**
   * The setter calls made on the batch, in order: every call but the last,
   * then the last one, which settles the batch; and the datastreams written,
   * in order.
   */
  datatype Trace<C> = Trace(body: seq<BatchCall>, last: BatchCall, saves: seq<(Akubra.Datastream, C)>)

  function Calls<C>(t: Trace<C>): seq<BatchCall>
  {
    t.body + [t.last]
  }

  predicate Throws<C>(env: Env<C>, s: Step)
  {
    env.throwsAt == Some(s)
  }

  function MissingLog(b: Batch): string
  {
    "Digital object with PID " + Text(b.pid) + " and instance " + Text(b.instance) + " not found."
  }

  function EngineLog(b: Batch, err: Option<string>): string
  {
    "Generating ALTO and OCR for PID " + Text(b.pid) + " failed: " + Text(err)
  }

  /** The catch block: the batch is failed with the exception's message. */
  function Caught<C>(b: Batch, env: Env<C>): BatchCall
  {
    SetFailed(BatchFailedLog(b.id, env.message))
  }

  /** The calls before DOWNLOADING: the current copy records one expected item. */
  function CountCall(copy: Copy): seq<BatchCall>
  {
    if copy == Current then [SetEstimatedItemCount(1)] else []
  }

  /** The calls between the download and GENERATING: the legacy copy records its run info. */
  function RunInfoCall(copy: Copy): seq<BatchCall>
  {
    if copy == Legacy then [SetRunInfo(Some(1), Single)] else []
  }

  /** A trace with calls made before it. */
  function Then<C>(pre: seq<BatchCall>, t: Trace<C>): Trace<C>
  {
    t.(body := pre + t.body)
  }

  /** The run from SAVING on: ALTO is read and stored, then the OCR text, then DONE. */
  function SaveTrace<C>(b: Batch, env: Env<C>): Trace<C>
  {
    var save := [SetSubstate(Saving)];
    if Throws(env, ReadAlto) || Throws(env, SaveAlto) then Trace(save, Caught(b, env), [])
    else if Throws(env, ReadOcr) || Throws(env, SaveOcr) then Trace(save, Caught(b, env), [(Akubra.Alto, env.alto)])
    else Trace(save, SetState(Done), [(Akubra.Alto, env.alto), (Akubra.TextOcr, env.ocr)])
  }

  /** The calls from the item count to GENERATING. */
  function GeneratePrefix(copy: Copy): seq<BatchCall>
  {
    CountCall(copy) + [SetSubstate(Downloading)] + RunInfoCall(copy) + [SetSubstate(Generating)]
  }

  /** The run from GENERATING on: the engine, then the saves. */
  function EngineTrace<C>(b: Batch, env: Env<C>): Trace<C>
  {
    if Throws(env, Generate) then Trace([], Caught(b, env), [])
    else if !env.engineOk then Trace([], SetFailed(EngineLog(b, env.engineErr)), [])
    else SaveTrace(b, env)
  }

  /** The run once the page's row is found, from the item count on. */
  function FoundTrace<C>(copy: Copy, b: Batch, env: Env<C>): Trace<C>
  {
    if Throws(env, Download) then Trace(CountCall(copy) + [SetSubstate(Downloading)], Caught(b, env), [])
    else Then(GeneratePrefix(copy), EngineTrace(b, env))
  }

  /**
   * The run of a found batch `b`. `found` is the row lookup: None when it
   * throws, otherwise whether a row was found.
   */
  function RunTrace<C>(copy: Copy, b: Batch, found: Option<bool>, env: Env<C>): Trace<C>
  {
    if Throws(env, CreateWorkDir) || found.None? then Trace([SetState(Running)], Caught(b, env), [])
    else if !found.value then Trace([SetState(Running)], SetFailed(MissingLog(b)), [])
    else Then([SetState(Running)], FoundTrace(copy, b, env))
  }

  /** A run that nothing interrupts. */
  predicate Completes<C>(found: Option<bool>, env: Env<C>)
  {
    found == Some(true) && env.engineOk && env.throwsAt.None?
  }

  /** The substates a run of setter calls sets, in order. */
  function Substates(cs: seq<BatchCall>): seq<BatchSubstate>
  {
    if |cs| == 0 then []
    else (if cs[0].SetSubstate? then [cs[0].sub] else []) + Substates(cs[1..])
  }

  lemma {:induction false} SubstatesAppend(a: seq<BatchCall>, c: seq<BatchCall>)
    ensures Substates(a + c) == Substates(a) + Substates(c)
    decreases |a|
  {
    if |a| == 0 {
      assert a + c == c;
    } else {
      assert (a + c)[1..] == a[1..] + c;
      assert (a + c)[0] == a[0];
      SubstatesAppend(a[1..], c);
    }
  }

  /** The batch is set RUNNING before anything else. */
  lemma RunStartsRunning<C>(copy: Copy, b: Batch, found: Option<bool>, env: Env<C>)
    ensures var t := RunTrace(copy, b, found, env);
      |t.body| >= 1 && t.body[0] == SetState(Running) && Calls(t)[0] == SetState(Running)
  {
  }

  /**
   * Every run ends settled: DONE exactly when nothing interrupts it, and
   * then both outputs were stored, ALTO first; otherwise FAILED with the
   * log of the row lookup, the engine or the exception.
   */
  lemma RunSettles<C>(copy: Copy, b: Batch, found: Option<bool>, env: Env<C>)
    ensures var t := RunTrace(copy, b, found, env);
      var after := ApplyCalls(b, Calls(t));
      (after.state == Some(Done) <==> Completes(found, env))
      && (Completes(found, env) ==> t.saves == [(Akubra.Alto, env.alto), (Akubra.TextOcr, env.ocr)])
      && (!Completes(found, env) ==>
            after.state == Some(Failed)
            && after.log in {Some(MissingLog(b)), Some(EngineLog(b, env.engineErr)), Some(BatchFailedLog(b.id, env.message))})
  {
    var t := RunTrace(copy, b, found, env);
    ApplyCallsSnoc(b, t.body, t.last);
    RunLast(copy, b, found, env);
  }

  /** The call that settles a run: DONE exactly when nothing interrupts it, otherwise a failure with its log. */
  lemma RunLast<C>(copy: Copy, b: Batch, found: Option<bool>, env: Env<C>)
    ensures var t := RunTrace(copy, b, found, env);
      (t.last == SetState(Done) <==> Completes(found, env))
      && (Completes(found, env) ==> t.saves == [(Akubra.Alto, env.alto), (Akubra.TextOcr, env.ocr)])
      && (!Completes(found, env) ==>
            t.last.SetFailed?
            && t.last.reason in {MissingLog(b), EngineLog(b, env.engineErr), BatchFailedLog(b.id, env.message)})
  {
    if env.throwsAt.Some? {
      var s := env.throwsAt.value;
      assert s.CreateWorkDir? || s.Download? || s.Generate? || s.ReadAlto? || s.SaveAlto? || s.ReadOcr? || s.SaveOcr?;
    }
  }

  /** A missing row fails the batch before any substate, with nothing stored. */
  lemma MissingRowStopsEarly<C>(copy: Copy, b: Batch, env: Env<C>)
    requires !Throws(env, CreateWorkDir)
    ensures var t := RunTrace(copy, b, Some(false), env);
      var after := ApplyCalls(b, Calls(t));
      t.saves == [] && Substates(Calls(t)) == []
      && after.state == Some(Failed) && after.log == Some(MissingLog(b)) && after.substate == b.substate
  {
    var t := RunTrace(copy, b, Some(false), env);
    ApplyCallsSnoc(b, t.body, t.last);
    ApplyCallsSnoc(b, [], SetState(Running));
    SubstatesAppend(t.body, [t.last]);
    SubstatesAppend([], [SetState(Running)]);
  }

  /** The substates up to GENERATING: the item count and run info set no substate. */
  lemma PrefixSubstates(copy: Copy)
    ensures Substates(CountCall(copy) + [SetSubstate(Downloading)]) == [Downloading]
    ensures Substates(GeneratePrefix(copy)) == [Downloading, Generating]
  {
    var count := CountCall(copy);
    var info := RunInfoCall(copy);
    if copy == Current {
      assert count[1..] == [];
    } else {
      assert info[1..] == [];
    }
    assert Substates(count) == [] && Substates(info) == [];
    var download := count + [SetSubstate(Downloading)];
    SubstatesAppend(count, [SetSubstate(Downloading)]);
    SubstatesAppend(download, info);
    SubstatesAppend(download + info, [SetSubstate(Generating)]);
  }

  /** The substates of a run once its row is found. */
  lemma FoundSubstates<C>(copy: Copy, b: Batch, env: Env<C>)
    ensures var t := FoundTrace(copy, b, env);
      var s := Substates(t.body);
      (Throws(env, Download) ==> s == [Downloading])
      && (!Throws(env, Download) && (Throws(env, Generate) || !env.engineOk) ==> s == [Downloading, Generating])
      && (!Throws(env, Download) && !Throws(env, Generate) && env.engineOk ==> s == [Downloading, Generating, Saving])
  {
    PrefixSubstates(copy);
    if !Throws(env, Download) {
      var e := EngineTrace(b, env).body;
      assert e == (if !Throws(env, Generate) && env.engineOk then [SetSubstate(Saving)] else []);
      assert Substates(e) == (if !Throws(env, Generate) && env.engineOk then [Saving] else []);
      SubstatesAppend(GeneratePrefix(copy), e);
    }
  }

  /** Substates are only ever DOWNLOADING, GENERATING, SAVING, in that order, each at most once. */
  lemma SubstatesInOrder<C>(copy: Copy, b: Batch, found: Option<bool>, env: Env<C>)
    ensures var s := Substates(Calls(RunTrace(copy, b, found, env)));
      |s| <= 3 && s == [Downloading, Generating, Saving][..|s|]
  {
    var t := RunTrace(copy, b, found, env);
    SettledSubstates(copy, b, found, env);
    if found == Some(true) && !Throws(env, CreateWorkDir) {
      FoundSubstates(copy, b, env);
      SubstatesAppend([SetState(Running)], FoundTrace(copy, b, env).body);
    }
  }

  /** The settling call and RUNNING set no substate. */
  lemma SettledSubstates<C>(copy: Copy, b: Batch, found: Option<bool>, env: Env<C>)
    ensures var t := RunTrace(copy, b, found, env);
      Substates(Calls(t)) == Substates(t.body)
      && (found == Some(true) && !Throws(env, CreateWorkDir) ==> t.body == [SetState(Running)] + FoundTrace(copy, b, env).body)
      && (found != Some(true) || Throws(env, CreateWorkDir) ==> Substates(t.body) == [])
  {
    var t := RunTrace(copy, b, found, env);
    SubstatesAppend(t.body, [t.last]);
    assert t.last.SetFailed? || t.last.SetState?;
    assert Substates([t.last]) == [];
    assert Substates([SetState(Running)]) == [];
  }

  /** A failing engine stores nothing; anything stored was stored after SAVING was set, ALTO first. */
  lemma SavesOnlyAfterEngine<C>(copy: Copy, b: Batch, found: Option<bool>, env: Env<C>)
    ensures var t := RunTrace(copy, b, found, env);
      (!env.engineOk ==> t.saves == [])
      && (|t.saves| > 0 ==> env.engineOk && found == Some(true) && Substates(Calls(t)) == [Downloading, Generating, Saving]
                            && t.saves[0] == (Akubra.Alto, env.alto))
  {
    var t := RunTrace(copy, b, found, env);
    if |t.saves| > 0 {
      FoundSubstates(copy, b, env);
      SubstatesAppend([SetState(Running)], FoundTrace(copy, b, env).body);
      SubstatesAppend(t.body, [t.last]);
    }
  }

  /**
   * Before the engine runs, the current copy has set the estimated item
   * count to 1 and the legacy copy the run info (1, SINGLE), after
   * DOWNLOADING in the legacy copy and before it in the current one.
   */
  lemma CountSetBeforeGenerating<C>(copy: Copy, b: Batch, env: Env<C>)
    requires !Throws(env, CreateWorkDir) && !Throws(env, Download)
    ensures var cs := Calls(RunTrace(copy, b, Some(true), env));
      |cs| > 3 && cs[..4] == [SetState(Running)] + GeneratePrefix(copy)
      && GeneratePrefix(copy) == (if copy == Current
                                  then [SetEstimatedItemCount(1), SetSubstate(Downloading), SetSubstate(Generating)]
                                  else [SetSubstate(Downloading), SetRunInfo(Some(1), Single), SetSubstate(Generating)])
  {
    var t := FoundTrace(copy, b, env);
    assert |GeneratePrefix(copy)| == 3;
    assert t.body[..3] == GeneratePrefix(copy);
    var cs := Calls(RunTrace(copy, b, Some(true), env));
    assert cs == [SetState(Running)] + t.body + [t.last];
    assert cs[..4] == [SetState(Running)] + t.body[..3];
  }

  // ---------------------------------------------------------------------
  // The processes

  /** WorkDirectoryService: the directories a run has created and not yet removed. */
  class WorkDirectories {
    var dirs: set<string>

    constructor ()
      ensures dirs == {}
    {
      dirs := {};
    }

    method CreateWorkDir(name: string)
      modifies this
      ensures dirs == old(dirs) + {name}
    {
      dirs := dirs + {name};
    }

    /** cleanup(null) does nothing. */
    method Cleanup(dir: Option<string>)
      modifies this
      ensures dir.None? ==> dirs == old(dirs)
      ensures dir.Some? ==> dirs == old(dirs) - {dir.value}
    {
      if dir.Some? {
        dirs := dirs - {dir.value};
      }
    }
  }

  /**
   * findFirstByDigitalObjectUuidAndInstance(batch.getUuid(), batch.getInstance()):
   * a PID that is not a uuid PID throws; a null PID or instance finds nothing.
   */
  function CurrentLookup(rows: seq<AV.AltoVersion>, b: Batch): (r: Result<Option<AV.AltoVersion>, PidError>)
    ensures r.Ok? && r.value.Some? ==> r.value.value in rows && r.value.value.digitalObject.Some?
  {
    match ToUuid(b.pid)
    case Err(e) => Err(e)
    case Ok(None) => Ok(None)
    case Ok(Some(u)) => if b.instance.None? then Ok(None) else Ok(AV.FindFirstByUuidAndInstance(rows, u, b.instance.value))
  }

  /** What the lookup means for the run: None when it throws. */
  function Found<T, E>(r: Result<Option<T>, E>): Option<bool>
  {
    if r.Err? then None else Some(r.value.Some?)
  }

  /** The blobs after the run's saves at the row's PID and version. */
  function SavedBlobs(blobs: map<string, Akubra.Bytes>, pid: string, version: int,
                      saves: seq<(Akubra.Datastream, Akubra.Bytes)>): map<string, Akubra.Bytes>
    decreases |saves|
  {
    if |saves| == 0 then blobs
    else SavedBlobs(blobs[Akubra.DsKey(pid, saves[0].0, version) := saves[0].1], pid, version, saves[1..])
  }

  /** The current copy, over the ALTO version table and the Akubra store. */
  class AltoOcrGeneratorProcess {
    const batchService: BatchService
    const repo: AltoVersionSvc.AltoVersionRepository
    const store: Akubra.AkubraStore
    const work: WorkDirectories
    const batchId: int

    constructor (batchService: BatchService, repo: AltoVersionSvc.AltoVersionRepository, store: Akubra.AkubraStore,
                 work: WorkDirectories, batchId: int)
      ensures this.batchService == batchService && this.repo == repo && this.store == store
      ensures this.work == work && this.batchId == batchId
    {
      this.batchService := batchService;
      this.repo := repo;
      this.store := store;
      this.work := work;
      this.batchId := batchId;
    }

    /** One setter call of BatchService, recorded in the trace. */
    method Call(ghost b0: Batch, b: Batch, ghost calls: seq<BatchCall>, c: BatchCall, now: Instant)
      returns (after: Batch, ghost calls': seq<BatchCall>)
      requires batchService.repo.Valid() && b == ApplyCalls(b0, calls) && !c.SetRunInfo?
      modifies batchService.repo
      ensures batchService.repo.Valid()
      ensures calls' == calls + [c] && after == ApplyCalls(b0, calls')
    {
      after := batchService.Apply(b, c, now);
      calls' := calls + [c];
      ApplyCallsSnoc(b0, calls, c);
    }

    /** The saving steps: the calls made and the blobs written are SaveTrace's. */
    method SaveResults(b0: Batch, b: Batch, ghost calls: seq<BatchCall>, pid: string, version: int,
                       env: Env<Akubra.Bytes>, now: Instant)
      returns (after: Batch, ghost calls': seq<BatchCall>, ghost t: Trace<Akubra.Bytes>)
      requires batchService.repo.Valid() && b == ApplyCalls(b0, calls)
      modifies batchService.repo, store
      ensures batchService.repo.Valid()
      ensures t == SaveTrace(b0, env)
      ensures calls' == calls + Calls(t) && after == ApplyCalls(b0, calls')
      ensures store.blobs == SavedBlobs(old(store.blobs), pid, version, t.saves)
    {
      t := SaveTrace(b0, env);
      after, calls' := Call(b0, b, calls, SetSubstate(Saving), now);
      if Throws(env, ReadAlto) || Throws(env, SaveAlto) {
        after, calls' := Call(b0, after, calls', Caught(b0, env), now);
        return;
      }
      store.SaveAltoContent(pid, version, env.alto);
      if Throws(env, ReadOcr) || Throws(env, SaveOcr) {
        after, calls' := Call(b0, after, calls', Caught(b0, env), now);
        return;
      }
      store.SaveOcrContent(pid, version, env.ocr);
      after, calls' := Call(b0, after, calls', SetState(Done), now);
      ghost var m1 := old(store.blobs)[Akubra.DsKey(pid, Akubra.Alto, version) := env.alto];
      assert t.saves[1..] == [(Akubra.TextOcr, env.ocr)] && t.saves[1..][1..] == [];
      assert SavedBlobs(m1, pid, version, t.saves[1..])
          == SavedBlobs(m1[Akubra.DsKey(pid, Akubra.TextOcr, version) := env.ocr], pid, version, []);
    }

    /** The steps after the row was found: the calls made and the blobs written are FoundTrace's. */
    method Process(b0: Batch, b: Batch, ghost calls: seq<BatchCall>, pid: string, version: int,
                   env: Env<Akubra.Bytes>, now: Instant)
      returns (after: Batch, ghost calls': seq<BatchCall>, ghost t: Trace<Akubra.Bytes>)
      requires batchService.repo.Valid() && b == ApplyCalls(b0, calls)
      modifies batchService.repo, store
      ensures batchService.repo.Valid()
      ensures t == FoundTrace(Current, b0, env)
      ensures calls' == calls + Calls(t) && after == ApplyCalls(b0, calls')
      ensures store.blobs == SavedBlobs(old(store.blobs), pid, version, t.saves)
    {
      t := FoundTrace(Current, b0, env);
      after, calls' := Call(b0, b, calls, SetEstimatedItemCount(1), now);
      after, calls' := Call(b0, after, calls', SetSubstate(Downloading), now);
      if Throws(env, Download) {
        after, calls' := Call(b0, after, calls', Caught(b0, env), now);
        return;
      }
      after, calls' := Call(b0, after, calls', SetSubstate(Generating), now);
      assert calls' == calls + GeneratePrefix(Current);
      ghost var e;
      after, calls', e := RunEngine(b0, after, calls', pid, version, env, now);
      SeqAssoc(calls, GeneratePrefix(Current), e.body + [e.last]);
      SeqAssoc(GeneratePrefix(Current), e.body, [e.last]);
    }

    /** The steps from GENERATING on: the calls made and the blobs written are EngineTrace's. */
    method RunEngine(b0: Batch, b: Batch, ghost calls: seq<BatchCall>, pid: string, version: int,
                     env: Env<Akubra.Bytes>, now: Instant)
      returns (after: Batch, ghost calls': seq<BatchCall>, ghost t: Trace<Akubra.Bytes>)
      requires batchService.repo.Valid() && b == ApplyCalls(b0, calls)
      modifies batchService.repo, store
      ensures batchService.repo.Valid()
      ensures t == EngineTrace(b0, env)
      ensures calls' == calls + Calls(t) && after == ApplyCalls(b0, calls')
      ensures store.blobs == SavedBlobs(old(store.blobs), pid, version, t.saves)
    {
      if Throws(env, Generate) {
        after, calls' := Call(b0, b, calls, Caught(b0, env), now);
        t := Trace([], Caught(b0, env), []);
      } else if !env.engineOk {
        after, calls' := Call(b0, b, calls, SetFailed(EngineLog(b0, env.engineErr)), now);
        t := Trace([], SetFailed(EngineLog(b0, env.engineErr)), []);
      } else {
        after, calls', t := SaveResults(b0, b, calls, pid, version, env, now);
      }
    }

    /**
     * run. An unknown batch id throws before the try block: nothing happens.
     * Otherwise the calls made and the blobs stored are the trace's, and the
     * work directory is gone again.
     */
    method Run(env: Env<Akubra.Bytes>, now: Instant)
      returns (batch: Option<Batch>, ghost trace: Trace<Akubra.Bytes>)
      requires batchService.repo.Valid() && env.workDir !in work.dirs
      modifies batchService.repo, store, work
      ensures batchService.repo.Valid() && work.dirs == old(work.dirs)
      ensures GetById(old(batchService.repo.batches), batchId).Err? ==>
        batch.None? && store.blobs == old(store.blobs)
      ensures GetById(old(batchService.repo.batches), batchId).Ok? ==>
        var b0 := GetById(old(batchService.repo.batches), batchId).value;
        var row := CurrentLookup(repo.rows, b0);
        trace == RunTrace(Current, b0, Found(row), env)
        && batch == Some(ApplyCalls(b0, Calls(trace)))
        && store.blobs == (if row.Ok? && row.value.Some?
                           then SavedBlobs(old(store.blobs), PidOf(row.value.value.digitalObject.value),
                                           row.value.value.version, trace.saves)
                           else old(store.blobs))
    {
      var got := GetById(batchService.repo.batches, batchId);
      if got.Err? {
        return None, Trace([], SetState(Running), []);
      }
      var b;
      b, trace := RunFound(got.value, env, now);
      batch := Some(b);
    }

    /** run once the batch is loaded: RUNNING, the work directory, the try block, the cleanup. */
    method RunFound(b0: Batch, env: Env<Akubra.Bytes>, now: Instant) returns (b: Batch, ghost trace: Trace<Akubra.Bytes>)
      requires batchService.repo.Valid() && env.workDir !in work.dirs
      modifies batchService.repo, store, work
      ensures batchService.repo.Valid() && work.dirs == old(work.dirs)
      ensures var row := CurrentLookup(repo.rows, b0);
        trace == RunTrace(Current, b0, Found(row), env)
        && b == ApplyCalls(b0, Calls(trace))
        && store.blobs == (if row.Ok? && row.value.Some?
                           then SavedBlobs(old(store.blobs), PidOf(row.value.value.digitalObject.value),
                                           row.value.value.version, trace.saves)
                           else old(store.blobs))
    {
      ghost var calls;
      b, calls := Call(b0, b0, [], SetState(Running), now);
      var workDir: Option<string> := None;
      if Throws(env, CreateWorkDir) {
        b, calls := Call(b0, b, calls, Caught(b0, env), now);
        trace := Trace([SetState(Running)], Caught(b0, env), []);
      } else {
        work.CreateWorkDir(env.workDir);
        workDir := Some(env.workDir);
        b, calls, trace := RunInWorkDir(b0, b, calls, env, now);
      }
      work.Cleanup(workDir);
    }

    /** The try block once the work directory exists: the row lookup, then the steps after it. */
    method RunInWorkDir(b0: Batch, b: Batch, ghost calls: seq<BatchCall>, env: Env<Akubra.Bytes>, now: Instant)
      returns (after: Batch, ghost calls': seq<BatchCall>, ghost trace: Trace<Akubra.Bytes>)
      requires batchService.repo.Valid() && calls == [SetState(Running)] && b == ApplyCalls(b0, calls)
      requires !Throws(env, CreateWorkDir)
      modifies batchService.repo, store
      ensures batchService.repo.Valid()
      ensures var row := CurrentLookup(repo.rows, b0);
        trace == RunTrace(Current, b0, Found(row), env)
        && calls' == Calls(trace) && after == ApplyCalls(b0, calls')
        && store.blobs == (if row.Ok? && row.value.Some?
                           then SavedBlobs(old(store.blobs), PidOf(row.value.value.digitalObject.value),
                                           row.value.value.version, trace.saves)
                           else old(store.blobs))
    {
      var row := CurrentLookup(repo.rows, b0);
      if row.Err? {
        after, calls' := Call(b0, b, calls, Caught(b0, env), now);
        trace := Trace([SetState(Running)], Caught(b0, env), []);
      } else if row.value.None? {
        after, calls' := Call(b0, b, calls, SetFailed(MissingLog(b0)), now);
        trace := Trace([SetState(Running)], SetFailed(MissingLog(b0)), []);
      } else {
        var obj := row.value.value;
        ghost var t;
        after, calls', t := Process(b0, b, calls, PidOf(obj.digitalObject.value), obj.version, env, now);
        trace := Then([SetState(Running)], t);
        assert Found(row) == Some(true);
        assert trace.saves == t.saves;
        assert calls' == Calls(trace);
      }
    }
  }

  /** findByPidAndInstanceId(batch.getPid(), batch.getInstance()): two matching rows throw. */
  function LegacyLookup(rows: seq<Core.Row>, b: Batch): (r: Result<Option<Core.Row>, DigitalObjects.QueryError>)
    ensures r.Ok? && r.value.Some? ==> r.value.value in rows
  {
    if b.pid.None? then Ok(None)
    else
      DigitalObjects.DerivedFinder(rows, b.pid.value, DigitalObjects.InstanceIs(b.instance));
      DigitalObjects.Single(DigitalObjects.ByPidAnd(rows, b.pid.value, DigitalObjects.InstanceIs(b.instance)))
  }

  function Ds(d: Akubra.Datastream): Core.Ds
  {
    match d
    case Alto => Core.Alto
    case TextOcr => Core.Ocr
  }

  function SavedTexts(store: Core.Store, pid: string, version: string, saves: seq<(Akubra.Datastream, string)>)
    : Core.Store
    decreases |saves|
  {
    if |saves| == 0 then store
    else SavedTexts(store[Core.StoreKey(pid, Ds(saves[0].0), version) := saves[0].1], pid, version, saves[1..])
  }

  /** The legacy copy, over the core digital objects; it is handed its batch when created. */
  class LegacyAltoOcrGeneratorProcess {
    const batchService: CoreBatchService
    const repo: Core.DigitalObjectRepository
    const store: Core.DatastreamStore
    const work: WorkDirectories
    const batch: Batch

    constructor (batchService: CoreBatchService, repo: Core.DigitalObjectRepository, store: Core.DatastreamStore,
                 work: WorkDirectories, batch: Batch)
      ensures this.batchService == batchService && this.repo == repo && this.store == store
      ensures this.work == work && this.batch == batch
    {
      this.batchService := batchService;
      this.repo := repo;
      this.store := store;
      this.work := work;
      this.batch := batch;
    }

    method Call(b: Batch, ghost calls: seq<BatchCall>, c: BatchCall, now: Instant)
      returns (after: Batch, ghost calls': seq<BatchCall>)
      requires batchService.repo.Valid() && b == ApplyCalls(batch, calls) && !c.SetProcessedItemCount?
      modifies batchService.repo
      ensures batchService.repo.Valid()
      ensures calls' == calls + [c] && after == ApplyCalls(batch, calls')
    {
      after := batchService.Apply(b, c, now);
      calls' := calls + [c];
      ApplyCallsSnoc(batch, calls, c);
    }

    /** The saving steps: the calls made and the texts written are SaveTrace's. */
    method SaveResults(b: Batch, ghost calls: seq<BatchCall>, pid: string, version: string, env: Env<string>,
                       now: Instant)
      returns (after: Batch, ghost calls': seq<BatchCall>, ghost t: Trace<string>)
      requires batchService.repo.Valid() && b == ApplyCalls(batch, calls)
      modifies batchService.repo, store
      ensures batchService.repo.Valid()
      ensures t == SaveTrace(batch, env)
      ensures calls' == calls + Calls(t) && after == ApplyCalls(batch, calls')
      ensures store.blobs == SavedTexts(old(store.blobs), pid, version, t.saves)
    {
      t := SaveTrace(batch, env);
      after, calls' := Call(b, calls, SetSubstate(Saving), now);
      if Throws(env, ReadAlto) || Throws(env, SaveAlto) {
        after, calls' := Call(after, calls', Caught(batch, env), now);
        return;
      }
      store.SaveAltoContent(pid, version, env.alto);
      if Throws(env, ReadOcr) || Throws(env, SaveOcr) {
        after, calls' := Call(after, calls', Caught(batch, env), now);
        return;
      }
      store.SaveOcrContent(pid, version, env.ocr);
      after, calls' := Call(after, calls', SetState(Done), now);
      ghost var m1 := old(store.blobs)[Core.StoreKey(pid, Core.Alto, version) := env.alto];
      assert t.saves[1..] == [(Akubra.TextOcr, env.ocr)] && t.saves[1..][1..] == [];
      assert SavedTexts(m1, pid, version, t.saves[1..])
          == SavedTexts(m1[Core.StoreKey(pid, Core.Ocr, version) := env.ocr], pid, version, []);
    }

    /** The steps after the row was found: the calls made and the texts written are FoundTrace's. */
    method Process(b: Batch, ghost calls: seq<BatchCall>, pid: string, version: string, env: Env<string>, now: Instant)
      returns (after: Batch, ghost calls': seq<BatchCall>, ghost t: Trace<string>)
      requires batchService.repo.Valid() && b == ApplyCalls(batch, calls)
      modifies batchService.repo, store
      ensures batchService.repo.Valid()
      ensures t == FoundTrace(Legacy, batch, env)
      ensures calls' == calls + Calls(t) && after == ApplyCalls(batch, calls')
      ensures store.blobs == SavedTexts(old(store.blobs), pid, version, t.saves)
    {
      t := FoundTrace(Legacy, batch, env);
      after, calls' := Call(b, calls, SetSubstate(Downloading), now);
      if Throws(env, Download) {
        after, calls' := Call(after, calls', Caught(batch, env), now);
        return;
      }
      after, calls' := Call(after, calls', SetRunInfo(Some(1), Single), now);
      after, calls' := Call(after, calls', SetSubstate(Generating), now);
      assert calls' == calls + GeneratePrefix(Legacy);
      ghost var e;
      after, calls', e := RunEngine(after, calls', pid, version, env, now);
      SeqAssoc(calls, GeneratePrefix(Legacy), e.body + [e.last]);
      SeqAssoc(GeneratePrefix(Legacy), e.body, [e.last]);
    }

    /** The steps from GENERATING on: the calls made and the texts written are EngineTrace's. */
    method RunEngine(b: Batch, ghost calls: seq<BatchCall>, pid: string, version: string, env: Env<string>,
                     now: Instant)
      returns (after: Batch, ghost calls': seq<BatchCall>, ghost t: Trace<string>)
      requires batchService.repo.Valid() && b == ApplyCalls(batch, calls)
      modifies batchService.repo, store
      ensures batchService.repo.Valid()
      ensures t == EngineTrace(batch, env)
      ensures calls' == calls + Calls(t) && after == ApplyCalls(batch, calls')
      ensures store.blobs == SavedTexts(old(store.blobs), pid, version, t.saves)
    {
      if Throws(env, Generate) {
        after, calls' := Call(b, calls, Caught(batch, env), now);
        t := Trace([], Caught(batch, env), []);
      } else if !env.engineOk {
        after, calls' := Call(b, calls, SetFailed(EngineLog(batch, env.engineErr)), now);
        t := Trace([], SetFailed(EngineLog(batch, env.engineErr)), []);
      } else {
        after, calls', t := SaveResults(b, calls, pid, version, env, now);
      }
    }

    /** run: the calls made and the texts stored are the trace's, and the work directory is gone again. */
    method Run(env: Env<string>, now: Instant) returns (after: Batch, ghost trace: Trace<string>)
      requires batchService.repo.Valid() && env.workDir !in work.dirs
      modifies batchService.repo, store, work
      ensures batchService.repo.Valid() && work.dirs == old(work.dirs)
      ensures var row := LegacyLookup(repo.rows, batch);
        trace == RunTrace(Legacy, batch, Found(row), env)
        && after == ApplyCalls(batch, Calls(trace))
        && store.blobs == (if row.Ok? && row.value.Some?
                           then SavedTexts(old(store.blobs), row.value.value.pid, row.value.value.version, trace.saves)
                           else old(store.blobs))
    {
      ghost var calls;
      after, calls := Call(batch, [], SetState(Running), now);
      var workDir: Option<string> := None;
      if Throws(env, CreateWorkDir) {
        after, calls := Call(after, calls, Caught(batch, env), now);
        trace := Trace([SetState(Running)], Caught(batch, env), []);
      } else {
        work.CreateWorkDir(env.workDir);
        workDir := Some(env.workDir);
        after, calls, trace := RunInWorkDir(after, calls, env, now);
      }
      work.Cleanup(workDir);
    }

    /** The try block once the work directory exists: the row lookup, then the steps after it. */
    method RunInWorkDir(b: Batch, ghost calls: seq<BatchCall>, env: Env<string>, now: Instant)
      returns (after: Batch, ghost calls': seq<BatchCall>, ghost trace: Trace<string>)
      requires batchService.repo.Valid() && calls == [SetState(Running)] && b == ApplyCalls(batch, calls)
      requires !Throws(env, CreateWorkDir)
      modifies batchService.repo, store
      ensures batchService.repo.Valid()
      ensures var row := LegacyLookup(repo.rows, batch);
        trace == RunTrace(Legacy, batch, Found(row), env)
        && calls' == Calls(trace) && after == ApplyCalls(batch, calls')
        && store.blobs == (if row.Ok? && row.value.Some?
                           then SavedTexts(old(store.blobs), row.value.value.pid, row.value.value.version, trace.saves)
                           else old(store.blobs))
    {
      var row := LegacyLookup(repo.rows, batch);
      if row.Err? {
        after, calls' := Call(b, calls, Caught(batch, env), now);
        trace := Trace([SetState(Running)], Caught(batch, env), []);
      } else if row.value.None? {
        after, calls' := Call(b, calls, SetFailed(MissingLog(batch)), now);
        trace := Trace([SetState(Running)], SetFailed(MissingLog(batch)), []);
      } else {
        var obj := row.value.value;
        ghost var t;
        after, calls', t := Process(b, calls, obj.pid, obj.version, env, now);
        trace := Then([SetState(Running)], t);
        assert calls' == Calls(trace);
      }
    }
  }
}
