// The OCR engine configuration (one entry per engine name) and the engine
// listing: every engine user of the user table, flagged enabled when the
// configuration has an entry for it, filtered and cut into one page.
module Engines {
  import opened Wrappers
  import opened JavaText
  import Users

  /** One engine's configuration; null-able properties are options. */
  datatype EngineConfig = EngineConfig(
    exec: string,
    entry: string,
    inImageArg: Option<string>,
    outAltoArg: Option<string>,
    outOcrArg: Option<string>,
    batchMode: Option<bool>,
    dataTripletsArg: Option<string>,
    additionalArgs: seq<string>,
    batchSize: int,
    timeout: int)

  type EnginesConfig = map<string, EngineConfig>

  /** A configuration with every property left at its default. */
  function DefaultConfig(exec: string, entry: string): EngineConfig
  {
    EngineConfig(exec, entry, Some("-i"), Some("-oA"), Some("-oO"), Some(false), Some("-t"), [], 100, 180_000)
  }

  predicate IsSetArg(arg: Option<string>)
  {
    arg.Some? && !IsBlank(arg.value)
  }

  /** isBatchMode: `Boolean.TRUE.equals(batchMode)`, so a null flag means single-image mode. */
  predicate IsBatchMode(c: EngineConfig)
  {
    c.batchMode == Some(true)
  }

  /**
   * isValidEngineArgs: in batch mode the triplet-file argument must be set;
   * otherwise the three single-image arguments must all be set.
   */
  function IsValidEngineArgs(c: EngineConfig): (ok: bool)
    ensures IsBatchMode(c) ==> (ok <==> IsSetArg(c.dataTripletsArg))
    ensures !IsBatchMode(c) ==> (ok <==> IsSetArg(c.inImageArg) && IsSetArg(c.outAltoArg) && IsSetArg(c.outOcrArg))
  {
    if c.batchMode == Some(true) then
      c.dataTripletsArg.Some? && !IsBlank(c.dataTripletsArg.value)
    else
      c.inImageArg.Some? && !IsBlank(c.inImageArg.value)
      && c.outAltoArg.Some? && !IsBlank(c.outAltoArg.value)
      && c.outOcrArg.Some? && !IsBlank(c.outOcrArg.value)
  }

  datatype EngineError = EngineNotConfigured(engine: string)   // IllegalArgumentException

  /** getEngineConfig: the engine's entry, or an error for an engine with none. */
  function GetEngineConfig(engines: EnginesConfig, engine: string): (r: Result<EngineConfig, EngineError>)
    ensures r.Ok? <==> engine in engines
    ensures r.Ok? ==> r.value == engines[engine]
    ensures r.Err? ==> r.error == EngineNotConfigured(engine)
  {
    if engine in engines then Ok(engines[engine]) else Err(EngineNotConfigured(engine))
  }

  // ---------------------------------------------------------------------
  // EngineService

  datatype Engine = Engine(name: string, enabled: bool)

  /** isEngineEnabled */
  predicate IsEngineEnabled(engines: EnginesConfig, engine: string)
  {
    engine in engines
  }

  predicate Keeps(enabled: Option<bool>, e: Engine)
  {
    enabled.None? || e.enabled == enabled.value
  }

  /**
   * The engine users, in table order, each flagged with whether it is
   * configured, keeping those that pass the `enabled` filter (null keeps all).
   */
  function ListedEngines(users: seq<Users.User>, engines: EnginesConfig, enabled: Option<bool>): (r: seq<Engine>)
    ensures |r| <= |users|
    ensures forall e :: e in r <==>
      (exists i :: 0 <= i < |users| && users[i].isEngine
         && e == Engine(users[i].username, IsEngineEnabled(engines, users[i].username)))
      && Keeps(enabled, e)
  {
    if |users| == 0 then []
    else
      var rest := ListedEngines(users[1..], engines, enabled);
      assert forall i :: 1 <= i < |users| ==> users[i] == users[1..][i - 1];
      var u := users[0];
      var e := Engine(u.username, u.username in engines);
      if u.isEngine && Keeps(enabled, e) then [e] + rest else rest
  }

  datatype EnginePage = EnginePage(content: seq<Engine>, total: nat)

  datatype PageError = IndexOutOfBounds(start: int, end: int)

  function Min(a: int, b: int): int
  {
    if a <= b then a else b
  }

  /**
   * The page of `all` at `offset` of at most `size` entries: the offset is
   * narrowed to `int` and `start + size` is `int` arithmetic; a start past
   * the end gives an empty page; a negative start makes subList throw.
   */
  function PageOf(all: seq<Engine>, offset: nat, size: nat): (r: Result<EnginePage, PageError>)
    requires IsInt32(size) && IsInt32(|all|)
    ensures r.Ok? ==> r.value.total == |all| && |r.value.content| <= size
  {
    var start := Wrap32(offset);
    var end := Min(Wrap32(start + size), |all|);
    if start > end then Ok(EnginePage([], |all|))
    else if start < 0 then Err(IndexOutOfBounds(start, end))
    else Ok(EnginePage(all[start..end], |all|))
  }

  /** searchEngines */
  function SearchEngines(users: seq<Users.User>, engines: EnginesConfig, enabled: Option<bool>,
                         offset: nat, size: nat): Result<EnginePage, PageError>
    requires IsInt32(size) && IsInt32(|users|)
  {
    PageOf(ListedEngines(users, engines, enabled), offset, size)
  }

  // ---------------------------------------------------------------------
  // Properties

  /** A configuration left at its defaults passes the argument check. */
  lemma DefaultConfigValid(exec: string, entry: string)
    ensures !IsBatchMode(DefaultConfig(exec, entry))
    ensures IsValidEngineArgs(DefaultConfig(exec, entry))
  {
    var c := DefaultConfig(exec, entry);
    assert !IsBlank(c.inImageArg.value) by { assert c.inImageArg.value[0] == '-'; }
    assert !IsBlank(c.outAltoArg.value) by { assert c.outAltoArg.value[0] == '-'; }
    assert !IsBlank(c.outOcrArg.value) by { assert c.outOcrArg.value[0] == '-'; }
  }

  /** A null batch flag is single-image mode, exactly as an explicit false. */
  lemma NullBatchModeIsSingle(c: EngineConfig)
    requires c.batchMode.None?
    ensures IsValidEngineArgs(c) == IsValidEngineArgs(c.(batchMode := Some(false)))
    ensures !IsBatchMode(c)
  {
  }

  /**
   * Without overflow the page is exactly the slice from the offset to the
   * smaller of offset + size and the listing's length, empty from the end
   * on, and the total is the listing's length.
   */
  lemma PageIsSlice(all: seq<Engine>, offset: nat, size: nat)
    requires IsInt32(size) && IsInt32(|all|) && offset + size <= IntMax
    ensures var r := PageOf(all, offset, size);
      r.Ok? && r.value.total == |all|
      && (offset >= |all| ==> r.value.content == [])
      && (offset < |all| ==> r.value.content == all[offset..Min(offset + size, |all|)])
  {
  }

  /** An offset beyond the `int` range wraps to a negative start, which makes the listing fail. */
  lemma WrappedOffsetFails(all: seq<Engine>)
    requires IsInt32(|all|)
    ensures PageOf(all, 0x8000_0000, 10).Err?
  {
    assert Wrap32(0x8000_0000) == IntMin;
  }

  /** Every listed engine is flagged enabled exactly when the configuration names it. */
  lemma ListedEnginesFlags(users: seq<Users.User>, engines: EnginesConfig, enabled: Option<bool>, e: Engine)
    requires e in ListedEngines(users, engines, enabled)
    ensures e.enabled <==> IsEngineEnabled(engines, e.name)
    ensures enabled.Some? ==> e.enabled == enabled.value
  {
  }
}
