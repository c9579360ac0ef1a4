// The datastream store.  Each (pid, datastream, version) has one blob under
// the key pid + "+" + DS + "+" + DS + "." + version; the low-level blob store
// is a map from key to bytes with separate add and replace operations.
module Akubra {
  import opened Wrappers
  import opened JavaText

  newtype byte = x: int | 0 <= x < 256
  type Bytes = seq<byte>

  datatype Datastream = Alto | TextOcr

  function DatastreamId(ds: Datastream): string
  {
    match ds
    case Alto => "ALTO"
    case TextOcr => "TEXT_OCR"
  }

  /** AkubraService.getDsKey. */
  function DsKey(pid: string, ds: Datastream, version: int): (key: string)
    ensures StartsWith(key, pid + "+" + DatastreamId(ds) + "+")
  {
    pid + "+" + DatastreamId(ds) + "+" + DatastreamId(ds) + "." + IntToString(version)
  }

  lemma DsKeyTail(pid: string, ds: Datastream, version: int)
    ensures DsKey(pid, ds, version)[|pid|..] == "+" + DatastreamId(ds) + "+" + DatastreamId(ds) + "." + IntToString(version)
  {
  }

  /**
   * For one PID, different datastreams or different versions never share a
   * key; in particular the ALTO and TEXT_OCR blobs of a version are distinct.
   */
  lemma DsKeyInjective(pid: string, ds1: Datastream, v1: int, ds2: Datastream, v2: int)
    requires IsInt32(v1) && IsInt32(v2)
    requires DsKey(pid, ds1, v1) == DsKey(pid, ds2, v2)
    ensures ds1 == ds2 && v1 == v2
  {
    var k1 := DsKey(pid, ds1, v1)[|pid|..];
    var k2 := DsKey(pid, ds2, v2)[|pid|..];
    DsKeyTail(pid, ds1, v1);
    DsKeyTail(pid, ds2, v2);
    assert k1[1] == DatastreamId(ds1)[0] && k2[1] == DatastreamId(ds2)[0];
    assert ds1 == ds2;
    var n := |DatastreamId(ds1)|;
    assert k1[2 * n + 3..] == IntToString(v1);
    assert k2[2 * n + 3..] == IntToString(v2);
    ParseIntToString(v1);
    ParseIntToString(v2);
  }

  datatype StoreError =
    | KeyExists(key: string)          // the low-level add of an existing key
    | KeyMissing(key: string)         // the low-level replace of a missing key
    | NotFound(pid: string, key: string) // RuntimeException("Datastream not found ...")
    | NoVersion(dsId: string)         // get(size() - 1) on an empty version list

  /** The low-level store's add: refuses an existing key. */
  function AddObject(blobs: map<string, Bytes>, key: string, content: Bytes): (r: Result<map<string, Bytes>, StoreError>)
    ensures key in blobs <==> r.Err?
    ensures r.Ok? ==> r.value.Keys == blobs.Keys + {key} && r.value[key] == content
  {
    if key in blobs then Err(KeyExists(key)) else Ok(blobs[key := content])
  }

  /** The low-level store's replace: refuses a missing key. */
  function ReplaceObject(blobs: map<string, Bytes>, key: string, content: Bytes): (r: Result<map<string, Bytes>, StoreError>)
    ensures key !in blobs <==> r.Err?
    ensures r.Ok? ==> r.value.Keys == blobs.Keys && r.value[key] == content
  {
    if key !in blobs then Err(KeyMissing(key)) else Ok(blobs[key := content])
  }

  // ---------------------------------------------------------------------
  // FOXML: an object's datastreams, each with its list of versions.

  datatype DatastreamVersion = DatastreamVersion(id: string, binaryContent: Bytes)
  datatype DatastreamRecord = DatastreamRecord(id: string, versions: seq<DatastreamVersion>)
  datatype Foxml = Foxml(datastreams: seq<DatastreamRecord>)

  /** Index of the first datastream with the given ID. */
  function FirstDatastream(dss: seq<DatastreamRecord>, dsId: string): (r: Option<nat>)
    ensures r.None? <==> forall k :: 0 <= k < |dss| ==> dss[k].id != dsId
    ensures r.Some? ==>
      (r.value < |dss| && dss[r.value].id == dsId && forall k :: 0 <= k < r.value ==> dss[k].id != dsId)
  {
    if |dss| == 0 then None
    else if dss[0].id == dsId then Some(0)
    else
      match FirstDatastream(dss[1..], dsId)
      case None => None
      case Some(i) => Some(i + 1)
  }

  /** What getLatestDsVersionBinaryContent promises: the last version of the first matching datastream. */
  function LatestDsContent(foxml: Foxml, dsId: string): (r: Result<Option<Bytes>, StoreError>)
  {
    match FirstDatastream(foxml.datastreams, dsId)
    case None => Ok(None)
    case Some(i) =>
      var vs := foxml.datastreams[i].versions;
      if |vs| == 0 then Err(NoVersion(dsId)) else Ok(Some(vs[|vs| - 1].binaryContent))
  }

  /** AkubraService.getLatestDsVersionBinaryContent: the loop over the datastreams. */
  method GetLatestDsVersionBinaryContent(foxml: Foxml, dsId: string) returns (r: Result<Option<Bytes>, StoreError>)
    ensures r == LatestDsContent(foxml, dsId)
    ensures r == Ok(None) <==> forall k :: 0 <= k < |foxml.datastreams| ==> foxml.datastreams[k].id != dsId
  {
    var dss := foxml.datastreams;
    var i := 0;
    while i < |dss|
      invariant 0 <= i <= |dss|
      invariant forall k :: 0 <= k < i ==> dss[k].id != dsId
    {
      if dss[i].id == dsId {
        var vs := dss[i].versions;
        if |vs| == 0 {
          return Err(NoVersion(dsId));
        }
        return Ok(Some(vs[|vs| - 1].binaryContent));
      }
      i := i + 1;
    }
    return Ok(None);
  }

  const ChunkSize: nat := 4096

  /** The blob store behind AkubraService. */
  class AkubraStore {
    var blobs: map<string, Bytes>

    constructor ()
      ensures blobs == map[]
    {
      blobs := map[];
    }

    /** saveDatastreamContent: replace when the key exists, add otherwise. */
    method SaveDatastreamContent(pid: string, ds: Datastream, version: int, content: Bytes)
      modifies this
      ensures blobs == old(blobs)[DsKey(pid, ds, version) := content]
    {
      var key := DsKey(pid, ds, version);
      var r;
      if key in blobs {
        r := ReplaceObject(blobs, key, content);
      } else {
        r := AddObject(blobs, key, content);
      }
      blobs := r.value;
    }

    method SaveAltoContent(pid: string, version: int, content: Bytes)
      modifies this
      ensures blobs == old(blobs)[DsKey(pid, Alto, version) := content]
    {
      SaveDatastreamContent(pid, Alto, version, content);
    }

    method SaveOcrContent(pid: string, version: int, content: Bytes)
      modifies this
      ensures blobs == old(blobs)[DsKey(pid, TextOcr, version) := content]
    {
      SaveDatastreamContent(pid, TextOcr, version, content);
    }

    /** The stored blob, or the not-found error retrieveDsBinaryContent throws. */
    function Stored(pid: string, ds: Datastream, version: int): (r: Result<Bytes, StoreError>)
      reads this
      ensures r.Ok? <==> DsKey(pid, ds, version) in blobs
    {
      var key := DsKey(pid, ds, version);
      if key in blobs then Ok(blobs[key]) else Err(NotFound(pid, key))
    }

    /** retrieveDsBinaryContent: copies the blob chunk by chunk into a buffer. */
    method RetrieveDsBinaryContent(pid: string, ds: Datastream, version: int) returns (r: Result<Bytes, StoreError>)
      ensures DsKey(pid, ds, version) !in blobs ==> r == Err(NotFound(pid, DsKey(pid, ds, version)))
      ensures DsKey(pid, ds, version) in blobs ==> r == Ok(blobs[DsKey(pid, ds, version)])
    {
      var key := DsKey(pid, ds, version);
      if key !in blobs {
        return Err(NotFound(pid, key));
      }
      var data := blobs[key];
      var out: Bytes := [];
      var pos := 0;
      while pos < |data|
        invariant 0 <= pos <= |data|
        invariant out == data[..pos]
        decreases |data| - pos
      {
        var n := if |data| - pos < ChunkSize then |data| - pos else ChunkSize;
        out := out + data[pos..pos + n];
        pos := pos + n;
      }
      assert data[..pos] == data;
      return Ok(out);
    }
  }

  /** Saving a blob and reading it back gives the saved bytes; other keys keep theirs. */
  lemma SaveThenRetrieve(blobs: map<string, Bytes>, pid: string, ds: Datastream, version: int, content: Bytes,
                         pid2: string, ds2: Datastream, version2: int)
    requires IsInt32(version) && IsInt32(version2)
    ensures var saved := blobs[DsKey(pid, ds, version) := content];
      saved[DsKey(pid, ds, version)] == content
      && (pid2 == pid && (ds2 != ds || version2 != version) ==>
            (DsKey(pid2, ds2, version2) in saved <==> DsKey(pid2, ds2, version2) in blobs))
  {
    if pid2 == pid && (ds2 != ds || version2 != version) && DsKey(pid2, ds2, version2) == DsKey(pid, ds, version) {
      DsKeyInjective(pid, ds, version, ds2, version2);
    }
  }
}
