// Page and object identifiers.  A PID is the text "uuid:" followed by a UUID
// in the 8-4-4-4-12 hexadecimal form of section 4 of RFC 9562.  UUID.fromString
// is modelled by its canonical form: 36 chars, dashes at positions 8, 13, 18
// and 23, hex digits elsewhere; the value is the lower-cased text, which is
// what UUID.toString prints.
module Uuids {
  import opened Wrappers
  import opened JavaText

  predicate IsHex(c: char)
  {
    ('0' <= c <= '9') || ('a' <= c <= 'f') || ('A' <= c <= 'F')
  }

  predicate IsDashPosition(i: int)
  {
    i == 8 || i == 13 || i == 18 || i == 23
  }

  /** The char at position `i` fits the 8-4-4-4-12 form. */
  predicate UuidCharAt(s: string, i: int)
    requires 0 <= i < |s|
  {
    if IsDashPosition(i) then s[i] == '-' else IsHex(s[i])
  }

  predicate UpperAt(s: string, i: int)
    requires 0 <= i < |s|
  {
    'A' <= s[i] <= 'Z'
  }

  /** The 8-4-4-4-12 text form, either case. */
  predicate IsUuidText(s: string)
  {
    |s| == 36 && forall i :: 0 <= i < 36 ==> UuidCharAt(s, i)
  }

  predicate IsLowerUuidText(s: string)
  {
    IsUuidText(s) && forall i :: 0 <= i < 36 ==> !UpperAt(s, i)
  }

  /** A UUID value, identified with the text UUID.toString prints for it. */
  type Uuid = s: string | IsLowerUuidText(s) witness "00000000-0000-0000-0000-000000000000"

  function LowerChar(c: char): char
  {
    if 'A' <= c <= 'Z' then (c as int + 32) as char else c
  }

  function Lower(s: string): (r: string)
    ensures |r| == |s| && forall i :: 0 <= i < |s| ==> r[i] == LowerChar(s[i])
  {
    seq(|s|, i requires 0 <= i < |s| => LowerChar(s[i]))
  }

  /** UUID.fromString on canonical text; None stands for IllegalArgumentException. */
  function ParseUuid(s: string): (r: Option<Uuid>)
    ensures r.Some? <==> IsUuidText(s)
    ensures r.Some? ==> r.value == Lower(s)
  {
    if IsUuidText(s) then
      LowerIsLowerUuid(s);
      var l: Uuid := Lower(s);
      Some(l)
    else None
  }

  lemma LowerIsLowerUuid(s: string)
    requires IsUuidText(s)
    ensures IsLowerUuidText(Lower(s))
  {
    var l := Lower(s);
    forall i | 0 <= i < 36
      ensures UuidCharAt(l, i) && !UpperAt(l, i)
    {
      assert UuidCharAt(s, i);
    }
  }

  /** Lower-case UUID text is its own lower case. */
  lemma LowerKeepsLower(s: string)
    requires IsLowerUuidText(s)
    ensures Lower(s) == s
  {
    forall i | 0 <= i < |s|
      ensures Lower(s)[i] == s[i]
    {
      assert !UpperAt(s, i);
    }
  }

  /** UUID.toString. */
  function UuidText(u: Uuid): string
  {
    u
  }

  lemma ParseUuidText(u: Uuid)
    ensures ParseUuid(UuidText(u)) == Some(u)
  {
    LowerKeepsLower(u);
  }

  const PidPrefix: string := "uuid:"

  /** The PID of an object: "uuid:" + UUID.toString (ObjectHierarchyNode.getPid). */
  function PidOf(u: Uuid): (pid: string)
    ensures StartsWith(pid, PidPrefix) && pid[|PidPrefix|..] == UuidText(u)
  {
    PidPrefix + UuidText(u)
  }

  lemma PidOfInjective(u: Uuid, v: Uuid)
    requires PidOf(u) == PidOf(v)
    ensures u == v
  {
    assert PidOf(u)[5..] == u;
  }

  datatype PidError =
    | NotUuidPid(pid: string)     // IllegalArgumentException("Invalid PID format: ...")
    | MalformedUuid(text: string) // IllegalArgumentException from UUID.fromString
    | MissingField(pid: string)   // ArrayIndexOutOfBoundsException after split
    | NullPid                     // NullPointerException on a null PID

  /** Parse "uuid:<u>"; shared by PidAdapter.toUuid, AltoVersionService.parseUuid and the node builder. */
  function UuidOfPid(pid: string): (r: Result<Uuid, PidError>)
    ensures !StartsWith(pid, PidPrefix) ==> r == Err(NotUuidPid(pid))
    ensures StartsWith(pid, PidPrefix) ==> r.Ok? == IsUuidText(pid[5..])
  {
    if !StartsWith(pid, PidPrefix) then Err(NotUuidPid(pid))
    else
      match ParseUuid(pid[5..])
      case None => Err(MalformedUuid(pid[5..]))
      case Some(u) => Ok(u)
  }

  /** A parsed PID prints back as "uuid:" and the lower-cased UUID text. */
  lemma UuidOfPidPrints(pid: string)
    requires UuidOfPid(pid).Ok?
    ensures UuidOfPid(pid).value == Lower(pid[5..])
    ensures PidOf(UuidOfPid(pid).value) == PidPrefix + Lower(pid[5..])
  {
  }

  /** PidAdapter.toUuid: null passes through as null. */
  function ToUuid(pid: Option<string>): (r: Result<Option<Uuid>, PidError>)
    ensures pid.None? ==> r == Ok(None)
    ensures pid.Some? && !StartsWith(pid.value, PidPrefix) ==> r == Err(NotUuidPid(pid.value))
    ensures pid.Some? && r.Ok? ==>
      (r.value.Some? && IsUuidText(pid.value[5..]) && r.value.value == Lower(pid.value[5..]))
  {
    match pid
    case None => Ok(None)
    case Some(p) =>
      match UuidOfPid(p)
      case Err(e) => Err(e)
      case Ok(u) => Ok(Some(u))
  }

  /** toUuid is a left inverse of getPid. */
  lemma ToUuidOfPid(u: Uuid)
    ensures ToUuid(Some(PidOf(u))) == Ok(Some(u))
  {
    assert PidOf(u)[5..] == u;
    ParseUuidText(u);
  }

  /** getPid is a left inverse of toUuid on lower-case PIDs. */
  lemma PidOfToUuid(pid: string)
    requires StartsWith(pid, PidPrefix) && IsLowerUuidText(pid[5..])
    ensures ToUuid(Some(pid)).Ok? && ToUuid(Some(pid)).value.Some?
    ensures ToUuid(Some(pid)).value.value == pid[5..]
    ensures PidOf(pid[5..]) == pid
  {
    LowerKeepsLower(pid[5..]);
    assert pid == pid[..5] + pid[5..];
  }

  // ---------------------------------------------------------------------
  // KrameriusObjectMetadata

  datatype KrameriusObjectMetadata = KrameriusObjectMetadata(
    pid: string,
    model: string,
    title: Option<string>,
    level: Option<int>,
    indexInParent: Option<int>,
    parentPid: Option<string>,
    rootPid: Option<string>)

  /** KrameriusObjectMetadata.parsePid: the second ':'-field, whatever the first one says. */
  function ParsePid(pid: string): (r: Result<Uuid, PidError>)
    ensures r.Ok? ==> |JavaSplit(pid, ':')| >= 2 && r.value == Lower(JavaSplit(pid, ':')[1])
    ensures |JavaSplit(pid, ':')| < 2 ==> r == Err(MissingField(pid))
  {
    var parts := JavaSplit(pid, ':');
    if |parts| < 2 then Err(MissingField(pid))
    else
      match ParseUuid(parts[1])
      case None => Err(MalformedUuid(parts[1]))
      case Some(u) => Ok(u)
  }

  function MetadataUuid(m: KrameriusObjectMetadata): Result<Uuid, PidError>
  {
    ParsePid(m.pid)
  }

  /** getParentUuid dereferences parentPid, so a root's metadata fails. */
  function ParentUuid(m: KrameriusObjectMetadata): (r: Result<Uuid, PidError>)
    ensures m.parentPid.None? ==> r == Err(NullPid)
  {
    match m.parentPid
    case None => Err(NullPid)
    case Some(p) => ParsePid(p)
  }

  lemma UuidHasNoColon(u: Uuid)
    ensures ':' !in UuidText(u)
  {
    forall i | 0 <= i < |u|
      ensures u[i] != ':'
    {
      assert UuidCharAt(u, i);
    }
  }

  lemma DropKeepsNonEmpty(parts: seq<string>, k: nat)
    requires k < |parts| && parts[k] != ""
    ensures |DropTrailingEmpty(parts)| > k && DropTrailingEmpty(parts)[k] == parts[k]
  {
  }

  lemma SecondField(ns: string, v: string, rest: seq<string>)
    requires v != "" && ':' !in ns && ':' !in v
    requires forall k :: 0 <= k < |rest| ==> ':' !in rest[k]
    ensures var parts := JavaSplit(Join([ns, v] + rest, ":"), ':'); |parts| >= 2 && parts[1] == v
  {
    var parts := [ns, v] + rest;
    assert forall k :: 0 <= k < |parts| ==> ':' !in parts[k];
    SplitAllOfJoin(parts, ':');
    var s := Join(parts, ":");
    assert s == ns + ":" + Join(parts[1..], ":");
    assert s[|ns|] == ':';
    DropKeepsNonEmpty(parts, 1);
  }

  /** Any namespace is accepted and later fields are ignored. */
  lemma ParsePidIgnoresPrefix(ns: string, u: Uuid, rest: seq<string>)
    requires ':' !in ns
    requires forall k :: 0 <= k < |rest| ==> ':' !in rest[k]
    ensures ParsePid(Join([ns, u] + rest, ":")) == Ok(u)
  {
    UuidHasNoColon(u);
    SecondField(ns, u, rest);
    ParseUuidText(u);
  }

  /** On "uuid:<t>" with a colon-free t, parsePid and PidAdapter.toUuid agree. */
  lemma ParsePidAgreesWithToUuid(t: string)
    requires ':' !in t
    ensures ParsePid(PidPrefix + t).Ok? <==> ToUuid(Some(PidPrefix + t)).Ok?
    ensures ParsePid(PidPrefix + t).Ok? ==> ToUuid(Some(PidPrefix + t)) == Ok(Some(ParsePid(PidPrefix + t).value))
  {
    var pid := PidPrefix + t;
    assert pid[5..] == t;
    assert pid == "uuid" + [':'] + t;
    SplitAllTwo("uuid", ':', t);
    if t == "" {
      assert DropTrailingEmpty(["uuid", ""]) == ["uuid"];
      assert !IsUuidText(t);
    } else {
      assert JavaSplit(pid, ':') == ["uuid", t];
    }
  }

  // ---------------------------------------------------------------------
  // ObjectHierarchyNode

  datatype ObjectHierarchyNode = ObjectHierarchyNode(
    uuid: Uuid,
    model: string,
    title: Option<string>,
    level: Option<int>,
    indexInParent: Option<int>,
    parent: Option<ObjectHierarchyNode>)

  const MaxTitleLength: nat := 255

  /** Builder.title: over-long titles are cut to 252 chars and "..." is appended. */
  function ClipTitle(title: Option<string>): (r: Option<string>)
    ensures title.None? ==> r.None?
    ensures title.Some? && |title.value| <= MaxTitleLength ==> r == title
    ensures title.Some? && |title.value| > MaxTitleLength ==>
      r.Some? && |r.value| == MaxTitleLength && r.value[..252] == title.value[..252]
      && EndsWith(r.value, "...")
  {
    match title
    case None => None
    case Some(t) => if |t| > MaxTitleLength then Some(t[..252] + "...") else Some(t)
  }

  /** Builder.pid: the PID must carry the "uuid:" prefix. */
  function NodeUuidOfPid(pid: string): Result<Uuid, PidError>
  {
    UuidOfPid(pid)
  }

  function NodePid(n: ObjectHierarchyNode): string
  {
    PidOf(n.uuid)
  }

  /** getParentPid: null exactly when there is no parent. */
  function NodeParentPid(n: ObjectHierarchyNode): (r: Option<string>)
    ensures r.None? <==> n.parent.None?
    ensures r.Some? ==> UuidOfPid(r.value) == Ok(n.parent.value.uuid)
  {
    match n.parent
    case None => None
    case Some(p) =>
      ToUuidOfPid(p.uuid);
      Some(NodePid(p))
  }

  /** builder.pid(p).getPid() == p for every well-formed lower-case PID. */
  lemma NodePidRoundTrip(pid: string)
    requires StartsWith(pid, PidPrefix) && IsLowerUuidText(pid[5..])
    ensures NodeUuidOfPid(pid).Ok? && PidOf(NodeUuidOfPid(pid).value) == pid
  {
    PidOfToUuid(pid);
  }
}
