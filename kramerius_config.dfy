// Configuration of the Kramerius instances the editor talks to: the base URL
// with its trailing slashes removed, endpoint joining, and the default
// instance.  The configuration holder exists twice (KrameriusProperties and
// the older KrameriusConfig) with the same three methods.
module KrameriusSettings {
  import opened Wrappers
  import opened JavaText

  datatype KrameriusInstance = KrameriusInstance(title: Option<string>, url: Option<string>)

  /**
   * The configured instances, keyed by instance id, in the iteration order
   * of the configuration map (a HashMap: the order is whatever it yields).
   */
  datatype InstanceEntry = InstanceEntry(id: string, instance: KrameriusInstance)

  datatype ConfigError =
    | BlankEndpoint        // IllegalArgumentException("Endpoint must not be null or blank")
    | NoInstanceConfigured // RuntimeException("No Kramerius instance configured")

  predicate AllSlashes(s: string)
  {
    forall k :: 0 <= k < |s| ==> s[k] == '/'
  }

  /** The final run of '/' removed; the run and the result make up the input. */
  function DropSlashRun(s: string): (r: string)
    ensures |r| <= |s| && s == r + s[|r|..]
    ensures AllSlashes(s[|r|..])
    ensures r == [] || r[|r| - 1] != '/'
  {
    if |s| > 0 && s[|s| - 1] == '/' then
      var r := DropSlashRun(s[..|s| - 1]);
      assert s[|r|..] == s[..|s| - 1][|r|..] + ['/'];
      r
    else s
  }

  /** A line terminator of java.util.regex outside UNIX_LINES mode. */
  predicate IsLineTerminator(c: char)
  {
    c == '\n' || c == '\r' || c == '\U{85}' || c == '\U{2028}' || c == '\U{2029}'
  }

  /**
   * The line terminator that ends `s`, if any: "\r\n" counts as one, and
   * so does each single terminator character.
   */
  function FinalTerminator(s: string): (t: string)
    ensures |t| <= 2 && |t| <= |s| && s[|s| - |t|..] == t
    ensures t == [] <==> s == [] || !IsLineTerminator(s[|s| - 1])
  {
    if |s| >= 2 && s[|s| - 2] == '\r' && s[|s| - 1] == '\n' then s[|s| - 2..]
    else if |s| >= 1 && IsLineTerminator(s[|s| - 1]) then s[|s| - 1..]
    else []
  }

  /**
   * `replaceAll("/+$", "")`: without MULTILINE, `$` matches at the end of
   * the input and also just before a line terminator that ends it, so the
   * run of '/' that is removed is the one before that terminator when there
   * is one.  The result keeps the text before the run and the terminator,
   * and does not end in '/'.
   */
  function StripTrailingSlashes(s: string): (r: string)
    ensures var t := FinalTerminator(s); var m := |r| - |t|;
      |t| <= |r| <= |s| && r[m..] == t && r[..m] == s[..m]
      && AllSlashes(s[m..|s| - |t|]) && (m == 0 || s[m - 1] != '/')
    ensures r == [] || r[|r| - 1] != '/'
  {
    var t := FinalTerminator(s);
    var body := s[..|s| - |t|];
    var d := DropSlashRun(body);
    assert s[|d|..|s| - |t|] == body[|d|..];
    d + t
  }

  /** KrameriusInstance.trimmedUrl: null stays null. */
  function TrimmedUrl(inst: KrameriusInstance): Option<string>
  {
    match inst.url
    case None => None
    case Some(u) => Some(StripTrailingSlashes(u))
  }

  /** String concatenation renders a null reference as "null". */
  function ConcatText(s: Option<string>): string
  {
    match s
    case None => "null"
    case Some(t) => t
  }

  /**
   * KrameriusInstance.buildEndpoint: a null or blank endpoint is refused;
   * otherwise the trimmed base URL followed by the endpoint, with one '/'
   * put in front of an endpoint that does not start with one.
   */
  function BuildEndpoint(inst: KrameriusInstance, endpoint: Option<string>): (r: Result<string, ConfigError>)
    ensures r.Err? <==> endpoint.None? || IsBlank(endpoint.value)
    ensures r.Err? ==> r.error == BlankEndpoint
  {
    match endpoint
    case None => Err(BlankEndpoint)
    case Some(e) =>
      if IsBlank(e) then Err(BlankEndpoint)
      else Ok(ConcatText(TrimmedUrl(inst)) + (if StartsWith(e, "/") then e else "/" + e))
  }

  /**
   * getDefaultInstanceId: the first key the map yields, or an error when no
   * instance is configured.
   */
  function DefaultInstanceId(instances: seq<InstanceEntry>): (r: Result<string, ConfigError>)
    ensures r.Err? <==> |instances| == 0
    ensures r.Err? ==> r.error == NoInstanceConfigured
    ensures r.Ok? ==> exists i :: 0 <= i < |instances| && instances[i].id == r.value
  {
    if |instances| == 0 then Err(NoInstanceConfigured) else Ok(instances[0].id)
  }

  // ---------------------------------------------------------------------
  // Properties

  /** A URL that ends in no line terminator loses exactly its final run of '/'. */
  lemma StripWithoutTerminator(s: string)
    requires s == [] || !IsLineTerminator(s[|s| - 1])
    ensures StripTrailingSlashes(s) == DropSlashRun(s)
  {
    assert s[..|s|] == s;
  }

  /**
   * Removing the trailing slashes a second time changes nothing, for a URL
   * without line terminators.
   */
  lemma StripTrailingSlashesIdempotent(s: string)
    requires forall k :: 0 <= k < |s| ==> !IsLineTerminator(s[k])
    ensures StripTrailingSlashes(StripTrailingSlashes(s)) == StripTrailingSlashes(s)
  {
    StripWithoutTerminator(s);
    var r := StripTrailingSlashes(s);
    StripWithoutTerminator(r);
  }

  /**
   * With terminators inside, a second pass can remove more: the first pass
   * removes the run before the final "\n", which leaves "\r\n" as the new
   * final terminator with a '/' before it.
   */
  lemma StripSecondPassRemovesMore()
    ensures StripTrailingSlashes("a/\r/\n") == "a/\r\n"
    ensures StripTrailingSlashes("a/\r\n") == "a\r\n"
  {
    StripBeforeNewline();
    StripBeforeCrLf();
  }

  /** The first pass: the '/' before the final "\n" goes. */
  lemma StripBeforeNewline()
    ensures StripTrailingSlashes("a/\r/\n") == "a/\r\n"
  {
    var s := "a/\r/\n";
    assert FinalTerminator(s) == "\n";
    var body := s[..|s| - 1];
    assert body == "a/\r/" && body[..|body| - 1] == "a/\r";
    assert DropSlashRun("a/\r") == "a/\r";
    assert DropSlashRun(body) == "a/\r";
  }

  /** The second pass: the '/' before the final "\r\n" goes. */
  lemma StripBeforeCrLf()
    ensures StripTrailingSlashes("a/\r\n") == "a\r\n"
  {
    var s := "a/\r\n";
    assert FinalTerminator(s) == "\r\n";
    var body := s[..|s| - 2];
    assert body == "a/" && body[..|body| - 1] == "a";
    assert DropSlashRun("a") == "a";
    assert DropSlashRun(body) == "a";
  }

  /** Extra trailing slashes on the configured URL do not change the trimmed URL. */
  lemma {:induction false} DropIgnoresExtraSlashes(s: string, slashes: string)
    requires AllSlashes(slashes)
    ensures DropSlashRun(s + slashes) == DropSlashRun(s)
    decreases |slashes|
  {
    if |slashes| > 0 {
      var t := s + slashes;
      assert t[|t| - 1] == slashes[|slashes| - 1] == '/';
      assert t[..|t| - 1] == s + slashes[..|slashes| - 1];
      DropIgnoresExtraSlashes(s, slashes[..|slashes| - 1]);
    } else {
      assert s + slashes == s;
    }
  }

  /**
   * Extra trailing slashes on a configured URL that does not end in a line
   * terminator do not change the trimmed URL.
   */
  lemma StripIgnoresExtraSlashes(s: string, slashes: string)
    requires AllSlashes(slashes)
    requires s == [] || !IsLineTerminator(s[|s| - 1])
    ensures StripTrailingSlashes(s + slashes) == StripTrailingSlashes(s)
  {
    var t := s + slashes;
    assert t == [] || !IsLineTerminator(t[|t| - 1]) by {
      if |slashes| > 0 { assert t[|t| - 1] == slashes[|slashes| - 1]; }
      else { assert t == s; }
    }
    StripWithoutTerminator(s);
    StripWithoutTerminator(t);
    DropIgnoresExtraSlashes(s, slashes);
  }

  /**
   * The endpoint URL is the trimmed base, then the endpoint's own leading
   * slash (or a single inserted one), then the rest of the endpoint: the base
   * never contributes a slash of its own at the join.
   */
  lemma BuildEndpointJoin(inst: KrameriusInstance, e: string)
    requires inst.url.Some? && !IsBlank(e)
    ensures var base := StripTrailingSlashes(inst.url.value);
      (base == [] || base[|base| - 1] != '/')
      && BuildEndpoint(inst, Some(e)) == Ok(base + (if StartsWith(e, "/") then e else "/" + e))
  {
  }

  /**
   * Two instances whose URLs differ only in trailing slashes build the same
   * endpoint URLs.
   */
  lemma BuildEndpointIgnoresTrailingSlashes(u: string, slashes: string, e: Option<string>)
    requires AllSlashes(slashes)
    requires u == [] || !IsLineTerminator(u[|u| - 1])
    ensures BuildEndpoint(KrameriusInstance(None, Some(u + slashes)), e)
         == BuildEndpoint(KrameriusInstance(None, Some(u)), e)
  {
    StripIgnoresExtraSlashes(u, slashes);
  }

  /**
   * An instance without a URL (possible in the older, unvalidated
   * configuration holder) builds endpoint URLs that start with "null".
   */
  lemma BuildEndpointWithoutUrl(title: Option<string>, e: string)
    requires !IsBlank(e)
    ensures var r := BuildEndpoint(KrameriusInstance(title, None), Some(e));
      r.Ok? && StartsWith(r.value, "null/")
  {
    var r := BuildEndpoint(KrameriusInstance(title, None), Some(e));
    if StartsWith(e, "/") {
      assert r.value == "null" + e;
      assert r.value[..5] == "null" + e[..1];
    } else {
      assert r.value == "null" + "/" + e;
      assert r.value[..5] == "null/";
    }
  }
}
