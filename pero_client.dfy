/**
 * The PERO-OCR client script: it uploads one page image to the PERO server,
 * polls for the recognised text, then fetches the ALTO once.
 *
 * The script's file-system effects, the requests it sends and the way it
 * ends are modelled over a `World` of files, directories and sent requests.
 * The server's replies, the image conversion's result and the temporary
 * directory's name are inputs.
 */
module PeroClient {
  import opened Wrappers
  import opened JavaText

  const ServerUrl: string := "https://pero-ocr.fit.vutbr.cz/api/"

  // ---------------------------------------------------------------------
  // posixpath: basename, dirname, join

  /** Index just past the last '/', 0 when there is none (rfind('/') + 1). */
  function AfterLastSlash(p: string): (i: nat)
    ensures i <= |p|
    ensures 0 < i ==> p[i - 1] == '/'
    ensures '/' !in p[i..]
    decreases |p|
  {
    if |p| == 0 then 0
    else if p[|p| - 1] == '/' then |p|
    else
      var i := AfterLastSlash(p[..|p| - 1]);
      assert p[i..] == p[..|p| - 1][i..] + [p[|p| - 1]];
      i
  }

  /** posixpath.basename: the text after the last '/'. */
  function Basename(p: string): (b: string)
    ensures '/' !in b && EndsWith(p, b)
  {
    p[AfterLastSlash(p)..]
  }

  predicate AllSlashes(s: string)
  {
    forall k :: 0 <= k < |s| ==> s[k] == '/'
  }

  function StripTrailingSlashes(s: string): (r: string)
    ensures StartsWith(s, r) && (r == "" || r[|r| - 1] != '/')
    decreases |s|
  {
    if |s| > 0 && s[|s| - 1] == '/' then StripTrailingSlashes(s[..|s| - 1]) else s
  }

  /**
   * posixpath.dirname: the text up to the last '/', with its trailing
   * slashes removed unless it is made of slashes only.
   */
  function Dirname(p: string): (d: string)
    ensures StartsWith(p, d)
  {
    var head := p[..AfterLastSlash(p)];
    if head != "" && !AllSlashes(head) then StripTrailingSlashes(head) else head
  }

  /** posixpath.join of two components: an absolute `b` replaces `a`. */
  function PathJoin(a: string, b: string): string
  {
    if StartsWith(b, "/") then b
    else if a == "" || EndsWith(a, "/") then a + b
    else a + "/" + b
  }

  /** posixpath.join of `a` and several components, left to right. */
  function PathJoinAll(a: string, parts: seq<string>): string
    decreases |parts|
  {
    if |parts| == 0 then a else PathJoinAll(PathJoin(a, parts[0]), parts[1..])
  }

  /** After a directory that is empty or ends in '/', the last '/' is the directory's own. */
  lemma {:induction false} AfterLastSlashOfJoin(x: string, f: string)
    requires x == "" || x[|x| - 1] == '/'
    requires '/' !in f
    ensures AfterLastSlash(x + f) == |x|
    decreases |f|
  {
    if |f| == 0 {
      assert x + f == x;
    } else {
      var p := x + f;
      var g := f[..|f| - 1];
      assert f[|f| - 1] in f;
      assert p[|p| - 1] == f[|f| - 1];
      assert '/' !in g by {
        forall k | 0 <= k < |g| ensures g[k] != '/' {
          assert g[k] == f[k];
        }
      }
      assert p[..|p| - 1] == x + g;
      AfterLastSlashOfJoin(x, g);
    }
  }

  /** A plain file name joined onto any directory is the basename of the result. */
  lemma BasenameOfJoin(d: string, f: string)
    requires f != "" && '/' !in f
    ensures Basename(PathJoin(d, f)) == f
  {
    assert f[0] in f;
    var x := if d == "" || EndsWith(d, "/") then d else d + "/";
    assert PathJoin(d, f) == x + f;
    AfterLastSlashOfJoin(x, f);
    assert (x + f)[|x|..] == f;
  }

  /** Joining a plain component onto a path that does not end in '/' inserts one '/'. */
  lemma JoinPlain(a: string, b: string)
    requires b != "" && '/' !in b && a != "" && a[|a| - 1] != '/'
    ensures PathJoin(a, b) == a + "/" + b
    ensures var r := PathJoin(a, b); r[|r| - 1] != '/'
  {
    assert b[0] in b;
    assert b[|b| - 1] in b;
    assert a[|a| - 1..] == [a[|a| - 1]];
  }

  /** The URL of a result download, for a request id and file name that are plain components. */
  lemma DownloadUrl(requestId: string, fileName: string, format: Format)
    requires requestId != "" && '/' !in requestId && fileName != "" && '/' !in fileName
    ensures Url(DownloadRequest("", requestId, fileName, format))
         == ServerUrl + "download_results/" + requestId + "/" + fileName + "/" + FormatName(format)
  {
    var name := FormatName(format);
    var a := ServerUrl + "download_results";
    assert EndsWith(ServerUrl, "/");
    assert "download_results"[..1] == "d";
    assert PathJoin(ServerUrl, "download_results") == a;
    JoinPlain(a, requestId);
    JoinPlain(a + "/" + requestId, fileName);
    JoinPlain(a + "/" + requestId + "/" + fileName, name);
    calc {
      Url(DownloadRequest("", requestId, fileName, format));
      PathJoinAll(ServerUrl, ["download_results", requestId, fileName, name]);
      { assert ["download_results", requestId, fileName, name][1..] == [requestId, fileName, name]; }
      PathJoinAll(a, [requestId, fileName, name]);
      { assert [requestId, fileName, name][1..] == [fileName, name]; }
      PathJoinAll(a + "/" + requestId, [fileName, name]);
      { assert [fileName, name][1..] == [name]; }
      PathJoinAll(a + "/" + requestId + "/" + fileName, [name]);
      a + "/" + requestId + "/" + fileName + "/" + name;
    }
    assert a + "/" == ServerUrl + "download_results/";
  }

  // ---------------------------------------------------------------------
  // str.replace

  /** Python's str.replace: every non-overlapping occurrence of `pat`, left to right. */
  function ReplaceAll(s: string, pat: string, rep: string): string
    requires pat != ""
    decreases |s|
  {
    if |s| < |pat| then s
    else if s[..|pat|] == pat then rep + ReplaceAll(s[|pat|..], pat, rep)
    else [s[0]] + ReplaceAll(s[1..], pat, rep)
  }

  /** A character that cannot start the replaced text is copied through. */
  lemma ReplaceSkipsChar(c: char, t: string, pat: string, rep: string)
    requires pat != "" && c != pat[0]
    ensures ReplaceAll([c] + t, pat, rep) == [c] + ReplaceAll(t, pat, rep)
  {
    var s := [c] + t;
    assert s[0] == c && s[1..] == t;
    if |s| >= |pat| {
      assert s[..|pat|][0] == c;
    }
  }

  lemma NoCharInTail(p: string, c: char)
    requires |p| > 0 && c !in p
    ensures c !in p[1..] && p[0] != c && p == [p[0]] + p[1..]
  {
    assert p[0] in p;
    forall k | 0 <= k < |p[1..]| ensures p[1..][k] != c {
      assert p[1..][k] == p[k + 1];
    }
  }

  /** A prefix without dots is untouched when the replaced text starts with a dot. */
  lemma {:induction false} ReplaceKeepsPrefix(p: string, rest: string, pat: string, rep: string)
    requires pat != "" && pat[0] == '.' && '.' !in p
    ensures ReplaceAll(p + rest, pat, rep) == p + ReplaceAll(rest, pat, rep)
    decreases |p|
  {
    if |p| > 0 {
      NoCharInTail(p, '.');
      ReplaceKeepsPrefix(p[1..], rest, pat, rep);
      calc {
        ReplaceAll(p + rest, pat, rep);
        { SeqAssoc([p[0]], p[1..], rest); }
        ReplaceAll([p[0]] + (p[1..] + rest), pat, rep);
        { ReplaceSkipsChar(p[0], p[1..] + rest, pat, rep); }
        [p[0]] + ReplaceAll(p[1..] + rest, pat, rep);
        [p[0]] + (p[1..] + ReplaceAll(rest, pat, rep));
        { SeqAssoc([p[0]], p[1..], ReplaceAll(rest, pat, rep)); }
        p + ReplaceAll(rest, pat, rep);
      }
    } else {
      assert p + rest == rest;
    }
  }

  /** Replacing text that starts with a dot by text that starts with a dot keeps a leading dot. */
  lemma ReplaceKeepsLeadingDot(s: string, pat: string, rep: string)
    requires pat != "" && pat[0] == '.' && rep != "" && rep[0] == '.'
    requires s != "" && s[0] == '.'
    ensures var r := ReplaceAll(s, pat, rep); r != "" && r[0] == '.'
  {
  }

  /** No '/' appears by replacing text with text that has none. */
  lemma {:induction false} ReplaceAddsNoSlash(s: string, pat: string, rep: string)
    requires pat != "" && '/' !in s && '/' !in rep
    ensures '/' !in ReplaceAll(s, pat, rep)
    decreases |s|
  {
    if |s| >= |pat| {
      if s[..|pat|] == pat {
        assert '/' !in s[|pat|..] by {
          forall k | 0 <= k < |s[|pat|..]| ensures s[|pat|..][k] != '/' {
            assert s[|pat|..][k] == s[k + |pat|];
          }
        }
        ReplaceAddsNoSlash(s[|pat|..], pat, rep);
      } else {
        assert s[0] in s;
        assert '/' !in s[1..] by {
          forall k | 0 <= k < |s[1..]| ensures s[1..][k] != '/' {
            assert s[1..][k] == s[k + 1];
          }
        }
        ReplaceAddsNoSlash(s[1..], pat, rep);
      }
    }
  }

  /**
   * The first '.'-field of a name is the same after a dotted extension is
   * replaced by another dotted one.
   */
  lemma FirstFieldSurvivesReplace(s: string, pat: string, rep: string)
    requires pat != "" && pat[0] == '.' && rep != "" && rep[0] == '.'
    ensures SplitAll(ReplaceAll(s, pat, rep), '.')[0] == SplitAll(s, '.')[0]
  {
    if '.' in s {
      var i := IndexOf(s, '.');
      var p := s[..i];
      var rest := s[i..];
      assert s == p + rest;
      ReplaceKeepsPrefix(p, rest, pat, rep);
      ReplaceKeepsLeadingDot(rest, pat, rep);
      FirstFieldOfConcat(p, rest, '.');
      FirstFieldOfConcat(p, ReplaceAll(rest, pat, rep), '.');
    } else {
      ReplaceKeepsPrefix(s, "", pat, rep);
      assert s + "" == s;
      FirstFieldOfConcat(s, "", '.');
    }
  }

  /** The first field of a text is its part before the first separator. */
  lemma FirstFieldOfConcat(p: string, rest: string, c: char)
    requires c !in p && (rest == "" || rest[0] == c)
    ensures SplitAll(p + rest, c)[0] == p
  {
    if rest == "" {
      assert p + rest == p;
    } else {
      assert p + rest == p + [c] + rest[1..];
      SplitAllCons(p, c, rest[1..]);
    }
  }

  // ---------------------------------------------------------------------
  // get_content_type

  /** The MIME type sent with the image; the check is case-sensitive and None means exit -1. */
  function ContentType(extension: string): Option<string>
  {
    if extension in ["tiff", "tif"] then Some("image/tiff")
    else if extension in ["jpg", "jpeg", "JPG"] then Some("image/jpeg")
    else if extension in ["jp2"] then Some("image/jp2")
    else None
  }

  lemma ContentTypeCases(extension: string)
    ensures ContentType(extension).Some? <==> extension in {"tif", "tiff", "jpg", "jpeg", "JPG", "jp2"}
    ensures extension in {"tif", "tiff"} <==> ContentType(extension) == Some("image/tiff")
    ensures ContentType("JPEG") == None && ContentType("TIF") == None
  {
    assert "JPEG" != "JPG" && "JPEG" != "jpeg" && "JPEG" != "jpg" by { assert "JPEG"[1] == 'P'; }
    assert "TIF" != "tif" && "TIF" != "tiff" by { assert "TIF"[0] == 'T'; }
  }

  // ---------------------------------------------------------------------
  // create_json: json.dumps({"engine": 1, "images": {file_name: None}}, ensure_ascii=False)

  function HexDigit(n: nat): char
    requires n < 16
  {
    if n < 10 then ('0' as int + n) as char else ('a' as int + n - 10) as char
  }

  function HexValue(c: char): Option<nat>
  {
    if '0' <= c <= '9' then Some(c as int - '0' as int)
    else if 'a' <= c <= 'f' then Some(c as int - 'a' as int + 10)
    else if 'A' <= c <= 'F' then Some(c as int - 'A' as int + 10)
    else None
  }

  /** The value of four hex digits. */
  function Hex4(t: string): (r: Option<nat>)
    requires |t| == 4
    ensures r.Some? ==> r.value < 0x10000
  {
    var d := [HexValue(t[0]), HexValue(t[1]), HexValue(t[2]), HexValue(t[3])];
    if d[0].Some? && d[1].Some? && d[2].Some? && d[3].Some?
       && d[0].value < 16 && d[1].value < 16 && d[2].value < 16 && d[3].value < 16
    then Some(((d[0].value * 16 + d[1].value) * 16 + d[2].value) * 16 + d[3].value)
    else None
  }

  /** Python's JSON string escape with ensure_ascii off: quote, backslash and control characters. */
  function EscapeChar(c: char): string
  {
    if c == '"' then "\\\""
    else if c == '\\' then "\\\\"
    else if c == 8 as char then "\\b"
    else if c == 12 as char then "\\f"
    else if c == '\n' then "\\n"
    else if c == '\r' then "\\r"
    else if c == '\t' then "\\t"
    else if (c as int) < 0x20 then "\\u00" + [HexDigit(c as int / 16), HexDigit(c as int % 16)]
    else [c]
  }

  function JsonEscape(s: string): string
    decreases |s|
  {
    if |s| == 0 then "" else EscapeChar(s[0]) + JsonEscape(s[1..])
  }

  /** The character a one-letter JSON escape stands for. */
  function SimpleEscape(e: char): Option<char>
  {
    if e == '"' then Some('"')
    else if e == '\\' then Some('\\')
    else if e == '/' then Some('/')
    else if e == 'b' then Some(8 as char)
    else if e == 'f' then Some(12 as char)
    else if e == 'n' then Some('\n')
    else if e == 'r' then Some('\r')
    else if e == 't' then Some('\t')
    else None
  }

  function Cons(c: char, rest: Option<string>): Option<string>
  {
    match rest
    case None => None
    case Some(t) => Some([c] + t)
  }

  /** The text a JSON string body stands for; None when it is not a valid body. */
  function JsonUnescape(s: string): Option<string>
    decreases |s|
  {
    if |s| == 0 then Some("")
    else if s[0] == '\\' then
      if |s| >= 6 && s[1] == 'u' then
        var v := Hex4(s[2..6]);
        if v.Some? && (v.value < 0xD800 || 0xE000 <= v.value) then Cons(v.value as char, JsonUnescape(s[6..]))
        else None
      else if |s| >= 2 && SimpleEscape(s[1]).Some? then Cons(SimpleEscape(s[1]).value, JsonUnescape(s[2..]))
      else None
    else if s[0] == '"' || (s[0] as int) < 0x20 then None
    else Cons(s[0], JsonUnescape(s[1..]))
  }

  const JsonHead: string := "{\"engine\": 1, \"images\": {\""
  const JsonTail: string := "\": null}}"

  /** The processing request body: engine 1 and one image named `fileName` with no URL. */
  function CreateJson(fileName: string): string
  {
    JsonHead + JsonEscape(fileName) + JsonTail
  }

  /** The single image name of a request body shaped as CreateJson writes it. */
  function ImageName(doc: string): Option<string>
  {
    if |doc| >= |JsonHead| + |JsonTail| && StartsWith(doc, JsonHead) && EndsWith(doc, JsonTail)
    then JsonUnescape(doc[|JsonHead|..|doc| - |JsonTail|])
    else None
  }

  lemma HexDigitValue(n: nat)
    requires n < 16
    ensures HexValue(HexDigit(n)) == Some(n)
  {
  }

  lemma UnescapeStep(c: char, rest: string)
    ensures JsonUnescape(EscapeChar(c) + rest) == Cons(c, JsonUnescape(rest))
  {
    var s := EscapeChar(c) + rest;
    if c == '"' || c == '\\' || c == 8 as char || c == 12 as char || c == '\n' || c == '\r' || c == '\t' {
      assert |EscapeChar(c)| == 2 && s[2..] == rest;
    } else if (c as int) < 0x20 {
      var hi := c as int / 16;
      var lo := c as int % 16;
      HexDigitValue(hi);
      HexDigitValue(lo);
      assert s[..6] == ['\\', 'u', '0', '0', HexDigit(hi), HexDigit(lo)];
      assert s[2..6] == ['0', '0', HexDigit(hi), HexDigit(lo)];
      assert Hex4(s[2..6]) == Some(c as int);
      assert s[6..] == rest;
    } else {
      assert s[1..] == rest;
    }
  }

  /** Decoding an escaped name gives the name back. */
  lemma {:induction false} EscapeRoundTrip(s: string)
    ensures JsonUnescape(JsonEscape(s)) == Some(s)
    decreases |s|
  {
    if |s| > 0 {
      UnescapeStep(s[0], JsonEscape(s[1..]));
      EscapeRoundTrip(s[1..]);
      assert [s[0]] + s[1..] == s;
    }
  }

  /** The request body names exactly the one image, with engine 1. */
  lemma CreateJsonNamesImage(fileName: string)
    ensures ImageName(CreateJson(fileName)) == Some(fileName)
    ensures StartsWith(CreateJson(fileName), "{\"engine\": 1, ")
  {
    var doc := CreateJson(fileName);
    assert doc[..|JsonHead|] == JsonHead;
    assert doc[|doc| - |JsonTail|..] == JsonTail;
    assert doc[|JsonHead|..|doc| - |JsonTail|] == JsonEscape(fileName);
    EscapeRoundTrip(fileName);
    assert doc[..14] == JsonHead[..14];
  }

  // ---------------------------------------------------------------------
  // The world, the requests and the server's answers

  datatype Format = Txt | Alto

  function FormatName(f: Format): string
  {
    match f
    case Txt => "txt"
    case Alto => "alto"
  }

  /** A request sent to the server, each with the api-key header. */
  datatype Request =
    | PostRequest(apiKey: string, data: string)
    | UploadRequest(apiKey: string, requestId: string, fileName: string, path: string, contentType: string)
    | DownloadRequest(apiKey: string, requestId: string, fileName: string, format: Format)

  function Url(r: Request): string
  {
    match r
    case PostRequest(_, _) => PathJoinAll(ServerUrl, ["post_processing_request"])
    case UploadRequest(_, id, name, _, _) => PathJoinAll(ServerUrl, ["upload_image", id, name])
    case DownloadRequest(_, id, name, f) => PathJoinAll(ServerUrl, ["download_results", id, name, FormatName(f)])
  }

  /** Files with their contents, directories, and the requests sent so far. */
  datatype World = World(files: map<string, string>, dirs: set<string>, sent: seq<Request>)

  predicate Exists(w: World, p: string)
  {
    p in w.files || p in w.dirs
  }

  datatype Args = Args(imagePath: string, outputTxt: string, outputAlto: string, apiKey: string)

  /** A download reply: status code, body, and the "message" of its JSON body. */
  datatype Reply = Reply(code: int, text: string, message: string)

  /** The processing-request reply: status code and the "status" and "request_id" of its body. */
  datatype PostReply = PostReply(code: int, status: string, requestId: string)

  /** What converting the TIFF gives: the JPEG, an image that cannot be opened, or a failed save. */
  datatype Conversion = Converted(jpeg: string) | OpenFails | SaveFails

  /** The replies the server gives, in order: the txt replies are the successive polls. */
  datatype Server = Server(conversion: Conversion, post: PostReply, upload: int, txt: seq<Reply>, alto: Reply)

  /**
   * How the script ends: an exit code, an uncaught exception, the endless
   * wait on a non-"success" status, or still polling when the replies given
   * run out.
   */
  datatype Outcome = Exit(code: int) | Raised | Hangs | Waiting

  datatype Verdict = Processed | Unprocessed | Fatal

  /** The image to upload, the name it is registered under, and whether the script made it. */
  datatype Image = Image(path: string, fileName: string, converted: bool, extension: string)

  datatype Prepared = Ready(image: Image) | Stopped(outcome: Outcome)

  const NotProcessedYet: string := "not processed yet"

  // ---------------------------------------------------------------------
  // download_results

  /** 200 is a result; a 4xx/5xx is fatal unless its message says "not processed yet"; anything else waits. */
  function Classify(r: Reply): Verdict
  {
    if r.code == 200 then Processed
    else if r.code >= 400 then (if ContainsText(r.message, NotProcessedYet) then Unprocessed else Fatal)
    else Unprocessed
  }

  /** One download: the request is sent and a 200 body is written to `output`. */
  function Fetch(w: World, apiKey: string, output: string, requestId: string, fileName: string, f: Format,
                 r: Reply): (World, Verdict)
  {
    var w1 := w.(sent := w.sent + [DownloadRequest(apiKey, requestId, fileName, f)]);
    if Classify(r) == Processed then (w1.(files := w1.files[output := r.text]), Processed)
    else (w1, Classify(r))
  }

  /**
   * The poll loop: txt downloads until one is processed, then one alto
   * download. None when the loop ended normally.
   */
  function Poll(w: World, args: Args, requestId: string, fileName: string, txt: seq<Reply>, alto: Reply)
    : (World, Option<Outcome>)
    decreases |txt|
  {
    if |txt| == 0 then (w, Some(Waiting))
    else
      var t := Fetch(w, args.apiKey, args.outputTxt, requestId, fileName, Txt, txt[0]);
      if t.1 == Fatal then (t.0, Some(Exit(-1)))
      else if t.1 == Processed then
        var a := Fetch(t.0, args.apiKey, args.outputAlto, requestId, fileName, Alto, alto);
        if a.1 == Fatal then (a.0, Some(Exit(-1))) else (a.0, None)
      else Poll(t.0, args, requestId, fileName, txt[1..], alto)
  }

  // ---------------------------------------------------------------------
  // convert_tif and the image derivation of main

  /** The converted file's name: ".tiff" or ".tif" replaced by ".jpg" throughout the basename. */
  function JpegName(base: string): string
  {
    var fields := SplitAll(base, '.');
    if |fields| >= 2 && fields[1] == "tiff" then ReplaceAll(base, ".tiff", ".jpg") else ReplaceAll(base, ".tif", ".jpg")
  }

  /** convert_tif: the JPEG is saved into the temporary directory and its path returned. */
  function Convert(w: World, imagePath: string, conversion: Conversion, tempDir: string)
    : (World, Result<string, Outcome>)
  {
    var outFile := JpegName(Basename(imagePath));
    if |SplitAll(Basename(imagePath), '.')| < 2 then (w, Err(Raised))
    else if imagePath !in w.files || conversion.OpenFails? then (w, Err(Raised))
    else if conversion.SaveFails? then (w, Err(Exit(-1)))
    else
      var out := PathJoin(tempDir, outFile);
      (w.(files := w.files[out := conversion.jpeg]), Ok(out))
  }

  /** The sibling JPEG a TIFF may have: same directory, first field plus ".jpg". */
  function Sibling(imagePath: string): string
  {
    PathJoin(Dirname(imagePath), SplitAll(Basename(imagePath), '.')[0] + ".jpg")
  }

  /** Which image is uploaded under which name; a basename without '.' raises. */
  function Prepare(w: World, args: Args, conversion: Conversion, tempDir: string): (World, Prepared)
  {
    var fields := SplitAll(Basename(args.imagePath), '.');
    if |fields| < 2 then (w, Stopped(Raised))
    else
      var extension := fields[1];
      if extension == "tif" || extension == "tiff" then
        if Exists(w, Sibling(args.imagePath)) then
          (w, Ready(Image(Sibling(args.imagePath), fields[0], false, extension)))
        else
          var c := Convert(w, args.imagePath, conversion, tempDir);
          if c.1.Err? then (c.0, Stopped(c.1.error))
          else (c.0, Ready(Image(c.1.value, SplitAll(Basename(c.1.value), '.')[0], true, extension)))
      else (w, Ready(Image(args.imagePath, fields[0], false, extension)))
  }

  /** The end of a run: the converted image is removed, then the temporary directory. */
  function Finish(w: World, image: Image, tempDir: string): (World, Outcome)
  {
    if image.converted && image.path !in w.files then (w, Raised)
    else
      var w1 := if image.converted then w.(files := w.files - {image.path}) else w;
      (w1.(dirs := w1.dirs - {tempDir}), Exit(0))
  }

  /** The requests of a run: processing request, upload, polls, then the end. */
  function Submit(w: World, args: Args, server: Server, image: Image, contentType: string, tempDir: string)
    : (World, Outcome)
  {
    var w2 := w.(sent := w.sent + [PostRequest(args.apiKey, CreateJson(image.fileName))]);
    if server.post.code >= 400 then (w2, Exit(-1))
    else if server.post.status != "success" then (w2, Hangs)
    else
      var requestId := server.post.requestId;
      if image.path !in w2.files then (w2, Exit(-1))
      else
        var w3 := w2.(sent := w2.sent + [UploadRequest(args.apiKey, requestId, image.fileName, image.path, contentType)]);
        if server.upload >= 400 then (w3, Exit(-1))
        else
          var p := Poll(w3, args, requestId, image.fileName, server.txt, server.alto);
          if p.1.Some? then (p.0, p.1.value) else Finish(p.0, image, tempDir)
  }

  /** The whole script, from the creation of its temporary directory to its exit. */
  function Run(w0: World, args: Args, server: Server, tempDir: string): (World, Outcome)
  {
    var w := w0.(dirs := w0.dirs + {tempDir});
    if Exists(w, args.outputTxt) && Exists(w, args.outputAlto) then (w, Exit(0))
    else
      var p := Prepare(w, args, server.conversion, tempDir);
      if p.1.Stopped? then (p.0, p.1.outcome)
      else if ContentType(p.1.image.extension).None? then (p.0, Exit(-1))
      else Submit(p.0, args, server, p.1.image, ContentType(p.1.image.extension).value, tempDir)
  }

  // ---------------------------------------------------------------------
  // Properties of the script

  /** `k` copies of `r`. */
  function Repeat(r: Request, k: nat): seq<Request>
  {
    if k == 0 then [] else [r] + Repeat(r, k - 1)
  }

  /** Both outputs already present: exit 0 with nothing sent and no file touched. */
  lemma PresentOutputsSkip(w0: World, args: Args, server: Server, tempDir: string)
    requires Exists(w0, args.outputTxt) && Exists(w0, args.outputAlto)
    ensures var r := Run(w0, args, server, tempDir);
      r.1 == Exit(0) && r.0.sent == w0.sent && r.0.files == w0.files
  {
  }

  /** A basename with no '.' has no extension field: the script raises before any request. */
  lemma NoExtensionRaises(w0: World, args: Args, server: Server, tempDir: string)
    requires var w := w0.(dirs := w0.dirs + {tempDir}); !(Exists(w, args.outputTxt) && Exists(w, args.outputAlto))
    requires '.' !in Basename(args.imagePath)
    ensures var r := Run(w0, args, server, tempDir); r.1 == Raised && r.0.sent == w0.sent
  {
  }

  /** An unsupported extension ends the run with -1 before the session sends anything. */
  lemma UnsupportedExtensionSendsNothing(w0: World, args: Args, server: Server, tempDir: string)
    requires var w := w0.(dirs := w0.dirs + {tempDir}); !(Exists(w, args.outputTxt) && Exists(w, args.outputAlto))
    requires var fields := SplitAll(Basename(args.imagePath), '.');
      |fields| >= 2 && ContentType(fields[1]).None?
    ensures var r := Run(w0, args, server, tempDir);
      r.1 == Exit(-1) && r.0.sent == w0.sent && r.0.files == w0.files
  {
    var fields := SplitAll(Basename(args.imagePath), '.');
    assert fields[1] != "tif" && fields[1] != "tiff";
  }

  /**
   * A TIFF with a sibling JPEG uploads the sibling, unconverted, under the
   * TIFF's first field, and still declares it image/tiff.
   */
  lemma SiblingKeepsTiffType(w: World, args: Args, conversion: Conversion, tempDir: string)
    requires var fields := SplitAll(Basename(args.imagePath), '.');
      |fields| >= 2 && fields[1] in {"tif", "tiff"} && Exists(w, Sibling(args.imagePath))
    ensures var p := Prepare(w, args, conversion, tempDir);
      var fields := SplitAll(Basename(args.imagePath), '.');
      p.0 == w && p.1 == Ready(Image(Sibling(args.imagePath), fields[0], false, fields[1]))
      && ContentType(p.1.image.extension) == Some("image/tiff")
  {
  }

  /**
   * A converted TIFF is written into the temporary directory under its
   * basename with the extension replaced by ".jpg", and keeps the original
   * first field as its file name.
   */
  lemma ConversionKeepsFileName(w: World, imagePath: string, jpeg: string, tempDir: string)
    requires |SplitAll(Basename(imagePath), '.')| >= 2 && imagePath in w.files
    ensures var base := Basename(imagePath);
      var path := PathJoin(tempDir, JpegName(base));
      Convert(w, imagePath, Converted(jpeg), tempDir) == (w.(files := w.files[path := jpeg]), Ok(path))
      && Basename(path) == JpegName(base)
      && SplitAll(Basename(path), '.')[0] == SplitAll(base, '.')[0]
  {
    var base := Basename(imagePath);
    assert '.' in base;
    JpegNameIsPlain(base);
    BasenameOfJoin(tempDir, JpegName(base));
  }

  /** A TIFF without a sibling JPEG is converted and uploaded under the path Convert returns. */
  lemma TiffWithoutSiblingIsConverted(w: World, args: Args, conversion: Conversion, tempDir: string)
    requires var fields := SplitAll(Basename(args.imagePath), '.');
      |fields| >= 2 && fields[1] in {"tif", "tiff"} && !Exists(w, Sibling(args.imagePath))
    ensures var p := Prepare(w, args, conversion, tempDir);
      var c := Convert(w, args.imagePath, conversion, tempDir);
      p.0 == c.0
      && (c.1.Err? ==> p.1 == Stopped(c.1.error))
      && (c.1.Ok? ==> p.1.Ready? && p.1.image.converted && p.1.image.path == c.1.value
                      && p.1.image.fileName == SplitAll(Basename(c.1.value), '.')[0])
  {
  }

  /** The converted name is a non-empty plain file name with the original first field. */
  lemma JpegNameIsPlain(base: string)
    requires '.' in base && '/' !in base
    ensures var j := JpegName(base);
      j != "" && '/' !in j && SplitAll(j, '.')[0] == SplitAll(base, '.')[0]
  {
    var fields := SplitAll(base, '.');
    var pat := if |fields| >= 2 && fields[1] == "tiff" then ".tiff" else ".tif";
    assert JpegName(base) == ReplaceAll(base, pat, ".jpg");
    var i := IndexOf(base, '.');
    var rest := base[i..];
    assert base == base[..i] + rest;
    ReplaceKeepsPrefix(base[..i], rest, pat, ".jpg");
    ReplaceKeepsLeadingDot(rest, pat, ".jpg");
    ReplaceAddsNoSlash(base, pat, ".jpg");
    FirstFieldSurvivesReplace(base, pat, ".jpg");
  }

  /** Outcomes of the poll loop: where it stops, what was sent, and what was written. */
  lemma {:induction false} PollShape(w: World, args: Args, requestId: string, fileName: string,
                                     txt: seq<Reply>, alto: Reply) returns (k: nat)
    ensures var p := Poll(w, args, requestId, fileName, txt, alto);
      var poll := DownloadRequest(args.apiKey, requestId, fileName, Txt);
      1 <= k <= |txt| + 1
      && (forall j :: 0 <= j < k - 1 ==> Classify(txt[j]) == Unprocessed)
      && (p.1 == Some(Waiting) <==> k == |txt| + 1)
      && (p.1 == None ==>
            Classify(txt[k - 1]) == Processed && Classify(alto) != Fatal
            && p.0.sent == w.sent + Repeat(poll, k) + [DownloadRequest(args.apiKey, requestId, fileName, Alto)]
            && p.0.files == (var f := w.files[args.outputTxt := txt[k - 1].text];
                             if Classify(alto) == Processed then f[args.outputAlto := alto.text] else f))
      && (p.1 == Some(Exit(-1)) ==>
            Classify(txt[k - 1]) == Fatal || (Classify(txt[k - 1]) == Processed && Classify(alto) == Fatal))
      && (p.1 == Some(Waiting) ==> p.0.sent == w.sent + Repeat(poll, k - 1) && p.0.files == w.files)
      && p.1 in {None, Some(Waiting), Some(Exit(-1))}
    decreases |txt|
  {
    var poll := DownloadRequest(args.apiKey, requestId, fileName, Txt);
    if |txt| == 0 {
      k := 1;
    } else {
      var t := Fetch(w, args.apiKey, args.outputTxt, requestId, fileName, Txt, txt[0]);
      if t.1 == Fatal || t.1 == Processed {
        k := 1;
        assert Repeat(poll, 1) == [poll];
      } else {
        var k' := PollShape(t.0, args, requestId, fileName, txt[1..], alto);
        k := k' + 1;
        assert w.sent + [poll] + Repeat(poll, k') == w.sent + Repeat(poll, k);
        assert w.sent + [poll] + Repeat(poll, k' - 1) == w.sent + Repeat(poll, k - 1);
        forall j | 0 <= j < k - 1 ensures Classify(txt[j]) == Unprocessed {
          if j > 0 {
            assert txt[j] == txt[1..][j - 1];
          }
        }
        if k' <= |txt[1..]| {
          assert txt[k - 1] == txt[1..][k' - 1];
        }
      }
    }
  }

  /**
   * The alto result is fetched once and its reply is not awaited: a reply
   * that is neither 200 nor fatal leaves the ALTO output unwritten while the
   * loop ends normally.
   */
  lemma AltoNotAwaited(w: World, args: Args, requestId: string, fileName: string, txt: seq<Reply>, alto: Reply)
    requires |txt| > 0 && Classify(txt[0]) == Processed && Classify(alto) == Unprocessed
    requires args.outputAlto != args.outputTxt
    ensures var p := Poll(w, args, requestId, fileName, txt, alto);
      p.1 == None && (args.outputAlto in p.0.files <==> args.outputAlto in w.files)
  {
  }

  /** Only a processing request accepted with a status other than "success" makes the run hang. */
  lemma HangsOnlyOnPostStatus(w0: World, args: Args, server: Server, tempDir: string)
    ensures Run(w0, args, server, tempDir).1 == Hangs ==> server.post.code < 400 && server.post.status != "success"
  {
    var w := w0.(dirs := w0.dirs + {tempDir});
    if !(Exists(w, args.outputTxt) && Exists(w, args.outputAlto)) {
      var p := Prepare(w, args, server.conversion, tempDir);
      PrepareNeverHangs(w, args, server.conversion, tempDir);
      if p.1.Ready? && ContentType(p.1.image.extension).Some? {
        var ct := ContentType(p.1.image.extension).value;
        assert Run(w0, args, server, tempDir) == Submit(p.0, args, server, p.1.image, ct, tempDir);
        SubmitHangsOnlyOnStatus(p.0, args, server, p.1.image, ct, tempDir);
      }
    }
  }

  lemma PrepareNeverHangs(w: World, args: Args, conversion: Conversion, tempDir: string)
    ensures Prepare(w, args, conversion, tempDir).1 != Stopped(Hangs)
  {
  }

  lemma SubmitHangsOnlyOnStatus(w: World, args: Args, server: Server, image: Image, contentType: string, tempDir: string)
    ensures Submit(w, args, server, image, contentType, tempDir).1 == Hangs ==>
      server.post.code < 400 && server.post.status != "success"
  {
    var w2 := w.(sent := w.sent + [PostRequest(args.apiKey, CreateJson(image.fileName))]);
    if server.post.code < 400 && server.post.status == "success" && image.path in w2.files && server.upload < 400 {
      var w3 := w2.(sent := w2.sent + [UploadRequest(args.apiKey, server.post.requestId, image.fileName, image.path, contentType)]);
      var k := PollShape(w3, args, server.post.requestId, image.fileName, server.txt, server.alto);
    }
  }

  /**
   * Once the image is chosen: the temporary directory is removed exactly
   * when the run exits 0, and then the requests were the processing request
   * naming the image, the upload, k txt polls with the same request id and
   * name, and one alto download, and the converted image is gone.
   */
  lemma SubmitShape(w: World, args: Args, server: Server, image: Image, contentType: string, tempDir: string)
    returns (k: nat)
    requires tempDir in w.dirs
    ensures var r := Submit(w, args, server, image, contentType, tempDir);
      var rid := server.post.requestId;
      |r.0.sent| > |w.sent|
      && (tempDir !in r.0.dirs <==> r.1 == Exit(0))
      && (r.1 == Exit(0) ==>
            k >= 1
            && r.0.sent == w.sent
                 + [PostRequest(args.apiKey, CreateJson(image.fileName)),
                    UploadRequest(args.apiKey, rid, image.fileName, image.path, contentType)]
                 + Repeat(DownloadRequest(args.apiKey, rid, image.fileName, Txt), k)
                 + [DownloadRequest(args.apiKey, rid, image.fileName, Alto)]
            && (image.converted ==> image.path !in r.0.files))
  {
    k := 0;
    var rid := server.post.requestId;
    var w2 := w.(sent := w.sent + [PostRequest(args.apiKey, CreateJson(image.fileName))]);
    if server.post.code >= 400 || server.post.status != "success" || image.path !in w2.files {
      return;
    }
    var w3 := w2.(sent := w2.sent + [UploadRequest(args.apiKey, rid, image.fileName, image.path, contentType)]);
    if server.upload >= 400 {
      return;
    }
    k := PollShape(w3, args, rid, image.fileName, server.txt, server.alto);
    PollKeepsDirs(w3, args, rid, image.fileName, server.txt, server.alto);
    var q := Poll(w3, args, rid, image.fileName, server.txt, server.alto);
    assert |q.0.sent| >= |w3.sent| by {
      if q.1 == Some(Exit(-1)) {
        PollSends(w3, args, rid, image.fileName, server.txt, server.alto);
      }
    }
    if q.1.None? {
      assert w3.sent == w.sent + [PostRequest(args.apiKey, CreateJson(image.fileName)),
                                  UploadRequest(args.apiKey, rid, image.fileName, image.path, contentType)];
    }
  }

  /** Choosing the image sends nothing and creates or removes no directory. */
  lemma PrepareSendsNothing(w: World, args: Args, conversion: Conversion, tempDir: string)
    ensures var p := Prepare(w, args, conversion, tempDir); p.0.sent == w.sent && p.0.dirs == w.dirs
  {
  }

  /**
   * A run that reaches the end sent, in order: the processing request naming
   * the image, the upload, k txt polls with the same request id and name, and
   * one alto download; the converted image and the temporary directory are
   * gone. Every other run leaves the temporary directory behind.
   */
  lemma FinishedRun(w0: World, args: Args, server: Server, tempDir: string) returns (k: nat)
    ensures var r := Run(w0, args, server, tempDir);
      var w := w0.(dirs := w0.dirs + {tempDir});
      var p := Prepare(w, args, server.conversion, tempDir);
      (tempDir !in r.0.dirs <==> r.1 == Exit(0) && |r.0.sent| > |w0.sent|)
      && (tempDir !in r.0.dirs ==>
            p.1.Ready? && ContentType(p.1.image.extension).Some? && k >= 1
            && (var image := p.1.image;
                var rid := server.post.requestId;
                r.0.sent == w0.sent
                  + [PostRequest(args.apiKey, CreateJson(image.fileName)),
                     UploadRequest(args.apiKey, rid, image.fileName, image.path, ContentType(image.extension).value)]
                  + Repeat(DownloadRequest(args.apiKey, rid, image.fileName, Txt), k)
                  + [DownloadRequest(args.apiKey, rid, image.fileName, Alto)]
                && (image.converted ==> image.path !in r.0.files)))
  {
    k := 0;
    var w := w0.(dirs := w0.dirs + {tempDir});
    if Exists(w, args.outputTxt) && Exists(w, args.outputAlto) {
      return;
    }
    var p := Prepare(w, args, server.conversion, tempDir);
    PrepareSendsNothing(w, args, server.conversion, tempDir);
    if p.1.Stopped? || ContentType(p.1.image.extension).None? {
      return;
    }
    k := SubmitShape(p.0, args, server, p.1.image, ContentType(p.1.image.extension).value, tempDir);
  }

  /** A poll loop never sends fewer requests than it was given. */
  lemma {:induction false} PollSends(w: World, args: Args, requestId: string, fileName: string,
                                     txt: seq<Reply>, alto: Reply)
    ensures |Poll(w, args, requestId, fileName, txt, alto).0.sent| >= |w.sent|
    decreases |txt|
  {
    if |txt| > 0 {
      var t := Fetch(w, args.apiKey, args.outputTxt, requestId, fileName, Txt, txt[0]);
      PollSends(t.0, args, requestId, fileName, txt[1..], alto);
    }
  }

  lemma {:induction false} PollKeepsDirs(w: World, args: Args, requestId: string, fileName: string,
                                         txt: seq<Reply>, alto: Reply)
    ensures Poll(w, args, requestId, fileName, txt, alto).0.dirs == w.dirs
    decreases |txt|
  {
    if |txt| > 0 {
      var t := Fetch(w, args.apiKey, args.outputTxt, requestId, fileName, Txt, txt[0]);
      PollKeepsDirs(t.0, args, requestId, fileName, txt[1..], alto);
    }
  }

  // ---------------------------------------------------------------------
  // The script

  /** The script's effects on the file system and the requests it sends. */
  class PeroScript {
    var files: map<string, string>
    var dirs: set<string>
    var sent: seq<Request>
    /** The directory mkdtemp names for this run. */
    const tempDir: string

    function Now(): World
      reads this
    {
      World(files, dirs, sent)
    }

    constructor(files: map<string, string>, dirs: set<string>, tempDir: string)
      ensures Now() == World(files, dirs, []) && this.tempDir == tempDir
    {
      this.files := files;
      this.dirs := dirs;
      this.sent := [];
      this.tempDir := tempDir;
    }

    /** convert_tif: saves the JPEG into the temporary directory. */
    method ConvertTif(imagePath: string, conversion: Conversion) returns (r: Result<string, Outcome>)
      modifies this
      ensures (Now(), r) == Convert(old(Now()), imagePath, conversion, tempDir)
    {
      var base := Basename(imagePath);
      var outFile := JpegName(base);
      if |SplitAll(base, '.')| < 2 {
        return Err(Raised);
      }
      if imagePath !in files || conversion.OpenFails? {
        return Err(Raised);
      }
      var outputPath := PathJoin(tempDir, outFile);
      if conversion.SaveFails? {
        return Err(Exit(-1));
      }
      files := files[outputPath := conversion.jpeg];
      return Ok(outputPath);
    }

    /** The image choice of main: as given, its sibling JPEG, or a conversion. */
    method PrepareImage(args: Args, conversion: Conversion) returns (r: Prepared)
      modifies this
      ensures (Now(), r) == Prepare(old(Now()), args, conversion, tempDir)
    {
      var fields := SplitAll(Basename(args.imagePath), '.');
      if |fields| < 2 {
        return Stopped(Raised);
      }
      var extension := fields[1];
      if extension == "tif" || extension == "tiff" {
        var sibling := Sibling(args.imagePath);
        if sibling in files || sibling in dirs {
          return Ready(Image(sibling, fields[0], false, extension));
        }
        var converted := ConvertTif(args.imagePath, conversion);
        if converted.Err? {
          return Stopped(converted.error);
        }
        var imagePath := converted.value;
        return Ready(Image(imagePath, SplitAll(Basename(imagePath), '.')[0], true, extension));
      }
      return Ready(Image(args.imagePath, fields[0], false, extension));
    }

    /** download_results: sends the request and writes a 200 body to `output`. */
    method DownloadResults(output: string, requestId: string, fileName: string, format: Format, apiKey: string,
                           reply: Reply) returns (v: Verdict)
      modifies this
      ensures (Now(), v) == Fetch(old(Now()), apiKey, output, requestId, fileName, format, reply)
    {
      sent := sent + [DownloadRequest(apiKey, requestId, fileName, format)];
      if reply.code == 200 {
        files := files[output := reply.text];
        return Processed;
      } else if reply.code >= 400 {
        if ContainsText(reply.message, NotProcessedYet) {
          return Unprocessed;
        }
        return Fatal;
      }
      return Unprocessed;
    }

    /** The poll loop of main: txt until processed, then alto once. */
    method PollResults(args: Args, requestId: string, fileName: string, txt: seq<Reply>, alto: Reply)
      returns (r: Option<Outcome>)
      modifies this
      ensures (Now(), r) == Poll(old(Now()), args, requestId, fileName, txt, alto)
    {
      var result := Unprocessed;
      var i := 0;
      while result != Processed
        invariant 0 <= i <= |txt|
        invariant result != Processed ==>
          Poll(old(Now()), args, requestId, fileName, txt, alto) == Poll(Now(), args, requestId, fileName, txt[i..], alto)
        invariant result == Processed ==> Poll(old(Now()), args, requestId, fileName, txt, alto) == (Now(), None)
        decreases |txt| - i, if result == Processed then 0 else 1
      {
        if i == |txt| {
          return Some(Waiting);
        }
        assert txt[i..][1..] == txt[i + 1..];
        result := DownloadResults(args.outputTxt, requestId, fileName, Txt, args.apiKey, txt[i]);
        if result == Fatal {
          return Some(Exit(-1));
        }
        if result == Processed {
          var altoResult := DownloadResults(args.outputAlto, requestId, fileName, Alto, args.apiKey, alto);
          if altoResult == Fatal {
            return Some(Exit(-1));
          }
        }
        i := i + 1;
      }
      return None;
    }

    /** main after the image is chosen: request, upload, poll, clean up. */
    method SubmitImage(args: Args, server: Server, image: Image, contentType: string) returns (outcome: Outcome)
      modifies this
      ensures (Now(), outcome) == Submit(old(Now()), args, server, image, contentType, tempDir)
    {
      sent := sent + [PostRequest(args.apiKey, CreateJson(image.fileName))];
      if server.post.code >= 400 {
        return Exit(-1);
      }
      if server.post.status != "success" {
        return Hangs;
      }
      var requestId := server.post.requestId;
      if image.path !in files {
        return Exit(-1);
      }
      sent := sent + [UploadRequest(args.apiKey, requestId, image.fileName, image.path, contentType)];
      if server.upload >= 400 {
        return Exit(-1);
      }
      var stop := PollResults(args, requestId, image.fileName, server.txt, server.alto);
      if stop.Some? {
        return stop.value;
      }
      if image.converted {
        if image.path !in files {
          return Raised;
        }
        files := files - {image.path};
      }
      dirs := dirs - {tempDir};
      return Exit(0);
    }

    /** The script's main function, from argument parsing to the cleanup. */
    method RunScript(args: Args, server: Server) returns (outcome: Outcome)
      modifies this
      ensures (Now(), outcome) == Run(old(Now()), args, server, tempDir)
    {
      dirs := dirs + {tempDir};
      if (args.outputTxt in files || args.outputTxt in dirs) && (args.outputAlto in files || args.outputAlto in dirs) {
        return Exit(0);
      }
      var prepared := PrepareImage(args, server.conversion);
      if prepared.Stopped? {
        return prepared.outcome;
      }
      var contentType := ContentType(prepared.image.extension);
      if contentType.None? {
        return Exit(-1);
      }
      outcome := SubmitImage(args, server, prepared.image, contentType.value);
    }
  }
}
