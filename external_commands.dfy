// The command lines handed to the OCR engine and the checks of what the
// engine left behind.  Files are paths with a length; a path absent from the
// map does not exist.  Command-line entries are options because a null
// argument from the configuration is added to the list as is.
module ExternalCommands {
  import opened Wrappers
  import opened JavaText
  import opened Engines

  /** Absolute path -> length of the existing files. */
  type Files = map<string, nat>

  type CmdLine = seq<Option<string>>

  function AsArgs(xs: seq<string>): (r: CmdLine)
    ensures |r| == |xs|
    ensures forall i :: 0 <= i < |xs| ==> r[i] == Some(xs[i])
  {
    if |xs| == 0 then [] else [Some(xs[0])] + AsArgs(xs[1..])
  }

  /** The engine's results are usable: the OCR file exists (it may be empty), the ALTO file exists and is non-empty. */
  predicate OutputsOk(files: Files, outAlto: string, outOcr: string)
  {
    outOcr in files && outAlto in files && files[outAlto] > 0
  }

  // ---------------------------------------------------------------------
  // GenerateSingleExternalProcess

  /** The single-image command line. */
  function SingleCmdLine(config: EngineConfig, inImage: string, outAlto: string, outOcr: string): CmdLine
  {
    [Some(config.exec), Some(config.entry),
     config.inImageArg, Some(inImage),
     config.outAltoArg, Some(outAlto),
     config.outOcrArg, Some(outOcr)]
    + AsArgs(config.additionalArgs)
  }

  /** GenerateSingleExternalProcess.buildCmdLine */
  method BuildSingleCmdLine(config: EngineConfig, inImage: string, outAlto: string, outOcr: string)
    returns (cmd: CmdLine)
    ensures cmd == SingleCmdLine(config, inImage, outAlto, outOcr)
  {
    cmd := [Some(config.exec), Some(config.entry)];
    cmd := cmd + [config.inImageArg, Some(inImage)];
    cmd := cmd + [config.outAltoArg, Some(outAlto)];
    cmd := cmd + [config.outOcrArg, Some(outOcr)];
    var i := 0;
    while i < |config.additionalArgs|
      invariant 0 <= i <= |config.additionalArgs|
      invariant cmd == SingleCmdLine(config, inImage, outAlto, outOcr)[..8 + i]
    {
      cmd := cmd + [Some(config.additionalArgs[i])];
      i := i + 1;
    }
  }

  /**
   * The command line is the executable, the entry point, each of the three
   * argument names followed by its path, then the additional arguments in
   * their order; a configuration that passes the argument check puts no
   * null on it.
   */
  lemma SingleCmdLineShape(config: EngineConfig, inImage: string, outAlto: string, outOcr: string)
    ensures var cmd := SingleCmdLine(config, inImage, outAlto, outOcr);
      |cmd| == 8 + |config.additionalArgs|
      && cmd[2] == config.inImageArg && cmd[3] == Some(inImage)
      && cmd[4] == config.outAltoArg && cmd[5] == Some(outAlto)
      && cmd[6] == config.outOcrArg && cmd[7] == Some(outOcr)
      && (forall i :: 0 <= i < |config.additionalArgs| ==> cmd[8 + i] == Some(config.additionalArgs[i]))
    ensures !IsBatchMode(config) && IsValidEngineArgs(config) ==>
      None !in SingleCmdLine(config, inImage, outAlto, outOcr)
  {
  }

  /** GenerateSingleExternalProcess.isOk */
  predicate SingleIsOk(files: Files, outAlto: string, outOcr: string)
  {
    OutputsOk(files, outAlto, outOcr)
  }

  // ---------------------------------------------------------------------
  // GenerateBatchExternalProcess

  datatype DataTriplet = DataTriplet(inImage: string, outAlto: string, outOcr: string)

  /** DataTriplet.toString */
  function TripletText(t: DataTriplet): string
  {
    t.inImage + "," + t.outAlto + "," + t.outOcr
  }

  /** DataTriplet.isOk */
  predicate TripletOk(files: Files, t: DataTriplet)
  {
    OutputsOk(files, t.outAlto, t.outOcr)
  }

  /** GenerateBatchExternalProcess.isOk: `allMatch`, which holds of an empty list. */
  function AllTripletsOk(files: Files, ts: seq<DataTriplet>): (ok: bool)
    ensures ok <==> forall i :: 0 <= i < |ts| ==> TripletOk(files, ts[i])
  {
    if |ts| == 0 then true
    else
      assert forall i :: 1 <= i < |ts| ==> ts[i] == ts[1..][i - 1];
      TripletOk(files, ts[0]) && AllTripletsOk(files, ts[1..])
  }

  /** The triplets file as buildCmdLine writes it: each toString, nothing between them. */
  function TripletsFileAsWritten(ts: seq<DataTriplet>): string
  {
    if |ts| == 0 then "" else TripletText(ts[0]) + TripletsFileAsWritten(ts[1..])
  }

  /** The triplets file with one triplet per line. */
  function TripletsFile(ts: seq<DataTriplet>): string
  {
    if |ts| == 0 then "" else TripletText(ts[0]) + "\n" + TripletsFile(ts[1..])
  }

  function TripletLines(ts: seq<DataTriplet>): (r: seq<string>)
    ensures |r| == |ts|
    ensures forall i :: 0 <= i < |ts| ==> r[i] == TripletText(ts[i])
  {
    if |ts| == 0 then [] else [TripletText(ts[0])] + TripletLines(ts[1..])
  }

  /** A path as the engine sees it in the triplets file: no field or line separator in it. */
  predicate PlainPath(p: string)
  {
    ',' !in p && '\n' !in p
  }

  predicate PlainTriplet(t: DataTriplet)
  {
    PlainPath(t.inImage) && PlainPath(t.outAlto) && PlainPath(t.outOcr)
  }

  /** A triplet's text splits back into its three paths. */
  lemma TripletTextFields(t: DataTriplet)
    requires PlainTriplet(t)
    ensures SplitAll(TripletText(t), ',') == [t.inImage, t.outAlto, t.outOcr]
    ensures '\n' !in TripletText(t)
  {
    SplitAllCons(t.inImage, ',', t.outAlto + "," + t.outOcr);
    SplitAllTwo(t.outAlto, ',', t.outOcr);
    assert TripletText(t) == t.inImage + [','] + (t.outAlto + [','] + t.outOcr);
  }

  /**
   * As written, two triplets run together: the first one's OCR path and the
   * second one's image path end up in one field, and no line break separates
   * them.
   */
  lemma TripletsRunTogether(t1: DataTriplet, t2: DataTriplet)
    requires PlainTriplet(t1) && PlainTriplet(t2)
    ensures var text := TripletsFileAsWritten([t1, t2]);
      '\n' !in text
      && SplitAll(text, ',') == [t1.inImage, t1.outAlto, t1.outOcr + t2.inImage, t2.outAlto, t2.outOcr]
  {
    var a, b, c, d, e := t1.inImage, t1.outAlto, t1.outOcr + t2.inImage, t2.outAlto, t2.outOcr;
    var parts := [a, b, c, d, e];
    var text := TripletsFileAsWritten([t1, t2]);
    assert text == TripletText(t1) + TripletText(t2) by {
      assert [t1, t2][1..] == [t2];
      assert TripletsFileAsWritten([t2]) == TripletText(t2);
    }
    TripletTextFields(t1);
    TripletTextFields(t2);
    JoinFive(a, b, c, d, e);
    Regroup(t1.inImage, t1.outAlto, t1.outOcr, t2.inImage, t2.outAlto, t2.outOcr);
    NotInConcat(t1.outOcr, t2.inImage, ',');
    assert forall k :: 0 <= k < |parts| ==> ',' !in parts[k] by {
      assert parts[0] == a && parts[1] == b && parts[2] == c && parts[3] == d && parts[4] == e;
    }
    SplitAllOfJoin(parts, ',');
  }

  lemma NotInConcat(x: string, y: string, ch: char)
    requires ch !in x && ch !in y
    ensures ch !in x + y
  {
    forall k | 0 <= k < |x + y| ensures (x + y)[k] != ch {
      if k < |x| {
        assert (x + y)[k] == x[k];
      } else {
        assert (x + y)[k] == y[k - |x|];
      }
    }
  }

  /** Two triplet texts side by side, regrouped around the comma-free join of the middle paths. */
  lemma Regroup(a: string, b: string, o1: string, i2: string, d: string, e: string)
    ensures (a + "," + b + "," + o1) + (i2 + "," + d + "," + e) == a + "," + b + "," + (o1 + i2) + "," + d + "," + e
  {
  }

  lemma JoinFive(a: string, b: string, c: string, d: string, e: string)
    ensures Join([a, b, c, d, e], [',']) == a + "," + b + "," + c + "," + d + "," + e
  {
    assert [a, b, c, d, e][1..] == [b, c, d, e];
    assert [b, c, d, e][1..] == [c, d, e];
    assert [c, d, e][1..] == [d, e];
    assert [d, e][1..] == [e];
    assert Join([d, e], [',']) == d + "," + e;
    assert Join([c, d, e], [',']) == c + "," + (d + "," + e);
    assert Join([b, c, d, e], [',']) == b + "," + (c + "," + (d + "," + e));
    assert Join([a, b, c, d, e], [',']) == a + "," + (b + "," + (c + "," + (d + "," + e)));
  }

  /**
   * One triplet per line: the file splits into the triplets' lines (and the
   * empty text after the last line break), and each line into its paths.
   */
  lemma {:induction false} TripletsFileLines(ts: seq<DataTriplet>)
    requires forall i :: 0 <= i < |ts| ==> PlainTriplet(ts[i])
    ensures SplitAll(TripletsFile(ts), '\n') == TripletLines(ts) + [""]
  {
    if |ts| == 0 {
      assert SplitAll("", '\n') == [""];
    } else {
      var head := TripletText(ts[0]);
      TripletTextFields(ts[0]);
      assert forall i :: 0 <= i < |ts[1..]| ==> ts[1..][i] == ts[i + 1];
      calc {
        SplitAll(TripletsFile(ts), '\n');
        SplitAll(head + ['\n'] + TripletsFile(ts[1..]), '\n');
        { SplitAllCons(head, '\n', TripletsFile(ts[1..])); }
        [head] + SplitAll(TripletsFile(ts[1..]), '\n');
        { TripletsFileLines(ts[1..]); }
        [head] + (TripletLines(ts[1..]) + [""]);
        ([head] + TripletLines(ts[1..])) + [""];
        TripletLines(ts) + [""];
      }
    }
  }

  /** Reading the file back line by line and field by field gives the triplets' paths. */
  lemma TripletsFileRoundTrip(ts: seq<DataTriplet>, i: nat)
    requires forall k :: 0 <= k < |ts| ==> PlainTriplet(ts[k])
    requires i < |ts|
    ensures var lines := SplitAll(TripletsFile(ts), '\n');
      |lines| == |ts| + 1
      && SplitAll(lines[i], ',') == [ts[i].inImage, ts[i].outAlto, ts[i].outOcr]
  {
    TripletsFileLines(ts);
    TripletTextFields(ts[i]);
  }

  /** The batch command line. */
  function BatchCmdLine(config: EngineConfig, tripletsPath: string): CmdLine
  {
    [Some(config.exec), Some(config.entry), config.dataTripletsArg, Some(tripletsPath)]
    + AsArgs(config.additionalArgs)
  }

  /**
   * GenerateBatchExternalProcess.buildCmdLine: the triplets file's content,
   * one triplet per line, and the command line that points the engine at it.
   */
  method BuildBatchCmdLine(config: EngineConfig, tripletsPath: string, ts: seq<DataTriplet>)
    returns (content: string, cmd: CmdLine)
    ensures content == TripletsFile(ts)
    ensures cmd == BatchCmdLine(config, tripletsPath)
  {
    var i := |ts|;
    content := "";
    while i > 0
      invariant 0 <= i <= |ts|
      invariant content == TripletsFile(ts[i..])
    {
      i := i - 1;
      assert ts[i..][1..] == ts[i + 1..];
      content := TripletText(ts[i]) + "\n" + content;
    }
    assert ts[0..] == ts;
    cmd := [Some(config.exec), Some(config.entry), config.dataTripletsArg, Some(tripletsPath)];
    var k := 0;
    while k < |config.additionalArgs|
      invariant 0 <= k <= |config.additionalArgs|
      invariant cmd == BatchCmdLine(config, tripletsPath)[..4 + k]
    {
      cmd := cmd + [Some(config.additionalArgs[k])];
      k := k + 1;
    }
  }

  /** The batch command line: executable, entry, the triplet-file argument and path, then the additional arguments. */
  lemma BatchCmdLineShape(config: EngineConfig, tripletsPath: string)
    ensures var cmd := BatchCmdLine(config, tripletsPath);
      |cmd| == 4 + |config.additionalArgs|
      && cmd[2] == config.dataTripletsArg && cmd[3] == Some(tripletsPath)
      && (forall i :: 0 <= i < |config.additionalArgs| ==> cmd[4 + i] == Some(config.additionalArgs[i]))
    ensures IsBatchMode(config) && IsValidEngineArgs(config) ==> None !in BatchCmdLine(config, tripletsPath)
  {
  }

  // ---------------------------------------------------------------------
  // AltoOcrGeneratorExternalProcess (the older single-image runner)

  /** ProcessorsConfig.ProcessorConfig: nothing is validated, everything may be null. */
  datatype ProcessorConfig = ProcessorConfig(
    exec: Option<string>,
    entry: Option<string>,
    inImageArg: Option<string>,
    outAltoArg: Option<string>,
    outOcrArg: Option<string>,
    additionalArgs: seq<string>,
    timeout: Option<int>)

  datatype RunRefusal =
    | InputMissing(path: string)    // IllegalStateException(path + " not exists!")
    | OutputExists(path: string)    // IllegalStateException(path + " exists!")

  /** The checks run makes before starting the engine, in their order; None lets it start. */
  function RunRefusalOf(files: Files, inImage: string, outAlto: string, outOcr: string): (r: Option<RunRefusal>)
    ensures r.None? <==> inImage in files && outAlto !in files && outOcr !in files
    ensures inImage !in files ==> r == Some(InputMissing(inImage))
    ensures inImage in files && outAlto in files ==> r == Some(OutputExists(outAlto))
    ensures inImage in files && outAlto !in files && outOcr in files ==> r == Some(OutputExists(outOcr))
  {
    if inImage !in files then Some(InputMissing(inImage))
    else if outAlto in files then Some(OutputExists(outAlto))
    else if outOcr in files then Some(OutputExists(outOcr))
    else None
  }

  function LegacyCmdLine(config: ProcessorConfig, inImage: string, outAlto: string, outOcr: string): CmdLine
  {
    [config.exec, config.entry,
     config.inImageArg, Some(inImage),
     config.outAltoArg, Some(outAlto),
     config.outOcrArg, Some(outOcr)]
    + AsArgs(config.additionalArgs)
  }

  /** AltoOcrGeneratorExternalProcess.buildCmdLine */
  method BuildLegacyCmdLine(config: ProcessorConfig, inImage: string, outAlto: string, outOcr: string)
    returns (cmd: CmdLine)
    ensures cmd == LegacyCmdLine(config, inImage, outAlto, outOcr)
  {
    cmd := [config.exec, config.entry, config.inImageArg, Some(inImage),
            config.outAltoArg, Some(outAlto), config.outOcrArg, Some(outOcr)];
    var i := 0;
    while i < |config.additionalArgs|
      invariant 0 <= i <= |config.additionalArgs|
      invariant cmd == LegacyCmdLine(config, inImage, outAlto, outOcr)[..8 + i]
    {
      cmd := cmd + [Some(config.additionalArgs[i])];
      i := i + 1;
    }
  }

  /** The older runner builds the same command line as the current single-image one, given the same values. */
  lemma LegacyCmdLineAgrees(config: EngineConfig, inImage: string, outAlto: string, outOcr: string)
    ensures LegacyCmdLine(ProcessorConfig(Some(config.exec), Some(config.entry), config.inImageArg,
                                          config.outAltoArg, config.outOcrArg, config.additionalArgs,
                                          Some(config.timeout)), inImage, outAlto, outOcr)
         == SingleCmdLine(config, inImage, outAlto, outOcr)
  {
  }

  /** The older runner only starts the engine on fresh outputs, so a started run's isOk reflects this run alone. */
  lemma LegacyRunStartsFresh(files: Files, inImage: string, outAlto: string, outOcr: string)
    requires RunRefusalOf(files, inImage, outAlto, outOcr).None?
    ensures !OutputsOk(files, outAlto, outOcr)
  {
  }
}
