/**
 * The checks AudioConverter wraps around its ffmpeg call: the M4A signature test, the
 * empty-input test, ffmpeg's presence and exit code, and the size of the WAV it
 * produced. Writing the temporary file, starting the process and reading the output are
 * effects of the environment; `Env` says how each of them turned out, and a conversion
 * reports the effects it performed, in order, as `steps`.
 */
module Audio {

  import opened Wrappers
  import opened Bytes
  import opened Strings

  /** Length of a canonical WAV header; shorter output counts as corrupt. */
  const WavHeaderSize: nat := 44

  /** ASCII "ftyp". */
  const FtypSignature: seq<byte> := [0x66, 0x74, 0x79, 0x70]

  /** The accepted brands, as the ASCII decoder produces them. */
  const Brands: set<string> := {"M4A ", "mp42", "isom"}

  /** One byte through `Encoding.ASCII`: bytes above 0x7F decode to the replacement character '?'. */
  function AsciiChar(x: byte): char
  {
    if x < 0x80 then x as int as char else '?'
  }

  /** `Encoding.ASCII.GetString`. */
  function AsciiGetString(b: seq<byte>): (s: string)
  {
    seq(|b|, i requires 0 <= i < |b| => AsciiChar(b[i]))
  }

  /**
   * `IsValidM4A`: at least 12 bytes, an ISO base-media `ftyp` box at offset 4, and a
   * brand at offset 8 that decodes to one of the accepted ones.
   */
  predicate IsValidM4A(data: seq<byte>)
  {
    && |data| >= 12
    && (forall i :: 0 <= i < 4 ==> data[i + 4] == FtypSignature[i])
    && AsciiGetString(data[8..12]) in Brands
  }

  /** The brands as raw bytes: "M4A ", "mp42", "isom". */
  const BrandBytes: set<seq<byte>> :=
    {[0x4D, 0x34, 0x41, 0x20], [0x6D, 0x70, 0x34, 0x32], [0x69, 0x73, 0x6F, 0x6D]}

  /**
   * The signature test in raw bytes: a byte above 0x7F decodes to '?', which no accepted
   * brand contains, so only the three exact four-byte brands pass.
   */
  lemma IsValidM4AExactly(data: seq<byte>)
    ensures IsValidM4A(data) <==> |data| >= 12 && data[4..8] == FtypSignature && data[8..12] in BrandBytes
  {
    if |data| >= 12 {
      var b := data[8..12];
      var s := AsciiGetString(b);
      assert s == [AsciiChar(b[0]), AsciiChar(b[1]), AsciiChar(b[2]), AsciiChar(b[3])];
      assert b == [b[0], b[1], b[2], b[3]];
      var ftyp := forall i :: 0 <= i < 4 ==> data[i + 4] == FtypSignature[i];
      assert ftyp <==> data[4..8] == FtypSignature by {
        if ftyp { assert data[4..8] == [data[4], data[5], data[6], data[7]]; }
        if data[4..8] == FtypSignature {
          forall i | 0 <= i < 4 ensures data[i + 4] == FtypSignature[i] { assert data[4..8][i] == data[i + 4]; }
        }
      }
    }
  }

  /** Inputs shorter than 12 bytes never pass. */
  lemma ShortInputIsNotM4A(data: seq<byte>)
    requires |data| < 12
    ensures !IsValidM4A(data)
  {
  }

  /** A minimal valid header: size field, "ftyp", brand "M4A ". */
  lemma M4AHeaderIsValid(size: seq<byte>, rest: seq<byte>)
    requires |size| == 4
    ensures IsValidM4A(size + FtypSignature + [0x4D, 0x34, 0x41, 0x20] + rest)
  {
    var d := size + FtypSignature + [0x4D, 0x34, 0x41, 0x20] + rest;
    assert d[4..8] == FtypSignature;
    assert d[8..12] == [0x4D, 0x34, 0x41, 0x20];
    IsValidM4AExactly(d);
  }

  /** The fixed parts of the ffmpeg command line around the two quoted paths. */
  const ArgsOpen: string := "-i \""
  const ArgsMiddle: string := "\" -acodec pcm_s16le -ar 16000 -ac 1 \""
  const ArgsClose: string := "\""

  /** The ffmpeg command line: `-i "<in>" -acodec pcm_s16le -ar 16000 -ac 1 "<out>"`. */
  function FfmpegArguments(inPath: string, outPath: string): string
  {
    ArgsOpen + inPath + ArgsMiddle + outPath + ArgsClose
  }

  /**
   * Reads the two paths back out of `open + <in> + middle + <out> + '"'`; the input
   * path ends at the first quote after `open`.
   */
  function SplitQuoted(args: string, open: string, middle: string): Option<(string, string)>
  {
    if !(open <= args) then None else SplitAfterOpen(args[|open|..], middle)
  }

  /** The same, on what follows the opening part. */
  function SplitAfterOpen(r: string, middle: string): Option<(string, string)>
  {
    var q := IndexOf(r, '"');
    if q < 0 || !(middle <= r[q..]) then None
    else
      var tail := r[q + |middle|..];
      if tail == [] || tail[|tail| - 1] != '"' then None
      else Some((r[..q], tail[..|tail| - 1]))
  }

  /** Reads the two paths back out of an ffmpeg command line. */
  function ParseFfmpegArguments(args: string): Option<(string, string)>
  {
    SplitQuoted(args, ArgsOpen, ArgsMiddle)
  }

  lemma SplitAfterOpenOfJoin(middle: string, inPath: string, outPath: string)
    requires middle != [] && middle[0] == '"'
    requires '"' !in inPath
    ensures SplitAfterOpen(inPath + middle + (outPath + ['"']), middle) == Some((inPath, outPath))
  {
    var tail := outPath + ['"'];
    var after := middle + tail;
    var rest := inPath + after;
    assert inPath + middle + tail == rest;
    FirstQuoteAfter(inPath, after);
    var q := |inPath|;
    assert rest[q..] == after;
    assert after[..|middle|] == middle && after[|middle|..] == tail;
    assert rest[q + |middle|..] == tail;
    assert tail[|tail| - 1] == '"' && tail[..|tail| - 1] == outPath;
  }

  lemma SplitQuotedOfJoin(open: string, middle: string, inPath: string, outPath: string)
    requires middle != [] && middle[0] == '"'
    requires '"' !in inPath
    ensures SplitQuoted(open + inPath + middle + outPath + ['"'], open, middle) == Some((inPath, outPath))
  {
    var rest := inPath + middle + (outPath + ['"']);
    var args := open + rest;
    assert open + inPath + middle + outPath + ['"'] == args;
    assert args[..|open|] == open && args[|open|..] == rest;
    SplitAfterOpenOfJoin(middle, inPath, outPath);
  }

  /**
   * The command line is unambiguous: when the input path holds no quote character (the
   * temporary paths are built from a GUID), ffmpeg's input and output paths are exactly
   * the ones the converter generated.
   */
  lemma FfmpegArgumentsRoundTrip(inPath: string, outPath: string)
    requires '"' !in inPath
    ensures ParseFfmpegArguments(FfmpegArguments(inPath, outPath)) == Some((inPath, outPath))
  {
    assert ArgsClose == ['"'] && ArgsMiddle[0] == '"';
    SplitQuotedOfJoin(ArgsOpen, ArgsMiddle, inPath, outPath);
  }

  lemma FirstQuoteAfter(prefix: string, rest: string)
    requires '"' !in prefix
    requires rest != [] && rest[0] == '"'
    ensures IndexOf(prefix + rest, '"') == |prefix|
    ensures (prefix + rest)[..|prefix|] == prefix
  {
    var s := prefix + rest;
    assert s[|prefix|] == '"';
    assert s[..|prefix|] == prefix;
  }

  /** Why a conversion failed; `EmptyInput` is the ArgumentNullException, all others InvalidOperationException. */
  datatype ConvertError =
    | EmptyInput
    | InvalidSignature
    | TempWriteFailed
    | FfmpegNotFound
    | FfmpegStartFailed
    | FfmpegExitCode(code: int)
    | OutputMissingOrCorrupt
    | OutputReadFailed

  /** The effects a conversion performs. */
  datatype Step =
    | WriteTemp(path: string, data: seq<byte>)
    | RunFfmpeg(arguments: string)
    | ReadOutput(path: string)

  /**
   * How the environment answers: whether the temp file write succeeds, whether
   * ffmpeg.exe exists and starts, its exit code, the WAV file it leaves (None: no file),
   * and whether reading it back succeeds.
   */
  datatype Env = Env(
    writeOk: bool,
    ffmpegPresent: bool,
    startOk: bool,
    exitCode: int,
    wavFile: Option<seq<byte>>,
    readOk: bool)

  datatype Conversion = Conversion(result: Result<seq<byte>, ConvertError>, steps: seq<Step>)

  /** `ExecuteFFmpegConversionAsync`: the presence check, the start, and the exit-code check. */
  function ExecuteFfmpeg(inPath: string, outPath: string, env: Env): (c: Conversion)
  {
    if !env.ffmpegPresent then Conversion(Failure(FfmpegNotFound), [])
    else if !env.startOk then Conversion(Failure(FfmpegStartFailed), [])
    else
      var ran := [RunFfmpeg(FfmpegArguments(inPath, outPath))];
      if env.exitCode != 0 then Conversion(Failure(FfmpegExitCode(env.exitCode)), ran)
      else Conversion(Success([]), ran)
  }

  /** `ConvertM4AToWav(m4aData)` with its temporary paths given. */
  function ConvertM4AToWav(data: seq<byte>, inPath: string, outPath: string, env: Env): (c: Conversion)
    ensures data == [] ==> c == Conversion(Failure(EmptyInput), [])
    ensures data != [] && !IsValidM4A(data) ==> c == Conversion(Failure(InvalidSignature), [])
    ensures RunFfmpeg(FfmpegArguments(inPath, outPath)) in c.steps ==> data != [] && IsValidM4A(data) && env.writeOk
    ensures c.result.Success? ==>
      && IsValidM4A(data)
      && env.exitCode == 0
      && env.wavFile == Some(c.result.value)
      && |c.result.value| >= WavHeaderSize
      && c.steps == [WriteTemp(inPath, data), RunFfmpeg(FfmpegArguments(inPath, outPath)), ReadOutput(outPath)]
  {
    if |data| == 0 then Conversion(Failure(EmptyInput), [])
    else if !IsValidM4A(data) then Conversion(Failure(InvalidSignature), [])
    else if !env.writeOk then Conversion(Failure(TempWriteFailed), [])
    else
      var wrote := [WriteTemp(inPath, data)];
      var ff := ExecuteFfmpeg(inPath, outPath, env);
      if ff.result.Failure? then Conversion(ff.result, wrote + ff.steps)
      else if env.wavFile.None? || |env.wavFile.value| < WavHeaderSize then
        Conversion(Failure(OutputMissingOrCorrupt), wrote + ff.steps)
      else if !env.readOk then Conversion(Failure(OutputReadFailed), wrote + ff.steps)
      else Conversion(Success(env.wavFile.value), wrote + ff.steps + [ReadOutput(outPath)])
  }

  /** Data without a valid signature is rejected before the temp file is written or ffmpeg runs. */
  lemma InvalidSignatureRejectedBeforeEffects(data: seq<byte>, inPath: string, outPath: string, env: Env)
    requires data != []
    requires |data| < 12 || !(data[4..8] == FtypSignature && data[8..12] in BrandBytes)
    ensures ConvertM4AToWav(data, inPath, outPath, env) == Conversion(Failure(InvalidSignature), [])
  {
    IsValidM4AExactly(data);
  }

  /** A non-zero exit code always fails the conversion, after ffmpeg has run. */
  lemma NonZeroExitFails(data: seq<byte>, inPath: string, outPath: string, env: Env)
    requires IsValidM4A(data) && env.writeOk && env.ffmpegPresent && env.startOk
    requires env.exitCode != 0
    ensures ConvertM4AToWav(data, inPath, outPath, env)
         == Conversion(Failure(FfmpegExitCode(env.exitCode)),
                       [WriteTemp(inPath, data), RunFfmpeg(FfmpegArguments(inPath, outPath))])
  {
  }

  /** Output shorter than a WAV header, or none at all, fails even when ffmpeg exits with 0. */
  lemma ShortOutputFails(data: seq<byte>, inPath: string, outPath: string, env: Env)
    requires IsValidM4A(data) && env.writeOk && env.ffmpegPresent && env.startOk && env.exitCode == 0
    requires env.wavFile.None? || |env.wavFile.value| < WavHeaderSize
    ensures ConvertM4AToWav(data, inPath, outPath, env).result == Failure(OutputMissingOrCorrupt)
  {
  }

  /**
   * A conversion succeeds exactly when every check passes: a valid signature, the temp
   * write, ffmpeg found, started and exiting with 0, a WAV of at least a header's size, and
   * its read; the result is then that WAV.
   */
  lemma ConversionSucceeds(data: seq<byte>, inPath: string, outPath: string, env: Env)
    ensures ConvertM4AToWav(data, inPath, outPath, env).result.Success?
        <==> && IsValidM4A(data) && env.writeOk && env.ffmpegPresent && env.startOk
             && env.exitCode == 0 && env.wavFile.Some? && |env.wavFile.value| >= WavHeaderSize
             && env.readOk
    ensures ConvertM4AToWav(data, inPath, outPath, env).result.Success? ==>
      ConvertM4AToWav(data, inPath, outPath, env).result == Success(env.wavFile.value)
  {
  }
}
