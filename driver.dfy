/** The benchmark driver: command-line parsing into the options record and the
    100-byte input-name buffer, derivation of the archive and output file names,
    and the return codes of `run_benchmark` and `main`. `atoi` and `fopen` are
    oracles given as parameters; opening and closing files is recorded as a ghost
    trace of file events. Behaviour the C standard leaves undefined (reading past
    `argv`, overflowing a name buffer, opening an uninitialised name) is an
    explicit `Undefined` outcome. */
module Driver {
  import opened Bench

  /** LIB_ZLIB, LIB_BZIP2, LIB_SNAPPY, LIB_LZO. */
  datatype Library = LibZlib | LibBzip2 | LibSnappy | LibLzo

  /** The `bench_options` record. */
  datatype Config = Config(iterations: int, level: Level, library: Library)

  /** The values `main` stores before parsing. */
  const Defaults := Config(1, High, LibZlib)

  /** The size of `input_file_name`, `arch_file_name` and `output_file_name`. */
  const NAME_CAPACITY: nat := 100

  /** Why a run has undefined behaviour. */
  datatype Fault =
    | IterationsValueMissing  // `-t` is the last argument: `atoi(argv[argc])` reads the null pointer
    | NameOverflow            // a `strcpy`/`strcat` writes past a 100-byte name buffer
    | NameUnset               // no argument named the input file: `fopen` reads an uninitialised buffer

  // ---------------------------------------------------------------------------
  // Parsing the command line

  /** What `get_options` makes of one argument. */
  datatype Arg = IterationsFlag | LevelFlag(level: Level) | LibraryFlag(library: Library) | Plain

  function Classify(arg: string): Arg
  {
    if arg == "-t" then IterationsFlag
    else if arg == "-l" then LevelFlag(Low)
    else if arg == "-h" then LevelFlag(High)
    else if arg == "--zlib" then LibraryFlag(LibZlib)
    else if arg == "--bzip2" then LibraryFlag(LibBzip2)
    else if arg == "--snappy" then LibraryFlag(LibSnappy)
    else if arg == "--lzo" then LibraryFlag(LibLzo)
    else Plain
  }

  /** The options record and the contents of the input-name buffer (`None` while
      nothing was copied into it). */
  datatype ParseState = ParseState(config: Config, name: Option<string>)

  datatype Parse = Parsed(state: ParseState) | ParseFault(fault: Fault)

  /** One iteration of the `get_options` loop, on argument `i`. */
  function StepArg(argv: seq<string>, atoi: string -> int, i: nat, p: ParseState): Parse
    requires i < |argv|
  {
    match Classify(argv[i])
    case IterationsFlag =>
      if i + 1 < |argv| then Parsed(p.(config := p.config.(iterations := atoi(argv[i + 1]))))
      else ParseFault(IterationsValueMissing)
    case LevelFlag(level) => Parsed(p.(config := p.config.(level := level)))
    case LibraryFlag(library) => Parsed(p.(config := p.config.(library := library)))
    case Plain =>
      if |argv[i]| < NAME_CAPACITY then Parsed(p.(name := Some(argv[i])))
      else ParseFault(NameOverflow)
  }

  /** Iterations `i` up to `argc` of the `get_options` loop. */
  function ParseFrom(argv: seq<string>, atoi: string -> int, i: nat, p: ParseState): Parse
    decreases |argv| - i
  {
    if i >= |argv| then Parsed(p)
    else
      match StepArg(argv, atoi, i, p)
      case ParseFault(fault) => ParseFault(fault)
      case Parsed(q) => ParseFrom(argv, atoi, i + 1, q)
  }

  /** What `main` gets from `get_options`: the loop from argument 1 on the defaults
      and an uninitialised name buffer. */
  function ParseArguments(argv: seq<string>, atoi: string -> int): Parse
  {
    ParseFrom(argv, atoi, 1, ParseState(Defaults, None))
  }

  /** Parsing succeeds exactly when no `-t` is the last argument and every
      argument that is not a flag fits the name buffer with its terminator. */
  ghost predicate WellFormedFrom(argv: seq<string>, i: nat)
  {
    forall k :: i <= k < |argv| ==>
      && (Classify(argv[k]) == IterationsFlag ==> k + 1 < |argv|)
      && (Classify(argv[k]) == Plain ==> |argv[k]| < NAME_CAPACITY)
  }

  lemma {:induction false} ParseSucceedsIff(argv: seq<string>, atoi: string -> int, i: nat, p: ParseState)
    ensures ParseFrom(argv, atoi, i, p).Parsed? <==> WellFormedFrom(argv, i)
    decreases |argv| - i
  {
    if i < |argv| {
      match StepArg(argv, atoi, i, p)
      case ParseFault(_) =>
      case Parsed(q) => ParseSucceedsIff(argv, atoi, i + 1, q);
    }
  }

  /** Without a later level flag, the level is the one parsing started with. */
  lemma {:induction false} LevelKeptWithoutLevelFlag(argv: seq<string>, atoi: string -> int, i: nat, p: ParseState)
    requires ParseFrom(argv, atoi, i, p).Parsed?
    requires forall k :: i <= k < |argv| ==> !Classify(argv[k]).LevelFlag?
    ensures ParseFrom(argv, atoi, i, p).state.config.level == p.config.level
    decreases |argv| - i
  {
    if i < |argv| {
      LevelKeptWithoutLevelFlag(argv, atoi, i + 1, StepArg(argv, atoi, i, p).state);
    }
  }

  /** The last `-l`/`-h` decides the level. */
  lemma {:induction false} LastLevelFlagWins(argv: seq<string>, atoi: string -> int, i: nat, p: ParseState, j: nat)
    requires ParseFrom(argv, atoi, i, p).Parsed?
    requires i <= j < |argv| && Classify(argv[j]).LevelFlag?
    requires forall k :: j < k < |argv| ==> !Classify(argv[k]).LevelFlag?
    ensures ParseFrom(argv, atoi, i, p).state.config.level == Classify(argv[j]).level
    decreases j - i
  {
    var q := StepArg(argv, atoi, i, p).state;
    if i < j {
      LastLevelFlagWins(argv, atoi, i + 1, q, j);
    } else {
      LevelKeptWithoutLevelFlag(argv, atoi, i + 1, q);
    }
  }

  /** Without a later library flag, the library is the one parsing started with. */
  lemma {:induction false} LibraryKeptWithoutLibraryFlag(argv: seq<string>, atoi: string -> int, i: nat, p: ParseState)
    requires ParseFrom(argv, atoi, i, p).Parsed?
    requires forall k :: i <= k < |argv| ==> !Classify(argv[k]).LibraryFlag?
    ensures ParseFrom(argv, atoi, i, p).state.config.library == p.config.library
    decreases |argv| - i
  {
    if i < |argv| {
      LibraryKeptWithoutLibraryFlag(argv, atoi, i + 1, StepArg(argv, atoi, i, p).state);
    }
  }

  /** The last of `--zlib`, `--bzip2`, `--snappy`, `--lzo` decides the library. */
  lemma {:induction false} LastLibraryFlagWins(argv: seq<string>, atoi: string -> int, i: nat, p: ParseState, j: nat)
    requires ParseFrom(argv, atoi, i, p).Parsed?
    requires i <= j < |argv| && Classify(argv[j]).LibraryFlag?
    requires forall k :: j < k < |argv| ==> !Classify(argv[k]).LibraryFlag?
    ensures ParseFrom(argv, atoi, i, p).state.config.library == Classify(argv[j]).library
    decreases j - i
  {
    var q := StepArg(argv, atoi, i, p).state;
    if i < j {
      LastLibraryFlagWins(argv, atoi, i + 1, q, j);
    } else {
      LibraryKeptWithoutLibraryFlag(argv, atoi, i + 1, q);
    }
  }

  /** Without a later `-t`, the iteration count is the one parsing started with. */
  lemma {:induction false} IterationsKeptWithoutFlag(argv: seq<string>, atoi: string -> int, i: nat, p: ParseState)
    requires ParseFrom(argv, atoi, i, p).Parsed?
    requires forall k :: i <= k < |argv| ==> Classify(argv[k]) != IterationsFlag
    ensures ParseFrom(argv, atoi, i, p).state.config.iterations == p.config.iterations
    decreases |argv| - i
  {
    if i < |argv| {
      IterationsKeptWithoutFlag(argv, atoi, i + 1, StepArg(argv, atoi, i, p).state);
    }
  }

  /** The last `-t` decides the iteration count, read from the argument after it. */
  lemma {:induction false} LastIterationsFlagWins(argv: seq<string>, atoi: string -> int, i: nat, p: ParseState, j: nat)
    requires ParseFrom(argv, atoi, i, p).Parsed?
    requires i <= j < |argv| && Classify(argv[j]) == IterationsFlag
    requires forall k :: j < k < |argv| ==> Classify(argv[k]) != IterationsFlag
    ensures j + 1 < |argv|
    ensures ParseFrom(argv, atoi, i, p).state.config.iterations == atoi(argv[j + 1])
    decreases j - i
  {
    var q := StepArg(argv, atoi, i, p).state;
    if i < j {
      LastIterationsFlagWins(argv, atoi, i + 1, q, j);
    } else {
      IterationsKeptWithoutFlag(argv, atoi, i + 1, q);
    }
  }

  /** Without a later argument that is not a flag, the name buffer keeps its contents. */
  lemma {:induction false} NameKeptWithoutPlainArgument(argv: seq<string>, atoi: string -> int, i: nat, p: ParseState)
    requires ParseFrom(argv, atoi, i, p).Parsed?
    requires forall k :: i <= k < |argv| ==> Classify(argv[k]) != Plain
    ensures ParseFrom(argv, atoi, i, p).state.name == p.name
    decreases |argv| - i
  {
    if i < |argv| {
      NameKeptWithoutPlainArgument(argv, atoi, i + 1, StepArg(argv, atoi, i, p).state);
    }
  }

  /** The last argument that is not a flag is the input file name. */
  lemma {:induction false} LastNameWins(argv: seq<string>, atoi: string -> int, i: nat, p: ParseState, j: nat)
    requires ParseFrom(argv, atoi, i, p).Parsed?
    requires i <= j < |argv| && Classify(argv[j]) == Plain
    requires forall k :: j < k < |argv| ==> Classify(argv[k]) != Plain
    ensures ParseFrom(argv, atoi, i, p).state.name == Some(argv[j])
    decreases j - i
  {
    var q := StepArg(argv, atoi, i, p).state;
    if i < j {
      LastNameWins(argv, atoi, i + 1, q, j);
    } else {
      NameKeptWithoutPlainArgument(argv, atoi, i + 1, q);
    }
  }

  /** With no flag on the command line, `main` runs with the defaults. */
  lemma DefaultsWithoutFlags(argv: seq<string>, atoi: string -> int)
    requires ParseArguments(argv, atoi).Parsed?
    requires forall k :: 1 <= k < |argv| ==> Classify(argv[k]) == Plain
    ensures ParseArguments(argv, atoi).state.config == Defaults
  {
    var start := ParseState(Defaults, None);
    LevelKeptWithoutLevelFlag(argv, atoi, 1, start);
    LibraryKeptWithoutLibraryFlag(argv, atoi, 1, start);
    IterationsKeptWithoutFlag(argv, atoi, 1, start);
  }

  /** `-t` does not skip its value: when nothing after it is a plain argument,
      the iteration count is also taken as the input file name. */
  lemma IterationsValueIsAlsoTheName(argv: seq<string>, atoi: string -> int, j: nat)
    requires ParseArguments(argv, atoi).Parsed?
    requires 1 <= j && j + 1 < |argv|
    requires Classify(argv[j]) == IterationsFlag && Classify(argv[j + 1]) == Plain
    requires forall k :: j + 1 < k < |argv| ==> Classify(argv[k]) != Plain && Classify(argv[k]) != IterationsFlag
    ensures ParseArguments(argv, atoi).state.config.iterations == atoi(argv[j + 1])
    ensures ParseArguments(argv, atoi).state.name == Some(argv[j + 1])
  {
    var start := ParseState(Defaults, None);
    LastIterationsFlagWins(argv, atoi, 1, start, j);
    LastNameWins(argv, atoi, 1, start, j + 1);
  }

  /** `bench -t 5` runs five iterations of the default codec on a file named "5". */
  lemma IterationsValueIsAlsoTheNameExample(atoi: string -> int)
    requires atoi("5") == 5
    ensures ParseArguments(["bench", "-t", "5"], atoi) == Parsed(ParseState(Config(5, High, LibZlib), Some("5")))
  {
  }

  // ---------------------------------------------------------------------------
  // The objects get_options writes through its pointers

  /** The `bench_options` record in `main`, written field by field. */
  class BenchOptions {
    var iterations: int
    var level: Level
    var library: Library

    function Value(): Config
      reads this
    {
      Config(iterations, level, library)
    }

    /** `main` sets the defaults before parsing. */
    constructor ()
      ensures Value() == Defaults
    {
      iterations := 1;
      level := High;
      library := LibZlib;
    }
  }

  const NUL: char := 0 as char

  /** A `char[100]` holding a C string: `len` is its `strlen`; `written` is false
      while nothing has been copied into the (uninitialised) buffer. */
  class NameBuffer {
    const data: array<char>
    var len: nat
    var written: bool

    ghost predicate Valid()
      reads this, data
    {
      data.Length == NAME_CAPACITY && len < data.Length && (written ==> data[len] == NUL)
    }

    /** The string the buffer holds, if any. */
    function Contents(): Option<string>
      requires Valid()
      reads this, data
    {
      if written then Some(data[..len]) else None
    }

    constructor ()
      ensures Valid() && fresh(data) && Contents() == None
    {
      data := new char[NAME_CAPACITY];
      len, written := 0, false;
    }

    /** `strcpy(buffer, s)`: fits when `s` and its terminator do; otherwise the
        copy would write past the buffer and nothing is written here. */
    method Strcpy(s: string) returns (ok: bool)
      requires Valid()
      modifies this, data
      ensures Valid()
      ensures ok <==> |s| < data.Length
      ensures ok ==> Contents() == Some(s)
      ensures !ok ==> Contents() == old(Contents())
    {
      if |s| >= data.Length {
        return false;
      }
      var i := 0;
      while i < |s|
        modifies data
        invariant 0 <= i <= |s|
        invariant data[..i] == s[..i]
      {
        data[i] := s[i];
        i := i + 1;
      }
      assert data[..|s|] == s;
      data[|s|] := NUL;
      assert data[..|s|] == s;
      len, written := |s|, true;
      ok := true;
    }

    /** `strcat(buffer, s)` on a buffer that holds a string: fits when the joined
        string and its terminator do. */
    method Strcat(s: string) returns (ok: bool)
      requires Valid() && written
      modifies this, data
      ensures Valid() && written
      ensures ok <==> old(len) + |s| < data.Length
      ensures ok ==> Contents() == Some(old(Contents()).value + s)
      ensures !ok ==> Contents() == old(Contents())
    {
      if len + |s| >= data.Length {
        return false;
      }
      var i := 0;
      while i < |s|
        modifies data
        invariant 0 <= i <= |s|
        invariant data[..len + i] == old(data[..len]) + s[..i]
      {
        data[len + i] := s[i];
        assert data[..len + i + 1] == data[..len + i] + [s[i]];
        assert s[..i + 1] == s[..i] + [s[i]];
        i := i + 1;
      }
      data[len + |s|] := NUL;
      assert data[..len + |s|] == old(data[..len]) + s;
      len := len + |s|;
      ok := true;
    }
  }

  /** `get_options`: the loop over `argv[1..argc]`, writing the options record and
      copying every argument that is not a flag into the name buffer. */
  method GetOptions(argv: seq<string>, atoi: string -> int, options: BenchOptions, inputFileName: NameBuffer)
    returns (fault: Option<Fault>)
    requires inputFileName.Valid()
    modifies options, inputFileName, inputFileName.data
    ensures inputFileName.Valid()
    ensures var r := ParseFrom(argv, atoi, 1, ParseState(old(options.Value()), old(inputFileName.Contents())));
      && (r.ParseFault? <==> fault.Some?)
      && (r.ParseFault? ==> fault.value == r.fault)
      && (r.Parsed? ==> options.Value() == r.state.config && inputFileName.Contents() == r.state.name)
  {
    var i: nat := 1;
    while i < |argv|
      invariant inputFileName.Valid()
      invariant ParseFrom(argv, atoi, i, ParseState(options.Value(), inputFileName.Contents()))
             == ParseFrom(argv, atoi, 1, ParseState(old(options.Value()), old(inputFileName.Contents())))
      decreases |argv| - i
    {
      var arg := argv[i];
      if arg == "-t" {
        if i + 1 >= |argv| {
          return Some(IterationsValueMissing);
        }
        options.iterations := atoi(argv[i + 1]);
      } else if arg == "-l" {
        options.level := Low;
      } else if arg == "-h" {
        options.level := High;
      } else if arg == "--zlib" {
        options.library := LibZlib;
      } else if arg == "--bzip2" {
        options.library := LibBzip2;
      } else if arg == "--snappy" {
        options.library := LibSnappy;
      } else if arg == "--lzo" {
        options.library := LibLzo;
      } else {
        var copied := inputFileName.Strcpy(arg);
        if !copied {
          return Some(NameOverflow);
        }
      }
      i := i + 1;
    }
    return None;
  }

  // ---------------------------------------------------------------------------
  // File names

  function Extension(library: Library): string
  {
    match library
    case LibZlib => ".zlib"
    case LibBzip2 => ".bz2"
    case LibSnappy => ".snappy"
    case LibLzo => ".lzo"
  }

  const OUTPUT_SUFFIX := "_dec"

  /** The archive file: the input name followed by the codec's extension. */
  function ArchiveName(name: string, library: Library): (archive: string)
    ensures |archive| == |name| + |Extension(library)|
  {
    name + Extension(library)
  }

  /** The decompressed file: the archive name followed by "_dec". */
  function OutputName(name: string, library: Library): (output: string)
    ensures |output| == |name| + |Extension(library)| + 4
  {
    ArchiveName(name, library) + OUTPUT_SUFFIX
  }

  /** Both derived names fit their 100-byte buffers with their terminators. */
  predicate NamesFit(name: string, library: Library)
  {
    |OutputName(name, library)| < NAME_CAPACITY
  }

  predicate EndsWith(s: string, suffix: string)
  {
    |suffix| <= |s| && s[|s| - |suffix|..] == suffix
  }

  function DropSuffix(s: string, n: nat): string
    requires n <= |s|
  {
    s[..|s| - n]
  }

  datatype NameParts = NameParts(name: string, library: Library)

  /** The input name and the codec an archive name was derived from. */
  function SplitArchiveName(archive: string): Option<NameParts>
  {
    if EndsWith(archive, ".zlib") then Some(NameParts(DropSuffix(archive, 5), LibZlib))
    else if EndsWith(archive, ".bz2") then Some(NameParts(DropSuffix(archive, 4), LibBzip2))
    else if EndsWith(archive, ".snappy") then Some(NameParts(DropSuffix(archive, 7), LibSnappy))
    else if EndsWith(archive, ".lzo") then Some(NameParts(DropSuffix(archive, 4), LibLzo))
    else None
  }

  /** The input name and the codec an output name was derived from. */
  function SplitOutputName(output: string): Option<NameParts>
  {
    if EndsWith(output, OUTPUT_SUFFIX) then SplitArchiveName(DropSuffix(output, 4)) else None
  }

  /** The four extensions end in four different characters, so a name ends with
      at most one of them. */
  lemma EndsWithOnlyItsOwnExtension(name: string, library: Library, other: Library)
    requires other != library
    ensures !EndsWith(ArchiveName(name, library), Extension(other))
  {
    var archive := ArchiveName(name, library);
    var own := Extension(library);
    var e := Extension(other);
    if |e| <= |archive| {
      assert archive[|archive| - 1] == own[|own| - 1];
      assert archive[|archive| - |e|..][|e| - 1] == archive[|archive| - 1];
      assert e[|e| - 1] != own[|own| - 1];
    }
  }

  /** The archive name determines the input name and the codec. */
  lemma ArchiveNameRoundTrip(name: string, library: Library)
    ensures SplitArchiveName(ArchiveName(name, library)) == Some(NameParts(name, library))
  {
    var archive := ArchiveName(name, library);
    assert archive[..|name|] == name && archive[|name|..] == Extension(library);
    // The extensions tested before this library's one do not match.
    if library != LibZlib {
      EndsWithOnlyItsOwnExtension(name, library, LibZlib);
    }
    if library == LibSnappy || library == LibLzo {
      EndsWithOnlyItsOwnExtension(name, library, LibBzip2);
    }
    if library == LibLzo {
      EndsWithOnlyItsOwnExtension(name, library, LibSnappy);
    }
  }

  /** Every name that splits is the archive name of its parts. */
  lemma SplitArchiveNameRoundTrip(archive: string)
    requires SplitArchiveName(archive).Some?
    ensures var parts := SplitArchiveName(archive).value; ArchiveName(parts.name, parts.library) == archive
  {
    var parts := SplitArchiveName(archive).value;
    var n := |Extension(parts.library)|;
    assert archive == archive[..|archive| - n] + archive[|archive| - n..];
  }

  /** The output name determines the input name and the codec. */
  lemma OutputNameRoundTrip(name: string, library: Library)
    ensures SplitOutputName(OutputName(name, library)) == Some(NameParts(name, library))
  {
    var output := OutputName(name, library);
    assert EndsWith(output, OUTPUT_SUFFIX);
    assert DropSuffix(output, 4) == ArchiveName(name, library);
    ArchiveNameRoundTrip(name, library);
  }

  /** Every name that splits as an output name is the output name of its parts. */
  lemma SplitOutputNameRoundTrip(output: string)
    requires SplitOutputName(output).Some?
    ensures var parts := SplitOutputName(output).value; OutputName(parts.name, parts.library) == output
  {
    var archive := DropSuffix(output, 4);
    SplitArchiveNameRoundTrip(archive);
    assert output == archive + output[|output| - 4..];
  }

  /** Different inputs or codecs never share an archive file, and neither derived
      file is the input itself or the other derived file. */
  lemma DerivedNamesDistinct(name: string, library: Library, name': string, library': Library)
    ensures ArchiveName(name, library) != name && OutputName(name, library) != name
    ensures OutputName(name, library) != ArchiveName(name, library)
    ensures ArchiveName(name, library) == ArchiveName(name', library') ==> name == name' && library == library'
    ensures OutputName(name, library) == OutputName(name', library') ==> name == name' && library == library'
  {
    ArchiveNameRoundTrip(name, library);
    ArchiveNameRoundTrip(name', library');
    OutputNameRoundTrip(name, library);
    OutputNameRoundTrip(name', library');
  }

  // ---------------------------------------------------------------------------
  // run_benchmark and main

  /** The codec runner `run_benchmark` hands the open files to. */
  datatype Runner =
    | RunZlib(level: Level, iterations: int)
    | RunBzip2(level: Level, iterations: int)
    | RunSnappy(iterations: int)
    | RunLzo(level: Level, iterations: int)

  function RunnerFor(config: Config): Runner
  {
    match config.library
    case LibZlib => RunZlib(config.level, config.iterations)
    case LibBzip2 => RunBzip2(config.level, config.iterations)
    case LibSnappy => RunSnappy(config.iterations)
    case LibLzo => RunLzo(config.level, config.iterations)
  }

  datatype FileEvent = Opened(name: string) | OpenFailed(name: string) | Closed(name: string) | Ran(runner: Runner)

  datatype Exit = Exited(code: int) | Undefined(fault: Fault)

  datatype Run = Run(exit: Exit, events: seq<FileEvent>)

  /** What `run_benchmark` does for an input name and options, given which names
      `fopen` can open. */
  ghost function Benchmark(name: string, config: Config, opens: string -> bool): Run
  {
    if !NamesFit(name, config.library) then Run(Undefined(NameOverflow), [])
    else
      var archive := ArchiveName(name, config.library);
      var output := OutputName(name, config.library);
      if !opens(archive) then Run(Exited(1), [OpenFailed(archive)])
      else if !opens(output) then Run(Exited(1), [Opened(archive), OpenFailed(output), Closed(archive)])
      else Run(Exited(0), [Opened(archive), Opened(output), Ran(RunnerFor(config)), Closed(archive), Closed(output)])
  }

  /** `run_benchmark`: the four library cases differ only in the extension and the
      runner, so they are written once. */
  method RunBenchmark(fileName: string, options: Config, opens: string -> bool) returns (exit: Exit, ghost events: seq<FileEvent>)
    ensures Run(exit, events) == Benchmark(fileName, options, opens)
  {
    var archFileName := new NameBuffer();
    var outputFileName := new NameBuffer();
    var fits := archFileName.Strcpy(fileName);
    if !fits {
      return Undefined(NameOverflow), [];
    }
    fits := archFileName.Strcat(Extension(options.library));
    if !fits {
      return Undefined(NameOverflow), [];
    }
    var archive := archFileName.data[..archFileName.len];
    fits := outputFileName.Strcpy(archive);
    if !fits {
      return Undefined(NameOverflow), [];
    }
    fits := outputFileName.Strcat(OUTPUT_SUFFIX);
    if !fits {
      return Undefined(NameOverflow), [];
    }
    var output := outputFileName.data[..outputFileName.len];
    if !opens(archive) {
      return Exited(1), [OpenFailed(archive)];
    }
    if !opens(output) {
      return Exited(1), [Opened(archive), OpenFailed(output), Closed(archive)];
    }
    events := [Opened(archive), Opened(output), Ran(RunnerFor(options)), Closed(archive), Closed(output)];
    return Exited(0), events;
  }

  /** The return codes of `run_benchmark`: 1 when the archive cannot be opened, 1
      after closing the archive when the output cannot be opened, 0 after a run. */
  lemma BenchmarkReturnCodes(name: string, config: Config, opens: string -> bool)
    requires NamesFit(name, config.library)
    ensures var r := Benchmark(name, config, opens);
      var archive := ArchiveName(name, config.library);
      var output := OutputName(name, config.library);
      && (r.exit == Exited(0) <==> opens(archive) && opens(output))
      && (r.exit == Exited(1) <==> !(opens(archive) && opens(output)))
      && (!opens(archive) ==> r.events == [OpenFailed(archive)])
      && (opens(archive) && !opens(output) ==> r.events == [Opened(archive), OpenFailed(output), Closed(archive)])
      && (r.exit == Exited(0) ==> Ran(RunnerFor(config)) in r.events)
  {
  }

  /** How often a trace opens, and closes, a given file. */
  function OpenCount(events: seq<FileEvent>, file: string): nat
  {
    if events == [] then 0 else (if events[0] == Opened(file) then 1 else 0) + OpenCount(events[1..], file)
  }

  function CloseCount(events: seq<FileEvent>, file: string): nat
  {
    if events == [] then 0 else (if events[0] == Closed(file) then 1 else 0) + CloseCount(events[1..], file)
  }

  lemma {:induction false} CountsOfConcatenation(a: seq<FileEvent>, b: seq<FileEvent>, file: string)
    ensures OpenCount(a + b, file) == OpenCount(a, file) + OpenCount(b, file)
    ensures CloseCount(a + b, file) == CloseCount(a, file) + CloseCount(b, file)
  {
    if a != [] {
      assert (a + b)[0] == a[0];
      assert (a + b)[1..] == a[1..] + b;
      CountsOfConcatenation(a[1..], b, file);
    } else {
      assert a + b == b;
    }
  }

  /** Every file `run_benchmark` opens, it closes, once. */
  lemma BenchmarkClosesWhatItOpens(name: string, config: Config, opens: string -> bool, file: string)
    ensures var r := Benchmark(name, config, opens); OpenCount(r.events, file) == CloseCount(r.events, file)
  {
    var r := Benchmark(name, config, opens);
    if NamesFit(name, config.library) {
      var archive := ArchiveName(name, config.library);
      var output := OutputName(name, config.library);
      if opens(archive) && opens(output) {
        var run := Ran(RunnerFor(config));
        CountsOfConcatenation([Opened(archive), Opened(output), run], [Closed(archive), Closed(output)], file);
        CountsOfConcatenation([Opened(archive)], [Opened(output), run], file);
        CountsOfConcatenation([Opened(output)], [run], file);
        CountsOfConcatenation([Closed(archive)], [Closed(output)], file);
        assert r.events == [Opened(archive), Opened(output), run] + [Closed(archive), Closed(output)];
        assert [Opened(archive), Opened(output), run] == [Opened(archive)] + [Opened(output), run];
        assert [Opened(output), run] == [Opened(output)] + [run];
        assert [Closed(archive), Closed(output)] == [Closed(archive)] + [Closed(output)];
      } else if opens(archive) {
        CountsOfConcatenation([Opened(archive)], [OpenFailed(output), Closed(archive)], file);
        CountsOfConcatenation([OpenFailed(output)], [Closed(archive)], file);
        assert r.events == [Opened(archive)] + [OpenFailed(output), Closed(archive)];
        assert [OpenFailed(output), Closed(archive)] == [OpenFailed(output)] + [Closed(archive)];
      }
    }
  }

  /** What `main` does: the argument count check, parsing, opening the input, and
      `run_benchmark`, whose result is not looked at. */
  ghost function MainSpec(argv: seq<string>, atoi: string -> int, opens: string -> bool): Run
  {
    if |argv| < 2 then Run(Exited(1), [])
    else
      match ParseArguments(argv, atoi)
      case ParseFault(fault) => Run(Undefined(fault), [])
      case Parsed(p) =>
        if p.name.None? then Run(Undefined(NameUnset), [])
        else
          var name := p.name.value;
          if !opens(name) then Run(Exited(1), [OpenFailed(name)])
          else
            var b := Benchmark(name, p.config, opens);
            if b.exit.Undefined? then Run(b.exit, [Opened(name)] + b.events)
            else Run(Exited(0), [Opened(name)] + b.events + [Closed(name)])
  }

  /** `main`, given the command line and the `atoi` and `fopen` oracles. */
  method Entry(argv: seq<string>, atoi: string -> int, opens: string -> bool) returns (exit: Exit, ghost events: seq<FileEvent>)
    ensures Run(exit, events) == MainSpec(argv, atoi, opens)
  {
    if |argv| < 2 {
      return Exited(1), [];
    }
    var options := new BenchOptions();
    var inputFileName := new NameBuffer();
    var fault := GetOptions(argv, atoi, options, inputFileName);
    if fault.Some? {
      return Undefined(fault.value), [];
    }
    if !inputFileName.written {
      return Undefined(NameUnset), [];
    }
    var name := inputFileName.data[..inputFileName.len];
    if !opens(name) {
      return Exited(1), [OpenFailed(name)];
    }
    var benchmarkExit, benchmarkEvents := RunBenchmark(name, options.Value(), opens);
    if benchmarkExit.Undefined? {
      return benchmarkExit, [Opened(name)] + benchmarkEvents;
    }
    return Exited(0), [Opened(name)] + benchmarkEvents + [Closed(name)];
  }

  /** With fewer than two arguments `main` returns 1 and touches no file. */
  lemma TooFewArguments(argv: seq<string>, atoi: string -> int, opens: string -> bool)
    requires |argv| < 2
    ensures MainSpec(argv, atoi, opens) == Run(Exited(1), [])
  {
  }

  /** `main` returns 0 exactly when the command line parses, names an input that
      opens, and the derived names fit, whatever happens in `run_benchmark`; it
      returns 1 exactly when there are too few arguments or the input does not open. */
  lemma MainExitCodes(argv: seq<string>, atoi: string -> int, opens: string -> bool)
    ensures var r := MainSpec(argv, atoi, opens);
      var p := ParseArguments(argv, atoi);
      && (r.exit == Exited(0) <==>
            |argv| >= 2 && p.Parsed? && p.state.name.Some? && opens(p.state.name.value)
            && NamesFit(p.state.name.value, p.state.config.library))
      && (r.exit == Exited(1) <==>
            |argv| < 2 || (p.Parsed? && p.state.name.Some? && !opens(p.state.name.value)))
  {
  }

  /** Whenever `main` returns, every file it opened has been closed. */
  lemma MainClosesWhatItOpens(argv: seq<string>, atoi: string -> int, opens: string -> bool, file: string)
    requires MainSpec(argv, atoi, opens).exit.Exited?
    ensures var r := MainSpec(argv, atoi, opens); OpenCount(r.events, file) == CloseCount(r.events, file)
  {
    var r := MainSpec(argv, atoi, opens);
    if |argv| >= 2 && r.events != [] && r.events[0].Opened? {
      var p := ParseArguments(argv, atoi).state;
      var name := p.name.value;
      var b := Benchmark(name, p.config, opens);
      BenchmarkClosesWhatItOpens(name, p.config, opens, file);
      CountsOfConcatenation([Opened(name)] + b.events, [Closed(name)], file);
      CountsOfConcatenation([Opened(name)], b.events, file);
    }
  }
}
