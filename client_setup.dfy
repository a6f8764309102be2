/**
 * client/client_setup.go: choosing the output stream of `get` and the input
 * stream of `create`. The file system is the injected FileOpener; the model
 * takes it as a pair of total functions from the call's arguments to what the
 * call gives back, so any opener, including a test double, can be passed.
 */
module Client {
  import opened Wrappers

  /** What one call of the opener gives back: an open file, or an error with its message. */
  datatype Opened<H> = File(handle: H) | Error(message: string)

  /** client/client_setup.go:9-13: OpenFile(name, flag, perm) and Open(name). */
  datatype FileOpener<H> = FileOpener(openFile: (string, int, int) -> Opened<H>, open: string -> Opened<H>)

  /**
   * os.O_CREATE (its Linux value) and os.ModePerm (0777), the arguments SetupGetOutput passes.
   * O_CREATE is passed alone, so the access mode is O_RDONLY (0): the output file is
   * created if missing but opened read-only and not truncated.
   */
  const O_CREATE: int := 0x40
  const MODE_PERM: int := 0x1FF

  /** The pair of results (stream, error) of the two Go functions; None stands for nil. */
  datatype Setup<H> = Setup(stream: Option<H>, err: Option<string>)

  const CreateOutputPrefix: string := "Error creating output file: "
  const ReadInputPrefix: string := "Error reading input file: "

  /**
   * client/client_setup.go:29-41. An empty path selects stdout without
   * touching the opener; otherwise the file is opened for creation and an
   * opener error comes back wrapped, with no stream.
   */
  function SetupGetOutput<H>(filepath: string, fileOpener: FileOpener<H>, stdout: H): (r: Setup<H>)
    ensures r.stream.Some? != r.err.Some?
    ensures filepath == "" ==> r == Setup(Some(stdout), None)
    ensures filepath != "" ==>
      match fileOpener.openFile(filepath, O_CREATE, MODE_PERM)
      case File(f) => r.stream == Some(f)
      case Error(e) => r.err == Some(CreateOutputPrefix + e)
  {
    if filepath == "" then Setup(Some(stdout), None)
    else
      match fileOpener.openFile(filepath, O_CREATE, MODE_PERM)
      case Error(e) => Setup(None, Some(CreateOutputPrefix + e))
      case File(file) => Setup(Some(file), None)
  }

  /**
   * client/client_setup.go:44-55. An empty path selects stdin without
   * touching the opener; otherwise the file is opened for reading and an
   * opener error comes back wrapped, with no stream.
   */
  function SetupCreateInput<H>(filepath: string, fileOpener: FileOpener<H>, stdin: H): (r: Setup<H>)
    ensures r.stream.Some? != r.err.Some?
    ensures filepath == "" ==> r == Setup(Some(stdin), None)
    ensures filepath != "" ==>
      match fileOpener.open(filepath)
      case File(f) => r.stream == Some(f)
      case Error(e) => r.err == Some(ReadInputPrefix + e)
  {
    if filepath == "" then Setup(Some(stdin), None)
    else
      match fileOpener.open(filepath)
      case Error(e) => Setup(None, Some(ReadInputPrefix + e))
      case File(file) => Setup(Some(file), None)
  }

  /**
   * The wrapped message keeps the opener's message intact after a fixed
   * prefix, so the two setup errors are told apart by their prefix and the
   * cause can be read back.
   */
  lemma SetupErrorsCarryCause<H>(filepath: string, fileOpener: FileOpener<H>, std: H)
    ensures var r := SetupGetOutput(filepath, fileOpener, std);
      r.err.Some? ==>
        r.err.value[..|CreateOutputPrefix|] == CreateOutputPrefix &&
        Opened.Error(r.err.value[|CreateOutputPrefix|..]) == fileOpener.openFile(filepath, O_CREATE, MODE_PERM)
    ensures var r := SetupCreateInput(filepath, fileOpener, std);
      r.err.Some? ==>
        r.err.value[..|ReadInputPrefix|] == ReadInputPrefix &&
        Opened.Error(r.err.value[|ReadInputPrefix|..]) == fileOpener.open(filepath)
  {
    var r := SetupGetOutput(filepath, fileOpener, std);
    if r.err.Some? {
      var e := fileOpener.openFile(filepath, O_CREATE, MODE_PERM).message;
      assert r.err.value == CreateOutputPrefix + e;
      assert (CreateOutputPrefix + e)[|CreateOutputPrefix|..] == e;
    }
    var q := SetupCreateInput(filepath, fileOpener, std);
    if q.err.Some? {
      var e := fileOpener.open(filepath).message;
      assert q.err.value == ReadInputPrefix + e;
      assert (ReadInputPrefix + e)[|ReadInputPrefix|..] == e;
    }
  }

  /**
   * client/client_setup_test.go:9-28: the test double returns its error when
   * it has one, and its file otherwise, whatever it is asked to open.
   */
  function FakeFileOpener<H>(err: Option<string>, file: H): (o: FileOpener<H>)
    ensures forall name, flag, perm :: o.openFile(name, flag, perm) == o.open(name)
    ensures forall name :: o.open(name) == if err.Some? then Error(err.value) else File(file)
  {
    var result := if err.Some? then Error(err.value) else File(file);
    FileOpener((name, flag, perm) => result, name => result)
  }

  /** client/client_setup_test.go:30-113: the six cases of the two setup tests. */
  lemma SetupTestCases<H>(stdout: H, stdin: H, expectedFile: H, nilOpener: FileOpener<H>)
    ensures SetupGetOutput("", nilOpener, stdout) == Setup(Some(stdout), None)
    ensures SetupGetOutput("invalid", FakeFileOpener(Some("Expected error"), stdout), stdout).err ==
              Some("Error creating output file: Expected error")
    ensures SetupGetOutput("valid", FakeFileOpener(None, expectedFile), stdout) == Setup(Some(expectedFile), None)
    ensures SetupCreateInput("", nilOpener, stdin) == Setup(Some(stdin), None)
    ensures SetupCreateInput("invalid", FakeFileOpener(Some("Expected error"), stdin), stdin).err ==
              Some("Error reading input file: Expected error")
    ensures SetupCreateInput("valid", FakeFileOpener(None, expectedFile), stdin) == Setup(Some(expectedFile), None)
  {
    assert CreateOutputPrefix + "Expected error" == "Error creating output file: Expected error";
    assert ReadInputPrefix + "Expected error" == "Error reading input file: Expected error";
  }
}
