/**
 * ServerBuilder.kt: how the server is built with the Gradle wrapper. The model
 * stops at the process description (command and working directory); starting
 * the process is the operating system's business.
 */
module ServerBuilder {

  import opened Wrappers
  import opened Strings
  import opened Paths
  import opened OperatingSystems

  /** A `ProcessBuilder` ready to start: its command list and working directory. */
  datatype ProcessSpec = ProcessSpec(command: seq<string>, directory: string)

  /** The `IllegalStateException` thrown for an operating system without a wrapper. */
  datatype BuildError = UnsupportedOs(os: OperatingSystem)
  {
    function Message(): string
    {
      "Unsupported OS: " + OsName(os)
    }
  }

  /** The enum constant's name, as `toString` returns it. */
  function OsName(os: OperatingSystem): string
  {
    match os
    case Unknown => "Unknown"
    case Windows => "Windows"
    case Linux => "Linux"
    case MacOS => "MacOS"
  }

  /** The Gradle wrapper script for an operating system: the batch file on Windows, the
      shell script on Linux and macOS, and the unsupported-OS error otherwise. */
  function WrapperFile(os: OperatingSystem): (r: Result<string, BuildError>)
    ensures r.Failure? <==> os == Unknown
    ensures r.Failure? ==> r.error == UnsupportedOs(os)
    ensures r.Success? ==> (r.value == "gradlew.bat" <==> os == Windows)
    ensures r.Success? ==> (r.value == "gradlew" <==> os in {Linux, MacOS})
  {
    match os
    case Windows => Success("gradlew.bat")
    case Linux => Success("gradlew")
    case MacOS => Success("gradlew")
    case Unknown => Failure(UnsupportedOs(os))
  }

  /** `ServerBuilder.build(root)` up to the start of the process. */
  function Build(cwd: string, root: string, os: OperatingSystem): (r: Result<ProcessSpec, BuildError>)
    requires IsAbsolute(cwd)
    ensures r.Failure? <==> os == Unknown
    ensures r.Failure? ==> r.error == UnsupportedOs(Unknown)
    ensures r.Success? ==>
      && |r.value.command| == 3
      && IsAbsolute(r.value.command[0])
      && r.value.command[1..] == ["build", "--console=plain"]
      && r.value.directory == root
  {
    match WrapperFile(os)
    case Failure(e) => Failure(e)
    case Success(file) =>
      Success(ProcessSpec([Absolute(cwd, Resolve(root, file)), "build", "--console=plain"], root))
  }

  /** Windows runs the batch wrapper, Linux and macOS the shell wrapper, each named
      under `root` and made absolute; under an absolute root the script lies inside
      the root, and under a relative one inside the working directory. */
  lemma BuildSelectsWrapper(cwd: string, root: string, os: OperatingSystem)
    requires IsAbsolute(cwd)
    ensures os == Windows ==> Build(cwd, root, os).value.command[0] == Absolute(cwd, Resolve(root, "gradlew.bat"))
    ensures os in {Linux, MacOS} ==> Build(cwd, root, os).value.command[0] == Absolute(cwd, Resolve(root, "gradlew"))
    ensures os != Unknown && IsAbsolute(root) ==> Build(cwd, root, os).value.command[0][..|root|] == root
    ensures os != Unknown && root != "" && !IsAbsolute(root) ==> Build(cwd, root, os).value.command[0][..|cwd|] == cwd
  {
    if os != Unknown {
      var file := WrapperFile(os).value;
      var script := Resolve(root, file);
      assert file != "" && !IsAbsolute(file);
      if root != "" && !IsAbsolute(root) {
        assert script[0] == root[0];
      }
    }
  }

  /** Operating systems print under distinct names. */
  lemma OsNameIdentifies(a: OperatingSystem, b: OperatingSystem)
    ensures OsName(a) == OsName(b) <==> a == b
  {
    if a != b {
      var x, y := OsName(a), OsName(b);
      assert |x| != |y| || x[0] != y[0];
    }
  }

  /** The only error `build` reports: "Unsupported OS: Unknown". */
  lemma UnsupportedOsMessage(cwd: string, root: string, os: OperatingSystem)
    requires IsAbsolute(cwd)
    requires Build(cwd, root, os).Failure?
    ensures Build(cwd, root, os).error.Message() == "Unsupported OS: Unknown"
  {
  }
}
