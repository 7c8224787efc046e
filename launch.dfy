/**
 * Main.kt, launch side: the port option, the IPC address handed to the server,
 * the class path built from the server's `dependencies` directory, and the
 * `java` command line that starts the server. The directory listing, the
 * regular-file test and the working directory are inputs.
 */
module Launch {

  import opened Wrappers
  import opened Strings
  import opened Paths

  const DefaultPort: int := 5555
  const IpcPath: string := "/ipc/server"
  const UrlPrefix: string := "ws://localhost:"
  const MainJar: string := "libs/protanki-server-0.1.0.jar"
  const DependenciesDir: string := "dependencies"
  const MainClass: string := "jp.assasans.protanki.server.MainKt"

  /** The `--port` option: the given value, or 5555 when it is absent. */
  function Port(option: Option<int>): (port: int)
    ensures option.None? ==> port == DefaultPort
    ensures option.Some? ==> port == option.value
  {
    match option
    case None => DefaultPort
    case Some(p) => p
  }

  /** The address the server process dials back to: `ws://localhost:$port$ipcUrl`. */
  function IpcUrl(port: int): (url: string)
    ensures |url| > |UrlPrefix| + |IpcPath|
    ensures url[..|UrlPrefix|] == UrlPrefix
    ensures url[|url| - |IpcPath|..] == IpcPath
  {
    UrlPrefix + IntToDecimal(port) + IpcPath
  }

  /** Reads the port back out of an IPC address; the inverse of `IpcUrl`. */
  function PortOfUrl(url: string): Option<int>
  {
    if |url| >= |UrlPrefix| + |IpcPath| && url[..|UrlPrefix|] == UrlPrefix && url[|url| - |IpcPath|..] == IpcPath
    then ParseInt(url[|UrlPrefix|..|url| - |IpcPath|])
    else None
  }

  /** The IPC address names exactly the given port. */
  lemma IpcUrlRoundTrip(port: int)
    ensures PortOfUrl(IpcUrl(port)) == Some(port)
  {
    var url, digits := IpcUrl(port), IntToDecimal(port);
    assert url[|UrlPrefix|..|url| - |IpcPath|] == digits;
    IntToDecimalRoundTrip(port);
  }

  /** Without a `--port` option the server is told to dial ws://localhost:5555/ipc/server. */
  lemma DefaultIpcUrl()
    ensures IpcUrl(Port(None)) == "ws://localhost:5555/ipc/server"
  {
    assert NatToDecimal(5) == "5";
    assert NatToDecimal(55) == NatToDecimal(5) + "5";
    assert NatToDecimal(555) == NatToDecimal(55) + "5";
    assert NatToDecimal(5555) == NatToDecimal(555) + "5";
  }

  /** An entry of the `dependencies` directory, as listed. */
  datatype DirEntry = DirEntry(name: string, isRegularFile: bool)

  /** The absolute path of a directory entry: its name under the directory, and that
      under the working directory when the directory is relative. */
  function DependencyPath(cwd: string, dir: string, entry: DirEntry): (p: string)
    requires IsAbsolute(cwd)
    ensures IsAbsolute(p)
    ensures IsAbsolute(entry.name) ==> p == entry.name
    ensures !IsAbsolute(entry.name) && entry.name != "" && IsAbsolute(dir) ==>
      && |dir| + |entry.name| <= |p| <= |dir| + 1 + |entry.name|
      && p[..|dir|] == dir
      && p[|p| - |entry.name|..] == entry.name
    ensures !IsAbsolute(entry.name) && entry.name != "" && !IsAbsolute(dir) ==>
      && |cwd| <= |p| && p[..|cwd|] == cwd
      && SuffixOf(entry.name, p)
  {
    var rel := Resolve(dir, entry.name);
    if IsAbsolute(rel) then
      assert Absolute(cwd, rel) == rel;
      rel
    else
      var p := Absolute(cwd, rel);
      assert !IsAbsolute(entry.name) && entry.name != "" ==> SuffixOf(entry.name, rel) && SuffixOf(rel, p);
      SuffixTransitive(entry.name, rel, p);
      p
  }

  /** `s` ends with `t`. */
  predicate SuffixOf(t: string, s: string)
  {
    |t| <= |s| && s[|s| - |t|..] == t
  }

  lemma SuffixTransitive(a: string, b: string, c: string)
    ensures SuffixOf(a, b) && SuffixOf(b, c) ==> SuffixOf(a, c)
  {
    if SuffixOf(a, b) && SuffixOf(b, c) {
      assert c[|c| - |a|..] == b[|b| - |a|..];
    }
  }

  /** The absolute paths of the regular files of a listing, in listing order. */
  function DependencyPaths(cwd: string, dir: string, listing: seq<DirEntry>): (r: seq<string>)
    requires IsAbsolute(cwd)
    ensures |r| <= |listing|
    ensures forall p :: p in r ==> IsAbsolute(p)
  {
    if listing == [] then []
    else
      var rest := DependencyPaths(cwd, dir, listing[1..]);
      if listing[0].isRegularFile then [DependencyPath(cwd, dir, listing[0])] + rest else rest
  }

  /** The dependency paths are exactly the paths of the regular files of the listing. */
  lemma {:induction false} DependencyPathsMembers(cwd: string, dir: string, listing: seq<DirEntry>)
    requires IsAbsolute(cwd)
    ensures forall p :: p in DependencyPaths(cwd, dir, listing) ==>
      exists i :: 0 <= i < |listing| && listing[i].isRegularFile && p == DependencyPath(cwd, dir, listing[i])
    ensures forall i :: 0 <= i < |listing| && listing[i].isRegularFile ==>
      DependencyPath(cwd, dir, listing[i]) in DependencyPaths(cwd, dir, listing)
  {
    if listing != [] {
      var tail := listing[1..];
      DependencyPathsMembers(cwd, dir, tail);
      forall p | p in DependencyPaths(cwd, dir, listing)
        ensures exists i :: 0 <= i < |listing| && listing[i].isRegularFile && p == DependencyPath(cwd, dir, listing[i])
      {
        if p in DependencyPaths(cwd, dir, tail) {
          var j :| 0 <= j < |tail| && tail[j].isRegularFile && p == DependencyPath(cwd, dir, tail[j]);
          assert listing[j + 1] == tail[j];
        } else {
          assert listing[0].isRegularFile && p == DependencyPath(cwd, dir, listing[0]);
        }
      }
      forall i | 0 <= i < |listing| && listing[i].isRegularFile
        ensures DependencyPath(cwd, dir, listing[i]) in DependencyPaths(cwd, dir, listing)
      {
        if i > 0 {
          assert listing[i] == tail[i - 1];
        }
      }
    }
  }

  /** Listing order is kept: the paths of a split listing are the paths of its parts, in turn. */
  lemma {:induction false} DependencyPathsAppend(cwd: string, dir: string, a: seq<DirEntry>, b: seq<DirEntry>)
    requires IsAbsolute(cwd)
    ensures DependencyPaths(cwd, dir, a + b) == DependencyPaths(cwd, dir, a) + DependencyPaths(cwd, dir, b)
  {
    if a == [] {
      assert a + b == b;
    } else {
      assert (a + b)[1..] == a[1..] + b;
      DependencyPathsAppend(cwd, dir, a[1..], b);
    }
  }

  /** The root directory of the server build, made absolute: the `--server` value
      itself when absolute, otherwise that value under the working directory. */
  function ServerRoot(cwd: string, serverRoot: string): (root: string)
    requires IsAbsolute(cwd)
    ensures IsAbsolute(root)
    ensures IsAbsolute(serverRoot) ==> root == serverRoot
    ensures serverRoot == "" ==> root == cwd
    ensures !IsAbsolute(serverRoot) && serverRoot != "" ==>
      && |cwd| + |serverRoot| <= |root| <= |cwd| + 1 + |serverRoot|
      && root[..|cwd|] == cwd
      && root[|root| - |serverRoot|..] == serverRoot
  {
    Absolute(cwd, serverRoot)
  }

  /** The class path: the regular files of `dependencies`, then the server jar. */
  function Classpath(cwd: string, serverRoot: string, listing: seq<DirEntry>): (r: seq<string>)
    requires IsAbsolute(cwd)
    ensures |r| >= 1
    ensures r[|r| - 1] == Resolve(ServerRoot(cwd, serverRoot), MainJar)
    ensures |ServerRoot(cwd, serverRoot)| <= |r[|r| - 1]|
    ensures r[|r| - 1][..|ServerRoot(cwd, serverRoot)|] == ServerRoot(cwd, serverRoot)
    ensures forall i :: 0 <= i < |r| ==> IsAbsolute(r[i])
  {
    var root := ServerRoot(cwd, serverRoot);
    DependencyPaths(cwd, Resolve(root, DependenciesDir), listing) + [Resolve(root, MainJar)]
  }

  /** The command line that starts the server process. */
  function LaunchCommand(cwd: string, serverRoot: string, port: int, listing: seq<DirEntry>, pathSeparator: char)
    : (command: seq<string>)
    requires IsAbsolute(cwd)
    ensures |command| == 7
    ensures command[0] == "java" && command[1] == "-Dfile.encoding=UTF-8" && command[2] == "-cp"
    ensures command[4] == MainClass && command[5] == "--ipc-url"
  {
    [ "java",
      "-Dfile.encoding=UTF-8",
      "-cp",
      Join(Classpath(cwd, serverRoot, listing), pathSeparator),
      MainClass,
      "--ipc-url",
      IpcUrl(port) ]
  }

  /** The server can recover its launch data from the command line: splitting the `-cp`
      argument on the path separator gives the class path back (dependencies in
      listing order, the jar last), and the `--ipc-url` argument names the port. */
  lemma {:induction false} LaunchCommandArguments(
    cwd: string, serverRoot: string, port: int, listing: seq<DirEntry>, pathSeparator: char)
    requires IsAbsolute(cwd)
    requires forall p :: p in Classpath(cwd, serverRoot, listing) ==> pathSeparator !in p
    ensures Split(LaunchCommand(cwd, serverRoot, port, listing, pathSeparator)[3], pathSeparator)
            == DependencyPaths(cwd, Resolve(ServerRoot(cwd, serverRoot), DependenciesDir), listing)
               + [Resolve(ServerRoot(cwd, serverRoot), MainJar)]
    ensures PortOfUrl(LaunchCommand(cwd, serverRoot, port, listing, pathSeparator)[6]) == Some(port)
  {
    var classpath := Classpath(cwd, serverRoot, listing);
    SplitJoin(classpath, pathSeparator);
    IpcUrlRoundTrip(port);
  }
}
