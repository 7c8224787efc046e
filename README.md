# server-deploy, modelled in Dafny

A model of the logic of the ProTanki server-deploy tool, with proofs. The tool
supervises a ProTanki game server. It builds the server with the Gradle
wrapper. It launches the server as a `java` process. It talks to the server
over an IPC WebSocket. It also serves a browser page that shows the logs of four
sources and has buttons to start and stop the server, update the repository and
run a build.

The model covers these parts:

- **Log hub** (`log_server.dfy`, class `LogServer.WebSocketServer`).
  - It keeps the history of log messages.
  - `Emit` appends a message and sends it to every connected browser.
  - `Clear` drops one source's messages.
  - `Join` sends a newly connected browser the whole history.
  - A ghost trace of the `emit`/`clear` calls ties the history to a per-source
    reference (`HistoryBySource`).
- **Browser page** (`log_view.dfy`, class `LogView.Page`, from `main.js`).
  - State: the per-source buffers, the source on show, the displayed text, the
    disabled flag of every button, and the messages sent.
  - The invariant `Valid` holds throughout:
    - the display is the current buffer joined;
    - only the current source's button is disabled;
    - each control button is enabled exactly when the last state message
      received allows its action.
- **`pipeTo`** (`stream.dfy`).
  - The reader hands out chunks of 1 to 1024 characters, then -1.
  - The loop writes and flushes each chunk.
  - Proved: the output receives exactly the input, in order, one write and one
    flush per chunk read.
- **Main.kt**.
  - `ipc_registration.dfy`: registering the IPC message classes under their
    "Message"-less names, with discriminator `_`; decoding tags; the IPC event
    dispatch.
  - `launch.dfy`: the port option, the IPC URL, the class path and the `java`
    command line.
- **ServerBuilder.build** (`server_builder.dfy`): operating system → wrapper
  script and command, or the unsupported-OS error.
- **OperatingSystem.current** (`operating_system.dfy`): classification of the
  `os.name` string.
- **Messages**:
  - `web_messages.dfy`: browser messages and state enumerations;
  - `ipc_messages.dfy`: the four IPC messages.

Helper modules:

- `wrappers.dfy`: Option/Result.
- `seqs.dfy`: concatenation of a sequence of sequences.
- `strings.dfy`: `lowercase`, `removeSuffix`, `joinToString`/`split`, decimal `Int` formatting and parsing.
- `paths.dfy`: UNIX `resolve` and `absolute`.

Modelling assumptions:

- `LogSource` is used by the messages and the log hub but its declaration is not
  part of this model. It is taken to be `{System, Git, Gradle, Server}`, the keys
  of the page's `logBuffer`.
- Both `VcsState` and `GradleState` have a constant named `Idle`. In one Dafny
  module these are `VcsIdle` and `GradleIdle`.
- The class scan is reflection. `IpcRegistration.ClassOf` stands for it: each IPC
  message's class has a simple name, and that name is the message's printed name.
- Moshi's `withSubtype` refuses a label that is already registered ("Labels must be
  unique."). `Factory.WithSubtype` models that refusal. Moshi is not part of this model.
- The browser does not deliver a click to a disabled button. The `click` handlers
  of start, stop, update and build (main.js:62-84) send their message without a
  test. So in the model, each of them sends exactly when its button is enabled.
- Inputs that the source reads from its environment are parameters:
  - the `os.name` value;
  - the working directory;
  - the listing of `dependencies`, with a regular-file flag per entry;
  - the platform path separator;
  - the browsers connected to the hub;
  - the chunks the reader delivers.

## Model

| member | source | states |
|---|---|---|
| Strings.Lowercase | src/main/kotlin/jp/assasans/protanki/deploy/utils/OperatingSystem.kt:13 | lower-casing keeps the length and maps each character to its lower-case form |
| Strings.LowercaseIdempotent | src/main/kotlin/jp/assasans/protanki/deploy/utils/OperatingSystem.kt:13 | lower-casing an already lower-cased name changes nothing |
| Strings.RemoveSuffix | src/main/kotlin/jp/assasans/protanki/deploy/Main.kt:57 | when the name ends in the suffix, the result followed by the suffix is the name; otherwise the name is unchanged |
| Strings.Join | src/main/kotlin/jp/assasans/protanki/deploy/Main.kt:95 | the joined class path starts with the first entry; the separator follows it when there are more; its length is the entries' total length plus one separator between each pair of neighbours |
| Strings.SplitJoin | src/main/kotlin/jp/assasans/protanki/deploy/Main.kt:95 | joining class path entries that contain no separator, then splitting on it, gives the entries back |
| Strings.IntToDecimal | src/main/kotlin/jp/assasans/protanki/deploy/Main.kt:98 | the decimal form of the port is non-empty and starts with '-' exactly when the port is negative |
| Strings.IntToDecimalRoundTrip | src/main/kotlin/jp/assasans/protanki/deploy/Main.kt:98 | the decimal form of any port parses back to that port |
| Paths.Resolve | src/main/kotlin/jp/assasans/protanki/deploy/Main.kt:84-85 | an absolute argument is kept; an empty one gives the base; with an empty base, a relative argument is kept; otherwise the result is the base, then exactly one separator, then the argument; under an absolute base the result is absolute |
| Paths.Absolute | src/main/kotlin/jp/assasans/protanki/deploy/Main.kt:81 | the result is absolute; an absolute path is unchanged; the empty path gives the working directory; a relative path is the working directory, at most one separator, then the path |
| OperatingSystems.Current | src/main/kotlin/jp/assasans/protanki/deploy/utils/OperatingSystem.kt:11-20 | MacOS, Windows and Linux each hold exactly when the lower-cased name starts with "mac", "windows" or "linux" respectively, whatever the order of the tests; Unknown exactly when none of them does |
| OperatingSystems.PrefixesDisjoint | src/main/kotlin/jp/assasans/protanki/deploy/utils/OperatingSystem.kt:15-17 | no name matches two of the prefixes, so the order of the tests is immaterial |
| OperatingSystems.CurrentIgnoresCase | src/main/kotlin/jp/assasans/protanki/deploy/utils/OperatingSystem.kt:13 | a name and its lower-cased form are classified alike |
| OperatingSystems.MacExample | src/main/kotlin/jp/assasans/protanki/deploy/utils/OperatingSystem.kt:13-15 | "Mac OS X" is MacOS |
| OperatingSystems.UnknownExample | src/main/kotlin/jp/assasans/protanki/deploy/utils/OperatingSystem.kt:13-18 | "FreeBSD" is Unknown |
| ServerBuilder.WrapperFile | src/main/kotlin/jp/assasans/protanki/deploy/ServerBuilder.kt:33-38 | Windows gets "gradlew.bat", Linux and MacOS get "gradlew", and Unknown gets the unsupported-OS error for that system |
| ServerBuilder.OsNameIdentifies | src/main/kotlin/jp/assasans/protanki/deploy/ServerBuilder.kt:37 | two operating systems print alike exactly when they are the same |
| ServerBuilder.UnsupportedOsMessage | src/main/kotlin/jp/assasans/protanki/deploy/ServerBuilder.kt:37 | the only error build reports reads "Unsupported OS: Unknown" |
| ServerBuilder.Build | src/main/kotlin/jp/assasans/protanki/deploy/ServerBuilder.kt:33-42 | the build fails exactly on an Unknown system, with the unsupported-OS error; otherwise the command is an absolute wrapper path, "build", "--console=plain", run in the server root |
| ServerBuilder.BuildSelectsWrapper | src/main/kotlin/jp/assasans/protanki/deploy/ServerBuilder.kt:33-41 | for any root, Windows runs root/gradlew.bat and Linux and MacOS run root/gradlew, made absolute; the script lies inside an absolute root, and inside the working directory for a relative one |
| WebMessages.ServerStateOrdinal | src/main/kotlin/jp/assasans/protanki/deploy/web/Messages.kt:9-15 | each server state sits at its ordinal in the declaration order Stopped, Stopping, ProcessStarted, Starting, Started |
| WebMessages.EnumerationsComplete | src/main/kotlin/jp/assasans/protanki/deploy/web/Messages.kt:9-55 | the declaration lists hold every constant of the four enumerations, each exactly once |
| WebMessages.SimpleName | src/main/kotlin/jp/assasans/protanki/deploy/web/Messages.kt:5-7 | every web message prints as its class name, which ends in "Message" |
| WebMessages.SimpleNameIsClass | src/main/kotlin/jp/assasans/protanki/deploy/web/Messages.kt:5-7 | two messages have the same toString exactly when they are of the same class; no field shows |
| IpcMessages.SimpleName | src/main/kotlin/jp/assasans/protanki/deploy/ipc/Messages.kt:3-11 | an IPC message prints as its class name, which ends in "Message" exactly for ServerStartingMessage and ServerStartedMessage |
| IpcMessages.ProcessMessagesEnumerated | src/main/kotlin/jp/assasans/protanki/deploy/ipc/Messages.kt:3-11 | there are exactly four IPC messages, each listed once, and their printed names tell them apart |
| IpcRegistration.Factory.WithSubtype | src/main/kotlin/jp/assasans/protanki/deploy/Main.kt:57 | registering fails with "Labels must be unique." exactly when the tag is already taken; otherwise the class and its tag are appended, the discriminator is kept, one class per tag still holds, and the new tag decodes to the new class |
| IpcRegistration.LabelOf | src/main/kotlin/jp/assasans/protanki/deploy/Main.kt:55-57 | a name that ends in "Message" loses exactly that suffix; any other name is its own tag |
| IpcRegistration.WireTag | src/main/kotlin/jp/assasans/protanki/deploy/Main.kt:55-57 | the four tags are ServerStarting, ServerStarted, ServerStopRequest and ServerStopResponse |
| IpcRegistration.WireTagsDistinct | src/main/kotlin/jp/assasans/protanki/deploy/Main.kt:57 | distinct IPC messages are registered under distinct tags |
| IpcRegistration.RegisterSubtypes | src/main/kotlin/jp/assasans/protanki/deploy/Main.kt:49-61 | registration succeeds exactly when every class has a simple name and no two share a tag; it then registers every class, in order, under its tag, with discriminator "_" and one class per tag; otherwise it fails at the first class that has no name or whose tag an earlier class already took, and every class before that one registered cleanly |
| IpcRegistration.SubtypeFor | src/main/kotlin/jp/assasans/protanki/deploy/Main.kt:49-57 | a tag is decoded exactly when it was registered, to a class registered under it |
| IpcRegistration.DecodeRegisteredTag | src/main/kotlin/jp/assasans/protanki/deploy/Main.kt:49-61 | after registration, the tag of each registered message decodes to that message's own class |
| IpcRegistration.HandleEvent | src/main/kotlin/jp/assasans/protanki/deploy/Main.kt:124-129 | an event is unknown exactly when it is ServerStopRequest or ServerStopResponse, and is then reported by its simple name |
| IpcRegistration.LogLine | src/main/kotlin/jp/assasans/protanki/deploy/Main.kt:125-128 | every line starts with "[IPC] "; a line starts "[IPC] Unknown event: " exactly for an unknown event, and the event's name follows it |
| IpcRegistration.LogLineIdentifiesEvent | src/main/kotlin/jp/assasans/protanki/deploy/Main.kt:125-128 | different events produce different log lines |
| Launch.DefaultIpcUrl | src/main/kotlin/jp/assasans/protanki/deploy/Main.kt:33 | without a --port option, the server is told to dial ws://localhost:5555/ipc/server |
| Launch.IpcUrl | src/main/kotlin/jp/assasans/protanki/deploy/Main.kt:98 | the IPC URL starts with "ws://localhost:", ends with "/ipc/server", and has something between the two |
| Launch.IpcUrlRoundTrip | src/main/kotlin/jp/assasans/protanki/deploy/Main.kt:98 | the port reads back from the IPC URL, for every port |
| Launch.DependencyPath | src/main/kotlin/jp/assasans/protanki/deploy/Main.kt:85-88 | an entry's path is absolute; under an absolute directory it is the directory, at most one separator, then the entry's name; under a relative directory it starts with the working directory and ends with the name |
| Launch.DependencyPaths | src/main/kotlin/jp/assasans/protanki/deploy/Main.kt:85-88 | there are at most as many dependency paths as entries, and all are absolute |
| Launch.DependencyPathsMembers | src/main/kotlin/jp/assasans/protanki/deploy/Main.kt:86-88 | a path is a dependency path exactly when it is the path of a regular file of the listing |
| Launch.DependencyPathsAppend | src/main/kotlin/jp/assasans/protanki/deploy/Main.kt:85-88 | the dependency paths keep the listing order |
| Launch.ServerRoot | src/main/kotlin/jp/assasans/protanki/deploy/Main.kt:81 | the server root is absolute: the --server value itself when that is absolute, the working directory when it is empty, and otherwise the working directory, at most one separator, then the value |
| Launch.Classpath | src/main/kotlin/jp/assasans/protanki/deploy/Main.kt:84-89 | every class path entry is absolute, and the last entry is the server jar, inside the server root |
| Launch.LaunchCommand | src/main/kotlin/jp/assasans/protanki/deploy/Main.kt:91-99 | the command has seven elements: java, -Dfile.encoding=UTF-8, -cp, the class path, the main class, --ipc-url, the URL |
| Launch.LaunchCommandArguments | src/main/kotlin/jp/assasans/protanki/deploy/Main.kt:89-98 | splitting the -cp argument on the separator gives the dependencies in listing order then the jar, and the port reads back from the --ipc-url argument |
| Stream.UnreadNextChunk | src/main/kotlin/jp/assasans/protanki/deploy/extensions/Stream.kt:14 | reading the rest of a chunk moves the read position to the start of the next chunk and consumes exactly those characters |
| Stream.UnreadSameChunk | src/main/kotlin/jp/assasans/protanki/deploy/extensions/Stream.kt:14 | reading part of a chunk moves the position within it and consumes exactly those characters |
| Stream.Fill | src/main/kotlin/jp/assasans/protanki/deploy/extensions/Stream.kt:14 | the characters read land at the front of the buffer |
| Stream.ChunkReader.constructor | src/main/kotlin/jp/assasans/protanki/deploy/extensions/Stream.kt:9 | a reader over the chunks has all their characters left to read |
| Stream.ChunkReader.Read | src/main/kotlin/jp/assasans/protanki/deploy/extensions/Stream.kt:14 | -1 exactly at the end of the stream; otherwise the first `count` buffer characters are the next `count` characters of the stream, at least one and at most the buffer length, and they are consumed |
| Stream.BufferedWriter.Write | src/main/kotlin/jp/assasans/protanki/deploy/extensions/Stream.kt:16 | writing buffers `len` characters of the array from `off`, and records the call |
| Stream.BufferedWriter.Flush | src/main/kotlin/jp/assasans/protanki/deploy/extensions/Stream.kt:17 | flushing moves what is buffered to the output, and records the call |
| Stream.WriteAndFlushAt | src/main/kotlin/jp/assasans/protanki/deploy/extensions/Stream.kt:16-17 | the i-th chunk is written by call 2i and flushed by call 2i+1 |
| Stream.WriteAndFlushAppend | src/main/kotlin/jp/assasans/protanki/deploy/extensions/Stream.kt:13-17 | one more chunk adds one write of it and one flush |
| Stream.CopyStep | src/main/kotlin/jp/assasans/protanki/deploy/extensions/Stream.kt:13-17 | copying one chunk keeps the loop's progress relation: chunks copied plus what is left is the input, each chunk 1 to 1024 characters, each written then flushed |
| Stream.CopyComplete | src/main/kotlin/jp/assasans/protanki/deploy/extensions/Stream.kt:13-18 | once the input is used up, the output is exactly the input, nothing stays unflushed, and write i carries chunk i followed by a flush |
| Stream.CopyChunk | src/main/kotlin/jp/assasans/protanki/deploy/extensions/Stream.kt:14-17 | a round either meets the end of the stream and writes nothing, or reads a chunk of 1 to 1024 characters, writes exactly it and flushes |
| Stream.PipeTo | src/main/kotlin/jp/assasans/protanki/deploy/extensions/Stream.kt:8-20 | the reader is drained; the chunks read, concatenated, are the input; each was written once then flushed; the output grew by exactly the input |
| LogServer.Fanout | src/main/kotlin/jp/assasans/protanki/deploy/web/WebSocketServer.kt:30 | one send of the message to each client, in client order, nothing else |
| LogServer.Replay | src/main/kotlin/jp/assasans/protanki/deploy/web/WebSocketServer.kt:22 | one send to the client per history entry, in history order, nothing else |
| LogServer.Without | src/main/kotlin/jp/assasans/protanki/deploy/web/WebSocketServer.kt:34 | what is kept has no message of the source and holds every message of the other sources |
| LogServer.OfSource | src/main/kotlin/jp/assasans/protanki/deploy/web/WebSocketServer.kt:34 | a message is selected exactly when it is in the history and of the source |
| LogServer.WithoutAppend | src/main/kotlin/jp/assasans/protanki/deploy/web/WebSocketServer.kt:34 | removal keeps the relative order of what remains |
| LogServer.WithoutIdempotent | src/main/kotlin/jp/assasans/protanki/deploy/web/WebSocketServer.kt:34 | clearing a source twice is clearing it once |
| LogServer.WithoutBySource | src/main/kotlin/jp/assasans/protanki/deploy/web/WebSocketServer.kt:33-34 | after clearing, the source has no message, and every other source's messages are exactly as before, in order |
| LogServer.HistoryBySource | src/main/kotlin/jp/assasans/protanki/deploy/web/WebSocketServer.kt:28-34 | read one source at a time, the history is the messages that source emitted since it was last cleared, in emission order |
| LogServer.WebSocketServer.constructor | src/main/kotlin/jp/assasans/protanki/deploy/web/WebSocketServer.kt:18 | the history starts empty and nothing has been sent |
| LogServer.WebSocketServer.Send | src/main/kotlin/jp/assasans/protanki/deploy/web/WebSocketServer.kt:30 | a send is recorded and changes nothing else |
| LogServer.WebSocketServer.Emit | src/main/kotlin/jp/assasans/protanki/deploy/web/WebSocketServer.kt:28-31 | the message is appended with earlier entries unchanged, and sent exactly once to each connected client, in list order |
| LogServer.WebSocketServer.Clear | src/main/kotlin/jp/assasans/protanki/deploy/web/WebSocketServer.kt:33-35 | the source's messages leave the history, the rest stays in order, and nothing is sent |
| LogServer.WebSocketServer.Join | src/main/kotlin/jp/assasans/protanki/deploy/web/WebSocketServer.kt:20-23 | the joining client is sent every history entry in order and nothing else, and per source that is what was emitted since the last clear |
| LogView.SourcesComplete | src/main/resources/data/static/js/main.js:5-10 | the four buffer keys are all the sources there are |
| LogView.SourceButtons | src/main/resources/data/static/js/main.js:20-22 | there are four source buttons and exactly the current source's is disabled |
| LogView.SwitchSourceButtons | src/main/resources/data/static/js/main.js:21-22 | enabling the old source's button and then disabling the new one's leaves only the new one disabled, also when they are the same source |
| LogView.Page.constructor | src/main/resources/data/static/js/main.js:4-81 | the page starts with empty buffers and System on show; only System's source button is disabled; start, stop, update and build are disabled |
| LogView.Page.Log | src/main/resources/data/static/js/main.js:13-18 | only the source's buffer grows, by the content; the display grows by the content exactly when that source is on show |
| LogView.Page.ShowSource | src/main/resources/data/static/js/main.js:20-26 | the source is on show, the display is its buffer joined, and only its button is disabled |
| LogView.Page.Send | src/main/resources/data/static/js/main.js:28-31 | a sent message is recorded and nothing else changes |
| LogView.Page.ClickClearLogs | src/main/resources/data/static/js/main.js:35-42 | only the current buffer and the display are emptied, and ClearLogs is sent exactly when the current source is not System |
| LogView.Page.ClickStart | src/main/resources/data/static/js/main.js:62-64 | Start is sent exactly when the last server state received is Stopped |
| LogView.Page.ClickStop | src/main/resources/data/static/js/main.js:66-68 | Stop is sent exactly when the last server state received is Started |
| LogView.Page.ClickUpdate | src/main/resources/data/static/js/main.js:74-76 | an update is requested exactly when the repository was last reported idle |
| LogView.Page.ClickBuild | src/main/resources/data/static/js/main.js:82-84 | a build is requested exactly when Gradle was last reported idle |
| LogView.Page.OnMessage | src/main/resources/data/static/js/main.js:98-113 | a log message is logged; a state message sets its own area's buttons from that state alone (start iff Stopped, stop iff Started, update and build iff Idle); other messages change nothing; nothing is sent |

## Left out

- Strings.Lowercase: only ASCII letters are lower-cased. Kotlin's `lowercase()` follows Unicode. The two differ only on non-ASCII characters, and none of their lower-case forms occurs in "mac", "windows" or "linux". So a name that starts with one of the prefixes is classified alike either way. Beyond the prefix, the two lower-cased forms can differ.
- Strings and characters: a Dafny `char` is a Unicode scalar value, while Kotlin's `String` and `CharArray` count UTF-16 code units. A character outside the Basic Multilingual Plane is one character here and two in Kotlin, and a lone surrogate cannot occur. So `BufferSize` (1024, from `CharArray(1024)`) bounds a chunk in scalar values: one model chunk can stand for up to 2048 Kotlin chars.
- Paths.Resolve: UNIX path syntax only. There is no normalisation of `.`, `..` or repeated separators, and no Windows drive letters.
- The class scan that finds the `ProcessMessage` subclasses (Main.kt:51-53) is reflection. The list of classes is a parameter of `RegisterSubtypes`.
- Moshi's JSON encoding and decoding are not modelled. `SubtypeFor` stands for its lookup of a label.
- Dependency injection with Koin and the command-line parsing are left out. `Port` models the port option's default.
- Starting processes is left out, along with the shutdown hook, `waitFor` and the coroutine launches. The model stops at the command list and working directory.
- The WebSocket transport of the web server and of the IPC server is I/O and concurrency, and is left out. A browser that joins while a message is being emitted may receive it twice; that race is not modelled.
- LogServer.WebSocketServer.Emit: every send succeeds in the model. In the source, `client.send` (web/WebSocketClient.kt:18-19) can throw for a closed session, and the client list is never pruned (web/WebServer.kt:59 only adds). So once a browser has disconnected, `emit`'s `forEach` can stop at that client. The message is then in the history, later clients miss it, and the exception reaches the caller. That failure path is not modelled.
- LogServer.WebSocketServer.Join: the replay of the history (WebSocketServer.kt:22) can stop in the same way when the session closes during it. That failure path is not modelled.
- Stream.PipeTo: reads and writes never fail in the model. In the source, an `IOException` from `read`, `write` or `flush` ends `pipeTo` after only a prefix of the input was written. That failure path is not modelled.
- Stream.PipeTo: the byte/character decoding of `reader()` and `writer()` is not modelled, so the model works on characters. A real reader may return fewer characters than a chunk holds. Here a read returns the rest of the current chunk, cut at the buffer length.
- The WebSocket `open`, `close` and `error` handlers of the page are left out. They only log to the System buffer through `log`, which is modelled.
- The DOM is left out: the text of the state labels and the lookup of elements. The buttons' `disabled` flags and the log text are kept.
- Both sides serialise messages to JSON; that is not modelled. Messages are values here, and the page's `send` records the message it sends.
- Version control (JGit) and the build/update state transitions live outside the modelled code. Only the state values carried by the messages are modelled.
