/**
 * static/js/main.js: the browser page as plain state. One log buffer per
 * source, the source on show, the text displayed, and the disabled flag of
 * each button. The page's WebSocket is reduced to what it delivers (`OnMessage`)
 * and what it is sent (`sent`); the DOM and the connection events are not modelled.
 */
module LogView {

  import opened Wrappers
  import opened Seqs
  import opened WebMessages

  /** The four sources, which are the keys of `logBuffer`. */
  const Sources: set<LogSource> := {System, Git, Gradle, Server}

  lemma SourcesComplete()
    ensures forall s: LogSource :: s in Sources
  {
    forall s: LogSource ensures s in Sources {
      match s
      case System =>
      case Git =>
      case Gradle =>
      case Server =>
    }
  }

  /** The source buttons: only the one of the source on show is disabled. */
  function SourceButtons(current: LogSource): (disabled: map<LogSource, bool>)
    ensures disabled.Keys == Sources
    ensures forall s :: s in Sources ==> disabled[s] == (s == current)
  {
    map s | s in Sources :: s == current
  }

  /** `showSource` enables the old source's button, then disables the new one's: the
      result has only the new source's button disabled, even when the two are the same. */
  lemma SwitchSourceButtons(current: LogSource, source: LogSource)
    ensures SourceButtons(current)[current := false][source := true] == SourceButtons(source)
  {
    var switched := SourceButtons(current)[current := false][source := true];
    SourcesComplete();
    assert switched.Keys == Sources;
    forall s | s in Sources ensures switched[s] == SourceButtons(source)[s] {
    }
  }

  class Page {
    var logBuffer: map<LogSource, seq<string>>
    var currentSource: LogSource
    /** The text content of `pre#logs`. */
    var display: string
    /** `disabled` of the buttons `source-system`, `source-git`, `source-gradle`, `source-server`. */
    var sourceDisabled: map<LogSource, bool>
    var startDisabled: bool
    var stopDisabled: bool
    var updateDisabled: bool
    var buildDisabled: bool
    /** Every message the page sent, in order. */
    var sent: seq<Message>
    /** The state carried by the last message of each kind received, if any. */
    ghost var lastServerState: Option<ServerState>
    ghost var lastVcsState: Option<VcsState>
    ghost var lastGradleState: Option<GradleState>

    /** The display is the current source's buffer joined; only the current source's
        button is disabled; each control button is enabled exactly when the last state
        received allows its action. */
    ghost predicate Valid()
      reads this
    {
      && (forall s: LogSource :: s in logBuffer) && currentSource in logBuffer
      && display == Concat(logBuffer[currentSource])
      && sourceDisabled == SourceButtons(currentSource)
      && startDisabled == (lastServerState != Some(Stopped))
      && stopDisabled == (lastServerState != Some(Started))
      && updateDisabled == (lastVcsState != Some(VcsIdle))
      && buildDisabled == (lastGradleState != Some(GradleIdle))
    }

    /** The page as loaded: empty buffers, System on show, the four control buttons disabled. */
    constructor ()
      ensures Valid()
      ensures logBuffer == map s | s in Sources :: []
      ensures currentSource == System && display == ""
      ensures sourceDisabled[System] && !sourceDisabled[Git] && !sourceDisabled[Gradle] && !sourceDisabled[Server]
      ensures startDisabled && stopDisabled && updateDisabled && buildDisabled
      ensures sent == [] && lastServerState == None && lastVcsState == None && lastGradleState == None
    {
      SourcesComplete();
      logBuffer := map s | s in Sources :: [];
      currentSource := System;
      display := "";
      sourceDisabled := SourceButtons(System);
      startDisabled, stopDisabled, updateDisabled, buildDisabled := true, true, true, true;
      sent := [];
      lastServerState, lastVcsState, lastGradleState := None, None, None;
    }

    /** `log(source, content)`: append to that source's buffer; the display grows
        by `content` exactly when that source is on show. */
    method Log(source: LogSource, content: string)
      requires Valid()
      modifies this
      ensures Valid()
      ensures logBuffer == old(logBuffer)[source := old(logBuffer)[source] + [content]]
      ensures display == if source == old(currentSource) then old(display) + content else old(display)
      ensures currentSource == old(currentSource) && sourceDisabled == old(sourceDisabled) && sent == old(sent)
      ensures startDisabled == old(startDisabled) && stopDisabled == old(stopDisabled)
      ensures updateDisabled == old(updateDisabled) && buildDisabled == old(buildDisabled)
      ensures lastServerState == old(lastServerState) && lastVcsState == old(lastVcsState)
      ensures lastGradleState == old(lastGradleState)
    {
      ConcatAppend(logBuffer[source], content);
      logBuffer := logBuffer[source := logBuffer[source] + [content]];
      if currentSource == source {
        display := display + content;
      }
    }

    /** `showSource(source)`: swap which source button is disabled, put `source` on
        show and display its buffer joined. */
    method ShowSource(source: LogSource)
      requires Valid()
      modifies this
      ensures Valid()
      ensures currentSource == source && display == Concat(logBuffer[source])
      ensures sourceDisabled == SourceButtons(source)
      ensures logBuffer == old(logBuffer) && sent == old(sent)
      ensures startDisabled == old(startDisabled) && stopDisabled == old(stopDisabled)
      ensures updateDisabled == old(updateDisabled) && buildDisabled == old(buildDisabled)
      ensures lastServerState == old(lastServerState) && lastVcsState == old(lastVcsState)
      ensures lastGradleState == old(lastGradleState)
    {
      SwitchSourceButtons(currentSource, source);
      sourceDisabled := sourceDisabled[currentSource := false];
      sourceDisabled := sourceDisabled[source := true];
      currentSource := source;
      display := Concat(logBuffer[source]);
    }

    /** The page sends a message over its socket. */
    method Send(message: Message)
      modifies this
      ensures sent == old(sent) + [message]
      ensures logBuffer == old(logBuffer) && currentSource == old(currentSource) && display == old(display)
      ensures sourceDisabled == old(sourceDisabled)
      ensures startDisabled == old(startDisabled) && stopDisabled == old(stopDisabled)
      ensures updateDisabled == old(updateDisabled) && buildDisabled == old(buildDisabled)
      ensures lastServerState == old(lastServerState) && lastVcsState == old(lastVcsState)
      ensures lastGradleState == old(lastGradleState)
    {
      sent := sent + [message];
    }

    /** The clear-logs button: empty the current source's buffer and the display, and
        ask the server to clear that source too, except for System, which only the page has. */
    method ClickClearLogs()
      requires Valid()
      modifies this
      ensures Valid()
      ensures logBuffer == old(logBuffer)[old(currentSource) := []] && display == ""
      ensures sent == old(sent) + if old(currentSource) == System then [] else [ClearLogsMessage(old(currentSource))]
      ensures currentSource == old(currentSource) && sourceDisabled == old(sourceDisabled)
      ensures startDisabled == old(startDisabled) && stopDisabled == old(stopDisabled)
      ensures updateDisabled == old(updateDisabled) && buildDisabled == old(buildDisabled)
      ensures lastServerState == old(lastServerState) && lastVcsState == old(lastVcsState)
      ensures lastGradleState == old(lastGradleState)
    {
      logBuffer := logBuffer[currentSource := []];
      display := "";
      if currentSource != System {
        Send(ClearLogsMessage(currentSource));
      }
    }

    /** The start button. A disabled button delivers no click: Start is sent
        exactly when the last server state received is Stopped. */
    method ClickStart()
      requires Valid()
      modifies this
      ensures Valid()
      ensures sent == old(sent) + if lastServerState == Some(Stopped) then [ServerActionMessage(Start)] else []
      ensures logBuffer == old(logBuffer) && currentSource == old(currentSource) && display == old(display)
      ensures sourceDisabled == old(sourceDisabled)
      ensures startDisabled == old(startDisabled) && stopDisabled == old(stopDisabled)
      ensures updateDisabled == old(updateDisabled) && buildDisabled == old(buildDisabled)
      ensures lastServerState == old(lastServerState) && lastVcsState == old(lastVcsState)
      ensures lastGradleState == old(lastGradleState)
    {
      if !startDisabled {
        Send(ServerActionMessage(Start));
      }
    }

    /** The stop button: Stop is sent exactly when the last server state received is Started. */
    method ClickStop()
      requires Valid()
      modifies this
      ensures Valid()
      ensures sent == old(sent) + if lastServerState == Some(Started) then [ServerActionMessage(Stop)] else []
      ensures logBuffer == old(logBuffer) && currentSource == old(currentSource) && display == old(display)
      ensures sourceDisabled == old(sourceDisabled)
      ensures startDisabled == old(startDisabled) && stopDisabled == old(stopDisabled)
      ensures updateDisabled == old(updateDisabled) && buildDisabled == old(buildDisabled)
      ensures lastServerState == old(lastServerState) && lastVcsState == old(lastVcsState)
      ensures lastGradleState == old(lastGradleState)
    {
      if !stopDisabled {
        Send(ServerActionMessage(Stop));
      }
    }

    /** The update button: an update is requested exactly when the repository was last reported idle. */
    method ClickUpdate()
      requires Valid()
      modifies this
      ensures Valid()
      ensures sent == old(sent) + if lastVcsState == Some(VcsIdle) then [VcsUpdateMessage] else []
      ensures logBuffer == old(logBuffer) && currentSource == old(currentSource) && display == old(display)
      ensures sourceDisabled == old(sourceDisabled)
      ensures startDisabled == old(startDisabled) && stopDisabled == old(stopDisabled)
      ensures updateDisabled == old(updateDisabled) && buildDisabled == old(buildDisabled)
      ensures lastServerState == old(lastServerState) && lastVcsState == old(lastVcsState)
      ensures lastGradleState == old(lastGradleState)
    {
      if !updateDisabled {
        Send(VcsUpdateMessage);
      }
    }

    /** The build button: a build is requested exactly when Gradle was last reported idle. */
    method ClickBuild()
      requires Valid()
      modifies this
      ensures Valid()
      ensures sent == old(sent) + if lastGradleState == Some(GradleIdle) then [GradleBuildMessage] else []
      ensures logBuffer == old(logBuffer) && currentSource == old(currentSource) && display == old(display)
      ensures sourceDisabled == old(sourceDisabled)
      ensures startDisabled == old(startDisabled) && stopDisabled == old(stopDisabled)
      ensures updateDisabled == old(updateDisabled) && buildDisabled == old(buildDisabled)
      ensures lastServerState == old(lastServerState) && lastVcsState == old(lastVcsState)
      ensures lastGradleState == old(lastGradleState)
    {
      if !buildDisabled {
        Send(GradleBuildMessage);
      }
    }

    /** The socket's `message` handler. A log message is logged; a state message
        records the state and sets the buttons of that area from it alone; any other
        message is ignored. Nothing is sent. */
    method OnMessage(message: Message)
      requires Valid()
      modifies this
      ensures Valid()
      ensures sent == old(sent) && currentSource == old(currentSource) && sourceDisabled == old(sourceDisabled)
      ensures message.Log? ==>
        && logBuffer == old(logBuffer)[message.log.source := old(logBuffer)[message.log.source] + [message.log.content]]
        && display == (if message.log.source == currentSource then old(display) + message.log.content else old(display))
      ensures !message.Log? ==> logBuffer == old(logBuffer) && display == old(display)
      ensures lastServerState == if message.ServerStateMessage? then Some(message.state) else old(lastServerState)
      ensures lastVcsState == if message.VcsStateMessage? then Some(message.vcsState) else old(lastVcsState)
      ensures lastGradleState == if message.GradleStateMessage? then Some(message.gradleState) else old(lastGradleState)
      ensures message.ServerStateMessage? ==>
        startDisabled == (message.state != Stopped) && stopDisabled == (message.state != Started)
      ensures message.VcsStateMessage? ==> updateDisabled == (message.vcsState != VcsIdle)
      ensures message.GradleStateMessage? ==> buildDisabled == (message.gradleState != GradleIdle)
      ensures !message.ServerStateMessage? ==> startDisabled == old(startDisabled) && stopDisabled == old(stopDisabled)
      ensures !message.VcsStateMessage? ==> updateDisabled == old(updateDisabled)
      ensures !message.GradleStateMessage? ==> buildDisabled == old(buildDisabled)
    {
      match message
      case Log(log) =>
        Log(log.source, log.content);
      case ServerStateMessage(state) =>
        lastServerState := Some(state);
        startDisabled := state != Stopped;
        stopDisabled := state != Started;
      case VcsStateMessage(state) =>
        lastVcsState := Some(state);
        updateDisabled := state != VcsIdle;
      case GradleStateMessage(state) =>
        lastGradleState := Some(state);
        buildDisabled := state != GradleIdle;
      case _ =>
    }
  }
}
