/**
 * web/Messages.kt: the messages exchanged with the browser, and the state
 * enumerations they carry. `LogSource` is used by these messages but declared
 * elsewhere; it is taken to be the four log tabs of the browser page.
 */
module WebMessages {

  /** The origin of a log line: the four buffers of the browser page. */
  datatype LogSource = System | Git | Gradle | Server

  datatype ServerState = Stopped | Stopping | ProcessStarted | Starting | Started

  datatype ServerAction = Start | Stop

  datatype VcsState = VcsIdle | Updating

  datatype GradleState = GradleIdle | Building

  /** `LogMessage`: one chunk of log text from one source. */
  datatype LogMessage = LogMessage(source: LogSource, content: string)

  /** Every subclass of `Message`, with its fields. */
  datatype Message =
    | ServerStateMessage(state: ServerState)
    | ServerActionMessage(action: ServerAction)
    | Log(log: LogMessage)
    | ClearLogsMessage(source: LogSource)
    | VcsUpdateMessage
    | VcsStateMessage(vcsState: VcsState)
    | GradleBuildMessage
    | GradleStateMessage(gradleState: GradleState)

  /** The enum constants in declaration order. */
  const ServerStates: seq<ServerState> := [Stopped, Stopping, ProcessStarted, Starting, Started]
  const ServerActions: seq<ServerAction> := [Start, Stop]
  const VcsStates: seq<VcsState> := [VcsIdle, Updating]
  const GradleStates: seq<GradleState> := [GradleIdle, Building]

  /** `ServerState.ordinal`: the position of the constant in its declaration. */
  function ServerStateOrdinal(s: ServerState): (r: nat)
    ensures r < |ServerStates| && ServerStates[r] == s
  {
    match s
    case Stopped => 0
    case Stopping => 1
    case ProcessStarted => 2
    case Starting => 3
    case Started => 4
  }

  /** The declaration lists hold each constant exactly once. */
  lemma EnumerationsComplete()
    ensures forall i, j :: 0 <= i < j < |ServerStates| ==> ServerStates[i] != ServerStates[j]
    ensures forall s: ServerState :: s in ServerStates
    ensures forall a: ServerAction :: a in ServerActions
    ensures |ServerActions| == 2 && ServerActions[0] != ServerActions[1]
    ensures forall v: VcsState :: v in VcsStates
    ensures |VcsStates| == 2 && VcsStates[0] != VcsStates[1]
    ensures forall g: GradleState :: g in GradleStates
    ensures |GradleStates| == 2 && GradleStates[0] != GradleStates[1]
  {
    forall s: ServerState ensures s in ServerStates {
      assert ServerStates[ServerStateOrdinal(s)] == s;
    }
    forall a: ServerAction ensures a in ServerActions {
      assert ServerActions[if a == Start then 0 else 1] == a;
    }
    forall v: VcsState ensures v in VcsStates {
      assert VcsStates[if v == VcsIdle then 0 else 1] == v;
    }
    forall g: GradleState ensures g in GradleStates {
      assert GradleStates[if g == GradleIdle then 0 else 1] == g;
    }
  }

  /** `Message.toString()`: the class's simple name, with no payload. Every web message
      class is named "...Message". */
  function SimpleName(m: Message): (r: string)
    ensures |r| > 7 && r[|r| - 7..] == "Message"
  {
    match m
    case ServerStateMessage(_) => "ServerStateMessage"
    case ServerActionMessage(_) => "ServerActionMessage"
    case Log(_) => "LogMessage"
    case ClearLogsMessage(_) => "ClearLogsMessage"
    case VcsUpdateMessage => "VcsUpdateMessage"
    case VcsStateMessage(_) => "VcsStateMessage"
    case GradleBuildMessage => "GradleBuildMessage"
    case GradleStateMessage(_) => "GradleStateMessage"
  }

  /** Which class a message belongs to, ignoring its fields. */
  function ClassIndex(m: Message): nat
  {
    match m
    case ServerStateMessage(_) => 0
    case ServerActionMessage(_) => 1
    case Log(_) => 2
    case ClearLogsMessage(_) => 3
    case VcsUpdateMessage => 4
    case VcsStateMessage(_) => 5
    case GradleBuildMessage => 6
    case GradleStateMessage(_) => 7
  }

  /** Two messages have the same `toString` exactly when they are of the same class: the payload never shows. */
  lemma SimpleNameIsClass(m: Message, m': Message)
    ensures SimpleName(m) == SimpleName(m') <==> ClassIndex(m) == ClassIndex(m')
  {
    if ClassIndex(m) != ClassIndex(m') {
      var a, b := SimpleName(m), SimpleName(m');
      assert |a| != |b| || a[0] != b[0] || a[6] != b[6];
    }
  }
}
