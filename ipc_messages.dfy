/**
 * ipc/Messages.kt: the messages exchanged with the supervised server process.
 * None of them carries a field.
 */
module IpcMessages {

  datatype ProcessMessage =
    | ServerStartingMessage
    | ServerStartedMessage
    | ServerStopRequest
    | ServerStopResponse

  /** The four subclasses, in declaration order. */
  const AllProcessMessages: seq<ProcessMessage> :=
    [ServerStartingMessage, ServerStartedMessage, ServerStopRequest, ServerStopResponse]

  /** `ProcessMessage.toString()`: the class's simple name. Only the two start
      notifications have a name ending in "Message". */
  function SimpleName(m: ProcessMessage): (r: string)
    ensures |r| > 7
    ensures r[|r| - 7..] == "Message" <==> m in {ServerStartingMessage, ServerStartedMessage}
  {
    match m
    case ServerStartingMessage => "ServerStartingMessage"
    case ServerStartedMessage => "ServerStartedMessage"
    case ServerStopRequest => "ServerStopRequest"
    case ServerStopResponse => "ServerStopResponse"
  }

  /** There are exactly four kinds, each listed once, and their names tell them apart. */
  lemma ProcessMessagesEnumerated()
    ensures |AllProcessMessages| == 4
    ensures forall m: ProcessMessage :: m in AllProcessMessages
    ensures forall i, j :: 0 <= i < j < 4 ==> AllProcessMessages[i] != AllProcessMessages[j]
    ensures forall m, m': ProcessMessage :: SimpleName(m) == SimpleName(m') ==> m == m'
  {
    forall m: ProcessMessage ensures m in AllProcessMessages {
      match m
      case ServerStartingMessage => assert AllProcessMessages[0] == m;
      case ServerStartedMessage => assert AllProcessMessages[1] == m;
      case ServerStopRequest => assert AllProcessMessages[2] == m;
      case ServerStopResponse => assert AllProcessMessages[3] == m;
    }
    forall m: ProcessMessage, m': ProcessMessage | m != m' ensures SimpleName(m) != SimpleName(m') {
      var a, b := SimpleName(m), SimpleName(m');
      assert |a| != |b|;
    }
  }
}
