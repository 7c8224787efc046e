/**
 * Main.kt, IPC side: how the subclasses of `ProcessMessage` are registered with
 * the polymorphic JSON adapter (one tag per class, under the discriminator
 * field "_"), how a tag is decoded back to its class, and how the event loop
 * reacts to each inbound message.
 */
module IpcRegistration {

  import opened Wrappers
  import opened Strings
  import opened IpcMessages

  /** The JSON field that carries the type tag. */
  const LabelKey: string := "_"

  /** What reflection reports of a subclass: an anonymous class has no simple name. */
  datatype KClass = KClass(simpleName: Option<string>)

  /** The class object behind each message kind. */
  function ClassOf(m: ProcessMessage): (c: KClass)
    ensures c.simpleName == Some(SimpleName(m))
  {
    KClass(Some(SimpleName(m)))
  }

  /** Moshi's refusal of a second class under a label already taken. */
  datatype LabelError = LabelsMustBeUnique(tag: string)

  /** The polymorphic adapter factory: discriminator field, registered classes and their labels. */
  datatype Factory = Factory(labelKey: string, subtypes: seq<KClass>, labels: seq<string>)
  {
    /** One class per label, so a label decodes unambiguously. */
    predicate Valid()
    {
      && |subtypes| == |labels|
      && forall i, j :: 0 <= i < j < |labels| ==> labels[i] != labels[j]
    }

    /** `withSubtype(type, tag)`: a new factory with one more class, or the
        "Labels must be unique." error when the tag is already registered. The new
        class is what its tag decodes to. */
    function WithSubtype(c: KClass, tag: string): (r: Result<Factory, LabelError>)
      ensures r.Failure? <==> tag in labels
      ensures r.Failure? ==> r.error == LabelsMustBeUnique(tag)
      ensures r.Success? ==>
        && r.value.labelKey == labelKey
        && r.value.subtypes == subtypes + [c]
        && r.value.labels == labels + [tag]
      ensures r.Success? && Valid() ==>
        && r.value.Valid()
        && SubtypeFor(r.value.labels, r.value.subtypes, tag) == Some(c)
    {
      if tag in labels then Failure(LabelsMustBeUnique(tag))
      else
        var f := Factory(labelKey, subtypes + [c], labels + [tag]);
        assert Valid() ==> f.Valid() by {
          if Valid() {
            forall i, j | 0 <= i < j < |f.labels| ensures f.labels[i] != f.labels[j] {
              if j == |labels| {
                assert f.labels[i] == labels[i];
              }
            }
          }
        }
        Success(f)
    }
  }

  /** Why the registration in Main.kt fails: a class without a simple name (the
      `IllegalStateException`), or a class whose tag is taken (Moshi's
      `IllegalArgumentException`), at position `index` of the class list. */
  datatype RegistrationError = NoSimpleName(index: nat) | DuplicateLabel(index: nat)

  /** The tag a named class is registered under: its name with one trailing "Message" removed. */
  function LabelOf(c: KClass): (tag: string)
    requires c.simpleName.Some?
    ensures var name := c.simpleName.value;
      |name| >= 7 && name[|name| - 7..] == "Message" ==> tag + "Message" == name
    ensures var name := c.simpleName.value;
      !(|name| >= 7 && name[|name| - 7..] == "Message") ==> tag == name
  {
    RemoveSuffix(c.simpleName.value, "Message")
  }

  /** The tag a message travels under on the IPC channel: the two start notifications
      lose their "Message" suffix, the stop messages keep their names. */
  function WireTag(m: ProcessMessage): (tag: string)
    ensures m == ServerStartingMessage ==> tag == "ServerStarting"
    ensures m == ServerStartedMessage ==> tag == "ServerStarted"
    ensures m == ServerStopRequest ==> tag == "ServerStopRequest"
    ensures m == ServerStopResponse ==> tag == "ServerStopResponse"
  {
    var tag := LabelOf(ClassOf(m));
    assert m == ServerStartingMessage ==> tag == "ServerStartingMessage"[..14];
    assert m == ServerStartedMessage ==> tag == "ServerStartedMessage"[..13];
    tag
  }

  /** Distinct messages travel under distinct tags, so decoding a tag is unambiguous. */
  lemma WireTagsDistinct(m: ProcessMessage, m': ProcessMessage)
    requires m != m'
    ensures WireTag(m) != WireTag(m')
  {
  }

  /** The classes can all be registered: each has a simple name and no two share a tag. */
  predicate Registrable(types: seq<KClass>)
  {
    && (forall i :: 0 <= i < |types| ==> types[i].simpleName.Some?)
    && (forall i, j :: 0 <= i < j < |types| ==> LabelOf(types[i]) != LabelOf(types[j]))
  }

  /** The registration loop of Main.kt: every class is added under its tag, in order,
      and the first class without a simple name, or whose tag is already taken,
      aborts the whole registration. */
  method RegisterSubtypes(types: seq<KClass>) returns (r: Result<Factory, RegistrationError>)
    ensures r.Success? <==> Registrable(types)
    ensures r.Success? ==>
      && r.value.Valid()
      && r.value.labelKey == LabelKey
      && r.value.subtypes == types
      && |r.value.labels| == |types|
      && forall i :: 0 <= i < |types| ==> r.value.labels[i] == LabelOf(types[i])
    ensures r.Failure? ==>
      && r.error.index < |types|
      && Registrable(types[..r.error.index])
      && (r.error.NoSimpleName? <==> types[r.error.index].simpleName.None?)
      && (r.error.DuplicateLabel? ==>
            exists j :: 0 <= j < r.error.index && LabelOf(types[j]) == LabelOf(types[r.error.index]))
  {
    var factory := Factory(LabelKey, [], []);
    var i := 0;
    while i < |types|
      invariant 0 <= i <= |types|
      invariant forall k :: 0 <= k < i ==> types[k].simpleName.Some?
      invariant factory.Valid()
      invariant factory.labelKey == LabelKey && factory.subtypes == types[..i] && |factory.labels| == i
      invariant forall k :: 0 <= k < i ==> factory.labels[k] == LabelOf(types[k])
    {
      assert Registrable(types[..i]);
      var name := types[i].simpleName;
      if name.None? {
        return Failure(NoSimpleName(i));
      }
      var next := factory.WithSubtype(types[i], RemoveSuffix(name.value, "Message"));
      if next.Failure? {
        var j :| 0 <= j < i && factory.labels[j] == LabelOf(types[i]);
        return Failure(DuplicateLabel(i));
      }
      factory := next.value;
      assert types[..i + 1] == types[..i] + [types[i]];
      i := i + 1;
    }
    assert types[..i] == types;
    return Success(factory);
  }

  /** The adapter's lookup of a tag: the class registered first under it, if any. */
  function SubtypeFor(labels: seq<string>, subtypes: seq<KClass>, tag: string): (r: Option<KClass>)
    requires |labels| == |subtypes|
    ensures r.Some? <==> tag in labels
    ensures r.Some? ==> exists i :: 0 <= i < |labels| && labels[i] == tag && subtypes[i] == r.value
  {
    if labels == [] then None
    else if labels[0] == tag then Some(subtypes[0])
    else SubtypeFor(labels[1..], subtypes[1..], tag)
  }

  /** Once the message classes are registered (each at most once, in any order),
      every registered message's tag decodes to its own class. */
  lemma {:induction false} DecodeRegisteredTag(
    kinds: seq<ProcessMessage>, classes: seq<KClass>, labels: seq<string>, m: ProcessMessage)
    requires |classes| == |kinds| && |labels| == |kinds|
    requires forall i :: 0 <= i < |kinds| ==> classes[i] == ClassOf(kinds[i])
    requires forall i :: 0 <= i < |kinds| ==> labels[i] == LabelOf(ClassOf(kinds[i]))
    requires m in kinds
    ensures SubtypeFor(labels, classes, WireTag(m)) == Some(ClassOf(m))
  {
    if kinds[0] != m {
      WireTagsDistinct(kinds[0], m);
      DecodeRegisteredTag(kinds[1..], classes[1..], labels[1..], m);
    }
  }

  /** How the IPC event loop treats an inbound message. */
  datatype EventHandling =
    | StartingServer          // logs "[IPC] Starting server..."
    | ServerStarted           // logs "[IPC] Server started"
    | UnknownEvent(name: string)  // logs "[IPC] Unknown event: <name>"

  /** The `when` of the event loop: only the two start notifications are recognised. */
  function HandleEvent(event: ProcessMessage): (h: EventHandling)
    ensures h.UnknownEvent? <==> event in {ServerStopRequest, ServerStopResponse}
    ensures h.UnknownEvent? ==> h.name == SimpleName(event)
  {
    match event
    case ServerStartingMessage => StartingServer
    case ServerStartedMessage => ServerStarted
    case _ => UnknownEvent(SimpleName(event))
  }

  /** The line the event loop logs: always under "[IPC] ", and for an unknown event
      "[IPC] Unknown event: " followed by exactly the event's name. */
  function LogLine(h: EventHandling): (r: string)
    ensures |r| >= 6 && r[..6] == "[IPC] "
    ensures h.UnknownEvent? <==> |r| >= 21 && r[..21] == "[IPC] Unknown event: "
    ensures h.UnknownEvent? ==> r[21..] == h.name
  {
    match h
    case StartingServer =>
      var line := "[IPC] Starting server...";
      assert line[6] != "[IPC] Unknown event: "[6];
      line
    case ServerStarted =>
      var line := "[IPC] Server started";
      assert line[6] != "[IPC] Unknown event: "[6];
      line
    case UnknownEvent(name) => "[IPC] Unknown event: " + name
  }

  /** The logged line tells which event arrived: no two events produce the same line. */
  lemma LogLineIdentifiesEvent(e: ProcessMessage, e': ProcessMessage)
    requires LogLine(HandleEvent(e)) == LogLine(HandleEvent(e'))
    ensures e == e'
  {
    var a, b := LogLine(HandleEvent(e)), LogLine(HandleEvent(e'));
    if HandleEvent(e).UnknownEvent? && HandleEvent(e').UnknownEvent? {
      assert a[21..] == SimpleName(e) && b[21..] == SimpleName(e');
      ProcessMessagesEnumerated();
    }
  }
}
