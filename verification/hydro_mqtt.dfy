/** The MQTT actuator client: encoding of switch and dose commands into a topic and a JSON payload,
    the publish that is gated on a client existing, and the connect / disconnect / retry machine.
    Clocks and the broker are parameters and events: `Connect(now)` carries the clock reading the
    client identifier is made of, and the broker's answer to a connect arrives as an event. */
module HydroMqtt {
  import opened Wrappers
  import opened Text

  const DefaultHost: string := "192.168.3.201"
  const DefaultPort: int := 1883
  const KeepAliveSeconds: int := 30
  /** The pause before a failed connect is tried again; the model has no clock, so it only names it. */
  const RetryDelayMillis: int := 2500
  const IdentifierPrefix: string := "hydrobox-android-"
  const TopicPrefix: string := "hydrobox/actuators/"
  const TopicSuffix: string := "/set"

  /** A Kotlin `Int`. */
  type Int32 = x: int | -0x8000_0000 <= x < 0x8000_0000

  newtype Byte = x: int | 0 <= x < 256

  /** MQTT 3.1.1 quality-of-service levels (section 4.3 of the MQTT 3.1.1 standard). */
  datatype Qos = AtMostOnce | AtLeastOnce | ExactlyOnce

  datatype Credentials = Credentials(username: string, password: string)

  /** The mutable `host`, `port`, `user` and `pass` of the client object. */
  datatype Settings = Settings(host: string, port: int, user: Option<string>, pass: Option<string>)

  /** What a built client connects with. */
  datatype ClientConfig = ClientConfig(
    identifier: string,
    host: string,
    port: int,
    cleanSession: bool,
    keepAlive: int,
    auth: Option<Credentials>)

  /** The client object: the current client (`null` after a disconnect), the `isConnected` flag,
      the connect attempts whose completion has not arrived yet, and the reconnects scheduled
      but not yet run. */
  datatype Mqtt = Mqtt(
    settings: Settings,
    client: Option<ClientConfig>,
    isConnected: bool,
    attempts: nat,
    retries: nat)

  /** An actuator command. */
  datatype Command = Switch(deviceId: string, on: bool) | Dose(deviceId: string, ml: Int32)

  /** One PUBLISH as it is handed to the broker client. */
  datatype Packet = Packet(topic: string, payload: seq<Byte>, qos: Qos, retain: bool)

  function DefaultSettings(): Settings {
    Settings(DefaultHost, DefaultPort, None, None)
  }

  function Init(settings: Settings): Mqtt {
    Mqtt(settings, None, false, 0, 0)
  }

  predicate IsAscii(s: string) {
    forall i :: 0 <= i < |s| ==> s[i] as int < 128
  }

  /** UTF-8 bytes of an ASCII text: one byte per character, the character's code. */
  function AsciiBytes(s: string): (r: seq<Byte>)
    requires IsAscii(s)
    ensures |r| == |s|
    ensures forall i :: 0 <= i < |s| ==> r[i] as int == s[i] as int
  {
    seq(|s|, i requires 0 <= i < |s| => s[i] as int as Byte)
  }

  /** The credentials a connect carries: present exactly when both user and password are set and
      not blank. */
  function AuthFor(settings: Settings): (r: Option<Credentials>)
    ensures r.Some? <==>
      && settings.user.Some? && !IsBlank(settings.user.value)
      && settings.pass.Some? && !IsBlank(settings.pass.value)
    ensures r.Some? ==> r.value == Credentials(settings.user.value, settings.pass.value)
  {
    match (settings.user, settings.pass)
    case (Some(u), Some(p)) => if !IsBlank(u) && !IsBlank(p) then Some(Credentials(u, p)) else None
    case _ => None
  }

  /** The client `connect()` builds at clock reading `now`. */
  function NewClient(settings: Settings, now: int): (r: ClientConfig)
    ensures r.identifier == IdentifierPrefix + IntToDecimal(now)
    ensures r.host == settings.host && r.port == settings.port
    ensures r.cleanSession && r.keepAlive == KeepAliveSeconds
    ensures r.auth == AuthFor(settings)
  {
    ClientConfig(IdentifierPrefix + IntToDecimal(now), settings.host, settings.port, true, KeepAliveSeconds, AuthFor(settings))
  }

  /** `connect()`: a fresh client replaces the current one and a connect attempt starts. */
  function Connect(s: Mqtt, now: int): (r: Mqtt)
    ensures r.client == Some(NewClient(s.settings, now))
    ensures r.attempts == s.attempts + 1
    ensures r.isConnected == s.isConnected && r.retries == s.retries && r.settings == s.settings
  {
    s.(client := Some(NewClient(s.settings, now)), attempts := s.attempts + 1)
  }

  /** A connect attempt completed with an error: not connected, and exactly one reconnect scheduled. */
  function ConnectFailed(s: Mqtt): (r: Mqtt)
    requires s.attempts > 0
    ensures !r.isConnected
    ensures r.retries == s.retries + 1 && r.attempts == s.attempts - 1
    ensures r.client == s.client && r.settings == s.settings
  {
    s.(isConnected := false, attempts := s.attempts - 1, retries := s.retries + 1)
  }

  /** A connect attempt completed without error: connected, and nothing scheduled. */
  function ConnectSucceeded(s: Mqtt): (r: Mqtt)
    requires s.attempts > 0
    ensures r.isConnected
    ensures r.attempts == s.attempts - 1 && r.retries == s.retries
    ensures r.client == s.client && r.settings == s.settings
  {
    s.(isConnected := true, attempts := s.attempts - 1)
  }

  /** A scheduled reconnect runs: it is used up and `connect()` is called again. */
  function RetryFired(s: Mqtt, now: int): (r: Mqtt)
    requires s.retries > 0
    ensures r.retries == s.retries - 1 && r.attempts == s.attempts + 1
    ensures r.client == Some(NewClient(s.settings, now))
    ensures r.isConnected == s.isConnected && r.settings == s.settings
  {
    Connect(s.(retries := s.retries - 1), now)
  }

  /** `disconnect()`: not connected and no client. Scheduled reconnects and attempts in flight
      are not cancelled. */
  function Disconnect(s: Mqtt): (r: Mqtt)
    ensures !r.isConnected && r.client.None?
    ensures r.attempts == s.attempts && r.retries == s.retries && r.settings == s.settings
  {
    s.(isConnected := false, client := None)
  }

  lemma DisconnectIdempotent(s: Mqtt)
    ensures Disconnect(Disconnect(s)) == Disconnect(s)
  {
  }

  function Topic(deviceId: string): (r: string)
    ensures TopicPrefix <= r && |r| == |TopicPrefix| + |deviceId| + |TopicSuffix|
    ensures r[|TopicPrefix|..|TopicPrefix| + |deviceId|] == deviceId
    ensures r[|TopicPrefix| + |deviceId|..] == TopicSuffix
  {
    var r := TopicPrefix + deviceId + TopicSuffix;
    assert r[..|TopicPrefix|] == TopicPrefix;
    r
  }

  function SwitchPayload(on: bool): string {
    if on then "{\"on\":true}" else "{\"on\":false}"
  }

  const DosePrefix: string := "{\"dose_ml\":"

  function DosePayload(ml: int): (r: string)
    ensures DosePrefix <= r && |r| == |DosePrefix| + |IntToDecimal(ml)| + 1
    ensures r[|DosePrefix|..|r| - 1] == IntToDecimal(ml) && r[|r| - 1] == '}'
  {
    var r := DosePrefix + IntToDecimal(ml) + "}";
    assert r[..|DosePrefix|] == DosePrefix;
    r
  }

  /** The topic and the JSON text `sendSwitch` / `sendDose` hand to `publish`. */
  function Encode(cmd: Command): (string, string) {
    match cmd
    case Switch(id, on) => (Topic(id), SwitchPayload(on))
    case Dose(id, ml) => (Topic(id), DosePayload(ml))
  }

  /** Reads a command back from a topic and payload; the inverse of `Encode`. */
  function Decode(topic: string, payload: string): Option<Command> {
    if !(TopicPrefix <= topic && |topic| >= |TopicPrefix| + |TopicSuffix|
         && topic[|topic| - |TopicSuffix|..] == TopicSuffix) then None
    else
      var id := topic[|TopicPrefix|..|topic| - |TopicSuffix|];
      if payload == SwitchPayload(true) then Some(Switch(id, true))
      else if payload == SwitchPayload(false) then Some(Switch(id, false))
      else if DosePrefix <= payload && |payload| > |DosePrefix| && payload[|payload| - 1] == '}' then
        match ParseInt(payload[|DosePrefix|..|payload| - 1])
        case Some(n) => if -0x8000_0000 <= n < 0x8000_0000 then Some(Dose(id, n)) else None
        case None => None
      else None
  }

  /** Every command can be read back from the topic and payload it is sent with. */
  lemma DecodeEncode(cmd: Command)
    ensures Decode(Encode(cmd).0, Encode(cmd).1) == Some(cmd)
  {
    var (topic, payload) := Encode(cmd);
    assert topic[|topic| - |TopicSuffix|..] == TopicSuffix;
    assert topic[|TopicPrefix|..|topic| - |TopicSuffix|] == cmd.deviceId;
    match cmd
    case Switch(id, on) =>
    case Dose(id, ml) =>
      assert payload[2] == 'd';
      assert payload != SwitchPayload(true) && payload != SwitchPayload(false) by {
        assert SwitchPayload(true)[2] == 'o' && SwitchPayload(false)[2] == 'o';
      }
      ParseIntToDecimal(ml);
  }

  /** Different commands never produce the same message; a switch and a dose for the same device
      share one topic. */
  lemma EncodeInjective(a: Command, b: Command)
    ensures Encode(a) == Encode(b) ==> a == b
    ensures a.deviceId == b.deviceId ==> Encode(a).0 == Encode(b).0
  {
    DecodeEncode(a);
    DecodeEncode(b);
  }

  /** Every payload is ASCII JSON with a single key: `"on"` or `"dose_ml"`. */
  lemma PayloadShape(cmd: Command)
    ensures IsAscii(Encode(cmd).1)
    ensures cmd.Switch? ==> Encode(cmd).1 == (if cmd.on then "{\"on\":true}" else "{\"on\":false}")
    ensures cmd.Dose? ==> Encode(cmd).1 == "{\"dose_ml\":" + IntToDecimal(cmd.ml) + "}"
  {
    if cmd.Dose? {
      var d := IntToDecimal(cmd.ml);
      forall i | 0 <= i < |d| ensures d[i] as int < 128 {
        if cmd.ml < 0 && i > 0 { assert d[1..][i - 1] == d[i]; }
      }
    }
  }

  /** `publish`: nothing when there is no client, whatever `isConnected` says; otherwise one
      at-least-once, non-retained PUBLISH of the UTF-8 payload. */
  function Publish(s: Mqtt, topic: string, payload: string): (r: Option<Packet>)
    requires IsAscii(payload)
    ensures r.Some? <==> s.client.Some?
    ensures r.Some? ==> r.value.topic == topic && r.value.qos == AtLeastOnce && !r.value.retain
    ensures r.Some? ==> |r.value.payload| == |payload|
    ensures r.Some? ==> forall i :: 0 <= i < |payload| ==> r.value.payload[i] as int == payload[i] as int
  {
    if s.client.None? then None else Some(Packet(topic, AsciiBytes(payload), AtLeastOnce, false))
  }

  /** `sendSwitch` / `sendDose`: publish the encoded command. */
  function Send(s: Mqtt, cmd: Command): (r: Option<Packet>)
    ensures r.Some? <==> s.client.Some?
    ensures r.Some? ==> r.value.topic == Topic(cmd.deviceId) && r.value.qos == AtLeastOnce && !r.value.retain
  {
    PayloadShape(cmd);
    Publish(s, Encode(cmd).0, Encode(cmd).1)
  }

  /** The command a sent packet carries is the command that was sent. */
  lemma SendRoundTrip(s: Mqtt, cmd: Command)
    requires s.client.Some?
    ensures var p := Send(s, cmd).value;
      var text := seq(|p.payload|, i requires 0 <= i < |p.payload| => p.payload[i] as int as char);
      Decode(p.topic, text) == Some(cmd)
  {
    var p := Send(s, cmd).value;
    var text := seq(|p.payload|, i requires 0 <= i < |p.payload| => p.payload[i] as int as char);
    assert text == Encode(cmd).1;
    DecodeEncode(cmd);
  }

  /** Whether a send goes out depends on the client alone: a client whose connect is still pending
      or has failed sends, and a connected flag without a client does not. */
  lemma PublishIgnoresConnectedFlag(s: Mqtt, cmd: Command, flag: bool)
    ensures Send(s.(isConnected := flag), cmd) == Send(s, cmd)
  {
  }

  /** After `disconnect()`, every send is skipped, however often it was called. */
  lemma SendAfterDisconnect(s: Mqtt, cmd: Command)
    ensures Send(Disconnect(s), cmd).None?
    ensures Send(Disconnect(Disconnect(s)), cmd).None?
  {
  }

  datatype Event =
    | ConnectCall(now: int)  // `connect()` called by the application
    | Failed                 // a connect attempt completed with an error
    | Succeeded              // a connect attempt completed without error
    | RetryRuns(now: int)    // a scheduled reconnect runs
    | DisconnectCall         // `disconnect()` called by the application

  predicate Enabled(s: Mqtt, e: Event) {
    match e
    case Failed => s.attempts > 0
    case Succeeded => s.attempts > 0
    case RetryRuns(_) => s.retries > 0
    case _ => true
  }

  function Step(s: Mqtt, e: Event): Mqtt
    requires Enabled(s, e)
  {
    match e
    case ConnectCall(now) => Connect(s, now)
    case Failed => ConnectFailed(s)
    case Succeeded => ConnectSucceeded(s)
    case RetryRuns(now) => RetryFired(s, now)
    case DisconnectCall => Disconnect(s)
  }

  predicate ValidTrace(s: Mqtt, es: seq<Event>)
    decreases |es|
  {
    |es| == 0 || (Enabled(s, es[0]) && ValidTrace(Step(s, es[0]), es[1..]))
  }

  function Run(s: Mqtt, es: seq<Event>): Mqtt
    requires ValidTrace(s, es)
    decreases |es|
  {
    if |es| == 0 then s else Run(Step(s, es[0]), es[1..])
  }

  /** A trace runs its first event, then the rest. */
  lemma RunFirst(s: Mqtt, es: seq<Event>)
    requires |es| > 0 && Enabled(s, es[0]) && ValidTrace(Step(s, es[0]), es[1..])
    ensures ValidTrace(s, es) && Run(s, es) == Run(Step(s, es[0]), es[1..])
  {
  }

  /** Started by one `connect()`, the client never has more than one attempt or reconnect pending:
      each failure schedules exactly one reconnect and each reconnect starts exactly one attempt. */
  lemma {:induction false} AtMostOnePending(s: Mqtt, es: seq<Event>)
    requires s.attempts + s.retries <= 1
    requires ValidTrace(s, es)
    requires forall i :: 0 <= i < |es| ==> !es[i].ConnectCall?
    ensures Run(s, es).attempts + Run(s, es).retries <= 1
    decreases |es|
  {
    if |es| > 0 {
      AtMostOnePending(Step(s, es[0]), es[1..]);
    }
  }

  /** Three failed attempts followed by a successful one leave the client connected, with the
      identifier of the last attempt and nothing pending. */
  lemma ThreeFailuresThenSuccess(settings: Settings, t0: int, t1: int, t2: int, t3: int)
    ensures var es := [ConnectCall(t0), Failed, RetryRuns(t1), Failed, RetryRuns(t2), Failed, RetryRuns(t3), Succeeded];
      && ValidTrace(Init(settings), es)
      && Run(Init(settings), es).isConnected
      && Run(Init(settings), es).client == Some(NewClient(settings, t3))
      && Run(Init(settings), es).attempts == 0 && Run(Init(settings), es).retries == 0
  {
    var s0 := Init(settings);
    var s1 := Connect(s0, t0);
    assert s1.attempts == 1 && s1.retries == 0;
    var s2 := ConnectFailed(s1);
    var s3 := RetryFired(s2, t1);
    assert s3.attempts == 1 && s3.retries == 0;
    var s4 := ConnectFailed(s3);
    var s5 := RetryFired(s4, t2);
    assert s5.attempts == 1 && s5.retries == 0;
    var s6 := ConnectFailed(s5);
    var s7 := RetryFired(s6, t3);
    assert s7.attempts == 1 && s7.retries == 0 && s7.client == Some(NewClient(settings, t3));
    var s8 := ConnectSucceeded(s7);
    var tail7: seq<Event> := [Succeeded];
    var tail6 := [RetryRuns(t3)] + tail7;
    var tail5 := [Failed] + tail6;
    var tail4 := [RetryRuns(t2)] + tail5;
    var tail3 := [Failed] + tail4;
    var tail2 := [RetryRuns(t1)] + tail3;
    var tail1 := [Failed] + tail2;
    var es := [ConnectCall(t0)] + tail1;
    assert tail7[1..] == [];
    RunFirst(s7, tail7);
    assert tail6[1..] == tail7;
    RunFirst(s6, tail6);
    assert tail5[1..] == tail6;
    RunFirst(s5, tail5);
    assert tail4[1..] == tail5;
    RunFirst(s4, tail4);
    assert tail3[1..] == tail4;
    RunFirst(s3, tail3);
    assert tail2[1..] == tail3;
    RunFirst(s2, tail2);
    assert tail1[1..] == tail2;
    RunFirst(s1, tail1);
    assert es[1..] == tail1;
    RunFirst(s0, es);
    assert es == [ConnectCall(t0), Failed, RetryRuns(t1), Failed, RetryRuns(t2), Failed, RetryRuns(t3), Succeeded];
  }

  /** As written, a reconnect scheduled before `disconnect()` still runs afterwards and builds a
      new client, so sends resume. */
  lemma RetrySurvivesDisconnect(settings: Settings, t0: int, t1: int, cmd: Command)
    ensures var es := [ConnectCall(t0), Failed, DisconnectCall, RetryRuns(t1)];
      && ValidTrace(Init(settings), es)
      && Run(Init(settings), es).client.Some?
      && Send(Run(Init(settings), es), cmd).Some?
  {
    var es := [ConnectCall(t0), Failed, DisconnectCall, RetryRuns(t1)];
    var s0 := Init(settings);
    var s1 := Step(s0, es[0]);
    var s2 := Step(s1, es[1]);
    var s3 := Step(s2, es[2]);
    RunFirst(s3, es[3..]);
    RunFirst(s2, es[2..]);
    RunFirst(s1, es[1..]);
    RunFirst(s0, es);
  }

  /** As written, an attempt that completes after `disconnect()` raises `isConnected` although
      there is no client, and sends stay skipped. */
  lemma ConnectedWithoutClient(settings: Settings, t0: int, cmd: Command)
    ensures var es := [ConnectCall(t0), DisconnectCall, Succeeded];
      && ValidTrace(Init(settings), es)
      && Run(Init(settings), es).isConnected
      && Run(Init(settings), es).client.None?
      && Send(Run(Init(settings), es), cmd).None?
  {
    var es := [ConnectCall(t0), DisconnectCall, Succeeded];
    var s0 := Init(settings);
    var s1 := Step(s0, es[0]);
    var s2 := Step(s1, es[1]);
    RunFirst(s2, es[2..]);
    RunFirst(s1, es[1..]);
    RunFirst(s0, es);
  }
}
