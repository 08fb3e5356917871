/**
  The fan entity of one purifier: the state it keeps (liveness flag, resend counter,
  attribute dictionary), the status refresh, the resend loop that replays a command while
  its output reports a failure, the intent handlers, and the views derived from the state.

  The command-line transport is a parameter: `t(n, cmd)` is the output of the `n`-th command
  of the session, and `None` stands for the transport failing, which the source turns into a
  `None` output. The device record logs every command it sends.
 */
module Fan {
  import opened Wrappers
  import Text
  import opened Commands
  import opened Status

  type Transport = (nat, string) -> Option<string>

  /** The Python exceptions that escape from an intent or a refresh. */
  datatype Fault =
    | AttributeError      // the failure test was given a `None` output
    | IndexError(line: nat)  // the status output had no line with this index
    | UnboundLocalError   // `set_speed` was given a token outside `speed_list` while online
    | KeyError            // the configuration has no `mqtt` entry

  datatype Device = Device(
    host: string,
    entityId: string,
    online: bool,
    infLoop: nat,
    attrs: Attributes,
    sent: seq<string>)

  /** The device after an operation, and the exception it raised, if any. */
  datatype Outcome = Outcome(dev: Device, fault: Option<Fault>)

  /** The device after one command, and that command's output. */
  datatype Reply = Reply(dev: Device, stdout: Option<string>)

  /** Resends stop once the counter has passed this value. */
  const RetryBound: nat := 10

  /** The text whose presence in a command's output means the command was not applied. */
  const FailureMarker: string := "failed"

  /** The text whose presence in the ping output means the device answered. */
  const PingMarker: string := "1 packets received"

  /** The topic namespace of published attributes. */
  const Domain: string := "philips-air-purifier-coap"

  /** `_run`: send one command and log it. */
  function Run(d: Device, t: Transport, cmd: string): Reply {
    Reply(d.(sent := d.sent + [cmd]), t(|d.sent|, cmd))
  }

  /** The entity as created: offline, counter at zero, no attributes, nothing sent. */
  function Fresh(host: string, entityId: string): Device {
    Device(host, entityId, false, 0, map[], [])
  }

  /** `_update_attributes`: query the status, then parse its lines into the attributes. An empty
      or failed output leaves everything as it was; a short output raises IndexError after the
      attributes of the existing lines have been overwritten. */
  function UpdateAttributes(d: Device, t: Transport): (r: Outcome)
    ensures r.dev == d.(attrs := r.dev.attrs, sent := d.sent + [Prefix(d.host)])
    ensures var out := t(|d.sent|, Prefix(d.host));
      (out.None? || out.value == "") ==> r.dev.attrs == d.attrs && r.fault.None?
    ensures var out := t(|d.sent|, Prefix(d.host));
      out.Some? && out.value != "" ==>
        var lines := Text.SplitLines(out.value);
        && (forall k :: Line(k) < |lines| ==>
              k in r.dev.attrs && r.dev.attrs[k] == GetAttrValue(lines[Line(k)]))
        && (forall k :: Line(k) >= |lines| ==>
              (k in r.dev.attrs <==> k in d.attrs) && (k in d.attrs ==> r.dev.attrs[k] == d.attrs[k]))
        && (r.fault.None? <==> |lines| >= StatusLines)
        && (r.fault.Some? ==>
              && r.fault.value.IndexError? && |lines| <= r.fault.value.line
              && (exists k :: Line(k) == r.fault.value.line)
              && forall k :: Line(k) < r.fault.value.line ==> Line(k) < |lines|)
  {
    var reply := Run(d, t, Prefix(d.host));
    if reply.stdout.None? || reply.stdout.value == "" then Outcome(reply.dev, None)
    else
      var p := ParseStatus(reply.dev.attrs, Text.SplitLines(reply.stdout.value));
      Outcome(reply.dev.(attrs := p.attrs),
              if p.missing.Some? then Some(IndexError(p.missing.value)) else None)
  }

  /** A first status output that exists and is not empty but has fewer lines than the parser
      reads: the refresh raises IndexError. */
  predicate ShortStatus(out: Option<string>) {
    out.Some? && out.value != "" && |Text.SplitLines(out.value)| < StatusLines
  }

  /** Construction as written: the `mqtt` entry of the configuration is read with `[]`,
      although the schema declares it optional without a default, so a configuration
      without it raises before anything is sent. With the entry, the entity starts offline
      with an empty dictionary and refreshes once, and a short first status makes the
      constructor raise, so that no entity exists. */
  function Setup(host: string, entityId: string, mqtt: Option<string>, t: Transport)
    : (r: Result<Device, Fault>)
    ensures r.Failure? <==> mqtt.None? || ShortStatus(t(0, Prefix(host)))
    ensures mqtt.None? ==> r == Failure(KeyError)
    ensures mqtt.Some? && r.Failure? ==> r.error.IndexError?
    ensures r.Success? ==> r.value.sent == [Prefix(host)] && !r.value.online
  {
    if mqtt.None? then Failure(KeyError)
    else SetupIntended(host, entityId, mqtt, t)
  }

  /** Construction as intended: a configuration without an `mqtt` entry means no publishing.
      The entity starts offline with the counter at zero and refreshes once. A short first
      status raises IndexError out of the constructor; otherwise the entity holds every
      attribute, read from its line, or none when the output was missing or empty. */
  function SetupIntended(host: string, entityId: string, mqtt: Option<string>, t: Transport)
    : (r: Result<Device, Fault>)
    ensures var out := t(0, Prefix(host));
      && (r.Failure? <==> ShortStatus(out))
      && (r.Failure? ==>
            r.error.IndexError? && |Text.SplitLines(out.value)| <= r.error.line < StatusLines)
      && (r.Success? ==>
            && r.value.host == host && r.value.entityId == entityId
            && !r.value.online && r.value.infLoop == 0
            && r.value.sent == [Prefix(host)]
            && (forall k :: k in r.value.attrs <==> out.Some? && out.value != "")
            && (forall k :: k in r.value.attrs ==>
                  && Line(k) < |Text.SplitLines(out.value)|
                  && r.value.attrs[k] == GetAttrValue(Text.SplitLines(out.value)[Line(k)])))
  {
    LinesRead();
    var o := UpdateAttributes(Fresh(host, entityId), t);
    if o.fault.Some? then Failure(o.fault.value) else Success(o.dev)
  }

  /** The two agree on every configuration that has an `mqtt` entry. */
  lemma SetupAgreesWithMqtt(host: string, entityId: string, mqtt: string, t: Transport)
    ensures Setup(host, entityId, Some(mqtt), t) == SetupIntended(host, entityId, Some(mqtt), t)
  {
  }

  /** Without an `mqtt` entry, the code as written raises and sends nothing, where the
      intended construction gives an entity whenever the first status is not short. */
  lemma SetupWithoutMqttRaises(host: string, entityId: string, t: Transport)
    ensures Setup(host, entityId, None, t) == Failure(KeyError)
    ensures !ShortStatus(t(0, Prefix(host))) ==> SetupIntended(host, entityId, None, t).Success?
  {
  }

  /** `_action_send_failed`: whether to resend. It resends when the output reports a failure
      and the counter has not passed the bound, counting the resend; otherwise it resets the
      counter. */
  function ActionSendFailed(d: Device, stdout: string): (r: (bool, Device))
    ensures r.1 == d.(infLoop := r.1.infLoop)
    ensures r.0 <==> Text.Contains(stdout, FailureMarker) && d.infLoop <= RetryBound
    ensures r.0 ==> r.1.infLoop == d.infLoop + 1
    ensures !r.0 ==> r.1.infLoop == 0
    ensures d.infLoop <= RetryBound + 1 ==> r.1.infLoop <= RetryBound + 1
  {
    if !Text.Contains(stdout, FailureMarker) || d.infLoop > RetryBound then (false, d.(infLoop := 0))
    else (true, d.(infLoop := d.infLoop + 1))
  }

  /** `set_speed`: offline it sends nothing and answers `""`; online it sends the command of
      the token, and a string that is no token leaves its output unbound. */
  function SetSpeed(d: Device, t: Transport, speed: string): (r: Result<Reply, Fault>)
    ensures !d.online ==> r == Success(Reply(d, Some("")))
    ensures d.online && (forall tok: SpeedToken :: SpeedName(tok) != speed) ==>
              r == Failure(UnboundLocalError)
    ensures forall tok: SpeedToken :: d.online && SpeedName(tok) == speed ==>
              && r.Success?
              && r.value.dev == d.(sent := d.sent + [SpeedCommand(d.host, tok)])
              && r.value.stdout == t(|d.sent|, SpeedCommand(d.host, tok))
  {
    SpeedListExact();
    if !d.online then Success(Reply(d, Some("")))
    else
      match ParseSpeed(speed)
      case None => Failure(UnboundLocalError)
      case Some(tok) => Success(Run(d, t, SpeedCommand(d.host, tok)))
  }

  /** What an intent does on each attempt: send a fixed command, or go through `set_speed`. */
  datatype Action = Send(cmd: string) | ViaSetSpeed(speed: string)

  function Perform(d: Device, t: Transport, a: Action): (r: Result<Reply, Fault>)
    ensures r.Success? ==>
              && r.value.dev == d.(sent := r.value.dev.sent)
              && |d.sent| <= |r.value.dev.sent| <= |d.sent| + 1
              && r.value.dev.sent[..|d.sent|] == d.sent
    ensures a.Send? ==> r == Success(Run(d, t, a.cmd))
  {
    match a
    case Send(cmd) => Success(Run(d, t, cmd))
    case ViaSetSpeed(speed) => SetSpeed(d, t, speed)
  }

  /** Sends the most one intent can: the first attempt plus one per counter value up to the bound
      and one past it. */
  function Attempts(infLoop: nat): nat {
    if infLoop <= RetryBound + 1 then RetryBound + 2 - infLoop else 1
  }

  /** The self-call pattern of the intents: perform the action; while the failure test asks for
      a resend, perform it again; then refresh the attributes once. A `None` output makes the
      failure test raise. */
  function Resend(d: Device, t: Transport, a: Action): (r: Outcome)
    decreases RetryBound + 1 - d.infLoop
    ensures r.dev.host == d.host && r.dev.entityId == d.entityId && r.dev.online == d.online
    ensures |d.sent| <= |r.dev.sent| <= |d.sent| + Attempts(d.infLoop) + 1
    ensures r.dev.sent[..|d.sent|] == d.sent
    ensures d.infLoop <= RetryBound + 1 ==> r.dev.infLoop <= RetryBound + 1
    ensures r.fault.None? || r.fault.value.IndexError? ==> r.dev.infLoop == 0
    ensures a.Send? ==> |r.dev.sent| > |d.sent| && r.dev.sent[|d.sent|] == a.cmd
  {
    match Perform(d, t, a)
    case Failure(f) => Outcome(d, Some(f))
    case Success(reply) =>
      if reply.stdout.None? then Outcome(reply.dev, Some(AttributeError))
      else
        var (again, next) := ActionSendFailed(reply.dev, reply.stdout.value);
        if again then Resend(next, t, a) else UpdateAttributes(next, t)
  }

  /** `turn_on`: without a speed it sends the power-on command whatever the liveness flag says;
      with one it goes through `set_speed` on every attempt. */
  function TurnOn(d: Device, t: Transport, speed: Option<string>): (r: Outcome)
    ensures r.dev.host == d.host && r.dev.entityId == d.entityId && r.dev.online == d.online
    ensures speed.None? ==> |r.dev.sent| > |d.sent| && r.dev.sent[|d.sent|] == PowerOnCommand(d.host)
    ensures speed.Some? && !d.online ==> r == UpdateAttributes(d.(infLoop := 0), t)
    ensures |r.dev.sent| <= |d.sent| + Attempts(d.infLoop) + 1
  {
    Resend(d, t, if speed.None? then Send(PowerOnCommand(d.host)) else ViaSetSpeed(speed.value))
  }

  /** `turn_off`: the power-off command with resends, then one refresh. */
  function TurnOff(d: Device, t: Transport): (r: Outcome)
    ensures r.dev.host == d.host && r.dev.entityId == d.entityId && r.dev.online == d.online
    ensures |r.dev.sent| > |d.sent| && r.dev.sent[|d.sent|] == PowerOffCommand(d.host)
    ensures |r.dev.sent| <= |d.sent| + Attempts(d.infLoop) + 1
  {
    Resend(d, t, Send(PowerOffCommand(d.host)))
  }

  /** A service call addressed to an entity, carrying the option the service sets. */
  datatype ServiceCall = ServiceCall(entityId: string, option: string)

  /** A child-lock service call. */
  datatype LockCall = LockCall(entityId: string, state: bool)

  /** The shape shared by the service handlers: a call for another entity does nothing at all;
      otherwise the command is sent with resends and the attributes are refreshed. */
  function Handle(d: Device, t: Transport, callEntity: string, cmd: string): (r: Outcome)
    ensures callEntity != d.entityId ==> r == Outcome(d, None)
    ensures callEntity == d.entityId ==>
              |r.dev.sent| > |d.sent| && r.dev.sent[|d.sent|] == cmd
    ensures r.dev.host == d.host && r.dev.entityId == d.entityId && r.dev.online == d.online
    ensures |r.dev.sent| <= |d.sent| + Attempts(d.infLoop) + 1
  {
    if d.entityId == callEntity then Resend(d, t, Send(cmd)) else Outcome(d, None)
  }

  /** `set_humidity`. */
  function SetHumidity(d: Device, t: Transport, call: ServiceCall): (r: Outcome)
    ensures call.entityId != d.entityId ==> r == Outcome(d, None)
    ensures call.entityId == d.entityId ==>
              |r.dev.sent| > |d.sent| && r.dev.sent[|d.sent|] == HumidityCommand(d.host, call.option)
  {
    Handle(d, t, call.entityId, HumidityCommand(d.host, call.option))
  }

  /** `set_function`. */
  function SetFunction(d: Device, t: Transport, call: ServiceCall): (r: Outcome)
    ensures call.entityId != d.entityId ==> r == Outcome(d, None)
    ensures call.entityId == d.entityId ==>
              |r.dev.sent| > |d.sent| && r.dev.sent[|d.sent|] == FunctionCommand(d.host, call.option)
  {
    Handle(d, t, call.entityId, FunctionCommand(d.host, call.option))
  }

  /** `set_light_brightness`. */
  function SetLightBrightness(d: Device, t: Transport, call: ServiceCall): (r: Outcome)
    ensures call.entityId != d.entityId ==> r == Outcome(d, None)
    ensures call.entityId == d.entityId ==>
              |r.dev.sent| > |d.sent| && r.dev.sent[|d.sent|] == BrightnessCommand(d.host, call.option)
  {
    Handle(d, t, call.entityId, BrightnessCommand(d.host, call.option))
  }

  /** `set_child_lock`. */
  function SetChildLock(d: Device, t: Transport, call: LockCall): (r: Outcome)
    ensures call.entityId != d.entityId ==> r == Outcome(d, None)
    ensures call.entityId == d.entityId ==>
              |r.dev.sent| > |d.sent| && r.dev.sent[|d.sent|] == ChildLockCommand(d.host, call.state)
  {
    Handle(d, t, call.entityId, ChildLockCommand(d.host, call.state))
  }

  /** `_device_available`: the device is online exactly when the ping output mentions one
      received packet; a failed ping leaves it offline. Nothing else changes. */
  function DeviceAvailable(d: Device, ping: Option<string>): (r: Device)
    ensures r == d.(online := r.online)
    ensures r.online <==> ping.Some? && Text.Contains(ping.value, PingMarker)
  {
    if ping.Some? && ping.value != "" then d.(online := Text.Contains(ping.value, PingMarker))
    else d.(online := false)
  }

  /** The attribute is present and holds `v`. */
  predicate Holds(attrs: Attributes, k: Key, v: string) {
    k in attrs && attrs[k] == Some(v)
  }

  /** The mode is present and is neither `auto` nor `allergen`, and the fan speed is `v`. */
  predicate ManualAt(attrs: Attributes, v: string) {
    Mode in attrs && !Holds(attrs, Mode, "auto") && !Holds(attrs, Mode, "allergen")
    && Holds(attrs, FanSpeed, v)
  }

  /** The fan-speed values `speed` recognises. */
  const FanValues: set<string> := {"0", "1", "2", "3", "turbo", "silent"}

  /** The `speed` property. It does not look at the liveness flag; a missing mode or fan-speed
      entry reads as no speed. */
  function Speed(d: Device): (s: Option<SpeedToken>)
    ensures s.Some? ==> s.value in SpeedList
    ensures s == Some(Auto) <==> Holds(d.attrs, Mode, "auto")
    ensures s == Some(Allergen) <==> Holds(d.attrs, Mode, "allergen")
    ensures s == Some(Off) <==> ManualAt(d.attrs, "0")
    ensures s == Some(Low) <==> ManualAt(d.attrs, "1")
    ensures s == Some(Medium) <==> ManualAt(d.attrs, "2")
    ensures s == Some(High) <==> ManualAt(d.attrs, "3")
    ensures s == Some(Turbo) <==> ManualAt(d.attrs, "turbo")
    ensures s == Some(Silent) <==> ManualAt(d.attrs, "silent")
    ensures s.None? <==> || Mode !in d.attrs
                         || (&& !Holds(d.attrs, Mode, "auto") && !Holds(d.attrs, Mode, "allergen")
                             && forall v :: v in FanValues ==> !ManualAt(d.attrs, v))
  {
    var a := d.attrs;
    if Mode !in a then None
    else if a[Mode] == Some("auto") then Some(Auto)
    else if a[Mode] == Some("allergen") then Some(Allergen)
    else if FanSpeed !in a then None
    else if a[FanSpeed] == Some("0") then Some(Off)
    else if a[FanSpeed] == Some("1") then Some(Low)
    else if a[FanSpeed] == Some("2") then Some(Medium)
    else if a[FanSpeed] == Some("3") then Some(High)
    else if a[FanSpeed] == Some("turbo") then Some(Turbo)
    else if a[FanSpeed] == Some("silent") then Some(Silent)
    else None
  }

  /** The power state the entity reports. */
  datatype PowerState = PowerOn | PowerOff

  /** The `state` property: nothing while offline; otherwise `on` exactly when the `state`
      attribute is `ON`, `off` for any other value, and nothing when it is missing. */
  function State(d: Device): (s: Option<PowerState>)
    ensures !d.online ==> s.None?
    ensures d.online ==> (s == Some(PowerOn) <==> Holds(d.attrs, Power, "ON"))
    ensures d.online ==> (s == Some(PowerOff) <==> Power in d.attrs && !Holds(d.attrs, Power, "ON"))
  {
    if !d.online then None
    else if Power !in d.attrs then None
    else if d.attrs[Power] == Some("ON") then Some(PowerOn)
    else Some(PowerOff)
  }

  /** `_mqtt_send`'s topic for a key: none when the device id is empty or `None`. */
  function MqttTopic(attrs: Attributes, key: string): (r: Option<string>)
    requires DeviceId in attrs
    ensures r.Some? <==> attrs[DeviceId].Some? && attrs[DeviceId].value != ""
  {
    match attrs[DeviceId]
    case None => None
    case Some(id) => if id == "" then None else Some(Domain + "/" + id + "/" + key)
  }
}
