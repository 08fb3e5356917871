/**
  Properties of the fan entity that relate several calls: how many commands the resend loop
  sends, that it always ends with exactly one refresh, how `turn_on` with a speed relates to
  the plain speed command, and what the views show after a refresh.
 */
module FanProperties {
  import opened Wrappers
  import Text
  import opened Commands
  import opened Status
  import opened Fan

  /** `n` copies of one command. */
  function Copies(cmd: string, n: nat): seq<string> {
    if n == 0 then [] else [cmd] + Copies(cmd, n - 1)
  }

  /** One more copy in front of the rest. */
  lemma CopiesStep(prefix: seq<string>, cmd: string, n: nat)
    ensures prefix + [cmd] + Copies(cmd, n) == prefix + Copies(cmd, n + 1)
  {
  }

  /** Every answer of the transport exists and reports a failure. */
  ghost predicate AlwaysFails(t: Transport) {
    forall n: nat, c: string :: t(n, c).Some? && Text.Contains(t(n, c).value, FailureMarker)
  }

  /** The transport never fails outright. */
  ghost predicate NeverRaises(t: Transport) {
    forall n: nat, c: string :: t(n, c).Some?
  }

  /** Against a transport that always reports failure, a command is sent once for each
      counter value from the current one through one past the bound, then the counter is
      reset and the attributes are refreshed once. */
  lemma {:induction false} ResendAlwaysFailing(d: Device, t: Transport, cmd: string)
    requires AlwaysFails(t) && d.infLoop <= RetryBound + 1
    ensures Resend(d, t, Send(cmd))
         == UpdateAttributes(d.(infLoop := 0, sent := d.sent + Copies(cmd, RetryBound + 2 - d.infLoop)), t)
    decreases RetryBound + 1 - d.infLoop, 1
  {
    if d.infLoop == RetryBound + 1 {
      LastResend(d, t, cmd);
    } else {
      FailingResend(d, t, cmd);
    }
  }

  /** Below the bound, a failing attempt adds one copy of the command to what the next
      attempt sends. */
  lemma {:induction false} FailingResend(d: Device, t: Transport, cmd: string)
    requires AlwaysFails(t) && d.infLoop <= RetryBound
    ensures Resend(d, t, Send(cmd))
         == UpdateAttributes(d.(infLoop := 0, sent := d.sent + Copies(cmd, RetryBound + 2 - d.infLoop)), t)
    decreases RetryBound + 1 - d.infLoop, 0
  {
    ResendOnFailure(d, t, cmd);
    var next := d.(infLoop := d.infLoop + 1, sent := d.sent + [cmd]);
    ResendAlwaysFailing(next, t, cmd);
    CopiesStep(d.sent, cmd, RetryBound + 1 - d.infLoop);
  }

  /** Past the bound, a failing attempt is the last one. */
  lemma LastResend(d: Device, t: Transport, cmd: string)
    requires AlwaysFails(t) && d.infLoop == RetryBound + 1
    ensures Resend(d, t, Send(cmd))
         == UpdateAttributes(d.(infLoop := 0, sent := d.sent + Copies(cmd, 1)), t)
  {
    ResendOnFailure(d, t, cmd);
    assert Copies(cmd, 1) == [cmd];
  }

  /** One attempt whose output reports a failure: below the bound the command is resent with
      the counter one higher; just past it the counter is reset and the attributes refreshed. */
  lemma ResendOnFailure(d: Device, t: Transport, cmd: string)
    requires t(|d.sent|, cmd).Some? && Text.Contains(t(|d.sent|, cmd).value, FailureMarker)
    ensures d.infLoop <= RetryBound ==>
      Resend(d, t, Send(cmd)) == Resend(d.(infLoop := d.infLoop + 1, sent := d.sent + [cmd]), t, Send(cmd))
    ensures d.infLoop > RetryBound ==>
      Resend(d, t, Send(cmd)) == UpdateAttributes(d.(infLoop := 0, sent := d.sent + [cmd]), t)
  {
    assert Perform(d, t, Send(cmd)) == Success(Run(d, t, cmd));
  }

  /** `turn_off` against a device that always reports failure: twelve power-off commands, then
      one status query, and the counter is back at zero. */
  lemma TurnOffAlwaysFailing(d: Device, t: Transport)
    requires AlwaysFails(t) && d.infLoop == 0
    ensures TurnOff(d, t).dev.sent
         == d.sent + Copies(PowerOffCommand(d.host), 12) + [Prefix(d.host)]
    ensures TurnOff(d, t).dev.infLoop == 0
  {
    ResendAlwaysFailing(d, t, PowerOffCommand(d.host));
  }

  /** When the first answer reports no failure, the command is sent once, the counter is reset
      and the attributes are refreshed once. */
  lemma ResendFirstAnswerPasses(d: Device, t: Transport, cmd: string)
    requires t(|d.sent|, cmd).Some? && !Text.Contains(t(|d.sent|, cmd).value, FailureMarker)
    ensures Resend(d, t, Send(cmd)) == UpdateAttributes(d.(infLoop := 0, sent := d.sent + [cmd]), t)
  {
  }

  /** With a transport that never fails outright, an intent that sends a command sends it
      between one time and the bound allows, and then queries the status exactly once. */
  lemma {:induction false} ResendThenOneRefresh(d: Device, t: Transport, cmd: string)
    returns (k: nat)
    requires NeverRaises(t)
    ensures 1 <= k <= Attempts(d.infLoop)
    ensures Resend(d, t, Send(cmd)).dev.sent == d.sent + Copies(cmd, k) + [Prefix(d.host)]
    ensures Resend(d, t, Send(cmd)).dev.infLoop == 0
    decreases RetryBound + 1 - d.infLoop
  {
    var out := t(|d.sent|, cmd);
    assert out.Some?;
    var (again, next) := ActionSendFailed(d.(sent := d.sent + [cmd]), out.value);
    ResendStep(d, t, cmd);
    if again {
      var j := ResendThenOneRefresh(next, t, cmd);
      k := j + 1;
      SentAfterRetry(d, next, Resend(next, t, Send(cmd)), cmd, j);
    } else {
      k := 1;
      assert Copies(cmd, 1) == [cmd];
      assert UpdateAttributes(next, t).dev.sent == next.sent + [Prefix(d.host)];
    }
  }

  /** What a retry sent, counted from the attempt before it. */
  lemma SentAfterRetry(d: Device, next: Device, r: Outcome, cmd: string, j: nat)
    requires next.sent == d.sent + [cmd] && next.host == d.host
    requires r.dev.sent == next.sent + Copies(cmd, j) + [Prefix(next.host)]
    ensures r.dev.sent == d.sent + Copies(cmd, j + 1) + [Prefix(d.host)]
  {
    CopiesStep(d.sent, cmd, j);
  }

  /** One attempt that gets an answer: the failure test decides between the next attempt and
      the refresh. */
  lemma ResendStep(d: Device, t: Transport, cmd: string)
    requires t(|d.sent|, cmd).Some?
    ensures var r := ActionSendFailed(d.(sent := d.sent + [cmd]), t(|d.sent|, cmd).value);
      Resend(d, t, Send(cmd)) == if r.0 then Resend(r.1, t, Send(cmd)) else UpdateAttributes(r.1, t)
  {
    assert Perform(d, t, Send(cmd)) == Success(Run(d, t, cmd));
  }

  /** Online, `turn_on` with a speed behaves exactly like resending that speed's command. */
  lemma {:induction false} TurnOnSpeedIsSpeedCommand(d: Device, t: Transport, tok: SpeedToken)
    requires d.online
    ensures TurnOn(d, t, Some(SpeedName(tok))) == Resend(d, t, Send(SpeedCommand(d.host, tok)))
  {
    ResendSameAttempts(d, t, tok);
  }

  lemma {:induction false} ResendSameAttempts(d: Device, t: Transport, tok: SpeedToken)
    requires d.online
    ensures Resend(d, t, ViaSetSpeed(SpeedName(tok))) == Resend(d, t, Send(SpeedCommand(d.host, tok)))
    decreases RetryBound + 1 - d.infLoop
  {
    assert Perform(d, t, ViaSetSpeed(SpeedName(tok))) == Perform(d, t, Send(SpeedCommand(d.host, tok)));
    var reply := Run(d, t, SpeedCommand(d.host, tok));
    if reply.stdout.Some? {
      var (again, next) := ActionSendFailed(reply.dev, reply.stdout.value);
      if again {
        ResendSameAttempts(next, t, tok);
      }
    }
  }

  /** Online, `turn_on` with a string outside `speed_list` raises before sending anything. */
  lemma TurnOnUnknownSpeed(d: Device, t: Transport, speed: string)
    requires d.online && forall tok: SpeedToken :: SpeedName(tok) != speed
    ensures TurnOn(d, t, Some(speed)) == Outcome(d, Some(UnboundLocalError))
  {
  }

  /** The speed view ignores the liveness flag, and reads only the mode and fan-speed entries. */
  lemma SpeedReadsModeAndFanSpeed(d: Device, e: Device)
    requires (Mode in d.attrs <==> Mode in e.attrs) && (FanSpeed in d.attrs <==> FanSpeed in e.attrs)
    requires Mode in d.attrs ==> d.attrs[Mode] == e.attrs[Mode]
    requires FanSpeed in d.attrs ==> d.attrs[FanSpeed] == e.attrs[FanSpeed]
    ensures Speed(d) == Speed(e)
  {
  }

  /** The fan-speed text the status reports for a manually selected speed. */
  function ManualText(tok: SpeedToken): Option<string> {
    match tok
    case Off => Some("0")
    case Low => Some("1")
    case Medium => Some("2")
    case High => Some("3")
    case Turbo => Some("turbo")
    case Silent => Some("silent")
    case Auto => None
    case Allergen => None
  }

  /** A refresh whose status output has every line the parser reads assigns each key the
      value of its line and raises nothing. */
  lemma RefreshReadsEveryLine(d: Device, t: Transport, lines: seq<string>)
    requires |lines| >= StatusLines
    requires forall j, i :: 0 <= j < |lines| && 0 <= i < |lines[j]| ==> !Text.IsLineBreak(lines[j][i])
    requires t(|d.sent|, Prefix(d.host)) == Some(Text.Terminated(lines))
    ensures UpdateAttributes(d, t).fault.None?
    ensures UpdateAttributes(d, t).dev.online == d.online
    ensures forall k :: && Line(k) < |lines|
                        && k in UpdateAttributes(d, t).dev.attrs
                        && UpdateAttributes(d, t).dev.attrs[k] == GetAttrValue(lines[Line(k)])
  {
    var out := Text.Terminated(lines);
    Text.SplitTerminated(lines);
    assert out != "" by {
      assert |out| >= |lines[0] + "\n"|;
    }
    LinesRead();
    var r := UpdateAttributes(d, t);
    forall k ensures Line(k) < |lines| && k in r.dev.attrs && r.dev.attrs[k] == GetAttrValue(lines[Line(k)]) {
      assert Line(k) < |Text.SplitLines(out)|;
    }
  }

  /** Mode, fan speed and power entries of a manual speed with power `ON` make the views
      report that speed and `on`. */
  lemma ViewsOfManualSpeed(d: Device, mode: string, tok: SpeedToken)
    requires d.online && ManualText(tok).Some?
    requires Holds(d.attrs, Mode, mode) && mode != "auto" && mode != "allergen"
    requires Holds(d.attrs, FanSpeed, ManualText(tok).value)
    requires Holds(d.attrs, Power, "ON")
    ensures Speed(d) == Some(tok)
    ensures State(d) == Some(PowerOn)
  {
  }

  /** After such a refresh, a `tag: value` line gives its key exactly `value`. */
  lemma RefreshedEntry(
    d: Device, t: Transport, lines: seq<string>, k: Key, tag: string, value: string)
    requires |lines| >= StatusLines
    requires forall j, i :: 0 <= j < |lines| && 0 <= i < |lines[j]| ==> !Text.IsLineBreak(lines[j][i])
    requires t(|d.sent|, Prefix(d.host)) == Some(Text.Terminated(lines))
    requires !Text.Contains(tag, ": ") && !Text.Contains(value, ": ")
    requires Line(k) < |lines| && lines[Line(k)] == tag + ": " + value
    ensures Holds(UpdateAttributes(d, t).dev.attrs, k, value)
  {
    RefreshReadsEveryLine(d, t, lines);
    AttrValueOfLine(tag, value, "");
  }

  /** A refresh whose status output shows a manual mode, a fan speed and power `ON`, each as
      a `tag: value` line, makes the views report that speed and `on`. */
  lemma RefreshShowsSpeed(
    d: Device, t: Transport, lines: seq<string>, mode: string, tok: SpeedToken,
    modeTag: string, fanTag: string, powerTag: string)
    requires d.online && |lines| >= StatusLines
    requires forall j, i :: 0 <= j < |lines| && 0 <= i < |lines[j]| ==> !Text.IsLineBreak(lines[j][i])
    requires t(|d.sent|, Prefix(d.host)) == Some(Text.Terminated(lines))
    requires ManualText(tok).Some?
    requires !Text.Contains(mode, ": ") && mode != "auto" && mode != "allergen"
    requires !Text.Contains(modeTag, ": ") && !Text.Contains(fanTag, ": ") && !Text.Contains(powerTag, ": ")
    requires lines[Line(Mode)] == modeTag + ": " + mode
    requires lines[Line(FanSpeed)] == fanTag + ": " + ManualText(tok).value
    requires lines[Line(Power)] == powerTag + ": " + "ON"
    ensures UpdateAttributes(d, t).fault.None?
    ensures Speed(UpdateAttributes(d, t).dev) == Some(tok)
    ensures State(UpdateAttributes(d, t).dev) == Some(PowerOn)
  {
    RefreshReadsEveryLine(d, t, lines);
    var fan := ManualText(tok).value;
    RefreshedEntry(d, t, lines, Mode, modeTag, mode);
    ManualTextPlain(tok);
    RefreshedEntry(d, t, lines, FanSpeed, fanTag, fan);
    NoColonNoSeparator("ON");
    RefreshedEntry(d, t, lines, Power, powerTag, "ON");
    ViewsOfManualSpeed(UpdateAttributes(d, t).dev, mode, tok);
  }

  /** The fan-speed texts contain no `": "`. */
  lemma ManualTextPlain(tok: SpeedToken)
    requires ManualText(tok).Some?
    ensures !Text.Contains(ManualText(tok).value, ": ")
  {
    match tok
    case Off => NoColonNoSeparator("0");
    case Low => NoColonNoSeparator("1");
    case Medium => NoColonNoSeparator("2");
    case High => NoColonNoSeparator("3");
    case Turbo => NoColonNoSeparator("turbo");
    case Silent => NoColonNoSeparator("silent");
  }

  /** A text without a colon has no `": "`. */
  lemma NoColonNoSeparator(s: string)
    requires ':' !in s
    ensures !Text.Contains(s, ": ")
  {
    forall i: nat ensures !Text.MatchAt(s, ": ", i) {
      if i + 2 <= |s| {
        assert s[i..i + 2][0] == s[i];
      }
    }
  }

  /** The speed change of the end-to-end scenario: online, `turn_on` with `high` sends the
      high-speed command, the device accepts it, one refresh follows, and the views report
      `high` and `on`. */
  lemma TurnOnHighScenario(
    d: Device, t: Transport, accepted: string, lines: seq<string>, mode: string,
    modeTag: string, fanTag: string, powerTag: string)
    requires d.online
    requires t(|d.sent|, SpeedCommand(d.host, High)) == Some(accepted)
    requires !Text.Contains(accepted, FailureMarker)
    requires |lines| >= StatusLines
    requires forall j, i :: 0 <= j < |lines| && 0 <= i < |lines[j]| ==> !Text.IsLineBreak(lines[j][i])
    requires t(|d.sent| + 1, Prefix(d.host)) == Some(Text.Terminated(lines))
    requires !Text.Contains(mode, ": ") && mode != "auto" && mode != "allergen"
    requires !Text.Contains(modeTag, ": ") && !Text.Contains(fanTag, ": ") && !Text.Contains(powerTag, ": ")
    requires lines[Line(Mode)] == modeTag + ": " + mode
    requires lines[Line(FanSpeed)] == fanTag + ": " + "3"
    requires lines[Line(Power)] == powerTag + ": " + "ON"
    ensures TurnOn(d, t, Some("high")).dev.sent == d.sent + [SpeedCommand(d.host, High)] + [Prefix(d.host)]
    ensures TurnOn(d, t, Some("high")).fault.None?
    ensures Speed(TurnOn(d, t, Some("high")).dev) == Some(High)
    ensures State(TurnOn(d, t, Some("high")).dev) == Some(PowerOn)
  {
    var cmd := SpeedCommand(d.host, High);
    var e := d.(infLoop := 0, sent := d.sent + [cmd]);
    assert TurnOn(d, t, Some("high")) == UpdateAttributes(e, t) by {
      assert SpeedName(High) == "high";
      TurnOnSpeedIsSpeedCommand(d, t, High);
      ResendFirstAnswerPasses(d, t, cmd);
    }
    assert |e.sent| == |d.sent| + 1 && e.host == d.host && e.online;
    HighIsThree();
    RefreshShowsSpeed(e, t, lines, mode, High, modeTag, fanTag, powerTag);
  }

  /** The status reports manual speed `high` as fan speed `3`. */
  lemma HighIsThree()
    ensures ManualText(High) == Some("3")
  {
  }

  /** The published topic is the domain, the device id and the key, as three path segments. */
  lemma MqttTopicSegments(attrs: Attributes, id: string, key: string)
    requires DeviceId in attrs && attrs[DeviceId] == Some(id) && id != ""
    requires '/' !in id && '/' !in key
    ensures MqttTopic(attrs, key).Some?
    ensures Text.Split(MqttTopic(attrs, key).value, "/") == [Domain, id, key]
  {
    var parts := [Domain, id, key];
    assert Text.Join(parts, "/") == Domain + "/" + id + "/" + key by {
      assert parts[1..] == [id, key];
      assert parts[1..][1..] == [key];
      assert Text.Join(parts[1..], "/") == id + "/" + key;
      assert Text.Join(parts, "/") == Domain + "/" + (id + "/" + key);
    }
    assert '/' !in Domain;
    Text.SplitJoin(parts, "/");
  }
}
