# Philips air purifier (CoAP) fan entity — a Dafny model

This project models the core of the Home Assistant fan entity for a Philips air purifier.
The entity drives the purifier through the `airctrl` command-line tool. The model covers:

- **Command construction.** Each intent becomes an `airctrl` command line: the status query
  prefix, the eight speed tokens of `speed_list`, and the humidity, function, light-brightness
  and child-lock services (`commands.dfy`).
- **The positional status parser.** `_get_attr_value` takes the text after the first `": "`
  of a line, up to the next one. `_update_attributes` reads 26 attributes from fixed line
  indices of the tool's output. An output shorter than 32 lines raises an IndexError at the
  first missing index, after the earlier attributes were already overwritten
  (`status.dfy`, `Fan.UpdateAttributes`).
- **The resend state machine.** `_action_send_failed` is the bounded counter. `turn_on`,
  `turn_off` and the four service handlers call themselves again while the output reports
  `failed`, then refresh the attributes once (`Fan.Resend` and the handlers in `fan.dfy`).
- **The derived views.** `speed` reads the mode and fan-speed entries. `state` reads the
  liveness flag and the `state` entry.
- **The liveness test.** `_device_available` checks the ping output for `1 packets received`.

The Python string operations the code relies on live in `text.dfy`: `str.find`, `in`,
`str.split` and `str.splitlines`. `Option` and `Result` live in `wrappers.dfy`.

How the model represents the system:

- **The command transport is a parameter.** `t(n, cmd)` is the output of the `n`-th command of
  the session. `None` stands for `_run` catching an exception and returning `None`.
- **Every `airctrl` command is logged.** The device record keeps the list of `airctrl`
  commands it has sent (the ping output is a parameter of its own), so
  properties can count the sends and name their order.
- **Python exceptions become values.** The exceptions that escape an intent are the `Fault`
  datatype: `AttributeError` when the failure test gets a `None` output, `IndexError` for a
  short status output, `UnboundLocalError` when `set_speed` gets an unknown token while
  online, and `KeyError` when the configuration has no `mqtt` entry.
- **Attributes are keyed by an enumeration.** `Status.Key` has one constructor per attribute,
  with its Python name and line index. A value is `Option<string>`, and `None` is Python's
  `None`.

Behaviour of the code that is easy to misread, which the model keeps:

- The counter is compared with `> 10` before it is incremented. An intent whose output always
  reports `failed` is therefore sent 12 times (11 resends).
- A short status output does not leave the previous record untouched. The attributes of the
  existing lines are overwritten, then the IndexError escapes.
- `speed` does not consult the liveness flag.
- `turn_on` without a speed sends the power-on command whatever the liveness flag says.
- `state` while online with no `state` entry gives nothing: the KeyError is caught. It does
  not give `off`.
- A `None` command output is not treated as "no update". The failure test calls `.find` on
  it and raises AttributeError.

## Model

| member | source | states |
|---|---|---|
| Commands.ParseSpeed | custom_components/philips-airpurifier-coap/fan.py:146-165 | a string selects a token exactly when it is that token's name; any other string selects none |
| Commands.SpeedListExact | custom_components/philips-airpurifier-coap/fan.py:316-318 | `speed_list` holds the eight tokens, each exactly once, and every token's name reads back as that token |
| Commands.SpeedCommandRoundTrip | custom_components/philips-airpurifier-coap/fan.py:146-165 | reading the arguments after the prefix of a token's speed command gives back the token |
| Commands.SpeedCommandInjective | custom_components/philips-airpurifier-coap/fan.py:146-165 | distinct speed tokens send distinct commands |
| Commands.PowerWords | custom_components/philips-airpurifier-coap/fan.py:50-144 | for a host without spaces, the power-on and power-off commands split into the prefix's five words (`airctrl --ipaddr <host> --protocol coap`), then `--pwr`, `1` or `0`, and `--debug` |
| Commands.OptionCommandWords | custom_components/philips-airpurifier-coap/fan.py:167-192 | for a host and option without spaces, the humidity, function and brightness commands split into the prefix's five words, the flag (`--rhset`, `--func`, `--aqil`), the option and `--debug` |
| Commands.ChildLockWords | custom_components/philips-airpurifier-coap/fan.py:194-201 | the child-lock command splits into the prefix's words, `--cl`, then `True` exactly when the requested state is true (else `False`), then `--debug` |
| Status.GetAttrValue | custom_components/philips-airpurifier-coap/fan.py:95-99 | the value is `None` exactly when the line has no `": "`, and a value never contains `": "` |
| Status.AttrValueOfLine | custom_components/philips-airpurifier-coap/fan.py:95-99 | for a tag and value without `": "`, the value of `tag: value` is `value`, and still `value` when a second `": "` and more text follow |
| Status.LinesRead | custom_components/philips-airpurifier-coap/fan.py:218-249 | every attribute's line is below 32; lines 8, 16, 18, 27, 29 and 30 are read by no attribute; line 31 is read by the device id alone |
| Status.OrderIncreasing | custom_components/philips-airpurifier-coap/fan.py:218-249 | the assignments read strictly increasing line indices, so the first missing line stops all later ones |
| Status.FillAssigns | custom_components/philips-airpurifier-coap/fan.py:218-249 | assigning an increasing key list sets exactly the keys whose line exists, from that line, and keeps every other entry as it was |
| Status.FillReports | custom_components/philips-airpurifier-coap/fan.py:218-249 | assigning an increasing key list stops exactly when a key's line is missing, and reports that line, which is the first missing one in the list |
| Status.ParseStatus | custom_components/philips-airpurifier-coap/fan.py:213-249 | every attribute whose line exists gets `_get_attr_value` of it; the others keep their entries; no IndexError exactly when there are at least 32 lines, and otherwise the error names the first missing attribute line |
| Status.SkippedLinesIgnored | custom_components/philips-airpurifier-coap/fan.py:218-249 | two outputs of one length that agree on the attribute lines give the same attributes, whatever the skipped lines say |
| Fan.UpdateAttributes | custom_components/philips-airpurifier-coap/fan.py:208-249 | sends only the status query and changes only the attributes; a failed or empty output changes nothing and raises nothing; otherwise the parse results hold for the output's lines, and an IndexError names the first attribute line the output lacks |
| Fan.Setup | custom_components/philips-airpurifier-coap/fan.py:46-82 | as written: no entity exists exactly when the configuration has no `mqtt` entry (KeyError, nothing sent) or the first status output has 1 to 31 lines (IndexError); otherwise the new entity is offline and has sent the status query once |
| Fan.SetupIntended | custom_components/philips-airpurifier-coap/fan.py:46-82 | with a missing `mqtt` entry read as "no publishing": an entity exists unless the first status output has 1 to 31 lines, which raises IndexError at a missing line; the entity is offline with the counter at zero, has sent the status query once, and holds every attribute, read from its line, or none when the output was missing or empty |
| Fan.SetupAgreesWithMqtt | custom_components/philips-airpurifier-coap/fan.py:76-82 | with an `mqtt` entry, the construction as written and as intended give the same result |
| Fan.SetupWithoutMqttRaises | custom_components/philips-airpurifier-coap/fan.py:38-82 | without an `mqtt` entry, the construction as written raises KeyError, where the intended one gives an entity whenever the first status output is not short |
| Fan.ActionSendFailed | custom_components/philips-airpurifier-coap/fan.py:116-125 | asks for a resend exactly when the output contains `failed` and the counter is at most 10; then the counter grows by one, otherwise it is reset to zero; it never passes 11; nothing else changes |
| Fan.SetSpeed | custom_components/philips-airpurifier-coap/fan.py:146-165 | offline it sends nothing and answers `""`; online a token sends its speed command and returns that command's output; any other string raises UnboundLocalError |
| Fan.Resend | custom_components/philips-airpurifier-coap/fan.py:127-206 | the resend recursion terminates, sends at most `12 - counter` commands plus the status query, only appends to the log, keeps host, entity and liveness, ends with the counter at 0 unless it raised a non-parse error, and a fixed command is the first one sent |
| Fan.TurnOn | custom_components/philips-airpurifier-coap/fan.py:127-136 | without a speed it first sends the power-on command, even offline; with a speed while offline it sends nothing but the refresh |
| Fan.TurnOff | custom_components/philips-airpurifier-coap/fan.py:138-144 | first sends the power-off command, and sends at most the bound allows plus one refresh |
| Fan.Handle | custom_components/philips-airpurifier-coap/fan.py:167-206 | a call for another entity changes nothing and raises nothing; a matching call first sends the service's command |
| Fan.SetHumidity | custom_components/philips-airpurifier-coap/fan.py:167-174 | nothing happens for another entity; otherwise the first command sent is the prefix, `--rhset`, the option and `--debug` |
| Fan.SetFunction | custom_components/philips-airpurifier-coap/fan.py:176-183 | nothing happens for another entity; otherwise the first command sent is the prefix, `--func`, the option and `--debug` |
| Fan.SetLightBrightness | custom_components/philips-airpurifier-coap/fan.py:185-192 | nothing happens for another entity; otherwise the first command sent is the prefix, `--aqil`, the option and `--debug` |
| Fan.SetChildLock | custom_components/philips-airpurifier-coap/fan.py:194-206 | nothing happens for another entity; otherwise the first command sent is the child-lock command for the requested state |
| Fan.DeviceAvailable | custom_components/philips-airpurifier-coap/fan.py:101-114 | the device is online exactly when a ping output exists and contains `1 packets received`; nothing else changes |
| Fan.Speed | custom_components/philips-airpurifier-coap/fan.py:259-281 | in both directions: `auto` or `allergen` exactly when the mode says so; off, low, medium, high, turbo and silent exactly when the mode is present and neither of those and the fan speed is `0`, `1`, `2`, `3`, `turbo` or `silent`; nothing otherwise, including a missing entry |
| Fan.State | custom_components/philips-airpurifier-coap/fan.py:287-298 | nothing while offline; online, `on` exactly when the `state` entry is `ON`, and `off` exactly when it is present with another value |
| Fan.MqttTopic | custom_components/philips-airpurifier-coap/fan.py:85-87 | a topic exists exactly when the device id is neither `None` nor empty |
| FanProperties.ResendAlwaysFailing | custom_components/philips-airpurifier-coap/fan.py:116-144 | when every answer reports `failed`, a command is sent once for each counter value from the current one to 11, then the counter is reset and the attributes are refreshed once |
| FanProperties.TurnOffAlwaysFailing | custom_components/philips-airpurifier-coap/fan.py:138-144 | from counter 0, with every answer `failed`, `turn_off` sends the power-off command 12 times, then the status query once, and leaves the counter at 0 |
| FanProperties.ResendFirstAnswerPasses | custom_components/philips-airpurifier-coap/fan.py:133-136 | a first answer without `failed` means one send, the counter reset, and one refresh |
| FanProperties.ResendThenOneRefresh | custom_components/philips-airpurifier-coap/fan.py:116-206 | when the transport always answers, a command is sent between 1 and `12 - counter` times in a row, then exactly one status query follows, and the counter ends at 0 |
| FanProperties.TurnOnSpeedIsSpeedCommand | custom_components/philips-airpurifier-coap/fan.py:127-165 | online, `turn_on` with a token behaves exactly like resending that token's speed command |
| FanProperties.TurnOnUnknownSpeed | custom_components/philips-airpurifier-coap/fan.py:146-165 | online, `turn_on` with a string outside `speed_list` raises UnboundLocalError and sends nothing |
| FanProperties.SpeedReadsModeAndFanSpeed | custom_components/philips-airpurifier-coap/fan.py:259-281 | `speed` depends only on the mode and fan-speed entries, not on liveness or any other attribute |
| FanProperties.RefreshReadsEveryLine | custom_components/philips-airpurifier-coap/fan.py:208-249 | a refresh whose output is newline-terminated and has at least 32 lines raises nothing, keeps liveness, and gives every attribute the value of its line |
| FanProperties.RefreshShowsSpeed | custom_components/philips-airpurifier-coap/fan.py:208-298 | after a refresh whose lines show a manual mode, a fan speed and power `ON`, `speed` reports that speed and `state` reports `on` |
| FanProperties.TurnOnHighScenario | custom_components/philips-airpurifier-coap/fan.py:127-298 | online, `turn_on("high")` answered without `failed` sends the high-speed command and then the status query; when the status shows fan speed `3` and power `ON`, the views report `high` and `on` |
| FanProperties.MqttTopicSegments | custom_components/philips-airpurifier-coap/fan.py:85-87 | for a device id and key without `/`, the topic splits on `/` into the domain, the device id and the key |
| Text.JoinSplit | custom_components/philips-airpurifier-coap/fan.py:95-99 | joining the pieces of a split with its separator gives back the text |
| Text.SplitTerminated | custom_components/philips-airpurifier-coap/fan.py:213 | `splitlines` of lines each followed by a newline gives back those lines |

## Findings

| source | as written | input that shows it | evidently intended | confidence | as-written member | corrected member |
|---|---|---|---|---|---|---|
| custom_components/philips-airpurifier-coap/fan.py:38-76 | the schema declares `mqtt` optional with no default, and the constructor reads it with `config[CONF_MQTT]` | a configuration with a host and no `mqtt` entry: the constructor raises KeyError before the first refresh (`Fan.SetupWithoutMqttRaises`) | a missing `mqtt` entry means no publishing, as `config.get(CONF_MQTT)` would give | high; not executed | Fan.Setup | Fan.SetupIntended |

## Left out

- Running `airctrl` and `ping` as subprocesses, and the logging in `_run` (fan.py:89-93, 103). The transport is a parameter, and the model keeps only its answer or its absence.
- The MQTT client connection, the publish call and `json.dumps` (fan.py:13, 76-78, 85-87, 253-254). Only the topic string is modelled.
- Home Assistant platform setup, the configuration and service schemas, and service registration (fan.py:34-43, 56-74). A call is modelled as a record of the entity id and the option it carries, so an option outside the schema's list is never rejected here.
- The `name`, `icon`, `supported_features` and `device_state_attributes` accessors (fan.py:300-314). They return constants or stored values.
- `time.sleep(0.5)` and the 60-second interval timer (fan.py:80, 124). Time and concurrency are not modelled, and nor is the race between the timer's refresh and a running intent. `update`, which only calls `_device_available`, is not modelled apart from it.
- The `fan_speed` property (fan.py:283-285). It calls a property as if it were a function, so it has no meaningful behaviour to model.
- The shell's interpretation of the command string. `OptionCommandWords` and `ChildLockWords` hold only for hosts and options without spaces, and quoting and metacharacters are not modelled.
- Error logging in general. The "inf request resend loop" message is not modelled; the counter reset that accompanies it is.
- Fan.MqttTopic: requires the device id entry to be present, because the source reads it with `[]` and would raise KeyError otherwise. The only caller runs after line 31 has been assigned.
- Fan.Resend: the upper bound on sends is stated only as a count. The exact sequence of sends is given by `FanProperties.ResendThenOneRefresh` when the transport always answers, and by `FanProperties.ResendAlwaysFailing` when every answer reports `failed`.
