/**
  The `airctrl` command lines the integration builds, and the speed tokens the fan entity
  accepts. A command is the shell string handed to the transport.
 */
module Commands {
  import opened Wrappers
  import Text

  /** The command prefix for one device; on its own it is the status query. */
  function Prefix(host: string): string {
    "airctrl --ipaddr " + host + " --protocol coap"
  }

  /** The tokens of `speed_list`, in that order. The first four are Home Assistant's
      `SPEED_OFF`, `SPEED_LOW`, `SPEED_MEDIUM` and `SPEED_HIGH`. */
  datatype SpeedToken = Off | Low | Medium | High | Turbo | Allergen | Auto | Silent

  /** The text of a speed token as the fan entity exchanges it. */
  function SpeedName(t: SpeedToken): string {
    match t
    case Off => "off"
    case Low => "low"
    case Medium => "medium"
    case High => "high"
    case Turbo => "turbo"
    case Allergen => "allergen"
    case Auto => "auto"
    case Silent => "silent"
  }

  /** `speed_list`: the tokens offered for selection. */
  const SpeedList: seq<SpeedToken> := [Off, Low, Medium, High, Turbo, Allergen, Auto, Silent]

  /** The token a speed string denotes, if it is one of the eight. */
  function ParseSpeed(s: string): (r: Option<SpeedToken>)
    ensures r.Some? ==> SpeedName(r.value) == s
    ensures r.None? ==> forall t: SpeedToken :: SpeedName(t) != s
  {
    if s == "off" then Some(Off)
    else if s == "low" then Some(Low)
    else if s == "medium" then Some(Medium)
    else if s == "high" then Some(High)
    else if s == "turbo" then Some(Turbo)
    else if s == "auto" then Some(Auto)
    else if s == "allergen" then Some(Allergen)
    else if s == "silent" then Some(Silent)
    else None
  }

  /** Every token is offered exactly once, and its name reads back as the same token. */
  lemma SpeedListExact()
    ensures |SpeedList| == 8
    ensures forall t: SpeedToken :: t in SpeedList
    ensures forall i, j :: 0 <= i < j < |SpeedList| ==> SpeedList[i] != SpeedList[j]
    ensures forall t: SpeedToken :: ParseSpeed(SpeedName(t)) == Some(t)
  {
    forall t: SpeedToken ensures t in SpeedList && ParseSpeed(SpeedName(t)) == Some(t) {
      match t
      case Off => assert SpeedList[0] == t;
      case Low => assert SpeedList[1] == t;
      case Medium => assert SpeedList[2] == t;
      case High => assert SpeedList[3] == t;
      case Turbo => assert SpeedList[4] == t;
      case Allergen => assert SpeedList[5] == t;
      case Auto => assert SpeedList[6] == t;
      case Silent => assert SpeedList[7] == t;
    }
  }

  /** The arguments that select a speed: power off, a manual fan level, or a mode. */
  function SpeedSuffix(t: SpeedToken): string {
    match t
    case Off => " --pwr 0 --debug"
    case Low => " --mode M --om 1 --debug"
    case Medium => " --mode M --om 2 --debug"
    case High => " --mode M --om 3 --debug"
    case Turbo => " --mode M --om t --debug"
    case Auto => " --mode P --debug"
    case Allergen => " --mode A --debug"
    case Silent => " --mode S --debug"
  }

  /** The command `set_speed` sends for a token. */
  function SpeedCommand(host: string, t: SpeedToken): string
  {
    Prefix(host) + SpeedSuffix(t)
  }

  /** Reads back which speed token a command selects, given the device's host. */
  function SpeedOfCommand(host: string, cmd: string): Option<SpeedToken>
  {
    var n := |Prefix(host)|;
    if |cmd| < n || cmd[..n] != Prefix(host) then None
    else
      var args := cmd[n..];
      if args == " --pwr 0 --debug" then Some(Off)
      else if args == " --mode M --om 1 --debug" then Some(Low)
      else if args == " --mode M --om 2 --debug" then Some(Medium)
      else if args == " --mode M --om 3 --debug" then Some(High)
      else if args == " --mode M --om t --debug" then Some(Turbo)
      else if args == " --mode P --debug" then Some(Auto)
      else if args == " --mode A --debug" then Some(Allergen)
      else if args == " --mode S --debug" then Some(Silent)
      else None
  }

  /** The speed command of every token reads back as that token, so the eight commands are
      pairwise distinct. */
  lemma SpeedCommandRoundTrip(host: string, t: SpeedToken)
    ensures SpeedOfCommand(host, SpeedCommand(host, t)) == Some(t)
  {
    var cmd := SpeedCommand(host, t);
    assert cmd[..|Prefix(host)|] == Prefix(host);
    assert cmd[|Prefix(host)|..] == SpeedSuffix(t);
  }

  /** Distinct tokens give distinct commands. */
  lemma SpeedCommandInjective(host: string, a: SpeedToken, b: SpeedToken)
    ensures SpeedCommand(host, a) == SpeedCommand(host, b) ==> a == b
  {
    SpeedCommandRoundTrip(host, a);
    SpeedCommandRoundTrip(host, b);
  }

  /** `turn_on` without a speed. */
  function PowerOnCommand(host: string): string {
    Prefix(host) + " --pwr 1 --debug"
  }

  /** `turn_off`. */
  function PowerOffCommand(host: string): string {
    Prefix(host) + " --pwr 0 --debug"
  }

  /** `set_humidity`: the target humidity option as given. */
  function HumidityCommand(host: string, humidity: string): string {
    Prefix(host) + " --rhset " + humidity + " --debug"
  }

  /** `set_function`: the function option as given. */
  function FunctionCommand(host: string, func: string): string {
    Prefix(host) + " --func " + func + " --debug"
  }

  /** `set_light_brightness`: the brightness option as given. */
  function BrightnessCommand(host: string, brightness: string): string {
    Prefix(host) + " --aqil " + brightness + " --debug"
  }

  /** `set_child_lock`: `True` exactly when the requested state is true. */
  function ChildLockCommand(host: string, lock: bool): string {
    Prefix(host) + " --cl " + (if lock then "True" else "False") + " --debug"
  }

  /** The words of a command line, as a shell splits a line without quotes or
      metacharacters. */
  function Words(cmd: string): seq<string> {
    Text.Split(cmd, " ")
  }

  /** The words every command starts with. */
  function BaseWords(host: string): seq<string> {
    ["airctrl", "--ipaddr", host, "--protocol", "coap"]
  }

  /** For a host and an option value without spaces, `airctrl` receives the prefix's words,
      then the option flag and value, then `--debug`. */
  lemma OptionCommandWords(host: string, value: string)
    requires ' ' !in host && ' ' !in value
    ensures Words(HumidityCommand(host, value)) == BaseWords(host) + ["--rhset", value, "--debug"]
    ensures Words(FunctionCommand(host, value)) == BaseWords(host) + ["--func", value, "--debug"]
    ensures Words(BrightnessCommand(host, value)) == BaseWords(host) + ["--aqil", value, "--debug"]
  {
    WordsOf(host, " --rhset ", "--rhset", value);
    WordsOf(host, " --func ", "--func", value);
    WordsOf(host, " --aqil ", "--aqil", value);
  }

  /** The power commands carry `--pwr 1` and `--pwr 0` after the prefix's words. */
  lemma PowerWords(host: string)
    requires ' ' !in host
    ensures Words(PowerOnCommand(host)) == BaseWords(host) + ["--pwr", "1", "--debug"]
    ensures Words(PowerOffCommand(host)) == BaseWords(host) + ["--pwr", "0", "--debug"]
  {
    WordsOf(host, " --pwr ", "--pwr", "1");
    WordsOf(host, " --pwr ", "--pwr", "0");
    assert " --pwr " + "1" + " --debug" == " --pwr 1 --debug";
    assert " --pwr " + "0" + " --debug" == " --pwr 0 --debug";
    assert PowerOnCommand(host) == Prefix(host) + " --pwr " + "1" + " --debug";
    assert PowerOffCommand(host) == Prefix(host) + " --pwr " + "0" + " --debug";
  }

  /** The child-lock command carries `True` or `False` as its own word. */
  lemma ChildLockWords(host: string, lock: bool)
    requires ' ' !in host
    ensures Words(ChildLockCommand(host, lock))
         == BaseWords(host) + ["--cl", if lock then "True" else "False", "--debug"]
  {
    WordsOf(host, " --cl ", "--cl", if lock then "True" else "False");
  }

  /** The shape shared by the option commands: `flagText` is the flag between two spaces. */
  lemma WordsOf(host: string, flagText: string, flag: string, value: string)
    requires ' ' !in host && ' ' !in value && ' ' !in flag
    requires flagText == " " + flag + " "
    ensures Words(Prefix(host) + flagText + value + " --debug")
         == BaseWords(host) + [flag, value, "--debug"]
  {
    var ws := BaseWords(host) + [flag, value, "--debug"];
    var cmd := Prefix(host) + flagText + value + " --debug";
    assert Text.Join(ws, " ") == cmd by {
      JoinWords(ws);
      SameText(host, flag, value);
    }
    forall j | 0 <= j < |ws| ensures " "[0] !in ws[j] {
    }
    Text.SplitJoin(ws, " ");
  }

  /** Joining the eight words of an option command. */
  lemma JoinWords(ws: seq<string>)
    requires |ws| == 8
    ensures Text.Join(ws, " ") ==
      ws[0] + (" " + (ws[1] + (" " + (ws[2] + (" " + (ws[3] + (" " + (ws[4] + (" " + (ws[5] + (" " + (ws[6] + (" " + (ws[7]))))))))))))))
  {
    assert Text.Join(ws[7..], " ") == ws[7];
    JoinFrom(ws, 6, " ");
    JoinFrom(ws, 5, " ");
    JoinFrom(ws, 4, " ");
    JoinFrom(ws, 3, " ");
    JoinFrom(ws, 2, " ");
    JoinFrom(ws, 1, " ");
    JoinFrom(ws, 0, " ");
    assert ws[0..] == ws;
  }

  /** Joining the words from position `k` on: the word at `k`, the separator, the rest. */
  lemma JoinFrom(ws: seq<string>, k: nat, sep: string)
    requires k < |ws| - 1
    ensures Text.Join(ws[k..], sep) == ws[k] + (sep + Text.Join(ws[k + 1..], sep))
  {
    assert ws[k..][1..] == ws[k + 1..];
  }

  /** The option command's text, regrouped word by word. */
  lemma SameText(host: string, flag: string, value: string)
    ensures Prefix(host) + (" " + flag + " ") + value + " --debug" ==
      "airctrl" + (" " + ("--ipaddr" + (" " + (host + (" " + ("--protocol" + (" " + ("coap" + (" " + (flag + (" " + (value + (" " + ("--debug"))))))))))))))
  {
  }
}
