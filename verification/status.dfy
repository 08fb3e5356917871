/**
  The positional status parser: the status query prints one `tag: value` line per device
  property, and each attribute is read from a fixed line of that output.
 */
module Status {
  import opened Wrappers
  import Text

  /** The attributes the integration stores, one per parsed line. */
  datatype Key =
    | Name | Type | ModelId | SwVersion | FanSpeed | Power | ChildLock | LightBrightness
    | Mode | Function | TargetHumidity | Humidity | Temperature | Pm25 | AllergenIndex
    | UsedIndex | Error | WaterLevel | HepaFilterType | CarbonFilterType | PreFilter
    | HepaFilter | CarbonFilter | WickFilter | Runtime | DeviceId

  /** The dictionary key each attribute is stored under (`Power` is the `state` entry). */
  function KeyName(k: Key): string {
    match k
    case Name => "name"
    case Type => "type"
    case ModelId => "model_id"
    case SwVersion => "sw_version"
    case FanSpeed => "fan_speed"
    case Power => "state"
    case ChildLock => "child_lock"
    case LightBrightness => "light_brightness"
    case Mode => "mode"
    case Function => "function"
    case TargetHumidity => "target_humidity"
    case Humidity => "humidity"
    case Temperature => "temperature"
    case Pm25 => "pm25"
    case AllergenIndex => "allergen_index"
    case UsedIndex => "used_index"
    case Error => "error"
    case WaterLevel => "water_level"
    case HepaFilterType => "hepa_filter_type"
    case CarbonFilterType => "carbon_filter_type"
    case PreFilter => "pre_filter"
    case HepaFilter => "hepa_filter"
    case CarbonFilter => "carbon_filter"
    case WickFilter => "wick_filter"
    case Runtime => "runtime"
    case DeviceId => "device_id"
  }

  /** The output line each attribute is read from. Lines 8, 16, 18, 27, 29 and 30 (button
      light, notification threshold, `rddp`, range, Wi-Fi version, product id) are skipped,
      and so is everything after line 31. */
  function Line(k: Key): nat {
    match k
    case Name => 0
    case Type => 1
    case ModelId => 2
    case SwVersion => 3
    case FanSpeed => 4
    case Power => 5
    case ChildLock => 6
    case LightBrightness => 7
    case Mode => 9
    case Function => 10
    case TargetHumidity => 11
    case Humidity => 12
    case Temperature => 13
    case Pm25 => 14
    case AllergenIndex => 15
    case UsedIndex => 17
    case Error => 19
    case WaterLevel => 20
    case HepaFilterType => 21
    case CarbonFilterType => 22
    case PreFilter => 23
    case HepaFilter => 24
    case CarbonFilter => 25
    case WickFilter => 26
    case Runtime => 28
    case DeviceId => 31
  }

  /** The order in which the attributes are assigned. */
  const Order: seq<Key> := [
    Name, Type, ModelId, SwVersion, FanSpeed, Power, ChildLock, LightBrightness, Mode,
    Function, TargetHumidity, Humidity, Temperature, Pm25, AllergenIndex, UsedIndex, Error,
    WaterLevel, HepaFilterType, CarbonFilterType, PreFilter, HepaFilter, CarbonFilter,
    WickFilter, Runtime, DeviceId]

  /** Number of output lines a complete status block needs. */
  const StatusLines: nat := 32

  /** The attribute dictionary; a `None` value is a line that had no `": "`. */
  type Attributes = map<Key, Option<string>>

  /** Attributes after a parse, and the index of the missing line if one was reached. */
  datatype Parsed = Parsed(attrs: Attributes, missing: Option<nat>)

  /** Each attribute has its own line and the lines rise along `Order`. */
  predicate Increasing(ks: seq<Key>) {
    forall i, j :: 0 <= i < j < |ks| ==> Line(ks[i]) < Line(ks[j])
  }

  /** Each attribute has its own line, and the lines rise in assignment order. */
  lemma OrderIncreasing()
    ensures Increasing(Order)
  {
    forall i | 0 <= i < |Order| - 1 ensures Line(Order[i]) < Line(Order[i + 1]) {
    }
    AdjacentIncreasing(Order);
  }

  /** Every attribute is assigned. */
  lemma OrderComplete()
    ensures forall k: Key :: k in Order
  {
    forall k: Key ensures k in Order {
      assert Order[IndexOf(k)] == k;
    }
  }

  /** The lines read are 0..31 without 8, 16, 18, 27, 29 and 30; the last is the device id. */
  lemma LinesRead()
    ensures forall k: Key :: Line(k) < StatusLines
    ensures forall k: Key :: Line(k) !in {8, 16, 18, 27, 29, 30}
    ensures forall k: Key :: Line(k) == StatusLines - 1 <==> k == DeviceId
  {
  }

  /** Where each key sits in `Order`. */
  function IndexOf(k: Key): nat {
    match k
    case Name => 0
    case Type => 1
    case ModelId => 2
    case SwVersion => 3
    case FanSpeed => 4
    case Power => 5
    case ChildLock => 6
    case LightBrightness => 7
    case Mode => 8
    case Function => 9
    case TargetHumidity => 10
    case Humidity => 11
    case Temperature => 12
    case Pm25 => 13
    case AllergenIndex => 14
    case UsedIndex => 15
    case Error => 16
    case WaterLevel => 17
    case HepaFilterType => 18
    case CarbonFilterType => 19
    case PreFilter => 20
    case HepaFilter => 21
    case CarbonFilter => 22
    case WickFilter => 23
    case Runtime => 24
    case DeviceId => 25
  }

  /** Adjacent increase implies increase between any two positions. */
  lemma {:induction false} AdjacentIncreasing(ks: seq<Key>)
    requires forall i | 0 <= i < |ks| - 1 :: Line(ks[i]) < Line(ks[i + 1])
    ensures Increasing(ks)
    decreases |ks|
  {
    if |ks| > 1 {
      AdjacentIncreasing(ks[1..]);
      forall j | 1 <= j < |ks| ensures Line(ks[0]) < Line(ks[j]) {
        assert Increasing(ks[1..]);
        if j > 1 {
          assert Line(ks[1..][0]) < Line(ks[1..][j - 1]);
        }
      }
    }
  }

  /** `_get_attr_value`: the second piece of the line split on `": "`, i.e. the text between
      the first `": "` and the next one (or the end); `None` when the line has no `": "`. */
  function GetAttrValue(line: string): (v: Option<string>)
    ensures v.None? <==> !Text.Contains(line, ": ")
    ensures v.Some? ==> !Text.Contains(v.value, ": ")
  {
    Text.SplitPiecesFree(line, ": ");
    var parts := Text.Split(line, ": ");
    if |parts| >= 2 then Some(parts[1]) else None
  }

  /** The value is read from a `tag: value` line, and stops at a second `": "`. */
  lemma AttrValueOfLine(tag: string, value: string, rest: string)
    requires !Text.Contains(tag, ": ") && !Text.Contains(value, ": ")
    ensures GetAttrValue(tag + ": " + value) == Some(value)
    ensures GetAttrValue(tag + ": " + value + ": " + rest) == Some(value)
  {
    assert Text.Split(value, ": ") == [value];
    FirstSeparator(tag, value);
    var s := tag + ": " + value;
    assert s[..|tag|] == tag && s[|tag| + 2..] == value;
    assert Text.Split(s, ": ") == [tag] + Text.Split(value, ": ");
    var u := value + ": " + rest;
    FirstSeparator(value, rest);
    assert u[..|value|] == value && u[|value| + 2..] == rest;
    assert Text.Split(u, ": ") == [value] + Text.Split(rest, ": ");
    FirstSeparator(tag, u);
    var t := tag + ": " + u;
    assert t == tag + ": " + value + ": " + rest;
    assert t[..|tag|] == tag && t[|tag| + 2..] == u;
    assert Text.Split(t, ": ") == [tag] + Text.Split(u, ": ");
  }

  /** In `tag + ": " + tail`, the first `": "` is the one after `tag` when `tag` has none:
      no occurrence can start inside `tag`, not even on its last character. */
  lemma FirstSeparator(tag: string, tail: string)
    requires !Text.Contains(tag, ": ")
    ensures Text.Find(tag + ": " + tail, ": ") == Some(|tag|)
  {
    var s := tag + ": " + tail;
    assert Text.MatchAt(s, ": ", |tag|);
    forall i: nat | i < |tag| ensures !Text.MatchAt(s, ": ", i) {
      if i + 2 <= |tag| {
        assert s[i..i + 2] == tag[i..i + 2];
        assert !Text.MatchAt(tag, ": ", i);
      } else {
        assert s[i + 1] == ':';
      }
    }
    Text.FindIsFirst(s, ": ", |tag|);
  }

  /** Assigns the keys of `ks` in order from their lines, stopping with the index of the first
      line that does not exist (Python's IndexError) and keeping what was already assigned. */
  function Fill(attrs: Attributes, lines: seq<string>, ks: seq<Key>): Parsed
    decreases |ks|
  {
    if |ks| == 0 then Parsed(attrs, None)
    else if Line(ks[0]) >= |lines| then Parsed(attrs, Some(Line(ks[0])))
    else Fill(attrs[ks[0] := GetAttrValue(lines[Line(ks[0])])], lines, ks[1..])
  }

  /** Over an increasing list of keys, `Fill` assigns exactly the keys whose line exists. */
  lemma {:induction false} FillAssigns(attrs: Attributes, lines: seq<string>, ks: seq<Key>)
    requires Increasing(ks)
    ensures forall k :: k in ks && Line(k) < |lines| ==>
              k in Fill(attrs, lines, ks).attrs
              && Fill(attrs, lines, ks).attrs[k] == GetAttrValue(lines[Line(k)])
    ensures forall k :: k !in ks || Line(k) >= |lines| ==>
              (k in Fill(attrs, lines, ks).attrs <==> k in attrs)
              && (k in attrs ==> Fill(attrs, lines, ks).attrs[k] == attrs[k])
    decreases |ks|
  {
    if |ks| > 0 {
      var k0 := ks[0];
      var tail := ks[1..];
      assert Increasing(tail);
      assert forall k :: k in tail ==> Line(k0) < Line(k) by {
        forall k | k in tail ensures Line(k0) < Line(k) {
          var j :| 0 <= j < |tail| && tail[j] == k;
          assert ks[j + 1] == k;
        }
      }
      assert forall k :: k in ks <==> k == k0 || k in tail;
      if Line(k0) < |lines| {
        var a := attrs[k0 := GetAttrValue(lines[Line(k0)])];
        FillAssigns(a, lines, tail);
      } else {
        assert forall k :: k in ks ==> Line(k) >= |lines|;
      }
    }
  }

  /** Over an increasing list of keys, `Fill` reports the first line that does not exist. */
  lemma {:induction false} FillReports(attrs: Attributes, lines: seq<string>, ks: seq<Key>)
    requires Increasing(ks)
    ensures var m := Fill(attrs, lines, ks).missing;
      && (m.None? <==> forall k :: k in ks ==> Line(k) < |lines|)
      && (m.Some? ==>
            && |lines| <= m.value
            && (exists k :: k in ks && Line(k) == m.value)
            && forall k :: k in ks && Line(k) < m.value ==> Line(k) < |lines|)
    decreases |ks|
  {
    if |ks| > 0 {
      var k0 := ks[0];
      var tail := ks[1..];
      assert Increasing(tail);
      assert forall k :: k in ks <==> k == k0 || k in tail;
      if Line(k0) < |lines| {
        var a := attrs[k0 := GetAttrValue(lines[Line(k0)])];
        FillReports(a, lines, tail);
      } else {
        assert k0 in ks;
      }
    }
  }

  /** `_update_attributes` on the lines of a non-empty status output: every attribute whose
      line exists is overwritten from that line; the first missing line raises, leaving the
      attributes of that line and later ones as they were. */
  function ParseStatus(attrs: Attributes, lines: seq<string>): (r: Parsed)
    ensures forall k :: Line(k) < |lines| ==>
              k in r.attrs && r.attrs[k] == GetAttrValue(lines[Line(k)])
    ensures forall k :: Line(k) >= |lines| ==>
              (k in r.attrs <==> k in attrs) && (k in attrs ==> r.attrs[k] == attrs[k])
    ensures r.missing.None? <==> |lines| >= StatusLines
    ensures r.missing.Some? ==>
              && |lines| <= r.missing.value
              && (exists k :: Line(k) == r.missing.value)
              && forall k :: Line(k) < r.missing.value ==> Line(k) < |lines|
  {
    ParsedAttributes(attrs, lines);
    ParsedMissing(attrs, lines);
    Fill(attrs, lines, Order)
  }

  lemma ParsedAttributes(attrs: Attributes, lines: seq<string>)
    ensures var r := Fill(attrs, lines, Order);
      && (forall k :: Line(k) < |lines| ==>
            k in r.attrs && r.attrs[k] == GetAttrValue(lines[Line(k)]))
      && (forall k :: Line(k) >= |lines| ==>
            (k in r.attrs <==> k in attrs) && (k in attrs ==> r.attrs[k] == attrs[k]))
  {
    OrderIncreasing();
    OrderComplete();
    FillAssigns(attrs, lines, Order);
  }

  lemma ParsedMissing(attrs: Attributes, lines: seq<string>)
    ensures var m := Fill(attrs, lines, Order).missing;
      && (m.None? <==> |lines| >= StatusLines)
      && (m.Some? ==>
            && |lines| <= m.value
            && (exists k :: Line(k) == m.value)
            && forall k :: Line(k) < m.value ==> Line(k) < |lines|)
  {
    CompleteWhenLong(attrs, lines);
    ShortWhenIncomplete(attrs, lines);
    MissingLine(attrs, lines);
  }

  lemma CompleteWhenLong(attrs: Attributes, lines: seq<string>)
    ensures |lines| >= StatusLines ==> Fill(attrs, lines, Order).missing.None?
  {
    OrderIncreasing();
    FillReports(attrs, lines, Order);
    LinesRead();
  }

  lemma ShortWhenIncomplete(attrs: Attributes, lines: seq<string>)
    ensures Fill(attrs, lines, Order).missing.None? ==> |lines| >= StatusLines
  {
    OrderIncreasing();
    assert Line(Order[|Order| - 1]) == StatusLines - 1;
    CompleteReachesLast(attrs, lines, Order);
  }

  lemma CompleteReachesLast(attrs: Attributes, lines: seq<string>, ks: seq<Key>)
    requires Increasing(ks) && |ks| > 0
    ensures Fill(attrs, lines, ks).missing.None? ==> Line(ks[|ks| - 1]) < |lines|
  {
    FillReports(attrs, lines, ks);
    assert ks[|ks| - 1] in ks;
  }

  lemma MissingLine(attrs: Attributes, lines: seq<string>)
    ensures var m := Fill(attrs, lines, Order).missing;
      m.Some? ==>
        && |lines| <= m.value
        && (exists k :: Line(k) == m.value)
        && forall k :: Line(k) < m.value ==> Line(k) < |lines|
  {
    OrderIncreasing();
    OrderComplete();
    FillReports(attrs, lines, Order);
  }

  /** The skipped lines have no influence: two outputs that agree on the table's lines parse
      alike. */
  lemma SkippedLinesIgnored(attrs: Attributes, a: seq<string>, b: seq<string>)
    requires |a| == |b|
    requires forall k: Key :: Line(k) < |a| ==> a[Line(k)] == b[Line(k)]
    ensures ParseStatus(attrs, a).attrs == ParseStatus(attrs, b).attrs
  {
    var ra, rb := ParseStatus(attrs, a).attrs, ParseStatus(attrs, b).attrs;
    assert forall k :: k in ra <==> k in rb;
    assert forall k :: k in ra ==> ra[k] == rb[k];
  }
}
