/** What the script checks before it connects: the output file name and the
    JSON configuration; and what it derives from them: the run's settings and
    the header row. */
module Config {
  import opened Plc

  /** A decoded JSON value, as `json.load` produces it. */
  datatype Json =
    | JNull
    | JBool(b: bool)
    | JInt(i: int)
    | JFloat(x: real)
    | JStr(s: string)
    | JArray(items: seq<Json>)
    | JObject(fields: map<string, Json>)

  /** Python's `name[-3:]`: the last three characters, or the whole name when
      it is shorter than that. */
  function LastThree(name: string): string
  {
    if |name| < 3 then name else name[|name| - 3..]
  }

  /** The output file check: the name is accepted exactly when it ends in the
      three characters `csv` (no dot is required, and a name shorter than
      three characters never matches). */
  function OutputNameAccepted(name: string): (ok: bool)
    ensures ok <==> 3 <= |name| && name[|name| - 3..] == "csv"
  {
    LastThree(name) == "csv"
  }

  lemma OutputNameExamples()
    ensures OutputNameAccepted("log.csv") && OutputNameAccepted("xcsv")
    ensures !OutputNameAccepted("cs") && !OutputNameAccepted("") && !OutputNameAccepted("log.CSV")
  {
  }

  /** The seven keys the configuration must hold, whatever the trigger type. */
  const RequiredKeys: set<string> :=
    {"ip", "tags", "headers", "trigger_type", "trigger_tag", "period_time", "print_timestamp"}

  /** `isinstance(v, (int, float))`; a JSON boolean is a Python bool, which is an int. */
  predicate IsJsonNumber(v: Json)
  {
    v.JInt? || v.JFloat? || v.JBool?
  }

  /** `isinstance(v, int)`, again admitting booleans. */
  predicate IsInt(v: Json)
  {
    v.JInt? || v.JBool?
  }

  /** The number an int, float or bool stands for (`true` is 1). */
  function NumberValue(v: Json): real
    requires IsJsonNumber(v)
  {
    Cell(v).Magnitude()
  }

  /** Python truthiness of an int (or bool). */
  function Truthy(v: Json): bool
    requires IsInt(v)
  {
    match v
    case JInt(i) => i != 0
    case JBool(b) => b
  }

  /** The configuration as the script holds it after validation: only `ip`,
      `period_time` and `print_timestamp` have had their types checked. */
  datatype Validated = Validated(
    ip: string,
    tags: Json,
    headers: Json,
    triggerType: Json,
    triggerTag: Json,
    period: real,
    printTimestamp: bool)

  predicate IsStrings(v: Json)
  {
    v.JArray? && forall i :: 0 <= i < |v.items| ==> v.items[i].JStr?
  }

  /** A `tags` value the loop `for i in range(len(c_tags))` walks with string
      elements: a list of strings, a single string, whose characters are then
      the tag names, or the empty object, which has no element to index. */
  predicate IsTagList(v: Json)
  {
    IsStrings(v) || v.JStr? || v == JObject(map[])
  }

  /** A JSON value the CSV writer puts in one field as it is: a number, a
      boolean, a string, or `null` (written as an empty field). */
  predicate IsCell(v: Json)
  {
    v.JNull? || v.JBool? || v.JInt? || v.JFloat? || v.JStr?
  }

  predicate IsCells(v: Json)
  {
    v.JArray? && forall i :: 0 <= i < |v.items| ==> IsCell(v.items[i])
  }

  /** Which `case` of the trigger `match` is taken. */
  datatype Mode = PeriodicTrigger | ChangeTrigger | UnknownTrigger

  function ModeOf(v: Json): (m: Mode)
    ensures m == PeriodicTrigger <==> v == JStr("periodic")
    ensures m == ChangeTrigger <==> v == JStr("change")
  {
    if v == JStr("periodic") then PeriodicTrigger
    else if v == JStr("change") then ChangeTrigger
    else UnknownTrigger
  }

  /** The configuration shapes this model follows past validation, wherever
      the keys are present: `headers` a list of plain fields; `tags` a list of
      tag names, or one string, when a loop may read them (trigger type `periodic` or
      `change`); `trigger_tag` a tag name when it is read (type `change`). */
  predicate ShapedInput(cfg: map<string, Json>)
  {
    var mode := if "trigger_type" in cfg then ModeOf(cfg["trigger_type"]) else UnknownTrigger;
    ("headers" in cfg ==> IsCells(cfg["headers"])) &&
    ("tags" in cfg && mode != UnknownTrigger ==> IsTagList(cfg["tags"])) &&
    ("trigger_tag" in cfg && mode == ChangeTrigger ==> cfg["trigger_tag"].JStr?)
  }

  predicate Shaped(c: Validated)
  {
    IsCells(c.headers) &&
    (ModeOf(c.triggerType) != UnknownTrigger ==> IsTagList(c.tags)) &&
    (ModeOf(c.triggerType) == ChangeTrigger ==> c.triggerTag.JStr?)
  }

  /** The validation block: each key is looked up in turn (a missing one
      raises KeyError), then the three type tests run; any failure ends the
      run with "invalid config". */
  function ParseConfig(cfg: map<string, Json>): (r: Option<Validated>)
    ensures r.Some? <==>
      RequiredKeys <= cfg.Keys &&
      cfg["ip"].JStr? && IsJsonNumber(cfg["period_time"]) && IsInt(cfg["print_timestamp"])
    ensures r.Some? ==>
      r.value.ip == cfg["ip"].s &&
      r.value.tags == cfg["tags"] && r.value.headers == cfg["headers"] &&
      r.value.triggerType == cfg["trigger_type"] && r.value.triggerTag == cfg["trigger_tag"] &&
      r.value.period == NumberValue(cfg["period_time"]) &&
      r.value.printTimestamp == Truthy(cfg["print_timestamp"])
    ensures r.Some? && ShapedInput(cfg) ==> Shaped(r.value)
  {
    if "ip" !in cfg then None
    else if "tags" !in cfg then None
    else if "headers" !in cfg then None
    else if "trigger_type" !in cfg then None
    else if "trigger_tag" !in cfg then None
    else if "period_time" !in cfg then None
    else if "print_timestamp" !in cfg then None
    else
      var ip, period, stamp := cfg["ip"], cfg["period_time"], cfg["print_timestamp"];
      if !ip.JStr? || !IsJsonNumber(period) || !IsInt(stamp) then None
      else Some(Validated(ip.s, cfg["tags"], cfg["headers"], cfg["trigger_type"], cfg["trigger_tag"],
                       NumberValue(period), Truthy(stamp)))
  }

  lemma ConfigExamples()
    ensures var ok := map["ip" := JStr("10.0.0.5"), "tags" := JArray([JStr("A")]),
                          "headers" := JArray([JStr("a")]), "trigger_type" := JStr("change"),
                          "trigger_tag" := JStr("T"), "period_time" := JInt(1),
                          "print_timestamp" := JBool(true)];
      ParseConfig(ok).Some? &&
      ParseConfig(ok - {"period_time"}).None? &&
      ParseConfig(ok["print_timestamp" := JFloat(1.0)]).None? &&
      ParseConfig(ok["ip" := JInt(10)]).None?
  {
  }

  /** A `null` trigger tag and numeric headers are followed when the trigger
      type is `periodic`; a `null` trigger tag is not for type `change`, and
      non-string tags are followed only for an unknown trigger type. */
  lemma ShapedInputExamples()
    ensures var cfg := map["ip" := JStr("10.0.0.5"), "tags" := JArray([JStr("A")]),
                           "headers" := JArray([JInt(1), JFloat(2.5), JBool(true), JNull]),
                           "trigger_type" := JStr("periodic"), "trigger_tag" := JNull,
                           "period_time" := JInt(1), "print_timestamp" := JInt(0)];
      ShapedInput(cfg) &&
      !ShapedInput(cfg["trigger_type" := JStr("change")]) &&
      !ShapedInput(cfg["tags" := JArray([JInt(3)])]) &&
      ShapedInput(cfg["tags" := JArray([JInt(3)])]["trigger_type" := JStr("compare")]) &&
      ShapedInput(cfg["tags" := JStr("AB")]) && TagNames(JStr("AB")) == ["A", "B"] &&
      ShapedInput(cfg["tags" := JObject(map[])]) && !ShapedInput(cfg["tags" := JNull])
  {
    var bad := JArray([JInt(3)]);
    assert !bad.items[0].JStr? && !IsStrings(bad);
  }

  /** The settings one run works with. `triggerTag` is `None` when the
      configured `trigger_tag` is not a string, which only a trigger type other
      than `change` allows; `tags` is empty when they are neither a list of
      strings nor a string, which only an unknown trigger type (reading no
      tag) allows. */
  datatype Settings = Settings(
    tags: seq<string>,
    headers: seq<Value>,
    mode: Mode,
    triggerTag: Option<string>,
    period: real,
    printTimestamp: bool)

  /** The names `c_tags[i]` yields for `i` in `range(len(c_tags))`: the
      strings of a list, the one-character strings of a string, and none for
      the empty object. */
  function TagNames(v: Json): (r: seq<string>)
    requires IsTagList(v)
    ensures v.JArray? ==> |r| == |v.items| && forall i :: 0 <= i < |r| ==> r[i] == v.items[i].s
    ensures v.JStr? ==> |r| == |v.s| && forall i :: 0 <= i < |r| ==> r[i] == [v.s[i]]
    ensures v.JObject? ==> r == []
  {
    if v.JStr? then seq(|v.s|, i requires 0 <= i < |v.s| => [v.s[i]])
    else if v.JObject? then []
    else seq(|v.items|, i requires 0 <= i < |v.items| => v.items[i].s)
  }

  /** The field `csv` writes for a plain JSON value. */
  function Cell(v: Json): (r: Value)
    requires IsCell(v)
    ensures v.JStr? ==> r == Text(v.s)
    ensures v.JNull? ==> r == Text("")
    ensures v.JInt? ==> r == Int(v.i)
    ensures v.JFloat? ==> r == Float(v.x)
    ensures v.JBool? ==> r == Bool(v.b)
  {
    match v
    case JNull => Text("")
    case JBool(b) => Bool(b)
    case JInt(i) => Int(i)
    case JFloat(x) => Float(x)
    case JStr(s) => Text(s)
  }

  function Cells(v: Json): (r: seq<Value>)
    requires IsCells(v)
    ensures |r| == |v.items| && forall i :: 0 <= i < |r| ==> r[i] == Cell(v.items[i])
  {
    seq(|v.items|, i requires 0 <= i < |v.items| => Cell(v.items[i]))
  }

  function SettingsOf(c: Validated): Settings
    requires Shaped(c)
  {
    Settings(if IsTagList(c.tags) then TagNames(c.tags) else [],
             Cells(c.headers), ModeOf(c.triggerType),
             if c.triggerTag.JStr? then Some(c.triggerTag.s) else None,
             c.period, c.printTimestamp)
  }

  const TimestampLabel := "Timestamp"

  /** Number of leading timestamp columns. */
  function Lead(s: Settings): nat
  {
    if s.printTimestamp then 1 else 0
  }

  /** Number of columns of every data row. */
  function Width(s: Settings): nat
  {
    Lead(s) + |s.tags|
  }

  /** `['Timestamp'] + c_headers` when the timestamp is enabled, else the
      configured headers, as one CSV record. */
  function HeaderRow(s: Settings): (h: Row)
    ensures |h| == Lead(s) + |s.headers|
    ensures s.printTimestamp ==> h[0] == Text(TimestampLabel)
    ensures forall i :: 0 <= i < |s.headers| ==> h[Lead(s) + i] == s.headers[i]
  {
    (if s.printTimestamp then [Text(TimestampLabel)] else []) + s.headers
  }

  /** With one header per tag, the header row is exactly as wide as every
      data row. */
  lemma HeaderMatchesWidth(s: Settings)
    requires |s.headers| == |s.tags|
    ensures |HeaderRow(s)| == Width(s)
  {
  }
}
