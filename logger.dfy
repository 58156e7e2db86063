/** The script itself: the output-name and configuration checks, then one
    acquisition session that writes the header row and runs the loop the
    trigger type selects, appending each sample to the CSV file. */
module Logger {
  import opened Plc
  import opened Config
  import opened Sampling
  import opened Triggers

  /** The state the script updates while it runs: the CSV file's records and
      the two trigger variables. */
  class Session {
    const settings: Settings
    var file: seq<Row>
    var previousTime: real
    var previousVal: Value

    /** A session over an output file that already holds `existing`
        records (the file is only ever opened for appending). */
    constructor (settings: Settings, existing: seq<Row>)
      ensures this.settings == settings && file == existing
    {
      this.settings := settings;
      file := existing;
      previousTime := 0.0;
      previousVal := Int(0);
    }

    /** `UpdateCSV`: append one record. */
    method UpdateCsv(row: Row)
      modifies this`file
      ensures file == old(file) + [row]
    {
      file := file + [row];
    }

    /** One pass of `GetData`'s loop body: a failed status raises; a string
        value is replaced by what `ReadString` returns; a number is kept. */
    method GetTagValue(plc: Controller, tag: string) returns (r: Result<Value>)
      ensures r == ReadTag(plc, tag)
    {
      var tagdata := Read(plc, tag);
      if tagdata.Err? {
        return Failure;
      }
      if tagdata.value.Text? {
        var text := ReadString(plc, tag);
        if text.Failure? {
          return Failure;
        }
        return Success(Text(text.value));
      }
      return Success(tagdata.value);
    }

    /** `GetData`: the timestamp when enabled, then each tag in order; a
        failed status, or a failure inside `ReadString`, aborts the row. */
    method GetData(plc: Controller, stamp: string) returns (r: Result<Row>)
      ensures r == Sample(settings, plc, stamp)
    {
      var results: Row := [];
      if settings.printTimestamp {
        results := results + [Text(stamp)];
      }
      ghost var lead := results;
      var tags := settings.tags;
      for i := 0 to |tags|
        invariant ReadTags(plc, tags[..i]).Success?
        invariant results == lead + ReadTags(plc, tags[..i]).value
      {
        var value := GetTagValue(plc, tags[i]);
        if value.Failure? {
          assert ReadTags(plc, tags).Failure?;
          return Failure;
        }
        ghost var prefix := tags[..i + 1];
        assert prefix[..i] == tags[..i] && prefix[i] == tags[i];
        assert ReadTags(plc, prefix) == Success(ReadTags(plc, tags[..i]).value + [value.value]);
        results := results + [value.value];
      }
      assert tags[..|tags|] == tags;
      assert lead == if settings.printTimestamp then [Text(stamp)] else [];
      assert Sample(settings, plc, stamp) == Success(lead + ReadTags(plc, tags).value);
      return Success(results);
    }

    /** `data = GetData(comm)` followed by `UpdateCSV(data, ...)`: on success
        the sample is appended; on failure the file is left as it was. */
    method SampleAndAppend(t: Tick) returns (ok: bool)
      modifies this`file
      ensures var r := Sample(settings, t.plc, t.stamp);
        ok == r.Success? && file == old(file) + (if ok then [r.value] else [])
    {
      var data := GetData(t.plc, t.stamp);
      if data.Failure? {
        assert old(file) + [] == old(file);
        return false;
      }
      UpdateCsv(data.value);
      return true;
    }

    /** The `periodic` loop: `previous_time` starts at 0; each iteration
        checks the quit key, reads the clock, and on a fire samples, appends
        the row and records the clock reading. */
    method RunPeriodic(ticks: seq<Tick>) returns (o: Outcome)
      modifies this`file, this`previousTime
      ensures var t := Loop(settings, Periodic(0.0), ticks);
        file == old(file) + t.rows && o == t.outcome && t.last == Periodic(previousTime)
    {
      previousTime := 0.0;
      ghost var whole := Loop(settings, Periodic(0.0), ticks);
      ghost var done: seq<Row> := [];
      var i := 0;
      while i < |ticks|
        invariant 0 <= i <= |ticks|
        invariant file == old(file) + done
        invariant whole == Prepend(done, Loop(settings, Periodic(previousTime), ticks[i..]))
      {
        ghost var cur := Loop(settings, Periodic(previousTime), ticks[i..]);
        assert ticks[i..][0] == ticks[i] && ticks[i..][1..] == ticks[i + 1..];
        if ticks[i].quit {
          assert cur == Trace([], Quit, Periodic(previousTime));
          assert done + [] == done;
          return Quit;
        }
        var currentTime := ticks[i].now;
        if currentTime - previousTime > settings.period {
          assert Decide(settings, Periodic(previousTime), ticks[i]) == Fire(Periodic(currentTime));
          var ok := SampleAndAppend(ticks[i]);
          if !ok {
            assert cur == Trace([], Failed, Periodic(previousTime));
            assert done + [] == done;
            return Failed;
          }
          ghost var row := Sample(settings, ticks[i].plc, ticks[i].stamp).value;
          ghost var rest := Loop(settings, Periodic(currentTime), ticks[i + 1..]);
          assert cur == Prepend([row], rest);
          assert done + ([row] + rest.rows) == (done + [row]) + rest.rows;
          done := done + [row];
          previousTime := currentTime;
        } else {
          assert Decide(settings, Periodic(previousTime), ticks[i]) == Idle;
          assert cur == Loop(settings, Periodic(previousTime), ticks[i + 1..]);
        }
        i := i + 1;
      }
      assert done + [] == done;
      return Running;
    }

    /** The `change` loop: one seed read of the trigger tag before the loop,
        then each iteration checks the quit key, reads the trigger tag and,
        when the value differs from `previous_val`, samples, appends the row
        and records the value. A failed trigger read ends the run. */
    method RunChange(seed: Controller, ticks: seq<Tick>) returns (o: Outcome)
      modifies this`file, this`previousVal
      ensures TriggerRead(settings, seed).Err? ==>
        file == old(file) && previousVal == old(previousVal) && o == Failed
      ensures TriggerRead(settings, seed).Ok? ==>
        var t := Loop(settings, Change(TriggerRead(settings, seed).value), ticks);
        file == old(file) + t.rows && o == t.outcome && t.last == Change(previousVal)
    {
      var previousTriggerData := TriggerRead(settings, seed);
      if previousTriggerData.Err? {
        return Failed;
      }
      previousVal := previousTriggerData.value;
      ghost var done: seq<Row> := [];
      var i := 0;
      while i < |ticks|
        invariant 0 <= i <= |ticks|
        invariant file == old(file) + done
        invariant Loop(settings, Change(previousTriggerData.value), ticks) ==
                  Prepend(done, Loop(settings, Change(previousVal), ticks[i..]))
      {
        assert ticks[i..][0] == ticks[i] && ticks[i..][1..] == ticks[i + 1..];
        if ticks[i].quit {
          assert done + [] == done;
          return Quit;
        }
        var currentTriggerData := TriggerRead(settings, ticks[i].plc);
        if currentTriggerData.Err? {
          assert done + [] == done;
          return Failed;
        }
        var currentVal := currentTriggerData.value;
        if !Same(currentVal, previousVal) {
          var ok := SampleAndAppend(ticks[i]);
          if !ok {
            assert done + [] == done;
            return Failed;
          }
          ghost var row := Sample(settings, ticks[i].plc, ticks[i].stamp).value;
          ghost var rest := Loop(settings, Change(currentVal), ticks[i + 1..]);
          assert done + ([row] + rest.rows) == (done + [row]) + rest.rows;
          done := done + [row];
          previousVal := currentVal;
        }
        i := i + 1;
      }
      assert done + [] == done;
      return Running;
    }

    /** The body of `with PLC(...)`: prefix the timestamp label when enabled,
        write the header row, then dispatch on the trigger type. The header
        is the first and only header record appended, before any data row. */
    method Run(env: Env) returns (o: Outcome)
      modifies this
      ensures var r := Acquire(settings, env);
        file == old(file) + [HeaderRow(settings)] + r.rows && o == r.outcome
      ensures settings.mode == UnknownTrigger ==>
        file == old(file) + [HeaderRow(settings)] && o == UnknownType
    {
      var headers := HeaderRow(settings);
      UpdateCsv(headers);
      match settings.mode
      case PeriodicTrigger =>
        o := RunPeriodic(env.ticks);
      case ChangeTrigger =>
        o := RunChange(env.seed, env.ticks);
      case UnknownTrigger =>
        o := UnknownType;
    }
  }

  /** The whole script after the configuration file is loaded: a bad output
      name or an invalid configuration ends the run before anything is
      written; otherwise one session appends the header and its data rows. */
  method RunScript(name: string, cfg: map<string, Json>, env: Env, existing: seq<Row>)
    returns (o: Outcome, file: seq<Row>)
    requires OutputNameAccepted(name) && ParseConfig(cfg).Some? ==> ShapedInput(cfg)
    ensures !OutputNameAccepted(name) ==> o == BadOutputName && file == existing
    ensures OutputNameAccepted(name) && ParseConfig(cfg).None? ==> o == InvalidConfig && file == existing
    ensures OutputNameAccepted(name) && ParseConfig(cfg).Some? ==>
      var s := SettingsOf(ParseConfig(cfg).value);
      var r := Acquire(s, env);
      file == existing + [HeaderRow(s)] + r.rows && o == r.outcome
  {
    if !OutputNameAccepted(name) {
      return BadOutputName, existing;
    }
    var config := ParseConfig(cfg);
    if config.None? {
      return InvalidConfig, existing;
    }
    var session := new Session(SettingsOf(config.value), existing);
    o := session.Run(env);
    file := session.file;
  }
}
