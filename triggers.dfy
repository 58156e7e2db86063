/** The acquisition loops as functions of their environment: the trigger
    evaluators (`periodic` and `change`), the loop that samples on every fire
    and stops at the quit key or the first failure, and what is proved about
    when they fire and what they append. */
module Triggers {
  import opened Plc
  import opened Config
  import opened Sampling

  /** What one loop iteration observes: the quit key, the clock (seconds),
      the controller's tags, and the formatted timestamp `GetData` would use. */
  datatype Tick = Tick(quit: bool, now: real, plc: Controller, stamp: string)

  /** The trigger state: the time of the last fire (`previous_time`) or the
      trigger value last fired on (`previous_val`). */
  datatype State = Periodic(previousTime: real) | Change(previousVal: Value)

  /** What the trigger decides in one iteration; `Abort` is a failed trigger
      read. */
  datatype Decision = Fire(next: State) | Idle | Abort

  /** How a run ends: `Running` means the loop was still going when the
      supplied ticks ran out. */
  datatype Outcome = Running | Quit | Failed | UnknownType | BadOutputName | InvalidConfig

  /** The rows a loop appends, how it ends, and its final trigger state. */
  datatype Trace = Trace(rows: seq<Row>, outcome: Outcome, last: State)

  /** `t` preceded by rows appended before it. */
  function Prepend(rows: seq<Row>, t: Trace): Trace
  {
    Trace(rows + t.rows, t.outcome, t.last)
  }

  /** `comm.Read(c_trigger_tag)`. Without a tag name (which only a trigger
      type other than `change` allows) there is nothing to read, and the
      read counts as failed. */
  function TriggerRead(s: Settings, c: Controller): (r: Reply)
    ensures s.triggerTag.None? ==> r == Err
    ensures s.triggerTag.Some? ==> r == Read(c, s.triggerTag.value)
  {
    match s.triggerTag
    case None => Err
    case Some(tag) => Read(c, tag)
  }

  /** The trigger test of one iteration. Periodic: fire when strictly more
      than the period has elapsed since the last fire, which becomes now.
      Change: read the trigger tag (a failed read aborts the run) and fire
      when the value differs from the one last fired on. */
  function Decide(s: Settings, st: State, t: Tick): (d: Decision)
    ensures st.Periodic? ==>
      (d.Fire? <==> t.now - st.previousTime > s.period) && !d.Abort? &&
      (d.Fire? ==> d.next == Periodic(t.now))
    ensures st.Change? ==>
      var r := TriggerRead(s, t.plc);
      (d.Abort? <==> r.Err?) &&
      (d.Fire? <==> r.Ok? && !Same(r.value, st.previousVal)) &&
      (d.Fire? ==> d.next == Change(r.value))
  {
    match st
    case Periodic(previousTime) =>
      if t.now - previousTime > s.period then Fire(Periodic(t.now)) else Idle
    case Change(previousVal) =>
      match TriggerRead(s, t.plc)
      case Err => Abort
      case Ok(v) => if !Same(v, previousVal) then Fire(Change(v)) else Idle
  }

  /** The `while not quit` loop over the supplied ticks: the quit key is
      checked first; on a fire the whole row is sampled and appended before
      the next check; a failed read ends the run with nothing more appended. */
  function Loop(s: Settings, st: State, ticks: seq<Tick>): (t: Trace)
    ensures |t.rows| <= |ticks|
    ensures t.last.Change? == st.Change?
    decreases |ticks|
  {
    if ticks == [] then Trace([], Running, st)
    else if ticks[0].quit then Trace([], Quit, st)
    else match Decide(s, st, ticks[0])
      case Abort => Trace([], Failed, st)
      case Idle => Loop(s, st, ticks[1..])
      case Fire(next) =>
        match Sample(s, ticks[0].plc, ticks[0].stamp)
        case Failure => Trace([], Failed, st)
        case Success(row) => Prepend([row], Loop(s, next, ticks[1..]))
  }

  /** Every row a loop appends is a data row: the timestamp column when
      enabled plus one column per tag. */
  lemma {:induction false} LoopRowWidth(s: Settings, st: State, ticks: seq<Tick>)
    ensures forall j :: 0 <= j < |Loop(s, st, ticks).rows| ==> |Loop(s, st, ticks).rows[j]| == Width(s)
    decreases |ticks|
  {
    if ticks != [] && !ticks[0].quit {
      match Decide(s, st, ticks[0])
      case Abort =>
      case Idle => LoopRowWidth(s, st, ticks[1..]);
      case Fire(next) =>
        match Sample(s, ticks[0].plc, ticks[0].stamp)
        case Failure =>
        case Success(row) =>
          LoopRowWidth(s, next, ticks[1..]);
          var rows := Loop(s, next, ticks[1..]).rows;
          assert Loop(s, st, ticks).rows == [row] + rows;
          forall j | 1 <= j < |rows| + 1
            ensures |([row] + rows)[j]| == Width(s)
          {
            assert ([row] + rows)[j] == rows[j - 1];
          }
    }
  }

  /** Running a loop over `a` then `b` is running it over `a` and, only if
      it neither quit nor failed there, continuing over `b` from the state it
      reached: rows are only ever appended, and after a quit or a failure
      nothing more is appended whatever happens next. */
  lemma {:induction false} LoopSplit(s: Settings, st: State, a: seq<Tick>, b: seq<Tick>)
    ensures var ta := Loop(s, st, a);
      Loop(s, st, a + b) == if ta.outcome == Running then Prepend(ta.rows, Loop(s, ta.last, b)) else ta
    decreases |a|
  {
    if a == [] {
      assert a + b == b;
      assert [] + Loop(s, st, b).rows == Loop(s, st, b).rows;
    } else {
      assert (a + b)[0] == a[0];
      assert (a + b)[1..] == a[1..] + b;
      if !a[0].quit {
        match Decide(s, st, a[0])
        case Abort =>
        case Idle => LoopSplit(s, st, a[1..], b);
        case Fire(next) =>
          match Sample(s, a[0].plc, a[0].stamp)
          case Failure =>
          case Success(row) =>
            LoopSplit(s, next, a[1..], b);
            var ta := Loop(s, next, a[1..]);
            if ta.outcome == Running {
              assert [row] + (ta.rows + Loop(s, ta.last, b).rows) == ([row] + ta.rows) + Loop(s, ta.last, b).rows;
            }
      }
    }
  }

  /** The quit key pressed at iteration `k` of a run still going ends it
      there: the rows are exactly those of the first `k` iterations. */
  lemma QuitEndsRun(s: Settings, st: State, ticks: seq<Tick>, k: nat)
    requires k < |ticks| && ticks[k].quit
    requires Loop(s, st, ticks[..k]).outcome == Running
    ensures var t := Loop(s, st, ticks[..k]);
      Loop(s, st, ticks) == Trace(t.rows, Quit, t.last)
  {
    assert ticks == ticks[..k] + ticks[k..];
    LoopSplit(s, st, ticks[..k], ticks[k..]);
    var t := Loop(s, st, ticks[..k]);
    assert ticks[k..][0] == ticks[k];
    assert Loop(s, t.last, ticks[k..]) == Trace([], Quit, t.last);
    assert t.rows + [] == t.rows;
  }

  /** In change mode, a failed trigger read at iteration `k` of a run still
      going ends it there as a failure: no row is appended from then on. */
  lemma TriggerReadFailureEndsRun(s: Settings, seed: Value, ticks: seq<Tick>, k: nat)
    requires k < |ticks| && !ticks[k].quit && TriggerRead(s, ticks[k].plc).Err?
    requires Loop(s, Change(seed), ticks[..k]).outcome == Running
    ensures var t := Loop(s, Change(seed), ticks[..k]);
      Loop(s, Change(seed), ticks) == Trace(t.rows, Failed, t.last)
  {
    assert ticks == ticks[..k] + ticks[k..];
    LoopSplit(s, Change(seed), ticks[..k], ticks[k..]);
    var t := Loop(s, Change(seed), ticks[..k]);
    assert ticks[k..][0] == ticks[k];
    assert Loop(s, t.last, ticks[k..]) == Trace([], Failed, t.last);
    assert t.rows + [] == t.rows;
  }

  /** The fire decisions of a loop that never stops early, one per tick. */
  function Mask(s: Settings, st: State, ticks: seq<Tick>): (m: seq<bool>)
    ensures |m| == |ticks|
    decreases |ticks|
  {
    if ticks == [] then []
    else match Decide(s, st, ticks[0])
      case Fire(next) => [true] + Mask(s, next, ticks[1..])
      case _ => [false] + Mask(s, st, ticks[1..])
  }

  /** The elements of `xs` whose flag in `mask` is set, in order. */
  function Select<T>(mask: seq<bool>, xs: seq<T>): seq<T>
    requires |mask| == |xs|
  {
    if xs == [] then [] else (if mask[0] then [xs[0]] else []) + Select(mask[1..], xs[1..])
  }

  /** When nothing quits or fails, each fire appends exactly one row, the
      sample taken at that tick, and a tick that does not fire appends none. */
  lemma {:induction false} LoopAppendsFiredSamples(s: Settings, st: State, ticks: seq<Tick>)
    requires forall k :: 0 <= k < |ticks| ==> !ticks[k].quit
    requires st.Change? ==> forall k :: 0 <= k < |ticks| ==> TriggerRead(s, ticks[k].plc).Ok?
    requires forall k :: 0 <= k < |ticks| && Mask(s, st, ticks)[k] ==>
               Sample(s, ticks[k].plc, ticks[k].stamp).Success?
    ensures var t := Loop(s, st, ticks);
      var fired := Select(Mask(s, st, ticks), ticks);
      t.outcome == Running && |t.rows| == |fired| &&
      (forall j :: 0 <= j < |fired| ==> Sample(s, fired[j].plc, fired[j].stamp) == Success(t.rows[j]))
    decreases |ticks|
  {
    if ticks != [] {
      var m := Mask(s, st, ticks);
      var rest := ticks[1..];
      assert forall k :: 0 <= k < |rest| ==> rest[k] == ticks[k + 1];
      assert !ticks[0].quit;
      match Decide(s, st, ticks[0])
      case Abort =>
        assert false;
      case Idle =>
        assert m == [false] + Mask(s, st, rest);
        assert m[1..] == Mask(s, st, rest);
        LoopAppendsFiredSamples(s, st, rest);
        assert Loop(s, st, ticks) == Loop(s, st, rest);
        assert Select(m, ticks) == Select(m[1..], rest);
      case Fire(next) =>
        assert m == [true] + Mask(s, next, rest);
        assert m[1..] == Mask(s, next, rest);
        assert next.Change? == st.Change?;
        var row := Sample(s, ticks[0].plc, ticks[0].stamp).value;
        LoopAppendsFiredSamples(s, next, rest);
        var tr := Loop(s, next, rest);
        assert Loop(s, st, ticks) == Prepend([row], tr);
        assert Select(m, ticks) == [ticks[0]] + Select(m[1..], rest);
    }
  }

  /** The value a tick's trigger-tag read yields. */
  function TriggerValue(s: Settings, t: Tick): Value
    requires TriggerRead(s, t.plc).Ok?
  {
    TriggerRead(s, t.plc).value
  }

  /** Change mode is edge-triggered on consecutive reads: although
      `previous_val` is updated only on a fire, an iteration fires exactly
      when its read differs (by Python's `!=`) from the read just before it
      (the seed read for the first iteration, which is itself never a fire). */
  lemma {:induction false} ChangeFiresOnTransitions(s: Settings, seed: Value, ticks: seq<Tick>)
    requires forall k :: 0 <= k < |ticks| ==> TriggerRead(s, ticks[k].plc).Ok?
    ensures forall k :: 0 <= k < |ticks| ==>
      (Mask(s, Change(seed), ticks)[k] <==>
       !Same(TriggerValue(s, ticks[k]), if k == 0 then seed else TriggerValue(s, ticks[k - 1])))
    decreases |ticks|
  {
    if ticks != [] {
      var v := TriggerValue(s, ticks[0]);
      var rest := ticks[1..];
      assert forall k :: 0 <= k < |rest| ==> rest[k] == ticks[k + 1];
      // Without a fire the state keeps `seed`, which equals `v`.
      var next := if Same(v, seed) then seed else v;
      assert Mask(s, Change(seed), ticks) == [!Same(v, seed)] + Mask(s, Change(next), rest);
      ChangeFiresOnTransitions(s, next, rest);
      if |ticks| > 1 {
        SameIsEquivalence(TriggerValue(s, ticks[1]), v, seed);
        SameIsEquivalence(TriggerValue(s, ticks[1]), seed, v);
      }
    }
  }

  /** Periodic mode before its first fire: iteration `j` fires exactly when
      more than the period has elapsed since the initial `previous_time`. */
  lemma {:induction false} PeriodicFirstFire(s: Settings, prev: real, ticks: seq<Tick>, j: nat)
    requires j < |ticks|
    requires forall m :: 0 <= m < j ==> !Mask(s, Periodic(prev), ticks)[m]
    ensures Mask(s, Periodic(prev), ticks)[j] <==> ticks[j].now - prev > s.period
    decreases j
  {
    var m := Mask(s, Periodic(prev), ticks);
    if j > 0 {
      assert !m[0];
      var m' := Mask(s, Periodic(prev), ticks[1..]);
      assert m == [false] + m';
      assert forall k :: 0 <= k < j - 1 ==> m'[k] == m[k + 1];
      PeriodicFirstFire(s, prev, ticks[1..], j - 1);
    }
  }

  /** Periodic mode after a fire at iteration `i`: the next iteration `j`
      fires exactly when strictly more than the period separates the clock
      readings of `j` and `i`. */
  lemma {:induction false} PeriodicNextFire(s: Settings, prev: real, ticks: seq<Tick>, i: nat, j: nat)
    requires i < j < |ticks|
    requires Mask(s, Periodic(prev), ticks)[i]
    requires forall m :: i < m < j ==> !Mask(s, Periodic(prev), ticks)[m]
    ensures Mask(s, Periodic(prev), ticks)[j] <==> ticks[j].now - ticks[i].now > s.period
    decreases i
  {
    var m := Mask(s, Periodic(prev), ticks);
    var rest := ticks[1..];
    assert rest[j - 1] == ticks[j];
    var fire := ticks[0].now - prev > s.period;
    var next := if fire then Periodic(ticks[0].now) else Periodic(prev);
    var m' := Mask(s, next, rest);
    assert m == [fire] + m';
    if fire && i == 0 {
      forall k | 0 <= k < j - 1
        ensures !m'[k]
      {
        assert m'[k] == m[k + 1];
      }
      PeriodicFirstFire(s, ticks[0].now, rest, j - 1);
    } else {
      assert i > 0 && rest[i - 1] == ticks[i];
      assert m'[i - 1] == m[i];
      forall k | i - 1 < k < j - 1
        ensures !m'[k]
      {
        assert m'[k] == m[k + 1];
      }
      PeriodicNextFire(s, if fire then ticks[0].now else prev, rest, i - 1, j - 1);
    }
    assert m'[j - 1] == m[j];
  }

  /** With a one-second period and a clock that starts at zero, the readings
      0.0, 0.5, 1.2, 1.3 fire at 1.2 only: `previous_time` starts at 0, so the
      first reading does not exceed the period. */
  lemma PeriodicExample(s: Settings, c: Controller)
    requires s.period == 1.0
    ensures Mask(s, Periodic(0.0),
                 [Tick(false, 0.0, c, ""), Tick(false, 0.5, c, ""),
                  Tick(false, 1.2, c, ""), Tick(false, 1.3, c, "")])
            == [false, false, true, false]
  {
    var ts := [Tick(false, 0.0, c, ""), Tick(false, 0.5, c, ""), Tick(false, 1.2, c, ""), Tick(false, 1.3, c, "")];
    assert ts[1..][0] == ts[1] && ts[2..][0] == ts[2] && ts[3..][0] == ts[3];
    assert ts[1..][1..] == ts[2..] && ts[2..][1..] == ts[3..] && ts[3..][1..] == [];
    assert Mask(s, Periodic(1.2), ts[3..]) == [false];
    assert Mask(s, Periodic(0.0), ts[2..]) == [true, false];
    assert Mask(s, Periodic(0.0), ts[1..]) == [false, true, false];
  }

  /** A seed read of 1, then trigger reads `True`, 7.0, 7 and "7", fire at
      the 7.0 and at the "7" only: Python's `!=` equates 1 with `True` and
      7.0 with 7, and never a number with a string. */
  lemma ChangeExample(s: Settings, tag: string)
    requires s.triggerTag == Some(tag)
    ensures var tick := (v: Value) => Tick(false, 0.0, Controller(map[tag := Ok(v)], map[]), "");
      Mask(s, Change(Int(1)), [tick(Bool(true)), tick(Float(7.0)), tick(Int(7)), tick(Text("7"))])
      == [false, true, false, true]
  {
    var tick := (v: Value) => Tick(false, 0.0, Controller(map[tag := Ok(v)], map[]), "");
    var ts := [tick(Bool(true)), tick(Float(7.0)), tick(Int(7)), tick(Text("7"))];
    assert TriggerValue(s, ts[0]) == Bool(true) && TriggerValue(s, ts[1]) == Float(7.0);
    assert TriggerValue(s, ts[2]) == Int(7) && TriggerValue(s, ts[3]) == Text("7");
    ChangeFiresOnTransitions(s, Int(1), ts);
    var m := Mask(s, Change(Int(1)), ts);
    assert !m[0] && m[1] && !m[2] && m[3];
  }

  /** The environment of a whole run: the controller at the seed read that
      precedes the change loop, then one tick per loop iteration. */
  datatype Env = Env(seed: Controller, ticks: seq<Tick>)

  /** The data rows a run appends after its header, and how it ends. */
  datatype Report = Report(rows: seq<Row>, outcome: Outcome)

  /** The `match` on the trigger type: the periodic loop from
      `previous_time = 0`; the change loop seeded by one trigger read (which
      ends the run if it fails); and for any other type no read and no row. */
  function Acquire(s: Settings, env: Env): (r: Report)
    ensures forall j :: 0 <= j < |r.rows| ==> |r.rows[j]| == Width(s)
  {
    match s.mode
    case PeriodicTrigger =>
      LoopRowWidth(s, Periodic(0.0), env.ticks);
      var t := Loop(s, Periodic(0.0), env.ticks);
      Report(t.rows, t.outcome)
    case ChangeTrigger =>
      (match TriggerRead(s, env.seed)
       case Err => Report([], Failed)
       case Ok(v) =>
         LoopRowWidth(s, Change(v), env.ticks);
         var t := Loop(s, Change(v), env.ticks);
         Report(t.rows, t.outcome))
    case UnknownTrigger => Report([], UnknownType)
  }
}
