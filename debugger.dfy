/**
 * The Debugger object of index.js: the overlay's state and the operations
 * that change it. Each operation is stated against the value-level
 * definitions of the other modules (the log queue, the option registry and
 * key dispatch, the timers), whose properties are proved there.
 */
module Debug {
  import opened Wrappers
  import opened Keys
  import opened LogQueue
  import opened Options
  import opened Timers
  import Layout

  /** Math.ceil. */
  function Ceil(r: real): (c: int)
    ensures r <= c as real < r + 1.0
  {
    -((-r).Floor)
  }

  /** The log capacity exitUpdate sets for a view height: enough 20-high rows to fill it, plus one. */
  function LogCapacity(viewHeight: real): (c: int)
    ensures ((c - 1) as real) * 20.0 < viewHeight + 20.0 <= (c as real) * 20.0
  {
    Ceil((viewHeight + 20.0) / 20.0)
  }

  /**
   * At that capacity a full queue reaches the top of the view: the oldest
   * row's baseline is at or above -10, and the next one is below it.
   */
  lemma LogCapacityFillsView(viewHeight: real)
    ensures var c := LogCapacity(viewHeight);
      Layout.LogRowY(viewHeight, 0, c) <= -10.0 < Layout.LogRowY(viewHeight, 1, c)
  {
    var c := LogCapacity(viewHeight);
    assert (viewHeight + 20.0) / 20.0 * 20.0 == viewHeight + 20.0;
    assert (c as real) * 20.0 >= viewHeight + 20.0;
    assert (c as real) * 20.0 < viewHeight + 40.0;
  }

  /**
   * The timer state hangs together: the names are the started names in
   * first-seen order, exactly the names with a record, and each record keeps
   * the last ten samples of its name.
   */
  ghost predicate TimersConsistent(records: map<string, PerfRecord>, names: seq<string>,
                                   starts: seq<string>, history: map<string, seq<real>>)
  {
    && names == FirstSeen(starts)
    && (forall n :: n in records <==> n in names)
    && (forall n :: n in records ==>
          n in history && records[n].name == n && records[n].records == LastN(history[n], MaxRecords))
  }

  /** Starting a timer keeps the timer state consistent. */
  lemma StartKeepsTimersConsistent(records: map<string, PerfRecord>, names: seq<string>,
                                   starts: seq<string>, history: map<string, seq<real>>, name: string, now: real,
                                   records': map<string, PerfRecord>, names': seq<string>,
                                   starts': seq<string>, history': map<string, seq<real>>)
    requires TimersConsistent(records, names, starts, history)
    requires starts' == starts + [name]
    requires name in records ==>
      names' == names && history' == history && records' == records[name := records[name].(value := now)]
    requires name !in records ==>
      names' == names + [name] && history' == history[name := []] && records' == records[name := PerfRecord(name, now, [])]
    ensures TimersConsistent(records', names', starts', history')
  {
    FirstSeenIsDistinct(starts);
    assert (starts + [name])[..|starts|] == starts;
  }

  /**
   * Stopping a started timer with one more sample keeps the timer state
   * consistent, and the new record holds the last ten samples of its name.
   */
  lemma StopKeepsTimersConsistent(records: map<string, PerfRecord>, names: seq<string>,
                                  starts: seq<string>, history: map<string, seq<real>>,
                                  name: string, sample: real, r: PerfRecord,
                                  records': map<string, PerfRecord>, history': map<string, seq<real>>)
    requires TimersConsistent(records, names, starts, history) && name in records
    requires r.name == name && r.records == Window(records[name].records + [sample])
    requires records' == records[name := r]
    requires history' == history[name := history[name] + [sample]]
    ensures TimersConsistent(records', names, starts, history')
    ensures r.records == LastN(history'[name], MaxRecords)
  {
    WindowKeepsLastSamples(history[name], sample);
  }

  /** The options a new overlay registers. */
  function DefaultOptions(): seq<DebugOption> {
    NormalizeAll(DefaultConfigs)
  }

  class Debugger {
    /** The registered options, in menu order. */
    var options: seq<DebugOption>
    /** The option values the source keeps as properties of the object. */
    var values: map<string, bool>
    /** Every call option's action invoked from the menu, in order. */
    ghost var calls: seq<string>

    var maxLogs: int
    var logs: seq<LogEntry>
    var disabled: bool

    var fps: real
    var fpsCount: nat
    var fpsElapsedTime: real
    var framePerf: seq<real>

    var perfValues: map<string, PerfRecord>
    var perfNames: seq<string>
    /** Every name perf was called with, in order. */
    ghost var perfStarts: seq<string>
    /** Every sample stopPerf took for each name, in order. */
    ghost var perfHistory: map<string, seq<real>>

    var showDebug: bool
    var enableDebugKeys: bool
    var enableShortcuts: bool
    var enableShortcutsKey: int
    var lastKey: Option<int>

    /** The persisted blob, which outlives the object. */
    var store: Option<Snapshot>

    /**
     * The object invariant. A method that can change one of its two parts
     * keeps that part and says so; a method whose frame touches neither part
     * keeps all of it by its modifies clause alone.
     */
    ghost predicate Valid()
      reads this`options, this`values, this`perfValues, this`perfNames, this`perfStarts, this`perfHistory
    {
      OptionsValid() && TimersValid()
    }

    /** Every toggle option has a value. */
    ghost predicate OptionsValid()
      reads this`options, this`values
    {
      TogglesHaveValues(options, values)
    }

    ghost predicate TimersValid()
      reads this`perfValues, this`perfNames, this`perfStarts, this`perfHistory
    {
      TimersConsistent(perfValues, perfNames, perfStarts, perfHistory)
    }

    /** The part of the state a key press reads and writes. */
    ghost function Menu(): MenuState
      reads this
    {
      MenuState(values, showDebug, enableShortcuts, store, calls)
    }

    function ShowFps(): bool
      reads this`values
    {
      Lookup(values, "showFps")
    }

    /**
     * A new overlay over the persisted blob `stored`: the default options
     * registered, then the blob loaded as Load loads it (computed here before
     * the object is built, with the same LoadValues).
     */
    constructor (stored: Option<Snapshot>)
      ensures Valid()
      ensures options == DefaultOptions()
      ensures stored.None? ==> values == DefaultValueMap && !showDebug
      ensures stored.Some? ==> values == Loaded(DefaultValueMap, stored.value.options)
      ensures stored.Some? ==> showDebug == stored.value.showDebug
      ensures maxLogs == 10
      ensures logs == []
      ensures !disabled
      ensures fps == 0.0
      ensures fpsCount == 0
      ensures fpsElapsedTime == 0.0
      ensures framePerf == []
      ensures perfValues == map[]
      ensures perfNames == []
      ensures perfStarts == []
      ensures perfHistory == map[]
      ensures enableDebugKeys
      ensures !enableShortcuts
      ensures enableShortcutsKey == DefaultShortcutsKey
      ensures lastKey == None
      ensures store == stored
      ensures calls == []
    {
      var opts := DefaultOptions();
      var vs := InitialValues(opts);
      DefaultValues();
      var shown, loaded := false, vs;
      if stored.Some? {
        shown := stored.value.showDebug;
        loaded := LoadValues(vs, stored.value.options);
      }
      options := opts;
      maxLogs := 10;
      values := loaded;
      calls := [];
      disabled := false;
      fps := 0.0;
      fpsCount := 0;
      fpsElapsedTime := 0.0;
      framePerf := [];
      logs := [];
      perfValues := map[];
      perfNames := [];
      perfStarts := [];
      perfHistory := map[];
      showDebug := shown;
      enableDebugKeys := true;
      enableShortcuts := false;
      enableShortcutsKey := DefaultShortcutsKey;
      lastKey := None;
      store := stored;
    }

    /** addConfig: the option is registered last and, when it is a toggle, its value set to its default. */
    method AddConfig(c: OptionConfig)
      requires OptionsValid()
      modifies this`options, this`values
      ensures OptionsValid()
      ensures options == old(options) + [Normalize(c)]
      ensures values == InitValue(old(values), Normalize(c))
    {
      var o := Normalize(c);
      options := options + [o];
      values := InitValue(values, o);
    }

    /** clear: the queue is emptied. */
    method Clear()
      modifies this`logs
      ensures logs == []
    {
      logs := [];
    }

    /**
     * log: one entry per line of the message, with the initial life and the
     * colour (white when none is given); while the queue is at capacity each
     * push first shifts out the oldest entry.
     */
    method Log(message: string, color: string)
      modifies this`logs
      ensures var es := NewEntries(MessageLines(message), ColorOrDefault(color));
        && logs == PushAll(old(logs), es, maxLogs)
        && |logs| == MaxInt(|old(logs)|, MinInt(MaxInt(maxLogs, 1), |old(logs)| + |es|))
        && logs == (old(logs) + es)[|old(logs)| + |es| - |logs|..]
    {
      var lines := Split(Unescape(message));
      var c := ColorOrDefault(color);
      ghost var es := NewEntries(lines, c);
      var i := 0;
      while i < |lines|
        invariant 0 <= i <= |lines|
        invariant logs == PushAll(old(logs), es[..i], maxLogs)
      {
        PushAllStep(old(logs), es, i, maxLogs);
        if |logs| >= maxLogs && logs != [] {
          logs := logs[1..];
        }
        logs := logs + [LogEntry(lines[i], InitialLife, c)];
        i := i + 1;
      }
      assert es[..|lines|] == es;
      PushAllKeepsNewest(old(logs), es, maxLogs);
    }

    /**
     * exitUpdate on a frame of `time` seconds in a view `viewHeight` high:
     * nothing while disabled or hidden; otherwise the log capacity follows
     * the height, the frame-rate window advances (closing, and smoothing the
     * displayed rate when it is shown, once it exceeds the interval), and
     * the log entries decay by one pass.
     */
    method ExitUpdate(time: real, viewHeight: real)
      modifies this`maxLogs, this`fpsCount, this`fpsElapsedTime, this`fps, this`logs
      ensures disabled || !showDebug ==>
        && maxLogs == old(maxLogs) && logs == old(logs) && fps == old(fps)
        && fpsCount == old(fpsCount) && fpsElapsedTime == old(fpsElapsedTime)
      ensures !disabled && showDebug ==>
        && maxLogs == LogCapacity(viewHeight)
        && logs == Decay(old(logs), time)
        && var count := old(fpsCount) + 1;
           var elapsed := old(fpsElapsedTime) + time;
           if elapsed > FpsUpdateInterval then
             && fpsCount == 0 && fpsElapsedTime == 0.0
             && fps == (if ShowFps() then Smooth(old(fps), count as real / elapsed) else old(fps))
           else fpsCount == count && fpsElapsedTime == elapsed && fps == old(fps)
    {
      if disabled { return; }
      if showDebug {
        maxLogs := LogCapacity(viewHeight);
        fpsCount := fpsCount + 1;
        fpsElapsedTime := fpsElapsedTime + time;
        if fpsElapsedTime > FpsUpdateInterval {
          var reading := fpsCount as real / fpsElapsedTime;
          if ShowFps() {
            fps := Smooth(fps, reading);
          }
          fpsCount := 0;
          fpsElapsedTime := 0.0;
        }

        DecayLogs(time);
      }
    }

    /**
     * The decay loop of exitUpdate: over the length the queue had on entry,
     * decrement the entry at each index and splice it out once its life is
     * used up; an index past the shortened queue holds no entry.
     */
    method DecayLogs(time: real)
      modifies this`logs
      ensures logs == Decay(old(logs), time)
    {
      var i := 0;
      var len := |logs|;
      while i < len
        invariant 0 <= i <= len && |logs| <= len
        invariant DecayedUpTo(logs, i, time) == Decay(old(logs), time)
      {
        if i < |logs| {
          var log := logs[i].(life := logs[i].life - time);
          if log.life <= 0.0 {
            DecayStepRemoves(logs, i, time);
            logs := logs[..i] + logs[i + 1..];
          } else {
            DecayStepKeeps(logs, i, time);
            logs := logs[i := log];
          }
        }
        i := i + 1;
      }
      assert logs[..|logs|] == logs && logs[|logs|..] == [];
    }

    /**
     * keydown with key code `key`, Ctrl held or not: nothing at all while
     * disabled; otherwise the key is remembered and handled as Press says.
     */
    method Keydown(key: int, ctrlDown: bool) returns (handled: bool)
      requires OptionsValid()
      modifies this`lastKey, this`values, this`showDebug, this`enableShortcuts, this`store, this`calls
      ensures OptionsValid()
      ensures old(disabled) ==> !handled && lastKey == old(lastKey) && Menu() == old(Menu())
      ensures !old(disabled) ==>
        && lastKey == Some(key)
        && (handled, Menu()) == Press(options, enableDebugKeys, enableShortcutsKey, old(Menu()), key, ctrlDown)
    {
      if disabled { return false; }
      lastKey := Some(key);

      if enableDebugKeys {
        if key == enableShortcutsKey {
          enableShortcuts := !enableShortcuts;
          return true;
        }

        if enableShortcuts {
          var i := 0;
          while i < |options|
            invariant 0 <= i <= |options|
            invariant forall k :: 0 <= k < i ==> !Triggers(k, key, ctrlDown)
            invariant Menu() == old(Menu()) && lastKey == Some(key)
          {
            var keyIndex := i + 1;
            if ctrlDown {
              keyIndex := keyIndex - CtrlOffset;
            }
            var charId := KeyCode(keyIndex);
            if charId.Some? && charId.value != 0 && key == charId.value {
              FirstMatchFromFinds(|options|, key, ctrlDown, 0, i);
              var o := options[i];
              match o.kind {
                case Toggle =>
                  values := values[o.entry := !Lookup(values, o.entry)];
                  Save();
                case Call =>
                  calls := calls + [o.entry];
                case Other(_) =>
              }
              return true;
            }
            i := i + 1;
          }
          FirstMatchIsFirst(|options|, key, ctrlDown);
        }
      }

      if key == ShowDebugKey {
        showDebug := !showDebug;
        Save();
        return true;
      }
      return false;
    }

    /** _save: the blob holds whether the overlay is shown and the value of every option's entry. */
    method Save()
      modifies this`store
      ensures store == Some(Snapshot(showDebug, SavedOptions(options, values)))
    {
      var data: map<string, bool> := map[];
      var i := 0;
      while i < |options|
        invariant 0 <= i <= |options|
        invariant data == SavedOptions(options[..i], values)
      {
        var o := options[i];
        assert options[..i + 1] == options[..i] + [o];
        SavedOptionsSnoc(options[..i], o, values);
        if o.entry in values {
          data := data[o.entry := values[o.entry]];
        }
        i := i + 1;
      }
      assert options[..|options|] == options;
      store := Some(Snapshot(showDebug, data));
    }

    /** _load: with a blob, the shown flag and every stored value are written; without one, nothing changes. */
    method Load()
      requires OptionsValid()
      modifies this`showDebug, this`values
      ensures OptionsValid()
      ensures store.None? ==> showDebug == old(showDebug) && values == old(values)
      ensures store.Some? ==> showDebug == store.value.showDebug && values == Loaded(old(values), store.value.options)
    {
      if store.Some? {
        showDebug := store.value.showDebug;
        values := LoadValues(values, store.value.options);
      }
    }

    /**
     * perf: while shown, the timer `name` starts at `now`; a name seen for
     * the first time gets an empty record and joins the list of names.
     */
    method Perf(name: string, now: real)
      requires TimersValid()
      modifies this`perfValues, this`perfNames, this`perfStarts, this`perfHistory
      ensures TimersValid()
      ensures !showDebug ==>
        && perfValues == old(perfValues) && perfNames == old(perfNames)
        && perfStarts == old(perfStarts) && perfHistory == old(perfHistory)
      ensures showDebug ==>
        && perfStarts == old(perfStarts) + [name]
        && (name in old(perfValues) ==>
              && perfNames == old(perfNames) && perfHistory == old(perfHistory)
              && perfValues == old(perfValues)[name := old(perfValues)[name].(value := now)])
        && (name !in old(perfValues) ==>
              && perfNames == old(perfNames) + [name] && perfHistory == old(perfHistory)[name := []]
              && perfValues == old(perfValues)[name := PerfRecord(name, now, [])])
    {
      if !showDebug { return; }
      ghost var (records, names, starts, history) := (perfValues, perfNames, perfStarts, perfHistory);
      perfStarts := perfStarts + [name];
      if name !in perfValues {
        perfNames := perfNames + [name];
        perfValues := perfValues[name := PerfRecord(name, 0.0, [])];
        perfHistory := perfHistory[name := []];
      }
      var record := perfValues[name];
      perfValues := perfValues[name := record.(value := now)];
      StartKeepsTimersConsistent(records, names, starts, history, name, now,
                                 perfValues, perfNames, perfStarts, perfHistory);
    }

    /**
     * stopPerf: while shown, now minus the record's value (its start time
     * after a perf, its last mean after another stop) is one more sample of `name`, the record keeps the last ten samples and shows
     * their mean, and the sample joins the frame's samples. The timer must
     * have been started: the source dereferences a missing record.
     */
    method StopPerf(name: string, now: real)
      requires TimersValid()
      requires showDebug ==> name in perfValues
      modifies this`perfValues, this`perfHistory, this`framePerf
      ensures TimersValid()
      ensures !showDebug ==> unchanged(this`perfValues, this`perfHistory, this`framePerf)
      ensures showDebug ==> perfHistory == old(perfHistory)[name := old(perfHistory)[name] + [Elapsed(old(perfValues)[name], now)]]
      ensures showDebug ==> framePerf == old(framePerf) + [Elapsed(old(perfValues)[name], now)]
      ensures showDebug ==> name in perfValues && perfValues == old(perfValues)[name := perfValues[name]]
      ensures showDebug ==> && perfValues[name].name == name && perfValues[name].records != []
                            && perfValues[name].records == LastN(perfHistory[name], MaxRecords)
      ensures showDebug ==> Repeat(perfValues[name].value, |perfValues[name].records|) == Sum(perfValues[name].records)
    {
      if !showDebug { return; }
      ghost var (records0, history0) := (perfValues, perfHistory);
      var diff := Elapsed(perfValues[name], now);
      var r := StopRecord(perfValues[name], diff);
      perfHistory := perfHistory[name := perfHistory[name] + [diff]];
      perfValues := perfValues[name := r];
      framePerf := framePerf + [diff];
      StopKeepsTimersConsistent(records0, perfNames, perfStarts, history0, name, diff, r, perfValues, perfHistory);
    }

    /** disable: from now on exitUpdate and keydown do nothing. */
    method Disable()
      modifies this`disabled
      ensures disabled
    {
      disabled := true;
    }
  }

  /**
   * The queue part-way through the decay loop at index `i`: the entries
   * before `i` are done, and the pass still has to walk the rest.
   */
  function DecayedUpTo(logs: seq<LogEntry>, i: nat, time: real): seq<LogEntry> {
    var p := MinInt(i, |logs|);
    logs[..p] + Decay(logs[p..], time)
  }

  /** A step of the decay loop that splices out the entry at `i` leaves the outcome of the pass as it was. */
  lemma DecayStepRemoves(logs: seq<LogEntry>, i: nat, time: real)
    requires i < |logs| && logs[i].life - time <= 0.0
    ensures DecayedUpTo(logs[..i] + logs[i + 1..], i + 1, time) == DecayedUpTo(logs, i, time)
  {
    var rest := logs[i..];
    var after := logs[..i] + logs[i + 1..];
    assert rest[0] == logs[i];
    assert Decay(rest, time) == if |rest| == 1 then [] else [rest[1]] + Decay(rest[2..], time);
    if i + 1 < |logs| {
      assert rest[1] == logs[i + 1] && rest[2..] == logs[i + 2..];
      assert after[..i + 1] == logs[..i] + [logs[i + 1]];
      assert after[i + 1..] == logs[i + 2..];
      assert DecayedUpTo(after, i + 1, time) == logs[..i] + [logs[i + 1]] + Decay(logs[i + 2..], time);
    } else {
      assert after == logs[..i] && after[i..] == [];
      assert DecayedUpTo(after, i + 1, time) == logs[..i] + Decay([], time);
    }
  }

  /** A step of the decay loop that keeps the entry at `i`, with less life, leaves the outcome of the pass as it was. */
  lemma DecayStepKeeps(logs: seq<LogEntry>, i: nat, time: real)
    requires i < |logs| && logs[i].life - time > 0.0
    ensures DecayedUpTo(logs[i := logs[i].(life := logs[i].life - time)], i + 1, time) == DecayedUpTo(logs, i, time)
  {
    var e := logs[i].(life := logs[i].life - time);
    var rest := logs[i..];
    var after := logs[i := e];
    assert rest[0] == logs[i];
    assert Decay(rest, time) == [e] + Decay(rest[1..], time);
    assert rest[1..] == logs[i + 1..];
    assert after[..i + 1] == logs[..i] + [e];
    assert after[i + 1..] == logs[i + 1..];
  }

  /** The loop of load: each stored value written over the live values, in any order. */
  method LoadValues(values: map<string, bool>, stored: map<string, bool>) returns (r: map<string, bool>)
    ensures r == Loaded(values, stored)
  {
    r := values;
    var rest := stored;
    while rest.Keys != {}
      invariant r + rest == Loaded(values, stored)
      decreases |rest.Keys|
    {
      var name :| name in rest.Keys;
      LoadStep(r, rest, name);
      r := r[name := rest[name]];
      rest := rest - {name};
    }
    assert rest == map[] && r + rest == r;
  }

  /**
   * The option loop of the constructor: _initOption on each option in menu
   * order, from no values at all; every toggle ends up with a value.
   */
  method InitialValues(opts: seq<DebugOption>) returns (values: map<string, bool>)
    ensures values == InitAll(map[], opts)
    ensures TogglesHaveValues(opts, values)
  {
    values := map[];
    var i := 0;
    while i < |opts|
      invariant 0 <= i <= |opts|
      invariant values == InitAll(map[], opts[..i])
    {
      assert opts[..i + 1][..i] == opts[..i];
      values := InitValue(values, opts[i]);
      i := i + 1;
    }
    assert opts[..|opts|] == opts;
    InitAllHasToggles(map[], opts);
  }

  /**
   * A toggle option registered after the overlay was built from a blob
   * holding its entry starts at its default, not at the value the blob holds.
   */
  method AddConfigAfterReloadOverwrites(stored: Snapshot, c: OptionConfig) returns (d: Debugger)
    requires c.kind.None? && c.entry in stored.options
    ensures Lookup(d.values, c.entry) == c.defaults.GetOr(false)
    ensures stored.options[c.entry] != c.defaults.GetOr(false) ==> Lookup(d.values, c.entry) != stored.options[c.entry]
  {
    d := new Debugger(Some(stored));
    d.AddConfig(c);
  }
}
