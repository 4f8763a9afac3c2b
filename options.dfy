/**
 * The option registry of the overlay (_initOption, addConfig, _save, _load
 * and the dispatch part of keydown in index.js), as values: the live option
 * values are a map from entry name to boolean, the persisted blob is an
 * optional snapshot, and a key press is a function from one state to the next.
 */
module Options {
  import opened Wrappers
  import opened Keys

  /** An option's action; the source keeps it as a string, and any other string does nothing. */
  datatype Kind = Toggle | Call | Other(tag: string)

  /** An option as a caller describes it; `None` is a missing (`null`/`undefined`) field. */
  datatype OptionConfig = OptionConfig(name: string, entry: string, kind: Option<string>, defaults: Option<bool>)

  /** A registered option, after its missing fields were filled in. */
  datatype DebugOption = DebugOption(name: string, entry: string, kind: Kind, defaults: bool)

  /** The persisted blob: whether the overlay is shown and the option values. */
  datatype Snapshot = Snapshot(showDebug: bool, options: map<string, bool>)

  /** `option.type || 'toggle'`: a missing or empty type is a toggle. */
  function KindOf(t: Option<string>): (k: Kind)
    ensures k == Toggle <==> t.None? || t.value == "" || t.value == "toggle"
    ensures k == Call <==> t == Some("call")
    ensures k.Other? ==> t == Some(k.tag)
  {
    match t
    case None => Toggle
    case Some(s) => if s == "" || s == "toggle" then Toggle else if s == "call" then Call else Other(s)
  }

  /** The option _initOption leaves behind: a missing default becomes false. */
  function Normalize(c: OptionConfig): (o: DebugOption)
    ensures o.name == c.name && o.entry == c.entry && o.kind == KindOf(c.kind)
    ensures c.defaults.None? ==> !o.defaults
    ensures c.defaults.Some? ==> o.defaults == c.defaults.value
  {
    DebugOption(c.name, c.entry, KindOf(c.kind), c.defaults.GetOr(false))
  }

  /** The live values after _initOption: a toggle's value is set to its default, whatever it was. */
  function InitValue(values: map<string, bool>, o: DebugOption): (r: map<string, bool>)
    ensures o.kind == Toggle ==> o.entry in r && r[o.entry] == o.defaults
    ensures forall e :: e != o.entry ==> (e in r <==> e in values) && (e in values ==> r[e] == values[e])
    ensures o.kind != Toggle ==> r == values
  {
    if o.kind == Toggle then values[o.entry := o.defaults] else values
  }

  /** The options every overlay starts with, in menu order. */
  const DefaultConfigs: seq<OptionConfig> := [
    OptionConfig("Show FPS", "showFps", None, Some(true)),
    OptionConfig("Show Key Codes", "showKeyCodes", None, Some(true)),
    OptionConfig("Show Performance Graph", "showGraph", None, Some(false))
  ]

  /** The options once _initOption has filled in each one's missing fields. */
  function NormalizeAll(cs: seq<OptionConfig>): (os: seq<DebugOption>)
    ensures |os| == |cs| && forall i :: 0 <= i < |cs| ==> os[i] == Normalize(cs[i])
  {
    seq(|cs|, i requires 0 <= i < |cs| => Normalize(cs[i]))
  }

  /** The entries of the toggle options: the ones _initOption gives a value. */
  function ToggleEntries(opts: seq<DebugOption>): set<string> {
    set i | 0 <= i < |opts| && opts[i].kind == Toggle :: opts[i].entry
  }

  /** The live values after _initOption ran on each option in turn. */
  function InitAll(values: map<string, bool>, opts: seq<DebugOption>): map<string, bool>
    decreases |opts|
  {
    if opts == [] then values else InitValue(InitAll(values, opts[..|opts| - 1]), opts[|opts| - 1])
  }

  /**
   * Initialisation adds exactly the toggles' entries to the keys, and a key
   * no toggle names keeps its old value.
   */
  lemma {:induction false} InitAllKeys(values: map<string, bool>, opts: seq<DebugOption>)
    ensures InitAll(values, opts).Keys == values.Keys + ToggleEntries(opts)
    ensures forall e :: e in values && e !in ToggleEntries(opts) ==> InitAll(values, opts)[e] == values[e]
    decreases |opts|
  {
    if opts != [] {
      var init := opts[..|opts| - 1];
      InitAllKeys(values, init);
      var last := opts[|opts| - 1];
      assert forall i :: 0 <= i < |init| ==> init[i] == opts[i];
      if last.kind == Toggle {
        assert ToggleEntries(opts) == ToggleEntries(init) + {last.entry};
      } else {
        assert ToggleEntries(opts) == ToggleEntries(init);
      }
    }
  }

  /** A fresh overlay shows the frame rate and key codes and hides the graph. */
  const DefaultValueMap: map<string, bool> := map["showFps" := true, "showKeyCodes" := true, "showGraph" := false]

  /** Registering the default options from no values at all gives that map. */
  lemma DefaultValues()
    ensures InitAll(map[], NormalizeAll(DefaultConfigs)) == DefaultValueMap
  {
    var os := NormalizeAll(DefaultConfigs);
    assert os[..1][..0] == [];
    assert InitAll(map[], os[..1]) == map["showFps" := true];
    assert os[..2][..1] == os[..1];
    assert InitAll(map[], os[..2]) == map["showFps" := true, "showKeyCodes" := true];
    assert os[..3][..2] == os[..2] && os[..3] == os;
  }

  function Entries(opts: seq<DebugOption>): set<string> {
    set i | 0 <= i < |opts| :: opts[i].entry
  }

  /** Every toggle option has a live value. */
  ghost predicate TogglesHaveValues(opts: seq<DebugOption>, values: map<string, bool>) {
    forall i :: 0 <= i < |opts| && opts[i].kind == Toggle ==> opts[i].entry in values
  }

  /** After initialisation every toggle option has a value. */
  lemma {:induction false} InitAllHasToggles(values: map<string, bool>, opts: seq<DebugOption>)
    ensures TogglesHaveValues(opts, InitAll(values, opts))
    decreases |opts|
  {
    if opts != [] {
      var init := opts[..|opts| - 1];
      InitAllHasToggles(values, init);
      forall i | 0 <= i < |opts| && opts[i].kind == Toggle ensures opts[i].entry in InitAll(values, opts) {
        if i < |init| {
          assert init[i] == opts[i];
        }
      }
    }
  }

  /** `this[entry]` read as a boolean: a missing value is `undefined`, which is falsy. */
  function Lookup(values: map<string, bool>, entry: string): bool {
    entry in values && values[entry]
  }

  /**
   * The `options` part of the blob _save writes: the value of every option's
   * entry; an entry without a value (a call option) is `undefined` and is
   * dropped by serialisation.
   */
  function SavedOptions(opts: seq<DebugOption>, values: map<string, bool>): (m: map<string, bool>)
    ensures forall e :: e in m <==> e in values && e in Entries(opts)
    ensures forall e :: e in m ==> m[e] == values[e]
  {
    map e | e in values && e in Entries(opts) :: values[e]
  }

  /** The blob for one more option: its entry is added when it has a value. */
  lemma SavedOptionsSnoc(opts: seq<DebugOption>, o: DebugOption, values: map<string, bool>)
    ensures SavedOptions(opts + [o], values)
         == if o.entry in values then SavedOptions(opts, values)[o.entry := values[o.entry]]
            else SavedOptions(opts, values)
  {
    var l := opts + [o];
    assert Entries(l) == Entries(opts) + {o.entry} by {
      forall e | e in Entries(l) ensures e in Entries(opts) + {o.entry} {
        var i :| 0 <= i < |l| && l[i].entry == e;
        if i < |opts| { assert opts[i] == l[i]; }
      }
      forall e | e in Entries(opts) ensures e in Entries(l) {
        var i :| 0 <= i < |opts| && opts[i].entry == e;
        assert l[i] == opts[i];
      }
      assert l[|opts|] == o;
    }
  }

  /** Loading writes every stored key over the live values, registered or not. */
  function Loaded(values: map<string, bool>, stored: map<string, bool>): (r: map<string, bool>)
    ensures r.Keys == values.Keys + stored.Keys
    ensures forall e :: e in stored ==> r[e] == stored[e]
    ensures forall e :: e in values && e !in stored ==> r[e] == values[e]
  {
    values + stored
  }

  /** Writing one stored value and dropping it from the values still to write keeps the outcome. */
  lemma LoadStep(values: map<string, bool>, rest: map<string, bool>, name: string)
    requires name in rest
    ensures values[name := rest[name]] + (rest - {name}) == values + rest
  {
  }

  /** Saving and then loading leaves every value as it was. */
  lemma SaveThenLoadIsIdentity(opts: seq<DebugOption>, values: map<string, bool>)
    ensures Loaded(values, SavedOptions(opts, values)) == values
  {
    var r := Loaded(values, SavedOptions(opts, values));
    assert r.Keys == values.Keys;
    forall e | e in values ensures r[e] == values[e] { }
  }

  /** Loading a blob saved from other values restores exactly the saved entries. */
  lemma LoadRestoresSavedEntries(opts: seq<DebugOption>, saved: map<string, bool>, current: map<string, bool>, e: string)
    requires e in saved && e in Entries(opts)
    ensures Lookup(Loaded(current, SavedOptions(opts, saved)), e) == Lookup(saved, e)
  {
  }

  /** A later registration overwrites a loaded value with the option's default. */
  lemma InitAfterLoadOverwrites(values: map<string, bool>, stored: map<string, bool>, o: DebugOption)
    requires o.kind == Toggle
    ensures Lookup(InitValue(Loaded(values, stored), o), o.entry) == o.defaults
  {
  }

  /** The fixed shortcut table: key 123 toggles whether the overlay is shown. */
  const ShowDebugKey: int := 123

  /** The key that shows and hides the option menu (the field's initial value). */
  const DefaultShortcutsKey: int := 220

  /** The part of the overlay's state a key press reads and writes. */
  datatype MenuState = MenuState(values: map<string, bool>, showDebug: bool, enableShortcuts: bool,
                                 store: Option<Snapshot>, calls: seq<string>)

  /** _save: the blob holds the shown flag and every option's value. */
  function Save(opts: seq<DebugOption>, s: MenuState): MenuState {
    s.(store := Some(Snapshot(s.showDebug, SavedOptions(opts, s.values))))
  }

  /** What a matched menu option does: flip and save, record the call, or nothing. */
  function Activate(opts: seq<DebugOption>, o: DebugOption, s: MenuState): MenuState {
    match o.kind
    case Toggle => Save(opts, s.(values := s.values[o.entry := !Lookup(s.values, o.entry)]))
    case Call => s.(calls := s.calls + [o.entry])
    case Other(_) => s
  }

  /**
   * keydown on an enabled overlay: whether the key was handled and the new
   * state. The menu key comes first, then (while the menu is shown) the menu
   * options in order, then the fixed shortcut table.
   */
  function Press(opts: seq<DebugOption>, debugKeys: bool, shortcutsKey: int, s: MenuState,
                 key: int, ctrlDown: bool): (bool, MenuState)
  {
    if debugKeys && key == shortcutsKey then (true, s.(enableShortcuts := !s.enableShortcuts))
    else
      var m := if debugKeys && s.enableShortcuts then FirstMatch(|opts|, key, ctrlDown) else None;
      if m.Some? && m.value < |opts| then (true, Activate(opts, opts[m.value], s))
      else if key == ShowDebugKey then (true, Save(opts, s.(showDebug := !s.showDebug)))
      else (false, s)
  }

  /** The menu key flips the menu and touches nothing else, and nothing is saved. */
  lemma PressMenuKey(opts: seq<DebugOption>, shortcutsKey: int, s: MenuState, ctrlDown: bool)
    ensures Press(opts, true, shortcutsKey, s, shortcutsKey, ctrlDown)
         == (true, s.(enableShortcuts := !s.enableShortcuts))
  {
  }

  /**
   * Key 123 flips whether the overlay is shown and saves, with or without the
   * menu: no menu option ever answers to it.
   */
  lemma PressShowDebugKey(opts: seq<DebugOption>, debugKeys: bool, shortcutsKey: int, s: MenuState, ctrlDown: bool)
    requires !(debugKeys && shortcutsKey == ShowDebugKey)
    ensures Press(opts, debugKeys, shortcutsKey, s, ShowDebugKey, ctrlDown)
         == (true, Save(opts, s.(showDebug := !s.showDebug)))
  {
    NoMenuKeyOutsideRange(|opts|, ShowDebugKey, ctrlDown);
  }

  /**
   * A menu toggle: the first option in order that the key triggers flips its
   * own entry only, the blob is saved with the new values, and the key is handled.
   */
  lemma PressMenuToggle(opts: seq<DebugOption>, shortcutsKey: int, s: MenuState, key: int, ctrlDown: bool, i: nat)
    requires s.enableShortcuts && key != shortcutsKey
    requires i < |opts| && Triggers(i, key, ctrlDown) && opts[i].kind == Toggle
    requires forall k :: 0 <= k < i ==> !Triggers(k, key, ctrlDown)
    ensures var (handled, t) := Press(opts, true, shortcutsKey, s, key, ctrlDown);
      && handled
      && Lookup(t.values, opts[i].entry) == !Lookup(s.values, opts[i].entry)
      && (forall e :: e != opts[i].entry ==> Lookup(t.values, e) == Lookup(s.values, e))
      && t.store == Some(Snapshot(s.showDebug, SavedOptions(opts, t.values)))
      && t.showDebug == s.showDebug && t.enableShortcuts && t.calls == s.calls
  {
    FirstMatchFromFinds(|opts|, key, ctrlDown, 0, i);
  }

  /**
   * A menu call records its action once and the press changes no value; what
   * the host action then does is not part of the menu state.
   */
  lemma PressMenuCall(opts: seq<DebugOption>, shortcutsKey: int, s: MenuState, key: int, ctrlDown: bool, i: nat)
    requires s.enableShortcuts && key != shortcutsKey
    requires i < |opts| && Triggers(i, key, ctrlDown) && opts[i].kind == Call
    requires forall k :: 0 <= k < i ==> !Triggers(k, key, ctrlDown)
    ensures Press(opts, true, shortcutsKey, s, key, ctrlDown) == (true, s.(calls := s.calls + [opts[i].entry]))
  {
    FirstMatchFromFinds(|opts|, key, ctrlDown, 0, i);
  }

  /** An option of any other type still takes the key: handled, nothing changes. */
  lemma PressMenuOther(opts: seq<DebugOption>, shortcutsKey: int, s: MenuState, key: int, ctrlDown: bool, i: nat)
    requires s.enableShortcuts && key != shortcutsKey
    requires i < |opts| && Triggers(i, key, ctrlDown) && opts[i].kind.Other?
    requires forall k :: 0 <= k < i ==> !Triggers(k, key, ctrlDown)
    ensures Press(opts, true, shortcutsKey, s, key, ctrlDown) == (true, s)
  {
    FirstMatchFromFinds(|opts|, key, ctrlDown, 0, i);
  }

  /**
   * A key nothing answers to is not handled and changes nothing: neither the
   * menu key nor key 123, and no option triggered by it or the menu not in
   * use (hidden, or debug keys off), whatever option would answer to it.
   */
  lemma PressUnmatched(opts: seq<DebugOption>, debugKeys: bool, shortcutsKey: int, s: MenuState, key: int, ctrlDown: bool)
    requires key != ShowDebugKey && !(debugKeys && key == shortcutsKey)
    requires !(debugKeys && s.enableShortcuts) || forall k :: 0 <= k < |opts| ==> !Triggers(k, key, ctrlDown)
    ensures Press(opts, debugKeys, shortcutsKey, s, key, ctrlDown) == (false, s)
  {
    FirstMatchIsFirst(|opts|, key, ctrlDown);
  }

  /** Only the menu key, a menu option or key 123 is ever handled. */
  lemma PressHandledOnlyByKnownKeys(opts: seq<DebugOption>, debugKeys: bool, shortcutsKey: int, s: MenuState, key: int, ctrlDown: bool)
    requires Press(opts, debugKeys, shortcutsKey, s, key, ctrlDown).0
    ensures (debugKeys && key == shortcutsKey) || key == ShowDebugKey
            || (debugKeys && s.enableShortcuts && exists k :: 0 <= k < |opts| && Triggers(k, key, ctrlDown))
  {
    FirstMatchIsFirst(|opts|, key, ctrlDown);
  }
}
