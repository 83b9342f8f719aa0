/** The context-scoped keyboard shortcut manager (`ShortcutManager` in `useKeyboardShortcuts`):
    shortcuts kept in registration order under unique ids, first-match dispatch with exact
    modifiers and a Mac ctrl/meta swap, an allow-list inside text fields, and the two string
    renderings of a shortcut. Whether the platform is a Mac is a parameter. */
module Shortcuts {
  import opened Common
  import Text

  datatype Context = Global | Editor

  /** A shortcut's configuration; an absent modifier flag reads as `false`, while
      `preventDefault` distinguishes absent from an explicit `false`. */
  datatype Config = Config(key: string, ctrl: bool, shift: bool, meta: bool, alt: bool,
                           preventDefault: Option<bool>, description: string, category: Context)

  /** A registered shortcut; the handler is an opaque token. */
  datatype Entry = Entry(id: string, config: Config, handler: nat)

  datatype Manager = Manager(shortcuts: seq<Entry>, enabled: bool, context: Context)

  const Fresh := Manager([], true, Global)

  datatype KeyEvent = KeyEvent(key: string, ctrl: bool, meta: bool, shift: bool, alt: bool)

  /** The element a key event is aimed at. */
  datatype Target = Target(tagName: string, contentEditable: string)

  /** The ids of a `Map` are unique. */
  predicate UniqueIds(es: seq<Entry>) {
    forall i, j :: 0 <= i < j < |es| ==> es[i].id != es[j].id
  }

  predicate HasEntry(es: seq<Entry>, id: string) {
    exists i :: 0 <= i < |es| && es[i].id == id
  }

  /** `register`: `Map.set` replaces the entry of a known id where it stands, and appends a
      new id at the end. */
  function Register(m: Manager, id: string, config: Config, handler: nat): (r: Manager)
    ensures r.enabled == m.enabled && r.context == m.context
    ensures HasEntry(m.shortcuts, id) ==>
      |r.shortcuts| == |m.shortcuts|
      && forall i :: 0 <= i < |m.shortcuts| ==>
           r.shortcuts[i] == if m.shortcuts[i].id == id then Entry(id, config, handler) else m.shortcuts[i]
    ensures !HasEntry(m.shortcuts, id) ==> r.shortcuts == m.shortcuts + [Entry(id, config, handler)]
  {
    var e := Entry(id, config, handler);
    if HasEntry(m.shortcuts, id) then m.(shortcuts := ReplaceWhere(m.shortcuts, (x: Entry) => x.id == id, e))
    else m.(shortcuts := m.shortcuts + [e])
  }

  /** Registering keeps ids unique, so the manager never holds two entries for one id. */
  lemma RegisterKeepsUnique(m: Manager, id: string, config: Config, handler: nat)
    requires UniqueIds(m.shortcuts)
    ensures UniqueIds(Register(m, id, config, handler).shortcuts)
    ensures HasEntry(Register(m, id, config, handler).shortcuts, id)
  {
    var r := Register(m, id, config, handler);
    if HasEntry(m.shortcuts, id) {
      var i :| 0 <= i < |m.shortcuts| && m.shortcuts[i].id == id;
      assert r.shortcuts[i].id == id;
      assert forall k :: 0 <= k < |r.shortcuts| ==> r.shortcuts[k].id == m.shortcuts[k].id;
    } else {
      assert r.shortcuts[|m.shortcuts|].id == id;
    }
  }

  /** `unregister`: removes the entry with that id and keeps the rest in order. */
  function Unregister(m: Manager, id: string): (r: Manager)
    ensures r.enabled == m.enabled && r.context == m.context
    ensures forall e :: e in r.shortcuts <==> e in m.shortcuts && e.id != id
    ensures !HasEntry(r.shortcuts, id)
    ensures Selects(r.shortcuts, m.shortcuts, (x: Entry) => x.id != id)
  {
    m.(shortcuts := Filter(m.shortcuts, (x: Entry) => x.id != id))
  }

  /** Unregistering a freshly registered id gives the manager back. */
  lemma RegisterThenUnregister(m: Manager, id: string, config: Config, handler: nat)
    requires !HasEntry(m.shortcuts, id)
    ensures Unregister(Register(m, id, config, handler), id) == m
  {
    var keep := (x: Entry) => x.id != id;
    FilterAppend(m.shortcuts, [Entry(id, config, handler)], keep);
    FilterKeepsAll(m.shortcuts, keep);
    assert Filter([Entry(id, config, handler)], keep) == [];
  }

  /** `setContext`: only entries of this category are considered from now on. */
  function SetContext(m: Manager, context: Context): (r: Manager)
    ensures r.context == context && r.shortcuts == m.shortcuts && r.enabled == m.enabled
  {
    m.(context := context)
  }

  function SetEnabled(m: Manager, enabled: bool): (r: Manager)
    ensures r.enabled == enabled && r.shortcuts == m.shortcuts && r.context == m.context
  {
    m.(enabled := enabled)
  }

  /** The key test of `matchesShortcut`: `space` stands for the space character; any other
      key compares case-insensitively. */
  predicate KeyMatches(ev: KeyEvent, c: Config) {
    var configKey := Text.LowerStr(c.key);
    if configKey == "space" then Text.LowerStr(ev.key) == " " else Text.LowerStr(ev.key) == configKey
  }

  /** `matchesShortcut`, check by check as written. */
  function Matches(isMac: bool, ev: KeyEvent, c: Config): (b: bool)
    ensures b <==>
      && KeyMatches(ev, c)
      && c.ctrl == (if isMac then ev.meta else ev.ctrl)
      && c.meta == (if isMac then ev.ctrl else ev.meta)
      && c.shift == ev.shift
      && c.alt == ev.alt
  {
    var eventKey := Text.LowerStr(ev.key);
    var configKey := Text.LowerStr(c.key);
    var hasCtrl := if isMac then ev.meta else ev.ctrl;
    var hasMeta := if isMac then ev.ctrl else ev.meta;
    if configKey == "space" && eventKey != " " then false
    else if configKey != "space" && eventKey != configKey then false
    else if c.ctrl && !hasCtrl then false
    else if !c.ctrl && hasCtrl then false
    else if c.meta && !hasMeta then false
    else if !c.meta && hasMeta then false
    else if c.shift && !ev.shift then false
    else if !c.shift && ev.shift then false
    else if c.alt && !ev.alt then false
    else if !c.alt && ev.alt then false
    else true
  }

  /** On a Mac the Command key plays the part Control plays elsewhere: a Mac event matches
      exactly when the same event with the two keys swapped matches on other platforms. */
  lemma MacSwapsCtrlAndMeta(ev: KeyEvent, c: Config)
    ensures Matches(true, ev, c) == Matches(false, ev.(ctrl := ev.meta, meta := ev.ctrl), c)
  {
  }

  /** Keys that still fire while typing: escape, enter, and ctrl with `f` or `n`. */
  predicate AllowInInput(c: Config) {
    var k := Text.LowerStr(c.key);
    k == "escape" || k == "enter" || (c.ctrl && (k == "f" || k == "n"))
  }

  predicate IsInputField(t: Target) {
    t.tagName == "INPUT" || t.tagName == "TEXTAREA" || t.contentEditable == "true"
  }

  /** An entry whose handler would run for this event: of the active context, matching, and
      allowed where the event is aimed. */
  predicate Eligible(m: Manager, isMac: bool, ev: KeyEvent, t: Target, e: Entry) {
    e.config.category == m.context && Matches(isMac, ev, e.config) && (!IsInputField(t) || AllowInInput(e.config))
  }

  /** `handleKeyDown`: nothing while disabled; otherwise the handler of the first eligible entry
      in registration order runs, alone, with the default action prevented unless its config
      says `preventDefault: false`. `fired` is that entry's position. */
  method HandleKeyDown(m: Manager, isMac: bool, ev: KeyEvent, t: Target) returns (fired: Option<nat>, prevented: bool)
    ensures !m.enabled ==> fired.None? && !prevented
    ensures m.enabled ==> (fired.None? <==> forall i :: 0 <= i < |m.shortcuts| ==> !Eligible(m, isMac, ev, t, m.shortcuts[i]))
    ensures fired.Some? ==> fired.value < |m.shortcuts| && Eligible(m, isMac, ev, t, m.shortcuts[fired.value])
    ensures fired.Some? ==> forall i :: 0 <= i < fired.value ==> !Eligible(m, isMac, ev, t, m.shortcuts[i])
    ensures prevented <==> fired.Some? && m.shortcuts[fired.value].config.preventDefault != Some(false)
  {
    if !m.enabled {
      return None, false;
    }
    var inInput := IsInputField(t);
    var i := 0;
    while i < |m.shortcuts|
      invariant 0 <= i <= |m.shortcuts|
      invariant forall j :: 0 <= j < i ==> !Eligible(m, isMac, ev, t, m.shortcuts[j])
    {
      var c := m.shortcuts[i].config;
      if c.category != m.context {
        i := i + 1;
        continue;
      }
      if Matches(isMac, ev, c) {
        var allow := AllowInInput(c);
        if inInput && !allow {
          i := i + 1;
          continue;
        }
        return Some(i), c.preventDefault != Some(false);
      }
      i := i + 1;
    }
    return None, false;
  }

  /** The key name `createKeyString` uses: lower case, with space and the arrows renamed. */
  function NormalKey(key: string): (k: string)
    ensures Text.LowerStr(key) !in {" ", "arrowup", "arrowdown", "arrowleft", "arrowright"} ==> k == Text.LowerStr(key)
    ensures Text.LowerStr(key) == " " ==> k == "space"
    ensures Text.LowerStr(key) == "arrowup" ==> k == "up"
    ensures Text.LowerStr(key) == "arrowdown" ==> k == "down"
    ensures Text.LowerStr(key) == "arrowleft" ==> k == "left"
    ensures Text.LowerStr(key) == "arrowright" ==> k == "right"
  {
    var k := Text.LowerStr(key);
    if k == " " then "space"
    else if k == "arrowup" then "up"
    else if k == "arrowdown" then "down"
    else if k == "arrowleft" then "left"
    else if k == "arrowright" then "right"
    else k
  }

  /** The modifier names of an event, in the order ctrl, meta, shift, alt. */
  function ModifierNames(ev: KeyEvent): seq<string> {
    (if ev.ctrl then ["ctrl"] else []) + (if ev.meta then ["meta"] else [])
    + (if ev.shift then ["shift"] else []) + (if ev.alt then ["alt"] else [])
  }

  /** Each modifier flag has its own name in the key string. */
  lemma ModifierNamesShowFlags(ev: KeyEvent)
    ensures var ns := ModifierNames(ev);
      && ("ctrl" in ns <==> ev.ctrl)
      && ("meta" in ns <==> ev.meta)
      && ("shift" in ns <==> ev.shift)
      && ("alt" in ns <==> ev.alt)
  {
  }

  lemma ModifierNamesPlusFree(ev: KeyEvent)
    ensures forall i :: 0 <= i < |ModifierNames(ev)| ==> '+' !in ModifierNames(ev)[i]
  {
  }

  /** `createKeyString`: the modifiers and the key joined with `+`. */
  function CreateKeyString(ev: KeyEvent): string {
    Text.Join(ModifierNames(ev) + [NormalKey(ev.key)], '+')
  }

  /** Splitting a key string at `+` gives back the modifiers and the key, as long as the key is
      not itself `+`-bearing. */
  lemma KeyStringParts(ev: KeyEvent)
    requires '+' !in NormalKey(ev.key)
    ensures Text.Split(CreateKeyString(ev), '+') == ModifierNames(ev) + [NormalKey(ev.key)]
  {
    var parts := ModifierNames(ev) + [NormalKey(ev.key)];
    ModifierNamesPlusFree(ev);
    assert forall i :: 0 <= i < |parts| ==> '+' !in parts[i] by {
      forall i | 0 <= i < |parts|
        ensures '+' !in parts[i]
      {
        if i < |ModifierNames(ev)| {
          assert parts[i] == ModifierNames(ev)[i];
        }
      }
    }
    Text.SplitJoin(parts, '+');
  }

  /** Two events with the same key string held the same modifiers and the same key name. */
  lemma KeyStringInjective(a: KeyEvent, b: KeyEvent)
    requires '+' !in NormalKey(a.key) && '+' !in NormalKey(b.key)
    requires CreateKeyString(a) == CreateKeyString(b)
    ensures a.ctrl == b.ctrl && a.meta == b.meta && a.shift == b.shift && a.alt == b.alt
    ensures NormalKey(a.key) == NormalKey(b.key)
  {
    KeyStringParts(a);
    KeyStringParts(b);
    ModifierNamesShowFlags(a);
    ModifierNamesShowFlags(b);
    var pa := ModifierNames(a) + [NormalKey(a.key)];
    var pb := ModifierNames(b) + [NormalKey(b.key)];
    assert pa == pb;
    assert ModifierNames(a) == pa[..|pa| - 1];
    assert ModifierNames(b) == pb[..|pb| - 1];
  }

  /** The key as `getShortcutDisplay` shows it before upper-casing. */
  function DisplayKey(isMac: bool, key: string): string {
    if key == "space" then "Space"
    else if key == "up" then "\U{2191}"
    else if key == "down" then "\U{2193}"
    else if key == "left" then "\U{2190}"
    else if key == "right" then "\U{2192}"
    else if key == "delete" then (if isMac then "Fn+Delete" else "Delete")
    else key
  }

  /** The modifier symbols: Ctrl (the Command sign on a Mac), Shift, Alt (the Option sign on a
      Mac), and Meta only off the Mac. */
  function DisplayModifiers(isMac: bool, c: Config): seq<string> {
    (if c.ctrl then [if isMac then "\U{2318}" else "Ctrl"] else [])
    + (if c.shift then ["\U{21E7}"] else [])
    + (if c.alt then [if isMac then "\U{2325}" else "Alt"] else [])
    + (if c.meta && !isMac then ["Meta"] else [])
  }

  /** Off the Mac each modifier flag has its own name in the display. */
  lemma DisplayModifiersShowFlags(c: Config)
    ensures var ps := DisplayModifiers(false, c);
      && ("Ctrl" in ps <==> c.ctrl)
      && ("\U{21E7}" in ps <==> c.shift)
      && ("Alt" in ps <==> c.alt)
      && ("Meta" in ps <==> c.meta)
  {
  }

  lemma DisplayModifiersPlusFree(isMac: bool, c: Config)
    ensures forall i :: 0 <= i < |DisplayModifiers(isMac, c)| ==> '+' !in DisplayModifiers(isMac, c)[i]
  {
  }

  /** `getShortcutDisplay`. */
  function GetShortcutDisplay(isMac: bool, c: Config): string {
    Text.Join(DisplayModifiers(isMac, c) + [Text.UpperStr(DisplayKey(isMac, c.key))], '+')
  }

  /** The Mac display never shows the meta flag: configs differing only there look alike. */
  lemma MacHidesMeta(c: Config)
    ensures GetShortcutDisplay(true, c) == GetShortcutDisplay(true, c.(meta := !c.meta))
  {
  }

  lemma UpperKeepsPlus(s: string)
    requires '+' !in s
    ensures '+' !in Text.UpperStr(s)
  {
    forall i | 0 <= i < |s|
      ensures Text.UpperStr(s)[i] != '+'
    {
    }
  }

  /** Off the Mac, with a `+`-free key other than delete, the display splits back into its
      modifier names and key. */
  lemma {:induction false} DisplaySplitsBack(c: Config)
    requires '+' !in c.key && c.key != "delete"
    ensures Text.Split(GetShortcutDisplay(false, c), '+')
         == DisplayModifiers(false, c) + [Text.UpperStr(DisplayKey(false, c.key))]
  {
    var key := Text.UpperStr(DisplayKey(false, c.key));
    assert '+' !in DisplayKey(false, c.key);
    UpperKeepsPlus(DisplayKey(false, c.key));
    DisplayModifiersPlusFree(false, c);
    var ps := DisplayModifiers(false, c) + [key];
    forall i | 0 <= i < |ps| ensures '+' !in ps[i] {
      if i < |ps| - 1 { assert ps[i] == DisplayModifiers(false, c)[i]; }
    }
    Text.SplitJoin(ps, '+');
  }

  /** Off the Mac the display shows every modifier flag: two configs for the same `+`-free key
      that display alike agree on ctrl, shift, alt and meta. */
  lemma DisplayShowsModifiers(a: Config, b: Config)
    requires a.key == b.key && '+' !in a.key && a.key != "delete"
    requires GetShortcutDisplay(false, a) == GetShortcutDisplay(false, b)
    ensures a.ctrl == b.ctrl && a.shift == b.shift && a.alt == b.alt && a.meta == b.meta
  {
    DisplaySplitsBack(a);
    DisplaySplitsBack(b);
    var pa := DisplayModifiers(false, a) + [Text.UpperStr(DisplayKey(false, a.key))];
    var pb := DisplayModifiers(false, b) + [Text.UpperStr(DisplayKey(false, b.key))];
    assert DisplayModifiers(false, a) == pa[..|pa| - 1];
    assert DisplayModifiers(false, b) == pb[..|pb| - 1];
    DisplayModifiersShowFlags(a);
    DisplayModifiersShowFlags(b);
  }
}
