/** The global combo-string shortcut manager (`shortcutManager.js`): combos such as
    `ctrl+shift+k` are normalised to a canonical string, every handler registered under a
    combo runs when a key event normalises to it, and the function returned by `register`
    removes the handler again. The event listener wiring is left out; `Handle` is what the
    listener calls. */
module Combos {
  import opened Common
  import Text

  /** The element a key event is aimed at (`None` when there is none). */
  datatype Element = Element(tagName: string, isContentEditable: bool)

  datatype KeyEvent = KeyEvent(key: string, ctrl: bool, meta: bool, alt: bool, shift: bool, target: Option<Element>)

  /** `normalizeCombo` throws when a combo names no key (`key[0]` is undefined). */
  datatype ComboError = KeyMissing(combo: string)

  /** The modifier words of both normal forms, always in the order Ctrl, Meta, Alt, Shift. */
  function ModifierWords(ctrl: bool, meta: bool, alt: bool, shift: bool): seq<string> {
    (if ctrl then ["Ctrl"] else []) + (if meta then ["Meta"] else [])
    + (if alt then ["Alt"] else []) + (if shift then ["Shift"] else [])
  }

  /** The same words as a user writes them in a combo. */
  function LowerWords(ctrl: bool, meta: bool, alt: bool, shift: bool): (ws: seq<string>)
    ensures "ctrl" in ws <==> ctrl
    ensures "meta" in ws <==> meta
    ensures "alt" in ws <==> alt
    ensures "shift" in ws <==> shift
  {
    (if ctrl then ["ctrl"] else []) + (if meta then ["meta"] else [])
    + (if alt then ["alt"] else []) + (if shift then ["shift"] else [])
  }

  lemma ModifierWordsPlusFree(ctrl: bool, meta: bool, alt: bool, shift: bool)
    ensures forall i :: 0 <= i < |ModifierWords(ctrl, meta, alt, shift)| ==> '+' !in ModifierWords(ctrl, meta, alt, shift)[i]
    ensures forall i :: 0 <= i < |LowerWords(ctrl, meta, alt, shift)| ==> '+' !in LowerWords(ctrl, meta, alt, shift)[i]
  {
  }

  /** The key part of `normalizeEvent`: a one-character key is upper-cased, a named key is kept
      exactly as the browser spells it. */
  function EventKeyAsWritten(key: string): string {
    if |key| == 1 then Text.UpperStr(key) else key
  }

  /** `normalizeEvent`, as written. */
  function NormalizeEvent(e: KeyEvent): string {
    Text.Join(ModifierWords(e.ctrl, e.meta, e.alt, e.shift) + [EventKeyAsWritten(e.key)], '+')
  }

  /** The key part of `normalizeCombo`: one character upper-cased, otherwise the first
      character upper-cased and the rest left as it is. */
  function Capitalize(key: string): string
    requires |key| > 0
  {
    if |key| == 1 then Text.UpperStr(key) else [Text.Upper(key[0])] + key[1..]
  }

  /** One `+`-separated piece of a combo, trimmed and lower-cased. */
  function Piece(p: string): string {
    Text.LowerStr(Text.Trim(p))
  }

  function Clean(parts: seq<string>): (r: seq<string>)
    ensures |r| == |parts|
    ensures forall i :: 0 <= i < |parts| ==> r[i] == Piece(parts[i])
  {
    seq(|parts|, i requires 0 <= i < |parts| => Piece(parts[i]))
  }

  /** `normalizeCombo` once the pieces are known: the last piece is the key, the modifiers are
      whichever of ctrl, meta, alt and shift occur among the other pieces; unknown pieces are
      dropped. */
  function FromPieces(combo: string, pieces: seq<string>): Result<string, ComboError>
    requires |pieces| >= 1
  {
    var key := pieces[|pieces| - 1];
    var mods := pieces[..|pieces| - 1];
    if key == "" then Err(KeyMissing(combo))
    else Ok(Text.Join(ModifierWords("ctrl" in mods, "meta" in mods, "alt" in mods, "shift" in mods) + [Capitalize(key)], '+'))
  }

  /** `normalizeCombo` on one combo. */
  function NormalizeCombo(combo: string): (r: Result<string, ComboError>)
    ensures r.Err? ==> r.error == KeyMissing(combo)
    ensures var parts := Text.Split(combo, '+'); r.Err? <==> Piece(parts[|parts| - 1]) == ""
  {
    FromPieces(combo, Clean(Text.Split(combo, '+')))
  }

  /** The key is missing exactly when the text after the last `+` is blank: normalisation
      fails for those combos and for no others. */
  lemma MissingKeyExactly(combo: string)
    ensures var parts := Text.Split(combo, '+');
      NormalizeCombo(combo).Err? <==> Text.AllSpace(parts[|parts| - 1])
  {
    var parts := Text.Split(combo, '+');
    BlankPiece(parts[|parts| - 1]);
  }

  /** A piece is empty exactly when its text is all whitespace. */
  lemma BlankPiece(w: string)
    ensures Piece(w) == "" <==> Text.AllSpace(w)
  {
    Text.TrimInfix(w);
    if Text.AllSpace(w) {
      Text.TrimStartAllSpace(w);
    }
    if Text.Trim(w) == "" {
      var i :| Text.OccursAt(w, Text.Trim(w), i) && Text.AllSpace(w[..i]) && Text.AllSpace(w[i..]);
      assert w == w[..i] + w[i..];
    }
  }

  /** `normalizeCombo` on an array: every combo normalised, or the first failure thrown. */
  function NormalizeAll(combos: seq<string>): Result<seq<string>, ComboError> {
    MapAll(combos, NormalizeCombo)
  }

  /** Both ways a combo can lack a key throw: the empty combo and a trailing `+`. */
  lemma MissingKeyThrows(combo: string)
    ensures NormalizeCombo("").Err?
    ensures NormalizeCombo(combo + "+").Err?
  {
    Text.SplitTrailing(combo, '+');
    var parts := Text.Split(combo + "+", '+');
    assert parts[|parts| - 1] == "";
    Text.TrimTrimmed("");
    assert Piece("") == "";
  }

  /** A piece with no whitespace at its ends is only lower-cased. */
  lemma PieceOfTrimmed(w: string)
    requires |w| > 0 ==> !Text.IsSpace(w[0]) && !Text.IsSpace(w[|w| - 1])
    ensures Piece(w) == Text.LowerStr(w)
  {
    Text.TrimTrimmed(w);
  }

  /** A cleaned piece is its own lower case, `+`-free when the piece was, and has no
      whitespace at its ends. */
  lemma CleanPiece(p: string)
    ensures var k := Piece(p);
      && Text.LowerStr(k) == k
      && ('+' !in p ==> '+' !in k)
      && (|k| > 0 ==> !Text.IsSpace(k[0]) && !Text.IsSpace(k[|k| - 1]))
  {
    var t := Text.Trim(p);
    var k := Text.LowerStr(t);
    Text.TrimInfix(p);
    forall i | 0 <= i < |k| ensures Text.LowerStr(k)[i] == k[i] {
      Text.CaseRoundTrip(t[i]);
    }
    var s :| Text.OccursAt(p, t, s);
    if '+' !in p {
      forall i | 0 <= i < |k| ensures k[i] != '+' {
        assert t[i] == p[s + i];
      }
    }
    if |k| > 0 {
      Text.CaseRoundTrip(t[0]);
      Text.CaseRoundTrip(t[|t| - 1]);
    }
  }

  /** A cleaned key survives a second round of capitalising and cleaning. */
  lemma CapitalizeClean(k: string)
    requires |k| > 0 && LowerWord(k)
    ensures PlainKey(Capitalize(k))
    ensures Text.LowerStr(Capitalize(k)) == k
  {
    var c := Capitalize(k);
    assert |c| == |k|;
    Text.CaseRoundTrip(k[0]);
    assert c[0] == Text.Upper(k[0]);
    assert forall i :: 1 <= i < |k| ==> c[i] == k[i];
    assert c[|c| - 1] == k[|k| - 1] || |k| == 1;
    forall i | 0 <= i < |k| ensures Text.LowerStr(c)[i] == k[i] {
      assert Text.LowerStr(k)[i] == Text.Lower(k[i]);
    }
  }

  lemma CleanAppend(a: seq<string>, b: seq<string>)
    ensures Clean(a + b) == Clean(a) + Clean(b)
  {
  }

  lemma CleanWord(b: bool, w: string, lw: string)
    requires Piece(w) == lw
    ensures Clean(if b then [w] else []) == if b then [lw] else []
  {
  }

  lemma WordPiece(w: string, lw: string)
    requires |w| > 0 && !Text.IsSpace(w[0]) && !Text.IsSpace(w[|w| - 1])
    requires Text.LowerStr(w) == lw
    ensures Piece(w) == lw
  {
    PieceOfTrimmed(w);
  }

  lemma CtrlPiece()
    ensures Piece("Ctrl") == "ctrl"
  {
    assert Text.LowerStr("Ctrl") == "ctrl";
    WordPiece("Ctrl", "ctrl");
  }

  lemma CtrlLowerPiece()
    ensures Piece("ctrl") == "ctrl"
  {
    assert Text.LowerStr("ctrl") == "ctrl";
    WordPiece("ctrl", "ctrl");
  }

  lemma MetaPiece()
    ensures Piece("Meta") == "meta"
  {
    assert Text.LowerStr("Meta") == "meta";
    WordPiece("Meta", "meta");
  }

  lemma MetaLowerPiece()
    ensures Piece("meta") == "meta"
  {
    assert Text.LowerStr("meta") == "meta";
    WordPiece("meta", "meta");
  }

  lemma AltPiece()
    ensures Piece("Alt") == "alt"
  {
    assert Text.LowerStr("Alt") == "alt";
    WordPiece("Alt", "alt");
  }

  lemma AltLowerPiece()
    ensures Piece("alt") == "alt"
  {
    assert Text.LowerStr("alt") == "alt";
    WordPiece("alt", "alt");
  }

  lemma ShiftPiece()
    ensures Piece("Shift") == "shift"
  {
    assert Text.LowerStr("Shift") == "shift";
    WordPiece("Shift", "shift");
  }

  lemma ShiftLowerPiece()
    ensures Piece("shift") == "shift"
  {
    assert Text.LowerStr("shift") == "shift";
    WordPiece("shift", "shift");
  }

  lemma CleanFour(a: seq<string>, b: seq<string>, c: seq<string>, d: seq<string>)
    ensures Clean(a + b + c + d) == Clean(a) + Clean(b) + Clean(c) + Clean(d)
  {
    CleanAppend(a, b);
    CleanAppend(a + b, c);
    CleanAppend(a + b + c, d);
  }

  /** The modifier words clean to the lower-case words. */
  lemma WordsClean(ctrl: bool, meta: bool, alt: bool, shift: bool)
    ensures Clean(ModifierWords(ctrl, meta, alt, shift)) == LowerWords(ctrl, meta, alt, shift)
  {
    CtrlPiece();
    MetaPiece();
    AltPiece();
    ShiftPiece();
    CleanWord(ctrl, "Ctrl", "ctrl");
    CleanWord(meta, "Meta", "meta");
    CleanWord(alt, "Alt", "alt");
    CleanWord(shift, "Shift", "shift");
    CleanFour(if ctrl then ["Ctrl"] else [], if meta then ["Meta"] else [],
              if alt then ["Alt"] else [], if shift then ["Shift"] else []);
  }

  /** The lower-case words clean to themselves. */
  lemma LowerWordsClean(ctrl: bool, meta: bool, alt: bool, shift: bool)
    ensures Clean(LowerWords(ctrl, meta, alt, shift)) == LowerWords(ctrl, meta, alt, shift)
  {
    CtrlLowerPiece();
    MetaLowerPiece();
    AltLowerPiece();
    ShiftLowerPiece();
    CleanWord(ctrl, "ctrl", "ctrl");
    CleanWord(meta, "meta", "meta");
    CleanWord(alt, "alt", "alt");
    CleanWord(shift, "shift", "shift");
    CleanFour(if ctrl then ["ctrl"] else [], if meta then ["meta"] else [],
              if alt then ["alt"] else [], if shift then ["shift"] else []);
  }

  /** A key a combo can name: non-empty, no `+`, no whitespace at its ends. */
  predicate PlainKey(key: string) {
    |key| > 0 && '+' !in key && !Text.IsSpace(key[0]) && !Text.IsSpace(key[|key| - 1])
  }

  lemma PlusFreeParts(ws: seq<string>, k: string)
    requires forall i :: 0 <= i < |ws| ==> '+' !in ws[i]
    requires '+' !in k
    ensures forall i :: 0 <= i < |ws + [k]| ==> '+' !in (ws + [k])[i]
  {
  }

  lemma SplitJoined(ws: seq<string>, k: string)
    requires forall i :: 0 <= i < |ws| ==> '+' !in ws[i]
    requires '+' !in k
    ensures Text.Split(Text.Join(ws + [k], '+'), '+') == ws + [k]
  {
    PlusFreeParts(ws, k);
    Text.SplitJoin(ws + [k], '+');
  }

  lemma CleanJoined(ws: seq<string>, k: string, ctrl: bool, meta: bool, alt: bool, shift: bool)
    requires Clean(ws) == LowerWords(ctrl, meta, alt, shift)
    requires PlainKey(k)
    ensures Clean(ws + [k]) == LowerWords(ctrl, meta, alt, shift) + [Text.LowerStr(k)]
  {
    CleanAppend(ws, [k]);
    PieceOfTrimmed(k);
  }

  lemma FromModifierPieces(combo: string, lk: string, ctrl: bool, meta: bool, alt: bool, shift: bool)
    requires |lk| > 0
    ensures FromPieces(combo, LowerWords(ctrl, meta, alt, shift) + [lk])
         == Ok(Text.Join(ModifierWords(ctrl, meta, alt, shift) + [Capitalize(lk)], '+'))
  {
    var pieces := LowerWords(ctrl, meta, alt, shift) + [lk];
    assert pieces[..|pieces| - 1] == LowerWords(ctrl, meta, alt, shift);
  }

  /** The normal form of any combo written as modifier words followed by a key: the words
      contribute exactly the modifiers they name, the key is lower-cased and capitalised. */
  lemma NormalizeJoined(ws: seq<string>, k: string, ctrl: bool, meta: bool, alt: bool, shift: bool)
    requires Clean(ws) == LowerWords(ctrl, meta, alt, shift)
    requires forall i :: 0 <= i < |ws| ==> '+' !in ws[i]
    requires PlainKey(k)
    ensures NormalizeCombo(Text.Join(ws + [k], '+'))
         == Ok(Text.Join(ModifierWords(ctrl, meta, alt, shift) + [Capitalize(Text.LowerStr(k))], '+'))
  {
    var combo := Text.Join(ws + [k], '+');
    SplitJoined(ws, k);
    CleanJoined(ws, k, ctrl, meta, alt, shift);
    FromModifierPieces(combo, Text.LowerStr(k), ctrl, meta, alt, shift);
  }

  lemma FromPiecesShape(combo: string, pieces: seq<string>)
    requires |pieces| >= 1 && FromPieces(combo, pieces).Ok?
    ensures var key := pieces[|pieces| - 1];
      var mods := pieces[..|pieces| - 1];
      && key != ""
      && FromPieces(combo, pieces).value
         == Text.Join(ModifierWords("ctrl" in mods, "meta" in mods, "alt" in mods, "shift" in mods) + [Capitalize(key)], '+')
  {
  }

  /** A word as cleaning leaves it: its own lower case, no `+`, no whitespace at its ends. */
  predicate LowerWord(w: string) {
    Text.LowerStr(w) == w && '+' !in w && (|w| > 0 ==> !Text.IsSpace(w[0]) && !Text.IsSpace(w[|w| - 1]))
  }

  /** The last cleaned piece of `+`-free parts is such a word. */
  lemma LastPieceClean(split: seq<string>)
    requires |split| >= 1
    requires forall i :: 0 <= i < |split| ==> '+' !in split[i]
    ensures LowerWord(Clean(split)[|split| - 1])
  {
    var pieces := Clean(split);
    var last := split[|split| - 1];
    assert pieces[|pieces| - 1] == Piece(last);
    CleanPiece(last);
  }

  /** What a successful normalisation looks like: the modifier words it found, then the
      capitalised key piece, which is a non-empty cleaned word. */
  lemma NormalizeComboShape(combo: string)
    requires NormalizeCombo(combo).Ok?
    ensures var pieces := Clean(Text.Split(combo, '+'));
      var key := pieces[|pieces| - 1];
      var mods := pieces[..|pieces| - 1];
      && |key| > 0 && LowerWord(key)
      && NormalizeCombo(combo).value
         == Text.Join(ModifierWords("ctrl" in mods, "meta" in mods, "alt" in mods, "shift" in mods) + [Capitalize(key)], '+')
  {
    var split := Text.Split(combo, '+');
    FromPiecesShape(combo, Clean(split));
    LastPieceClean(split);
  }

  /** `normalizeCombo` is idempotent: a normal form normalises to itself. */
  lemma NormalizeComboIdempotent(combo: string)
    requires NormalizeCombo(combo).Ok?
    ensures NormalizeCombo(NormalizeCombo(combo).value) == NormalizeCombo(combo)
  {
    NormalizeComboShape(combo);
    var pieces := Clean(Text.Split(combo, '+'));
    var key := pieces[|pieces| - 1];
    var mods := pieces[..|pieces| - 1];
    var c, m, a, s := "ctrl" in mods, "meta" in mods, "alt" in mods, "shift" in mods;
    CapitalizeClean(key);
    ModifierWordsPlusFree(c, m, a, s);
    WordsClean(c, m, a, s);
    NormalizeJoined(ModifierWords(c, m, a, s), Capitalize(key), c, m, a, s);
  }

  /** A combo written as `+`-free parts normalises through exactly those parts, cleaned. */
  lemma JoinedPieces(ws: seq<string>, key: string)
    requires forall i :: 0 <= i < |ws| ==> '+' !in ws[i]
    requires '+' !in key
    ensures NormalizeCombo(Text.Join(ws + [key], '+'))
         == FromPieces(Text.Join(ws + [key], '+'), Clean(ws) + [Piece(key)])
  {
    SplitJoined(ws, key);
    CleanAppend(ws, [key]);
  }

  lemma FromPiecesSameMembers(c1: string, c2: string, m1: seq<string>, m2: seq<string>, key: string)
    requires forall x :: x in m1 <==> x in m2
    ensures FromPieces(c1, m1 + [key]).Ok? == FromPieces(c2, m2 + [key]).Ok?
    ensures FromPieces(c1, m1 + [key]).Ok? ==> FromPieces(c1, m1 + [key]).value == FromPieces(c2, m2 + [key]).value
  {
    assert (m1 + [key])[..|m1|] == m1;
    assert (m2 + [key])[..|m2|] == m2;
  }

  /** The order in which a combo lists its modifiers does not matter: rearranging the
      modifier parts changes neither whether the combo normalises nor its normal form. */
  lemma ModifierOrderIrrelevant(ws1: seq<string>, ws2: seq<string>, key: string)
    requires multiset(ws1) == multiset(ws2)
    requires forall i :: 0 <= i < |ws1| ==> '+' !in ws1[i]
    requires '+' !in key
    ensures NormalizeCombo(Text.Join(ws1 + [key], '+')).Ok? == NormalizeCombo(Text.Join(ws2 + [key], '+')).Ok?
    ensures NormalizeCombo(Text.Join(ws1 + [key], '+')).Ok? ==>
      NormalizeCombo(Text.Join(ws1 + [key], '+')).value == NormalizeCombo(Text.Join(ws2 + [key], '+')).value
  {
    assert forall i :: 0 <= i < |ws2| ==> '+' !in ws2[i] by {
      forall i | 0 <= i < |ws2| ensures '+' !in ws2[i] {
        assert ws2[i] in multiset(ws1);
      }
    }
    JoinedPieces(ws1, key);
    JoinedPieces(ws2, key);
    SameMembersClean(ws1, ws2);
    SameMembersClean(ws2, ws1);
    FromPiecesSameMembers(Text.Join(ws1 + [key], '+'), Text.Join(ws2 + [key], '+'), Clean(ws1), Clean(ws2), Piece(key));
  }

  lemma SameMembersClean(ws1: seq<string>, ws2: seq<string>)
    requires multiset(ws1) == multiset(ws2)
    ensures forall x :: x in Clean(ws1) ==> x in Clean(ws2)
  {
    forall x | x in Clean(ws1) ensures x in Clean(ws2) {
      var i :| 0 <= i < |ws1| && Clean(ws1)[i] == x;
      assert ws1[i] in multiset(ws2);
      var j :| 0 <= j < |ws2| && ws2[j] == ws1[i];
      assert Clean(ws2)[j] == x;
    }
  }

  /** A combo written as lower-case modifier words and a key normalises to the capitalised
      modifier words and the capitalised key. */
  lemma NormalizeLowerWords(ctrl: bool, meta: bool, alt: bool, shift: bool, k: string)
    requires PlainKey(k)
    ensures NormalizeCombo(Text.Join(LowerWords(ctrl, meta, alt, shift) + [k], '+'))
         == Ok(Text.Join(ModifierWords(ctrl, meta, alt, shift) + [Capitalize(Text.LowerStr(k))], '+'))
  {
    LowerWordsClean(ctrl, meta, alt, shift);
    ModifierWordsPlusFree(ctrl, meta, alt, shift);
    NormalizeJoined(LowerWords(ctrl, meta, alt, shift), k, ctrl, meta, alt, shift);
  }

  /** The same for a combo already written with capitalised modifier words. */
  lemma NormalizeModifierWords(ctrl: bool, meta: bool, alt: bool, shift: bool, k: string)
    requires PlainKey(k)
    ensures NormalizeCombo(Text.Join(ModifierWords(ctrl, meta, alt, shift) + [k], '+'))
         == Ok(Text.Join(ModifierWords(ctrl, meta, alt, shift) + [Capitalize(Text.LowerStr(k))], '+'))
  {
    WordsClean(ctrl, meta, alt, shift);
    ModifierWordsPlusFree(ctrl, meta, alt, shift);
    NormalizeJoined(ModifierWords(ctrl, meta, alt, shift), k, ctrl, meta, alt, shift);
  }

  lemma JoinTwo(a: string, b: string, r: string)
    requires r == a + "+" + b
    ensures Text.Join([a, b], '+') == r
  {
  }

  lemma JoinThree(a: string, b: string, c: string, r: string)
    requires r == a + "+" + b + "+" + c
    ensures Text.Join([a, b, c], '+') == r
  {
    assert [a, b, c][1..] == [b, c];
    JoinTwo(b, c, b + "+" + c);
  }

  /** A lower-case letter key normalises to its capital. */
  lemma CapitalLetter(k: string, c: string)
    requires |k| == 1 && ('a' <= k[0] <= 'z' || 'A' <= k[0] <= 'Z')
    requires c == [Text.Upper(Text.Lower(k[0]))]
    ensures Capitalize(Text.LowerStr(k)) == c
  {
  }

  lemma CtrlNWritten()
    ensures Text.Join(LowerWords(true, false, false, false) + ["n"], '+') == "ctrl+n"
  {
    assert LowerWords(true, false, false, false) + ["n"] == ["ctrl", "n"];
    JoinTwo("ctrl", "n", "ctrl+n");
  }

  lemma CtrlNNormal()
    ensures Text.Join(ModifierWords(true, false, false, false) + [Capitalize(Text.LowerStr("n"))], '+') == "Ctrl+N"
  {
    CapitalLetter("n", "N");
    assert ModifierWords(true, false, false, false) + ["N"] == ["Ctrl", "N"];
    JoinTwo("Ctrl", "N", "Ctrl+N");
  }

  lemma MetaShiftFWritten()
    ensures Text.Join(LowerWords(false, true, false, true) + ["f"], '+') == "meta+shift+f"
  {
    assert LowerWords(false, true, false, true) + ["f"] == ["meta", "shift", "f"];
    JoinThree("meta", "shift", "f", "meta+shift+f");
  }

  lemma MetaShiftFNormal()
    ensures Text.Join(ModifierWords(false, true, false, true) + [Capitalize(Text.LowerStr("f"))], '+') == "Meta+Shift+F"
  {
    CapitalLetter("f", "F");
    assert ModifierWords(false, true, false, true) + ["F"] == ["Meta", "Shift", "F"];
    JoinThree("Meta", "Shift", "F", "Meta+Shift+F");
  }

  /** The test cases of `normalizeCombo`. */
  lemma NormalizeComboExamples()
    ensures NormalizeCombo("ctrl+n") == Ok("Ctrl+N")
    ensures NormalizeCombo("meta+shift+f") == Ok("Meta+Shift+F")
  {
    CtrlNWritten();
    CtrlNNormal();
    NormalizeLowerWords(true, false, false, false, "n");
    MetaShiftFWritten();
    MetaShiftFNormal();
    NormalizeLowerWords(false, true, false, true, "f");
  }

  /** The test cases of `normalizeEvent`. */
  lemma NormalizeEventExamples()
    ensures NormalizeEvent(KeyEvent("n", true, false, false, false, None)) == "Ctrl+N"
    ensures NormalizeEvent(KeyEvent("ArrowUp", false, true, false, false, None)) == "Meta+ArrowUp"
  {
    assert EventKeyAsWritten("n") == "N";
    assert ModifierWords(true, false, false, false) == ["Ctrl"];
    assert Text.Join(["Ctrl"] + ["N"], '+') == "Ctrl+N";
    assert EventKeyAsWritten("ArrowUp") == "ArrowUp";
    assert ModifierWords(false, true, false, false) == ["Meta"];
    assert Text.Join(["Meta"] + ["ArrowUp"], '+') == "Meta+ArrowUp";
  }

  /** The key an event ought to be looked up under: spelled the way `normalizeCombo` spells
      keys, so that a combo naming the key in any letter case reaches it. */
  function CanonicalKey(key: string): string {
    if key == "" then "" else Capitalize(Text.LowerStr(key))
  }

  /** The corrected event normal form, used by `Handle`. */
  function NormalizeEventFixed(e: KeyEvent): string {
    Text.Join(ModifierWords(e.ctrl, e.meta, e.alt, e.shift) + [CanonicalKey(e.key)], '+')
  }

  /** The combo a user would write for an event: its modifiers, then its key. */
  function ComboText(e: KeyEvent): string {
    Text.Join(ModifierWords(e.ctrl, e.meta, e.alt, e.shift) + [e.key], '+')
  }

  /** The combo written for an event normalises to the event's corrected normal form, for every
      key a combo can name. */
  lemma ComboTextAgrees(e: KeyEvent)
    requires PlainKey(e.key)
    ensures NormalizeCombo(ComboText(e)) == Ok(NormalizeEventFixed(e))
  {
    ModifierWordsPlusFree(e.ctrl, e.meta, e.alt, e.shift);
    WordsClean(e.ctrl, e.meta, e.alt, e.shift);
    NormalizeJoined(ModifierWords(e.ctrl, e.meta, e.alt, e.shift), e.key, e.ctrl, e.meta, e.alt, e.shift);
  }

  /** No case mapping creates a `+`. */
  lemma CanonicalKeyPlusFree(key: string)
    requires '+' !in key
    ensures '+' !in CanonicalKey(key)
  {
    if key != "" {
      var l := Text.LowerStr(key);
      assert forall i :: 0 <= i < |l| ==> l[i] == Text.Lower(key[i]);
      assert '+' !in l;
      assert Text.Upper(l[0]) != '+';
    }
  }

  /** As written, the event and combo normal forms agree exactly for one-character keys and for
      keys already spelled with one leading capital; `ArrowUp`, `PageDown` and the like differ. */
  lemma AsWrittenAgreesExactly(e: KeyEvent)
    requires '+' !in e.key
    ensures NormalizeEvent(e) == NormalizeEventFixed(e) <==> |e.key| <= 1 || e.key == CanonicalKey(e.key)
  {
    var k := e.key;
    if |k| == 1 {
      Text.CaseRoundTrip(k[0]);
      assert EventKeyAsWritten(k) == CanonicalKey(k);
    } else if |k| >= 2 && k != CanonicalKey(k) {
      var ms := ModifierWords(e.ctrl, e.meta, e.alt, e.shift);
      ModifierWordsPlusFree(e.ctrl, e.meta, e.alt, e.shift);
      CanonicalKeyPlusFree(k);
      PlusFreeParts(ms, k);
      PlusFreeParts(ms, CanonicalKey(k));
      Text.SplitJoin(ms + [k], '+');
      Text.SplitJoin(ms + [CanonicalKey(k)], '+');
      assert (ms + [k])[|ms|] != (ms + [CanonicalKey(k)])[|ms|];
    }
  }

  /** `isTypingTarget`. */
  predicate IsTypingTarget(t: Option<Element>) {
    t.Some? && (t.value.tagName == "INPUT" || t.value.tagName == "TEXTAREA" || t.value.tagName == "SELECT" || t.value.isContentEditable)
  }

  /** A registered handler: a fresh identity per `register` call, the callback token and its
      `allowInInput` option. */
  datatype Handler = Handler(id: nat, fn: nat, allowInInput: bool)

  /** The combo map, each combo holding its handler set in insertion order, and the next
      handler identity. */
  datatype Registry = Registry(handlers: map<string, seq<Handler>>, next: nat)

  const NoShortcuts := Registry(map[], 0)

  /** What a `register` call produced: the registry afterwards, the normalised combos and the
      handler, which together are what the returned remover closes over. */
  datatype Registration = Registration(registry: Registry, combos: seq<string>, handler: Handler)

  function Lookup(m: map<string, seq<Handler>>, c: string): Option<seq<Handler>> {
    if c in m then Some(m[c]) else None
  }

  /** `Set.add`: a handler already present is not added twice. */
  function Added(x: Option<seq<Handler>>, h: Handler): seq<Handler> {
    match x
    case None => [h]
    case Some(hs) => if h in hs then hs else hs + [h]
  }

  function NotHandler(h: Handler): Handler -> bool {
    (g: Handler) => g != h
  }

  /** `Set.delete`, with the combo dropped once its set is empty. */
  function Removed(x: Option<seq<Handler>>, h: Handler): Option<seq<Handler>> {
    match x
    case None => None
    case Some(hs) =>
      var rest := Filter(hs, NotHandler(h));
      if rest == [] then None else Some(rest)
  }

  function AddTo(m: map<string, seq<Handler>>, c: string, h: Handler): map<string, seq<Handler>> {
    m[c := Added(Lookup(m, c), h)]
  }

  function RemoveFrom(m: map<string, seq<Handler>>, c: string, h: Handler): map<string, seq<Handler>> {
    match Removed(Lookup(m, c), h)
    case None => m - {c}
    case Some(rest) => m[c := rest]
  }

  function AddAll(m: map<string, seq<Handler>>, cs: seq<string>, h: Handler): map<string, seq<Handler>>
    decreases |cs|
  {
    if cs == [] then m else AddAll(AddTo(m, cs[0], h), cs[1..], h)
  }

  function RemoveAll(m: map<string, seq<Handler>>, cs: seq<string>, h: Handler): map<string, seq<Handler>>
    decreases |cs|
  {
    if cs == [] then m else RemoveAll(RemoveFrom(m, cs[0], h), cs[1..], h)
  }

  lemma AddedTwice(x: Option<seq<Handler>>, h: Handler)
    ensures Added(Some(Added(x, h)), h) == Added(x, h)
  {
  }

  lemma RemovedTwice(x: Option<seq<Handler>>, h: Handler)
    ensures Removed(Removed(x, h), h) == Removed(x, h)
  {
    if x.Some? {
      FilterIdempotent(x.value, NotHandler(h));
    }
  }

  /** Adding a handler to every combo of a list: those combos gain it once, the rest are
      untouched. */
  lemma {:induction false} AddAllLookup(m: map<string, seq<Handler>>, cs: seq<string>, h: Handler, d: string)
    ensures Lookup(AddAll(m, cs, h), d) == if d in cs then Some(Added(Lookup(m, d), h)) else Lookup(m, d)
    decreases |cs|
  {
    if cs != [] {
      AddAllLookup(AddTo(m, cs[0], h), cs[1..], h, d);
      AddedTwice(Lookup(m, d), h);
      assert d in cs <==> d == cs[0] || d in cs[1..];
    }
  }

  /** Removing a handler from every combo of a list: those combos lose it, the rest are
      untouched. */
  lemma {:induction false} RemoveAllLookup(m: map<string, seq<Handler>>, cs: seq<string>, h: Handler, d: string)
    ensures Lookup(RemoveAll(m, cs, h), d) == if d in cs then Removed(Lookup(m, d), h) else Lookup(m, d)
    decreases |cs|
  {
    if cs != [] {
      RemoveAllLookup(RemoveFrom(m, cs[0], h), cs[1..], h, d);
      RemovedTwice(Lookup(m, d), h);
      assert d in cs <==> d == cs[0] || d in cs[1..];
    }
  }

  /** Every handler set is non-empty and holds only identities already handed out. */
  ghost predicate Wf(r: Registry) {
    forall c :: c in r.handlers ==> |r.handlers[c]| > 0 && forall g :: g in r.handlers[c] ==> g.id < r.next
  }

  /** `register`: normalise every combo (any failure throws before anything changes), then add
      one new handler to the set of each combo. */
  function Register(r: Registry, combos: seq<string>, fn: nat, allowInInput: bool): (res: Result<Registration, ComboError>)
    ensures res.Ok? <==> NormalizeAll(combos).Ok?
    ensures res.Err? ==> res.error == NormalizeAll(combos).error
    ensures res.Ok? ==>
      && res.value.combos == NormalizeAll(combos).value
      && res.value.handler == Handler(r.next, fn, allowInInput)
      && res.value.registry.next == r.next + 1
  {
    match NormalizeAll(combos)
    case Err(e) => Err(e)
    case Ok(cs) =>
      var h := Handler(r.next, fn, allowInInput);
      Ok(Registration(Registry(AddAll(r.handlers, cs, h), r.next + 1), cs, h))
  }

  /** The function `register` returns: remove the handler from each of its combos. */
  function Off(r: Registry, reg: Registration): Registry {
    r.(handlers := RemoveAll(r.handlers, reg.combos, reg.handler))
  }

  /** After registering, each normalised combo holds the new handler last, and no other combo
      changes. */
  lemma RegisterAddsHandler(r: Registry, combos: seq<string>, fn: nat, allowInInput: bool, d: string)
    requires Wf(r) && Register(r, combos, fn, allowInInput).Ok?
    ensures var reg := Register(r, combos, fn, allowInInput).value;
      && (d in reg.combos ==> Lookup(reg.registry.handlers, d) == Some(Added(Lookup(r.handlers, d), reg.handler)))
      && (d in reg.combos ==> reg.handler in reg.registry.handlers[d])
      && (d !in reg.combos ==> Lookup(reg.registry.handlers, d) == Lookup(r.handlers, d))
  {
    var reg := Register(r, combos, fn, allowInInput).value;
    AddAllLookup(r.handlers, reg.combos, reg.handler, d);
  }

  lemma RegisterKeepsWf(r: Registry, combos: seq<string>, fn: nat, allowInInput: bool)
    requires Wf(r) && Register(r, combos, fn, allowInInput).Ok?
    ensures Wf(Register(r, combos, fn, allowInInput).value.registry)
  {
    var reg := Register(r, combos, fn, allowInInput).value;
    forall c | c in reg.registry.handlers
      ensures |reg.registry.handlers[c]| > 0
      ensures forall g :: g in reg.registry.handlers[c] ==> g.id < reg.registry.next
    {
      AddAllLookup(r.handlers, reg.combos, reg.handler, c);
    }
  }

  /** A fresh handler added to a set and then deleted leaves the set as it was. */
  lemma RemovedAdded(x: Option<seq<Handler>>, h: Handler)
    requires x.Some? ==> |x.value| > 0 && h !in x.value
    ensures Removed(Some(Added(x, h)), h) == x
  {
    assert !NotHandler(h)(h);
    assert Filter([h], NotHandler(h)) == [];
    if x.Some? {
      assert forall i :: 0 <= i < |x.value| ==> NotHandler(h)(x.value[i]);
      FilterAppend(x.value, [h], NotHandler(h));
      FilterKeepsAll(x.value, NotHandler(h));
      assert Added(x, h) == x.value + [h];
      assert Filter(x.value + [h], NotHandler(h)) == x.value;
    }
  }

  /** Calling the remover right after `register` restores the combo map exactly. */
  lemma OffUndoesRegister(r: Registry, combos: seq<string>, fn: nat, allowInInput: bool)
    requires Wf(r) && Register(r, combos, fn, allowInInput).Ok?
    ensures var reg := Register(r, combos, fn, allowInInput).value;
      Off(reg.registry, reg).handlers == r.handlers
  {
    var reg := Register(r, combos, fn, allowInInput).value;
    var after := Off(reg.registry, reg).handlers;
    forall d ensures Lookup(after, d) == Lookup(r.handlers, d) {
      AddAllLookup(r.handlers, reg.combos, reg.handler, d);
      RemoveAllLookup(reg.registry.handlers, reg.combos, reg.handler, d);
      if d in reg.combos {
        RemovedAdded(Lookup(r.handlers, d), reg.handler);
      }
    }
    assert forall d :: d in after <==> d in r.handlers by {
      forall d ensures d in after <==> d in r.handlers {
        assert Lookup(after, d) == Lookup(r.handlers, d);
      }
    }
    assert forall d :: d in after ==> after[d] == r.handlers[d] by {
      forall d | d in after ensures after[d] == r.handlers[d] {
        assert Lookup(after, d) == Lookup(r.handlers, d);
      }
    }
  }

  /** `handle` once the combo is known: every handler of the combo's set runs, in insertion
      order, except those without `allowInInput` while the target is a text field. */
  function HandleWith(r: Registry, combo: string, target: Option<Element>): (fired: seq<Handler>)
    ensures forall g :: g in fired <==>
      combo in r.handlers && g in r.handlers[combo] && (g.allowInInput || !IsTypingTarget(target))
    ensures combo in r.handlers && !IsTypingTarget(target) ==> fired == r.handlers[combo]
    ensures combo !in r.handlers ==> fired == []
    ensures combo in r.handlers ==>
      Selects(fired, r.handlers[combo], (g: Handler) => g.allowInInput || !IsTypingTarget(target))
  {
    var typing := IsTypingTarget(target);
    match Lookup(r.handlers, combo)
    case None => []
    case Some(hs) =>
      var allowed := (g: Handler) => g.allowInInput || !typing;
      if !typing then (FilterKeepsAll(hs, allowed); Filter(hs, allowed)) else Filter(hs, allowed)
  }

  /** `handle` as written: the lookup uses `normalizeEvent`. */
  function HandleAsWritten(r: Registry, e: KeyEvent): (fired: seq<Handler>)
    ensures forall g :: g in fired <==>
      && NormalizeEvent(e) in r.handlers && g in r.handlers[NormalizeEvent(e)]
      && (g.allowInInput || !IsTypingTarget(e.target))
    ensures NormalizeEvent(e) in r.handlers ==>
      Selects(fired, r.handlers[NormalizeEvent(e)], (g: Handler) => g.allowInInput || !IsTypingTarget(e.target))
  {
    HandleWith(r, NormalizeEvent(e), e.target)
  }

  /** `handle` with the corrected lookup key. */
  function Handle(r: Registry, e: KeyEvent): (fired: seq<Handler>)
    ensures forall g :: g in fired <==>
      && NormalizeEventFixed(e) in r.handlers && g in r.handlers[NormalizeEventFixed(e)]
      && (g.allowInInput || !IsTypingTarget(e.target))
    ensures NormalizeEventFixed(e) in r.handlers ==>
      Selects(fired, r.handlers[NormalizeEventFixed(e)], (g: Handler) => g.allowInInput || !IsTypingTarget(e.target))
  {
    HandleWith(r, NormalizeEventFixed(e), e.target)
  }

  /** A handler registered for the combo written for an event runs on that event, unless the
      event comes from a text field and the handler did not opt in. */
  lemma RegisteredHandlerFires(r: Registry, e: KeyEvent, fn: nat, allowInInput: bool)
    requires Wf(r) && PlainKey(e.key)
    ensures Register(r, [ComboText(e)], fn, allowInInput).Ok?
    ensures var reg := Register(r, [ComboText(e)], fn, allowInInput).value;
      reg.handler in Handle(reg.registry, e) <==> allowInInput || !IsTypingTarget(e.target)
  {
    ComboTextAgrees(e);
    var reg := Register(r, [ComboText(e)], fn, allowInInput).value;
    assert reg.combos == [NormalizeEventFixed(e)];
    RegisterAddsHandler(r, [ComboText(e)], fn, allowInInput, NormalizeEventFixed(e));
  }

  /** After the remover runs, the event dispatches exactly as before `register`. */
  lemma OffRestoresDispatch(r: Registry, combos: seq<string>, fn: nat, allowInInput: bool, e: KeyEvent)
    requires Wf(r) && Register(r, combos, fn, allowInInput).Ok?
    ensures var reg := Register(r, combos, fn, allowInInput).value;
      Handle(Off(reg.registry, reg), e) == Handle(r, e)
  {
    OffUndoesRegister(r, combos, fn, allowInInput);
  }

  /** `register` with a single combo. */
  lemma RegisterOne(r: Registry, c: string, n: string, fn: nat, allowInInput: bool)
    requires NormalizeCombo(c) == Ok(n)
    ensures Register(r, [c], fn, allowInInput).Ok?
    ensures Register(r, [c], fn, allowInInput).value.combos == [n]
  {
    MapAllSucceeds([c], NormalizeCombo);
  }

  /** `register` with two combos. */
  lemma RegisterTwo(r: Registry, c1: string, n1: string, c2: string, n2: string, fn: nat, allowInInput: bool)
    requires NormalizeCombo(c1) == Ok(n1) && NormalizeCombo(c2) == Ok(n2)
    ensures Register(r, [c1, c2], fn, allowInInput).Ok?
    ensures Register(r, [c1, c2], fn, allowInInput).value.combos == [n1, n2]
  {
    MapAllSucceeds([c1, c2], NormalizeCombo);
  }

  /** Outside a text field, an event whose lookup key holds exactly one handler runs that
      handler alone; one whose key holds nothing runs nothing. */
  lemma HandleWithOne(r: Registry, combo: string, target: Option<Element>, h: Handler)
    requires !IsTypingTarget(target) && Lookup(r.handlers, combo) == Some([h])
    ensures HandleWith(r, combo, target) == [h]
  {
  }

  lemma HandleWithNone(r: Registry, combo: string, target: Option<Element>)
    requires Lookup(r.handlers, combo) == None
    ensures HandleWith(r, combo, target) == []
  {
  }

  lemma ArrowWritten()
    ensures Text.Join(LowerWords(false, false, false, false) + ["ArrowUp"], '+') == "ArrowUp"
  {
    assert LowerWords(false, false, false, false) + ["ArrowUp"] == ["ArrowUp"];
  }

  lemma ArrowNormal()
    ensures Text.Join(ModifierWords(false, false, false, false) + [Capitalize(Text.LowerStr("ArrowUp"))], '+') == "Arrowup"
  {
    assert Text.LowerStr("ArrowUp") == "arrowup";
    assert Capitalize("arrowup") == "Arrowup";
    assert ModifierWords(false, false, false, false) + ["Arrowup"] == ["Arrowup"];
  }

  lemma ArrowCombo()
    ensures NormalizeCombo("ArrowUp") == Ok("Arrowup")
  {
    assert PlainKey("ArrowUp");
    ArrowWritten();
    ArrowNormal();
    NormalizeLowerWords(false, false, false, false, "ArrowUp");
  }

  lemma ArrowEvent(e: KeyEvent)
    requires e == KeyEvent("ArrowUp", false, false, false, false, None)
    ensures NormalizeEvent(e) == "ArrowUp"
    ensures NormalizeEventFixed(e) == "Arrowup"
  {
    assert EventKeyAsWritten("ArrowUp") == "ArrowUp";
    assert ModifierWords(false, false, false, false) + ["ArrowUp"] == ["ArrowUp"];
    assert CanonicalKey("ArrowUp") == "Arrowup";
    assert ModifierWords(false, false, false, false) + ["Arrowup"] == ["Arrowup"];
  }

  /** The counterexample: a handler registered for `ArrowUp` is stored under `Arrowup`, while
      the pressed key normalises to `ArrowUp`, so as written it never runs; the corrected
      lookup runs it. */
  lemma ArrowShortcutNeverFires(fn: nat)
    ensures NormalizeCombo("ArrowUp") == Ok("Arrowup")
    ensures NormalizeEvent(KeyEvent("ArrowUp", false, false, false, false, None)) == "ArrowUp"
    ensures var reg := Register(NoShortcuts, ["ArrowUp"], fn, false);
      var e := KeyEvent("ArrowUp", false, false, false, false, None);
      && reg.Ok?
      && HandleAsWritten(reg.value.registry, e) == []
      && Handle(reg.value.registry, e) == [reg.value.handler]
  {
    var e := KeyEvent("ArrowUp", false, false, false, false, None);
    ArrowCombo();
    ArrowEvent(e);
    RegisterOne(NoShortcuts, "ArrowUp", "Arrowup", fn, false);
    var reg := Register(NoShortcuts, ["ArrowUp"], fn, false).value;
    RegisterAddsHandler(NoShortcuts, ["ArrowUp"], fn, false, "Arrowup");
    RegisterAddsHandler(NoShortcuts, ["ArrowUp"], fn, false, "ArrowUp");
    HandleWithNone(reg.registry, "ArrowUp", None);
    HandleWithOne(reg.registry, "Arrowup", None, reg.handler);
  }

  lemma ChordWritten(ctrl: bool, c: string)
    requires c == (if ctrl then "Ctrl+X" else "Meta+X")
    ensures Text.Join(ModifierWords(ctrl, !ctrl, false, false) + ["X"], '+') == c
  {
    assert ModifierWords(ctrl, !ctrl, false, false) + ["X"] == [if ctrl then "Ctrl" else "Meta", "X"];
  }

  lemma ChordNormal(ctrl: bool, c: string)
    requires c == (if ctrl then "Ctrl+X" else "Meta+X")
    ensures NormalizeCombo(c) == Ok(c)
  {
    ChordWritten(ctrl, c);
    CapitalLetter("X", "X");
    assert PlainKey("X");
    NormalizeModifierWords(ctrl, !ctrl, false, false, "X");
  }

  lemma ChordEvent(ctrl: bool, e: KeyEvent)
    requires e == KeyEvent("x", ctrl, !ctrl, false, false, Some(Element("", false)))
    ensures NormalizeEventFixed(e) == if ctrl then "Ctrl+X" else "Meta+X"
  {
    CapitalLetter("x", "X");
    assert CanonicalKey("x") == "X";
    ChordWritten(ctrl, if ctrl then "Ctrl+X" else "Meta+X");
  }

  lemma ChordRegistered(fn: nat)
    ensures Register(NoShortcuts, ["Ctrl+X", "Meta+X"], fn, false).Ok?
    ensures Register(NoShortcuts, ["Ctrl+X", "Meta+X"], fn, false).value.combos == ["Ctrl+X", "Meta+X"]
  {
    ChordNormal(true, "Ctrl+X");
    ChordNormal(false, "Meta+X");
    RegisterTwo(NoShortcuts, "Ctrl+X", "Ctrl+X", "Meta+X", "Meta+X", fn, false);
  }

  /** While registered, the handler runs alone for an event outside a text field whose lookup
      key is either chord. */
  lemma ChordFiresAt(fn: nat, e: KeyEvent, c: string)
    requires c == "Ctrl+X" || c == "Meta+X"
    requires NormalizeEventFixed(e) == c && !IsTypingTarget(e.target)
    ensures var reg := Register(NoShortcuts, ["Ctrl+X", "Meta+X"], fn, false);
      reg.Ok? && Handle(reg.value.registry, e) == [reg.value.handler]
  {
    ChordRegistered(fn);
    var reg := Register(NoShortcuts, ["Ctrl+X", "Meta+X"], fn, false).value;
    RegisterAddsHandler(NoShortcuts, ["Ctrl+X", "Meta+X"], fn, false, c);
    HandleWithOne(reg.registry, c, e.target, reg.handler);
  }

  /** While registered, the handler runs once for each chord. */
  lemma ChordFires(fn: nat, ctrl: bool)
    ensures var reg := Register(NoShortcuts, ["Ctrl+X", "Meta+X"], fn, false);
      var e := KeyEvent("x", ctrl, !ctrl, false, false, Some(Element("", false)));
      && reg.Ok?
      && Handle(reg.value.registry, e) == [reg.value.handler]
  {
    var e := KeyEvent("x", ctrl, !ctrl, false, false, Some(Element("", false)));
    ChordEvent(ctrl, e);
    ChordFiresAt(fn, e, if ctrl then "Ctrl+X" else "Meta+X");
  }

  /** Once the remover ran, neither chord runs anything. */
  lemma ChordSilentAfterOff(fn: nat, ctrl: bool)
    ensures var reg := Register(NoShortcuts, ["Ctrl+X", "Meta+X"], fn, false);
      var e := KeyEvent("x", ctrl, !ctrl, false, false, Some(Element("", false)));
      && reg.Ok?
      && Handle(Off(reg.value.registry, reg.value), e) == []
  {
    var e := KeyEvent("x", ctrl, !ctrl, false, false, Some(Element("", false)));
    ChordRegistered(fn);
    var reg := Register(NoShortcuts, ["Ctrl+X", "Meta+X"], fn, false).value;
    OffUndoesRegister(NoShortcuts, ["Ctrl+X", "Meta+X"], fn, false);
    HandleWithNone(Off(reg.registry, reg), NormalizeEventFixed(e), e.target);
  }

  /** For a one-character key the as-written `handle` looks up the same combo as the corrected
      one, so both run the same handlers. */
  lemma AsWrittenHandleAgrees(r: Registry, e: KeyEvent)
    requires |e.key| == 1 && e.key[0] != '+'
    ensures HandleAsWritten(r, e) == Handle(r, e)
  {
    AsWrittenAgreesExactly(e);
  }

  /** The register-and-trigger test, driving `handle` as written: one handler under `Ctrl+X`
      and `Meta+X` runs once for each chord, and not at all after its remover ran. */
  lemma RegisterAndTrigger(fn: nat)
    ensures var reg := Register(NoShortcuts, ["Ctrl+X", "Meta+X"], fn, false);
      var ctrlX := KeyEvent("x", true, false, false, false, Some(Element("", false)));
      var metaX := KeyEvent("x", false, true, false, false, Some(Element("", false)));
      && reg.Ok?
      && |HandleAsWritten(reg.value.registry, ctrlX)| + |HandleAsWritten(reg.value.registry, metaX)|
         + |HandleAsWritten(Off(reg.value.registry, reg.value), ctrlX)| == 2
  {
    var reg := Register(NoShortcuts, ["Ctrl+X", "Meta+X"], fn, false);
    var ctrlX := KeyEvent("x", true, false, false, false, Some(Element("", false)));
    var metaX := KeyEvent("x", false, true, false, false, Some(Element("", false)));
    ChordFires(fn, true);
    ChordFires(fn, false);
    ChordSilentAfterOff(fn, true);
    AsWrittenHandleAgrees(reg.value.registry, ctrlX);
    AsWrittenHandleAgrees(reg.value.registry, metaX);
    AsWrittenHandleAgrees(Off(reg.value.registry, reg.value), ctrlX);
  }
}
