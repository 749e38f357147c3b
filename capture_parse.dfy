/**
 * The link between the two ends of hotkey capture: a string the keyboard
 * hook or the poller stores for a key with a built-in name is accepted by
 * `parse_hotkey`, and denotes exactly the modifiers that were held and that
 * key.  (The settings window passes a captured string straight to
 * `update_hotkey`.)
 */
module CaptureParse {
  import opened Wrappers
  import opened Text
  import opened Hotkey
  import opened HotkeyExamples
  import opened Input

  /** The modifiers a captured prefix names: the Windows key is the Meta modifier. */
  function HeldModifiers(ctrl: bool, alt: bool, shift: bool, win: bool): set<Modifier> {
    (if ctrl then {Control} else {}) + (if alt then {Alt} else {})
    + (if shift then {Shift} else {}) + (if win then {Meta} else {})
  }

  /** The key `parse_key_code` gives the built-in name of a virtual key. */
  function CodeOfVk(vk: nat): Option<Code> {
    if 0x41 <= vk <= 0x5A then Some(Key(vk as char))
    else if 0x30 <= vk <= 0x39 then Some(Digit(vk - 0x30))
    else if 0x70 <= vk <= 0x7B then Some(F(vk - 0x6F))
    else
      match vk
      case 0x20 => Some(Space)
      case 0x0D => Some(Enter)
      case 0x09 => Some(Tab)
      case 0x08 => Some(Backspace)
      case 0x2E => Some(Delete)
      case 0x2D => Some(Insert)
      case 0x24 => Some(Home)
      case 0x23 => Some(End)
      case 0x21 => Some(PageUp)
      case 0x22 => Some(PageDown)
      case 0x25 => Some(ArrowLeft)
      case 0x26 => Some(ArrowUp)
      case 0x27 => Some(ArrowRight)
      case 0x28 => Some(ArrowDown)
      case _ => None
  }

  /** The modifier names of a captured prefix, in order. */
  function ModifierTokens(ctrl: bool, alt: bool, shift: bool, win: bool): seq<string> {
    (if ctrl then ["Ctrl"] else []) + (if alt then ["Alt"] else [])
    + (if shift then ["Shift"] else []) + (if win then ["Win"] else [])
  }

  /** Each token followed by a '+'. */
  function Prefixed(tokens: seq<string>): string {
    if tokens == [] then [] else tokens[0] + "+" + Prefixed(tokens[1..])
  }

  lemma {:induction false} PrefixedAppend(a: seq<string>, b: seq<string>)
    ensures Prefixed(a + b) == Prefixed(a) + Prefixed(b)
  {
    if a != [] {
      assert (a + b)[1..] == a[1..] + b;
      PrefixedAppend(a[1..], b);
    } else {
      assert a + b == b;
    }
  }

  lemma PrefixedMaybe(present: bool, t: string)
    ensures Prefixed(if present then [t] else []) == if present then t + "+" else ""
  {
    if present {
      assert [t][1..] == [];
    }
  }

  /** The captured prefix is its modifier names, each followed by '+'. */
  lemma ModifierPrefixTokens(ctrl: bool, alt: bool, shift: bool, win: bool)
    ensures ModifierPrefix(ctrl, alt, shift, win) == Prefixed(ModifierTokens(ctrl, alt, shift, win))
  {
    assert "Ctrl" + "+" == "Ctrl+" && "Alt" + "+" == "Alt+";
    assert "Shift" + "+" == "Shift+" && "Win" + "+" == "Win+";
    var a := if ctrl then ["Ctrl"] else [];
    var b := if alt then ["Alt"] else [];
    var c := if shift then ["Shift"] else [];
    var d := if win then ["Win"] else [];
    PrefixedAppend(a, b);
    PrefixedAppend(a + b, c);
    PrefixedAppend(a + b + c, d);
    PrefixedMaybe(ctrl, "Ctrl");
    PrefixedMaybe(alt, "Alt");
    PrefixedMaybe(shift, "Shift");
    PrefixedMaybe(win, "Win");
    assert Prefixed(ModifierTokens(ctrl, alt, shift, win))
      == Prefixed(a) + Prefixed(b) + Prefixed(c) + Prefixed(d);
  }

  /** A prefix followed by a name is the tokens and the name joined with '+'. */
  lemma {:induction false} JoinPrefixed(tokens: seq<string>, name: string)
    ensures Prefixed(tokens) + name == Join(tokens + [name], '+')
  {
    if tokens == [] {
      assert tokens + [name] == [name];
    } else {
      JoinPrefixed(tokens[1..], name);
      assert (tokens + [name])[1..] == tokens[1..] + [name];
      assert Prefixed(tokens) + name == tokens[0] + "+" + (Prefixed(tokens[1..]) + name);
    }
  }

  lemma AltToken()
    ensures ModifierToken("Alt", Alt)
  {
    assert Lower("Alt") == "alt";
  }

  lemma WinToken()
    ensures ModifierToken("Win", Meta)
  {
    assert Lower("Win") == "win";
  }

  /** The token loop over a captured prefix gathers exactly the held modifiers. */
  lemma ScanModifierTokens(ctrl: bool, alt: bool, shift: bool, win: bool)
    ensures Scan(ModifierTokens(ctrl, alt, shift, win)) == Ok(ScanState(HeldModifiers(ctrl, alt, shift, win), None))
  {
    CtrlToken();
    AltToken();
    ShiftToken();
    WinToken();
    ScanFourModifiers("Ctrl", "Alt", "Shift", "Win", ctrl, alt, shift, win);
  }

  /** Four optional modifier tokens, in the order Control, Alt, Shift, Meta, gather the modifiers present. */
  lemma ScanFourModifiers(tc: string, ta: string, ts: string, tw: string, ctrl: bool, alt: bool, shift: bool, win: bool)
    requires ModifierOf(Lower(tc)) == Some(Control) && ModifierOf(Lower(ta)) == Some(Alt)
    requires ModifierOf(Lower(ts)) == Some(Shift) && ModifierOf(Lower(tw)) == Some(Meta)
    ensures Scan((if ctrl then [tc] else []) + (if alt then [ta] else []) + (if shift then [ts] else [])
                 + (if win then [tw] else []))
            == Ok(ScanState(HeldModifiers(ctrl, alt, shift, win), None))
  {
    ScanMaybeModifier([], {}, ctrl, tc, Control);
    var a := if ctrl then [tc] else [];
    assert [] + a == a;
    var ma := if ctrl then {Control} else {};
    assert {} + ma == ma;
    ScanMaybeModifier(a, ma, alt, ta, Alt);
    var b := if alt then [ta] else [];
    var mb := if alt then {Alt} else {};
    ScanMaybeModifier(a + b, ma + mb, shift, ts, Shift);
    var c := if shift then [ts] else [];
    var mc := if shift then {Shift} else {};
    ScanMaybeModifier(a + b + c, ma + mb + mc, win, tw, Meta);
  }

  /** A modifier token that may or may not be there. */
  lemma ScanMaybeModifier(tokens: seq<string>, mods: set<Modifier>, present: bool, t: string, m: Modifier)
    requires Scan(tokens) == Ok(ScanState(mods, None)) && ModifierOf(Lower(t)) == Some(m)
    ensures Scan(tokens + (if present then [t] else [])) == Ok(ScanState(mods + (if present then {m} else {}), None))
  {
    if present {
      ScanSnocModifier(tokens, t, ScanState(mods, None), m);
    } else {
      assert tokens + [] == tokens;
      assert mods + {} == mods;
    }
  }

  /** What the parser needs of a key name: a plain token, no modifier, and the key it names. */
  predicate KeyToken(name: string, c: Code) {
    PlainToken(name) && ModifierOf(Lower(name)).None? && ParseKeyCode(Lower(name)) == Ok(c)
  }

  lemma LetterKeyToken(vk: nat)
    requires 0x41 <= vk <= 0x5A
    ensures KeyToken(CommonKeyName(vk).value, CodeOfVk(vk).value)
  {
    LetterToken(vk as char);
  }

  lemma DigitKeyToken(vk: nat)
    requires 0x30 <= vk <= 0x39
    ensures KeyToken(CommonKeyName(vk).value, CodeOfVk(vk).value)
  {
    var c := vk as char;
    assert Lower([c]) == [c];
    ShortTokenNotModifier([c]);
    KeyCodeSingleChar(c);
  }

  /** No modifier synonym begins with 'f'. */
  lemma FTokenNotModifier(t: string)
    requires t != [] && t[0] == 'f'
    ensures ModifierOf(t).None?
  {
    assert forall i :: 0 <= i < |ModifierTable| ==> ModifierTable[i].0[0] != 'f';
    LookupFirst(t, ModifierTable);
  }

  /** The name of F`n` lower-cases to `f` and the same digits. */
  lemma FunctionKeyLower(n: nat)
    ensures Lower("F" + NatToString(n)) == "f" + NatToString(n)
  {
    var d := NatToString(n);
    assert Lower(d) == d;
    LowerConcat("F", d);
    assert Lower("F") == "f";
  }

  lemma FunctionKeyPlain(n: nat)
    ensures PlainToken("F" + NatToString(n))
  {
    var d := NatToString(n);
    var name := "F" + d;
    assert name[|name| - 1] == d[|d| - 1];
    assert forall i :: 0 <= i < |name| ==> name[i] == 'F' || IsDigit(name[i]);
  }

  lemma FunctionKeyToken(vk: nat)
    requires 0x70 <= vk <= 0x7B
    ensures KeyToken(CommonKeyName(vk).value, CodeOfVk(vk).value)
  {
    var n := vk - 0x6F;
    var t := "f" + NatToString(n);
    FunctionKeyLower(n);
    FunctionKeyPlain(n);
    FunctionKeyNames(t, n);
    assert KeyOfName(t) == Some(F(n));
    FTokenNotModifier(t);
  }

  /** Lower-casing character by character. */
  lemma LowerPointwise(s: string, t: string)
    requires |s| == |t| && forall i :: 0 <= i < |s| ==> LowerChar(s[i]) == t[i]
    ensures Lower(s) == t
  {
  }

  /** One named key: its lower-case spelling, which the modifier table lacks and the key table has at `k`. */
  lemma NamedToken(name: string, lower: string, c: Code, k: nat)
    requires |name| == |lower| && forall i :: 0 <= i < |name| ==> LowerChar(name[i]) == lower[i]
    requires PlainToken(name) && |lower| >= 2 && lower[0] != 'f'
    requires forall i :: 0 <= i < |ModifierTable| ==> ModifierTable[i].0 != lower
    requires k < |NamedKeyTable| && NamedKeyTable[k] == (lower, c)
    requires forall j :: 0 <= j < k ==> NamedKeyTable[j].0 != lower
    ensures KeyToken(name, c)
  {
    LowerPointwise(name, lower);
    LowerIdempotent(name);
    LookupFirst(lower, ModifierTable);
    LookupFirst(lower, NamedKeyTable);
    assert FunctionKeyNumber(lower).None?;
    assert KeyOfName(lower) == Some(c);
  }

  lemma SpaceKeyToken()
    ensures KeyToken("Space", Space)
  {
    NamedToken("Space", "space", Space, 0);
  }

  lemma EnterKeyToken()
    ensures KeyToken("Enter", Enter)
  {
    NamedToken("Enter", "enter", Enter, 1);
  }

  lemma TabKeyToken()
    ensures KeyToken("Tab", Tab)
  {
    NamedToken("Tab", "tab", Tab, 3);
  }

  lemma BackspaceKeyToken()
    ensures KeyToken("Backspace", Backspace)
  {
    NamedToken("Backspace", "backspace", Backspace, 6);
  }

  lemma DeleteKeyToken()
    ensures KeyToken("Delete", Delete)
  {
    NamedToken("Delete", "delete", Delete, 7);
  }

  lemma InsertKeyToken()
    ensures KeyToken("Insert", Insert)
  {
    NamedToken("Insert", "insert", Insert, 9);
  }

  lemma HomeKeyToken()
    ensures KeyToken("Home", Home)
  {
    NamedToken("Home", "home", Home, 11);
  }

  lemma EndKeyToken()
    ensures KeyToken("End", End)
  {
    NamedToken("End", "end", End, 12);
  }

  lemma PageUpKeyToken()
    ensures KeyToken("PageUp", PageUp)
  {
    NamedToken("PageUp", "pageup", PageUp, 13);
  }

  lemma PageDownKeyToken()
    ensures KeyToken("PageDown", PageDown)
  {
    NamedToken("PageDown", "pagedown", PageDown, 15);
  }

  lemma LeftKeyToken()
    ensures KeyToken("Left", ArrowLeft)
  {
    NamedToken("Left", "left", ArrowLeft, 19);
  }

  lemma UpKeyToken()
    ensures KeyToken("Up", ArrowUp)
  {
    NamedToken("Up", "up", ArrowUp, 17);
  }

  lemma RightKeyToken()
    ensures KeyToken("Right", ArrowRight)
  {
    NamedToken("Right", "right", ArrowRight, 20);
  }

  lemma DownKeyToken()
    ensures KeyToken("Down", ArrowDown)
  {
    NamedToken("Down", "down", ArrowDown, 18);
  }

  lemma EditingKeyToken(vk: nat)
    requires vk in {0x20, 0x0D, 0x09, 0x08, 0x2E, 0x2D, 0x24}
    ensures KeyToken(CommonKeyName(vk).value, CodeOfVk(vk).value)
  {
    match vk
    case 0x20 =>
      assert CommonKeyName(vk) == Some("Space") && CodeOfVk(vk) == Some(Space);
      SpaceKeyToken();
    case 0x0D =>
      assert CommonKeyName(vk) == Some("Enter") && CodeOfVk(vk) == Some(Enter);
      EnterKeyToken();
    case 0x09 =>
      assert CommonKeyName(vk) == Some("Tab") && CodeOfVk(vk) == Some(Tab);
      TabKeyToken();
    case 0x08 =>
      assert CommonKeyName(vk) == Some("Backspace") && CodeOfVk(vk) == Some(Backspace);
      BackspaceKeyToken();
    case 0x2E =>
      assert CommonKeyName(vk) == Some("Delete") && CodeOfVk(vk) == Some(Delete);
      DeleteKeyToken();
    case 0x2D =>
      assert CommonKeyName(vk) == Some("Insert") && CodeOfVk(vk) == Some(Insert);
      InsertKeyToken();
    case 0x24 =>
      assert CommonKeyName(vk) == Some("Home") && CodeOfVk(vk) == Some(Home);
      HomeKeyToken();
  }

  lemma NavigationKeyToken(vk: nat)
    requires vk in {0x23, 0x21, 0x22, 0x25, 0x26, 0x27, 0x28}
    ensures KeyToken(CommonKeyName(vk).value, CodeOfVk(vk).value)
  {
    match vk
    case 0x23 =>
      assert CommonKeyName(vk) == Some("End") && CodeOfVk(vk) == Some(End);
      EndKeyToken();
    case 0x21 =>
      assert CommonKeyName(vk) == Some("PageUp") && CodeOfVk(vk) == Some(PageUp);
      PageUpKeyToken();
    case 0x22 =>
      assert CommonKeyName(vk) == Some("PageDown") && CodeOfVk(vk) == Some(PageDown);
      PageDownKeyToken();
    case 0x25 =>
      assert CommonKeyName(vk) == Some("Left") && CodeOfVk(vk) == Some(ArrowLeft);
      LeftKeyToken();
    case 0x26 =>
      assert CommonKeyName(vk) == Some("Up") && CodeOfVk(vk) == Some(ArrowUp);
      UpKeyToken();
    case 0x27 =>
      assert CommonKeyName(vk) == Some("Right") && CodeOfVk(vk) == Some(ArrowRight);
      RightKeyToken();
    case 0x28 =>
      assert CommonKeyName(vk) == Some("Down") && CodeOfVk(vk) == Some(ArrowDown);
      DownKeyToken();
  }

  /** Every built-in key name is a key the parser knows, and the same key. */
  lemma CommonKeyNameParses(vk: nat)
    requires CommonKeyName(vk).Some?
    ensures CodeOfVk(vk).Some? && KeyToken(CommonKeyName(vk).value, CodeOfVk(vk).value)
  {
    if 0x41 <= vk <= 0x5A {
      LetterKeyToken(vk);
    } else if 0x30 <= vk <= 0x39 {
      DigitKeyToken(vk);
    } else if 0x70 <= vk <= 0x7B {
      FunctionKeyToken(vk);
    } else if vk in {0x20, 0x0D, 0x09, 0x08, 0x2E, 0x2D, 0x24} {
      EditingKeyToken(vk);
    } else {
      NavigationKeyToken(vk);
    }
  }

  lemma ModifierTokensPlain(ctrl: bool, alt: bool, shift: bool, win: bool)
    ensures forall k :: 0 <= k < |ModifierTokens(ctrl, alt, shift, win)| ==>
      PlainToken(ModifierTokens(ctrl, alt, shift, win)[k])
  {
    assert PlainToken("Ctrl") && PlainToken("Alt") && PlainToken("Shift") && PlainToken("Win");
  }

  /** The tokens of a captured string are its modifier names and then the key name. */
  lemma CapturedTokens(ctrl: bool, alt: bool, shift: bool, win: bool, name: string)
    requires PlainToken(name)
    ensures Tokens(ModifierPrefix(ctrl, alt, shift, win) + name) == ModifierTokens(ctrl, alt, shift, win) + [name]
  {
    var tokens := ModifierTokens(ctrl, alt, shift, win);
    var s := ModifierPrefix(ctrl, alt, shift, win) + name;
    ModifierPrefixTokens(ctrl, alt, shift, win);
    JoinPrefixed(tokens, name);
    var pieces := tokens + [name];
    ModifierTokensPlain(ctrl, alt, shift, win);
    assert forall k :: 0 <= k < |pieces| ==> PlainToken(pieces[k]) by {
      forall k | 0 <= k < |pieces| ensures PlainToken(pieces[k]) {
        if k < |tokens| { assert pieces[k] == tokens[k]; }
      }
    }
    SplitJoin(pieces, '+');
    TokensOfPieces(s, pieces);
  }

  /**
   * A captured string made of a non-empty modifier prefix and a built-in key
   * name parses to exactly the held modifiers and that key.
   */
  lemma CapturedParses(ctrl: bool, alt: bool, shift: bool, win: bool, vk: nat)
    requires ctrl || alt || shift || win
    requires CommonKeyName(vk).Some?
    ensures CodeOfVk(vk).Some?
    ensures ParseSpec(ModifierPrefix(ctrl, alt, shift, win) + CommonKeyName(vk).value)
      == Ok(HotKey(HeldModifiers(ctrl, alt, shift, win), CodeOfVk(vk).value))
  {
    var name := CommonKeyName(vk).value;
    var s := ModifierPrefix(ctrl, alt, shift, win) + name;
    CommonKeyNameParses(vk);
    CapturedTokens(ctrl, alt, shift, win, name);
    var mods := HeldModifiers(ctrl, alt, shift, win);
    ScanModifierTokens(ctrl, alt, shift, win);
    ScanSnocKey(ModifierTokens(ctrl, alt, shift, win), name, ScanState(mods, None), CodeOfVk(vk).value);
    ParseSpecOfScan(s, mods, CodeOfVk(vk).value);
  }

  /** A capture the hook completes on a key with a built-in name is a binding `parse_hotkey` accepts. */
  lemma HookCaptureParses(st: HookState, code: int, e: KeyEvent)
    requires code >= 0 && st.active && IsKeyDown(e.message)
    requires !IsModifierKey(Vk(e)) && Vk(e) != VkEscape && Vk(e) != VkTab && AnyHeld(st)
    requires CommonKeyName(Vk(e)).Some?
    ensures CodeOfVk(Vk(e)).Some?
    ensures HookStep(st, code, e).state.captured.Some?
    ensures ParseSpec(HookStep(st, code, e).state.captured.value)
      == Ok(HotKey(HeldModifiers(st.ctrl, st.alt, st.shift, st.win), CodeOfVk(Vk(e)).value))
  {
    VkToNameResult(Vk(e), e.scanCode, e.keyText);
    HookCaptures(st, code, e);
    CapturedParses(st.ctrl, st.alt, st.shift, st.win, Vk(e));
  }

  /** Whatever a poll returns is a binding `parse_hotkey` accepts, with the modifiers held in the snapshot. */
  lemma PollCaptureParses(st: HookState, pressed: set<nat>, scanCodeOf: nat -> nat, keyTextOf: nat -> string)
    requires Poll(st, pressed, scanCodeOf, keyTextOf).result.Some?
    ensures var s := Poll(st, pressed, scanCodeOf, keyTextOf).result.value;
      ParseSpec(s).Ok? && ParseSpec(s).value.mods
        == HeldModifiers(HasCtrl(pressed), HasAlt(pressed), HasShift(pressed), HasWin(pressed))
  {
    PollResult(st, pressed, scanCodeOf, keyTextOf);
    CandidatesNamed();
    var i :| 0 <= i < |HotkeyCandidates| && Pressed(pressed, HotkeyCandidates[i])
      && (forall j :: 0 <= j < i ==> !Pressed(pressed, HotkeyCandidates[j]))
      && Poll(st, pressed, scanCodeOf, keyTextOf).result.value
         == PressedPrefix(pressed) + CommonKeyName(HotkeyCandidates[i]).value;
    CapturedParses(HasCtrl(pressed), HasAlt(pressed), HasShift(pressed), HasWin(pressed), HotkeyCandidates[i]);
  }
}
