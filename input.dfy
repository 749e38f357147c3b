/**
 * Keyboard monitoring on Windows: the interactive hotkey capture driven by
 * the low-level keyboard hook (and its polling variant), and the Ctrl-V
 * latch the translator uses to notice a paste.
 *
 * The process-wide atomics and the mutex of the original are the fields of
 * one `InputMonitor` object; the hook body is a step function `HookStep` over
 * a snapshot of those fields, and the methods are proved against it.  What
 * the operating system answers (`GetAsyncKeyState`, `MapVirtualKeyW`,
 * `GetKeyNameTextW`) is passed in.
 */
module Input {
  import opened Wrappers
  import opened Text

  // Virtual-key codes the hook treats specially.
  const VkTab: nat := 0x09
  const VkControl: nat := 0x11
  const VkEscape: nat := 0x1B
  const VkV: nat := 0x56

  /** Which window message delivered the key event. */
  datatype KeyMessage = KeyDown | SysKeyDown | KeyUp | SysKeyUp | OtherMessage

  predicate IsKeyDown(m: KeyMessage) { m == KeyDown || m == SysKeyDown }
  predicate IsKeyUp(m: KeyMessage) { m == KeyUp || m == SysKeyUp }

  /**
   * One hook event.  `vkCode` is the 32-bit code from the hook structure;
   * `scanCode` and `keyText` are what `MapVirtualKeyW` and `GetKeyNameTextW`
   * answer for its key.
   */
  datatype KeyEvent = KeyEvent(vkCode: nat, message: KeyMessage, scanCode: nat, keyText: string)

  /** `kb.vkCode as u16`: the cast keeps the low 16 bits. */
  function Vk(e: KeyEvent): (vk: nat)
    ensures vk < 0x10000 && (e.vkCode < 0x10000 ==> vk == e.vkCode)
  {
    e.vkCode % 0x10000
  }

  predicate IsShiftKey(vk: nat) { vk == 0x10 || vk == 0xA0 || vk == 0xA1 }
  predicate IsCtrlKey(vk: nat) { vk == 0x11 || vk == 0xA2 || vk == 0xA3 }
  predicate IsAltKey(vk: nat) { vk == 0x12 || vk == 0xA4 || vk == 0xA5 }
  predicate IsWinKey(vk: nat) { vk == 0x5B || vk == 0x5C }

  /** The eleven virtual keys that count as modifiers. */
  predicate IsModifierKey(vk: nat) {
    vk == 0x10 || vk == 0x11 || vk == 0x12 || vk == 0xA0 || vk == 0xA1 || vk == 0xA2
    || vk == 0xA3 || vk == 0xA4 || vk == 0xA5 || vk == 0x5B || vk == 0x5C
  }

  /** The modifier keys are exactly the four families the hook tracks. */
  lemma ModifierFamilies(vk: nat)
    ensures IsModifierKey(vk) <==> IsShiftKey(vk) || IsCtrlKey(vk) || IsAltKey(vk) || IsWinKey(vk)
    ensures !(IsShiftKey(vk) && IsCtrlKey(vk)) && !(IsShiftKey(vk) && IsAltKey(vk))
    ensures !(IsShiftKey(vk) && IsWinKey(vk)) && !(IsCtrlKey(vk) && IsAltKey(vk))
    ensures !(IsCtrlKey(vk) && IsWinKey(vk)) && !(IsAltKey(vk) && IsWinKey(vk))
  {
  }

  /**
   * The built-in name of a virtual key: letters and digits are their own
   * character (the virtual-key codes of A-Z and 0-9 are their ASCII codes),
   * 0x70-0x7B are F1-F12, and fourteen editing and navigation keys are named.
   */
  function CommonKeyName(vk: nat): Option<string> {
    if 0x41 <= vk <= 0x5A || 0x30 <= vk <= 0x39 then Some([vk as char])
    else if 0x70 <= vk <= 0x7B then Some("F" + NatToString(vk - 0x6F))
    else
      match vk
      case 0x20 => Some("Space")
      case 0x0D => Some("Enter")
      case 0x09 => Some("Tab")
      case 0x08 => Some("Backspace")
      case 0x2E => Some("Delete")
      case 0x2D => Some("Insert")
      case 0x24 => Some("Home")
      case 0x23 => Some("End")
      case 0x21 => Some("PageUp")
      case 0x22 => Some("PageDown")
      case 0x25 => Some("Left")
      case 0x26 => Some("Up")
      case 0x27 => Some("Right")
      case 0x28 => Some("Down")
      case _ => None
  }

  /** A common name is never empty and never contains a separator `+`. */
  lemma CommonKeyNameShape(vk: nat)
    requires CommonKeyName(vk).Some?
    ensures CommonKeyName(vk).value != [] && '+' !in CommonKeyName(vk).value
  {
    if 0x70 <= vk <= 0x7B {
      var n := NatToString(vk - 0x6F);
      assert forall i :: 0 <= i < |n| ==> IsDigit(n[i]);
      assert "F" + n == ['F'] + n;
    }
  }

  /** The string with every NUL character removed (`retain(|c| c != '\0')`). */
  function WithoutNul(s: string): (r: string)
    ensures |r| <= |s| && '\0' !in r
    ensures '\0' !in s ==> r == s
  {
    if s == [] then []
    else if s[0] == '\0' then WithoutNul(s[1..])
    else [s[0]] + WithoutNul(s[1..])
  }

  /**
   * `vk_to_name`: the common name, else nothing when the key has no scan
   * code, else the operating system's key text (NULs removed, trimmed) when
   * that is not empty, else `VKxx` in two-digit upper-case hexadecimal.
   */
  function VkToName(vk: nat, scanCode: nat, keyText: string): Option<string> {
    match CommonKeyName(vk)
    case Some(name) => Some(name)
    case None =>
      if scanCode == 0 then None
      else
        var trimmed := Trim(WithoutNul(keyText));
        if trimmed != [] then Some(trimmed) else Some("VK" + Hex2(vk))
  }

  /** A key has no name only when it has neither a common name nor a scan code; a name is never empty. */
  lemma VkToNameResult(vk: nat, scanCode: nat, keyText: string)
    ensures VkToName(vk, scanCode, keyText).None? <==> CommonKeyName(vk).None? && scanCode == 0
    ensures VkToName(vk, scanCode, keyText).Some? ==> VkToName(vk, scanCode, keyText).value != []
    ensures CommonKeyName(vk).Some? ==> VkToName(vk, scanCode, keyText) == CommonKeyName(vk)
  {
    if CommonKeyName(vk).Some? {
      CommonKeyNameShape(vk);
    }
  }

  /** The modifier prefix, always in the order Ctrl, Alt, Shift, Win. */
  function ModifierPrefix(ctrl: bool, alt: bool, shift: bool, win: bool): string {
    (if ctrl then "Ctrl+" else "") + (if alt then "Alt+" else "")
    + (if shift then "Shift+" else "") + (if win then "Win+" else "")
  }

  /** The prefix is empty exactly when no modifier is held, and otherwise ends in `+`. */
  lemma ModifierPrefixShape(ctrl: bool, alt: bool, shift: bool, win: bool)
    ensures var p := ModifierPrefix(ctrl, alt, shift, win);
      (p == [] <==> !(ctrl || alt || shift || win))
      && (p != [] ==> p[|p| - 1] == '+')
  {
  }

  /** The virtual keys `poll_hotkey_capture` tries, in order: 0-9, A-Z, F1-F12, then fourteen named keys. */
  function Range(lo: nat, hi: nat): (r: seq<nat>)
    requires lo <= hi
    ensures |r| == hi - lo && forall i :: 0 <= i < |r| ==> r[i] == lo + i
  {
    seq(hi - lo, i requires 0 <= i < hi - lo => lo + i)
  }

  const HotkeyCandidates: seq<nat> :=
    Range(0x30, 0x3A) + Range(0x41, 0x5B) + Range(0x70, 0x7C)
    + [0x20, 0x0D, 0x09, 0x08, 0x2E, 0x2D, 0x24, 0x23, 0x21, 0x22, 0x25, 0x26, 0x27, 0x28]

  /** Every candidate has a common name and is not a modifier; Tab is a candidate and Esc is not. */
  lemma CandidatesNamed()
    ensures |HotkeyCandidates| == 62
    ensures forall i :: 0 <= i < |HotkeyCandidates| ==>
      CommonKeyName(HotkeyCandidates[i]).Some? && !IsModifierKey(HotkeyCandidates[i])
    ensures VkTab in HotkeyCandidates && VkEscape !in HotkeyCandidates
  {
    assert HotkeyCandidates[50] == VkTab;
  }

  // ---------------------------------------------------------------------
  // The hook as a step function

  /** The monitor's state: the capture flag, the four held modifiers, the result slot, and the paste latch. */
  datatype HookState = HookState(
    active: bool,
    ctrl: bool, alt: bool, shift: bool, win: bool,
    captured: Option<string>,
    ctrlPressed: bool,
    ctrlVDetected: bool)

  /** The new state, and whether the event is swallowed (`LRESULT(1)`) instead of passed on. */
  datatype HookOutcome = HookOutcome(state: HookState, swallow: bool)

  predicate AnyHeld(st: HookState) { st.ctrl || st.alt || st.shift || st.win }

  function HeldPrefix(st: HookState): string {
    ModifierPrefix(st.ctrl, st.alt, st.shift, st.win)
  }

  /** While capturing, a down or up event of a modifier sets or clears that modifier's flag. */
  function TrackHeld(st: HookState, vk: nat, down: bool, up: bool): HookState {
    if !(down || up) then st
    else if IsShiftKey(vk) then st.(shift := down)
    else if IsCtrlKey(vk) then st.(ctrl := down)
    else if IsAltKey(vk) then st.(alt := down)
    else if IsWinKey(vk) then st.(win := down)
    else st
  }

  /** The paste tracking that runs for every event not consumed by the capture. */
  function TrackPaste(st: HookState, vk: nat, down: bool): HookState {
    var st' := if IsCtrlKey(vk) then st.(ctrlPressed := down) else st;
    if down && vk == VkV && st'.ctrlPressed then st'.(ctrlVDetected := true) else st'
  }

  /**
   * Whether an active capture finalises on this event, given the state after
   * modifier tracking and the key's name (`vk_to_name` of the event's key).
   */
  predicate Finalises(held: HookState, vk: nat, down: bool, name: Option<string>) {
    down && !IsModifierKey(vk) && vk != VkEscape && vk != VkTab && AnyHeld(held) && name.Some?
  }

  /** The capture part of the hook either returns early (with its answer) or lets the paste tracking run. */
  datatype CaptureOutcome = Returned(state: HookState, swallow: bool) | Continue(state: HookState)

  /** The capture part of `keyboard_hook_proc`, which runs only while a capture is active; `name` is the key's name. */
  function Capture(st: HookState, vk: nat, down: bool, up: bool, name: Option<string>): CaptureOutcome {
    if !st.active then Continue(st)
    else Decide(TrackHeld(st, vk, down, up), vk, down, name)
  }

  /** The decision of an active capture, once the held modifiers are tracked: cancel, pass Tab on, finalise, or go on. */
  function Decide(held: HookState, vk: nat, down: bool, name: Option<string>): CaptureOutcome {
    if down && vk == VkEscape then Returned(held.(active := false, captured := Some("")), true)
    else if down && !IsModifierKey(vk) && vk == VkTab then Returned(held, false)
    else if Finalises(held, vk, down, name) then
      Returned(held.(captured := Some(HeldPrefix(held) + name.value), active := false), true)
    else Continue(held)
  }

  /** The decision changes at most the capture flag and the result slot. */
  lemma DecideKeepsFlags(held: HookState, vk: nat, down: bool, name: Option<string>)
    ensures var d := Decide(held, vk, down, name);
      d.state == held.(active := d.state.active, captured := d.state.captured)
  {
  }

  /** `keyboard_hook_proc`: one event applied to the monitor state. */
  function HookStep(st: HookState, code: int, e: KeyEvent): HookOutcome {
    if code < 0 then HookOutcome(st, false)
    else
      var vk := Vk(e);
      var down := IsKeyDown(e.message);
      match Capture(st, vk, down, IsKeyUp(e.message), VkToName(vk, e.scanCode, e.keyText))
      case Returned(s, swallow) => HookOutcome(s, swallow)
      case Continue(s) => HookOutcome(TrackPaste(s, vk, down), false)
  }

  /** Events with a negative hook code change nothing and are passed on. */
  lemma HookNegativeCode(st: HookState, code: int, e: KeyEvent)
    requires code < 0
    ensures HookStep(st, code, e) == HookOutcome(st, false)
  {
  }

  /** Without an active capture only the paste tracking runs. */
  lemma HookInactive(st: HookState, code: int, e: KeyEvent)
    requires !st.active && code >= 0
    ensures HookStep(st, code, e) == HookOutcome(TrackPaste(st, Vk(e), IsKeyDown(e.message)), false)
  {
  }

  /** The capture part changes at most the capture flag and the result slot of the `TrackHeld` state. */
  lemma CaptureKeepsFlags(st: HookState, vk: nat, down: bool, up: bool, name: Option<string>)
    ensures var c := Capture(st, vk, down, up, name);
      var h := if st.active then TrackHeld(st, vk, down, up) else st;
      c.state == h.(active := c.state.active, captured := c.state.captured)
  {
    if st.active {
      DecideKeepsFlags(TrackHeld(st, vk, down, up), vk, down, name);
    }
  }

  /** A non-modifier key leaves the held flags as they were. */
  lemma TrackHeldNonModifier(st: HookState, vk: nat, down: bool, up: bool)
    requires !IsModifierKey(vk)
    ensures TrackHeld(st, vk, down, up) == st
  {
    ModifierFamilies(vk);
  }

  /**
   * An active capture completes exactly on a non-modifier key other than Esc
   * and Tab pressed with a modifier held, when the key has a name; the result
   * is the held prefix followed by that name, and the key is swallowed.
   */
  lemma DecideCompletes(held: HookState, vk: nat, down: bool, name: Option<string>)
    requires held.active
    ensures var d := Decide(held, vk, down, name);
      var completes := down && !IsModifierKey(vk) && vk != VkEscape && vk != VkTab && AnyHeld(held) && name.Some?;
      && (completes <==> !d.state.active && d.state.captured != Some(""))
      && (completes ==> d.state == held.(active := false, captured := Some(HeldPrefix(held) + name.value)) && d.swallow)
  {
    ModifierPrefixShape(held.ctrl, held.alt, held.shift, held.win);
  }

  /** `DecideCompletes` lifted to the capture part, modifier tracking included. */
  lemma CaptureCompletes(st: HookState, vk: nat, down: bool, up: bool, name: Option<string>)
    ensures var c := Capture(st, vk, down, up, name);
      var completes := st.active && down && !IsModifierKey(vk) && vk != VkEscape && vk != VkTab && AnyHeld(st) && name.Some?;
      && (completes <==> st.active && !c.state.active && c.state.captured != Some(""))
      && (completes ==> c == Returned(st.(active := false, captured := Some(HeldPrefix(st) + name.value)), true))
  {
    if st.active {
      if !IsModifierKey(vk) {
        TrackHeldNonModifier(st, vk, down, up);
      }
      DecideCompletes(TrackHeld(st, vk, down, up), vk, down, name);
    }
  }

  /** The capture part returns early only on a key-down of a non-modifier, without swallowing it only for Tab. */
  lemma CaptureReturns(st: HookState, vk: nat, down: bool, up: bool, name: Option<string>)
    ensures var c := Capture(st, vk, down, up, name);
      && (c.Returned? ==> down && !IsModifierKey(vk))
      && (c.Returned? && !c.swallow ==> vk == VkTab)
  {
  }

  /** The held flags after `TrackHeld`: each follows a down/up event of its own family. */
  lemma TrackHeldFlags(st: HookState, vk: nat, down: bool, up: bool)
    requires down || up
    ensures var h := TrackHeld(st, vk, down, up);
      && h.shift == (if IsShiftKey(vk) then down else st.shift)
      && h.ctrl == (if IsCtrlKey(vk) then down else st.ctrl)
      && h.alt == (if IsAltKey(vk) then down else st.alt)
      && h.win == (if IsWinKey(vk) then down else st.win)
  {
    ModifierFamilies(vk);
  }

  /** While capturing, the four held flags follow the last down/up event of their family. */
  lemma HookHeldFlags(st: HookState, code: int, e: KeyEvent)
    requires st.active && code >= 0 && (IsKeyDown(e.message) || IsKeyUp(e.message))
    ensures var r := HookStep(st, code, e).state; var vk := Vk(e); var down := IsKeyDown(e.message);
      && r.shift == (if IsShiftKey(vk) then down else st.shift)
      && r.ctrl == (if IsCtrlKey(vk) then down else st.ctrl)
      && r.alt == (if IsAltKey(vk) then down else st.alt)
      && r.win == (if IsWinKey(vk) then down else st.win)
  {
    CaptureKeepsFlags(st, Vk(e), IsKeyDown(e.message), IsKeyUp(e.message), VkToName(Vk(e), e.scanCode, e.keyText));
    TrackHeldFlags(st, Vk(e), IsKeyDown(e.message), IsKeyUp(e.message));
  }

  /** While capturing, Esc pressed cancels with the empty marker and is swallowed, whatever is held. */
  lemma HookEscCancels(st: HookState, code: int, e: KeyEvent)
    requires st.active && code >= 0 && IsKeyDown(e.message) && Vk(e) == VkEscape
    ensures HookStep(st, code, e) == HookOutcome(st.(active := false, captured := Some("")), true)
  {
  }

  /** While capturing, Tab pressed is passed on and changes nothing, not even the paste tracking. */
  lemma HookTabSkipped(st: HookState, code: int, e: KeyEvent)
    requires st.active && code >= 0 && IsKeyDown(e.message) && Vk(e) == VkTab
    ensures HookStep(st, code, e) == HookOutcome(st, false)
  {
  }

  /** While capturing, a key pressed with no modifier held leaves the capture running. */
  lemma HookBareKeyIgnored(st: HookState, code: int, e: KeyEvent)
    requires st.active && code >= 0 && IsKeyDown(e.message)
    requires !IsModifierKey(Vk(e)) && Vk(e) != VkEscape && !AnyHeld(st)
    ensures var r := HookStep(st, code, e);
      r.state.active && r.state.captured == st.captured && !r.swallow
  {
    ModifierFamilies(Vk(e));
  }

  /**
   * A capture completes exactly when an active capture sees a non-modifier
   * key other than Esc and Tab pressed, with a modifier held and a name for
   * the key; the stored string is the held prefix followed by that name.
   */
  lemma HookCaptures(st: HookState, code: int, e: KeyEvent)
    ensures var r := HookStep(st, code, e);
      var vk := Vk(e);
      var name := VkToName(vk, e.scanCode, e.keyText);
      var completes := code >= 0 && st.active && IsKeyDown(e.message) && !IsModifierKey(vk)
        && vk != VkEscape && vk != VkTab && AnyHeld(st) && name.Some?;
      && (completes <==> st.active && !r.state.active && r.state.captured != Some(""))
      && (completes ==> r.state == st.(active := false, captured := Some(HeldPrefix(st) + name.value)) && r.swallow)
  {
    if code >= 0 {
      CaptureCompletes(st, Vk(e), IsKeyDown(e.message), IsKeyUp(e.message), VkToName(Vk(e), e.scanCode, e.keyText));
    }
  }

  /** An event is swallowed exactly when it cancels or completes an active capture. */
  lemma HookSwallows(st: HookState, code: int, e: KeyEvent)
    ensures var vk := Vk(e);
      HookStep(st, code, e).swallow <==>
        code >= 0 && st.active && IsKeyDown(e.message)
        && (vk == VkEscape
            || (!IsModifierKey(vk) && vk != VkTab && AnyHeld(st) && VkToName(vk, e.scanCode, e.keyText).Some?))
  {
    ModifierFamilies(Vk(e));
  }

  /**
   * The Ctrl flag follows the last Ctrl transition (any message other than a
   * key-down clears it), and the latch is raised by V pressed while Ctrl is
   * held, unless the capture consumed that event; nothing else lowers it.
   */
  lemma HookPasteLatch(st: HookState, code: int, e: KeyEvent)
    ensures var r := HookStep(st, code, e).state; var vk := Vk(e); var down := IsKeyDown(e.message);
      && r.ctrlPressed == (if code >= 0 && IsCtrlKey(vk) then down else st.ctrlPressed)
      && (r.ctrlVDetected <==>
            st.ctrlVDetected
            || (code >= 0 && down && vk == VkV && st.ctrlPressed && !HookStep(st, code, e).swallow))
  {
    var vk := Vk(e);
    ModifierFamilies(vk);
    var name := VkToName(vk, e.scanCode, e.keyText);
    CaptureKeepsFlags(st, vk, IsKeyDown(e.message), IsKeyUp(e.message), name);
    CaptureReturns(st, vk, IsKeyDown(e.message), IsKeyUp(e.message), name);
  }

  // ---------------------------------------------------------------------
  // Polling

  predicate Pressed(pressed: set<nat>, vk: nat) { vk in pressed && !IsModifierKey(vk) }

  /** The first candidate that is held down and is not a modifier. */
  function FirstPressed(candidates: seq<nat>, pressed: set<nat>): Option<nat> {
    if candidates == [] then None
    else if Pressed(pressed, candidates[0]) then Some(candidates[0])
    else FirstPressed(candidates[1..], pressed)
  }

  /** `FirstPressed` finds the earliest pressed candidate, and nothing when none is pressed. */
  lemma {:induction false} FirstPressedSpec(candidates: seq<nat>, pressed: set<nat>)
    ensures FirstPressed(candidates, pressed).None? <==>
      forall i :: 0 <= i < |candidates| ==> !Pressed(pressed, candidates[i])
    ensures FirstPressed(candidates, pressed).Some? ==>
      exists i :: 0 <= i < |candidates| && candidates[i] == FirstPressed(candidates, pressed).value
        && Pressed(pressed, candidates[i])
        && forall j :: 0 <= j < i ==> !Pressed(pressed, candidates[j])
  {
    if candidates != [] {
      FirstPressedSpec(candidates[1..], pressed);
      if !Pressed(pressed, candidates[0]) && FirstPressed(candidates, pressed).Some? {
        var i :| 0 <= i < |candidates[1..]| && candidates[1..][i] == FirstPressed(candidates, pressed).value
          && Pressed(pressed, candidates[1..][i])
          && forall j :: 0 <= j < i ==> !Pressed(pressed, candidates[1..][j]);
        assert candidates[i + 1] == FirstPressed(candidates, pressed).value;
        assert forall j :: 0 <= j < i + 1 ==> !Pressed(pressed, candidates[j]) by {
          forall j | 0 <= j < i + 1 ensures !Pressed(pressed, candidates[j]) {
            if j > 0 { assert candidates[j] == candidates[1..][j - 1]; }
          }
        }
      }
    }
  }

  /** The pressed candidate at `i` is the first one when none before it is pressed. */
  lemma {:induction false} FirstPressedAt(candidates: seq<nat>, pressed: set<nat>, i: nat)
    requires i < |candidates| && Pressed(pressed, candidates[i])
    requires forall j :: 0 <= j < i ==> !Pressed(pressed, candidates[j])
    ensures FirstPressed(candidates, pressed) == Some(candidates[i])
  {
    if i > 0 {
      assert !Pressed(pressed, candidates[0]);
      FirstPressedAt(candidates[1..], pressed, i - 1);
    }
  }

  /** What a poll returns together with the new state. */
  datatype PollOutcome = PollOutcome(state: HookState, result: Option<string>)

  predicate HasCtrl(pressed: set<nat>) { 0x11 in pressed || 0xA2 in pressed || 0xA3 in pressed }
  predicate HasAlt(pressed: set<nat>) { 0x12 in pressed || 0xA4 in pressed || 0xA5 in pressed }
  predicate HasShift(pressed: set<nat>) { 0x10 in pressed || 0xA0 in pressed || 0xA1 in pressed }
  predicate HasWin(pressed: set<nat>) { 0x5B in pressed || 0x5C in pressed }

  function PressedPrefix(pressed: set<nat>): string {
    ModifierPrefix(HasCtrl(pressed), HasAlt(pressed), HasShift(pressed), HasWin(pressed))
  }

  /** The name a poll gives a key: `vk_to_name`, with the `VKxx` form when it has none. */
  function PollName(vk: nat, scanCodeOf: nat -> nat, keyTextOf: nat -> string): string {
    VkToName(vk, scanCodeOf(vk), keyTextOf(vk)).GetOr("VK" + Hex2(vk))
  }

  /**
   * `poll_hotkey_capture` on a snapshot of the pressed keys: nothing unless
   * a capture is active and a modifier is held; then the first pressed
   * candidate completes the capture, which is both stored and returned.
   */
  function Poll(st: HookState, pressed: set<nat>, scanCodeOf: nat -> nat, keyTextOf: nat -> string): PollOutcome {
    if !st.active then PollOutcome(st, None)
    else if !(HasCtrl(pressed) || HasAlt(pressed) || HasShift(pressed) || HasWin(pressed)) then PollOutcome(st, None)
    else
      match FirstPressed(HotkeyCandidates, pressed)
      case None => PollOutcome(st, None)
      case Some(vk) =>
        var hotkey := PressedPrefix(pressed) + PollName(vk, scanCodeOf, keyTextOf);
        PollOutcome(st.(active := false, captured := Some(hotkey)), Some(hotkey))
  }

  /**
   * A poll returns something exactly when a capture is active, a modifier is
   * held and some candidate is pressed; the value returned is the one stored,
   * made of the pressed prefix and the earliest pressed candidate's common name,
   * and the capture ends.  Otherwise nothing changes.
   */
  lemma PollResult(st: HookState, pressed: set<nat>, scanCodeOf: nat -> nat, keyTextOf: nat -> string)
    ensures var r := Poll(st, pressed, scanCodeOf, keyTextOf);
      && (r.result.Some? <==>
            st.active && (HasCtrl(pressed) || HasAlt(pressed) || HasShift(pressed) || HasWin(pressed))
            && exists i :: 0 <= i < |HotkeyCandidates| && Pressed(pressed, HotkeyCandidates[i]))
      && (r.result.None? ==> r.state == st)
      && (r.result.Some? ==>
            && r.state == st.(active := false, captured := r.result)
            && exists i :: 0 <= i < |HotkeyCandidates| && Pressed(pressed, HotkeyCandidates[i])
                 && (forall j :: 0 <= j < i ==> !Pressed(pressed, HotkeyCandidates[j]))
                 && CommonKeyName(HotkeyCandidates[i]).Some?
                 && r.result.value == PressedPrefix(pressed) + CommonKeyName(HotkeyCandidates[i]).value)
  {
    FirstPressedSpec(HotkeyCandidates, pressed);
    CandidatesNamed();
    var first := FirstPressed(HotkeyCandidates, pressed);
    if first.Some? {
      VkToNameResult(first.value, scanCodeOf(first.value), keyTextOf(first.value));
    }
  }

  // ---------------------------------------------------------------------
  // The monitor object

  /** The process-wide keyboard state shared by the hook, the poller and the UI. */
  class InputMonitor {
    var captureActive: bool
    var capturedHotkey: Option<string>
    var ctrlVDetected: bool
    var ctrlPressed: bool
    var captureCtrl: bool
    var captureAlt: bool
    var captureShift: bool
    var captureWin: bool

    function State(): HookState
      reads this
    {
      HookState(captureActive, captureCtrl, captureAlt, captureShift, captureWin,
                capturedHotkey, ctrlPressed, ctrlVDetected)
    }

    /** Every flag starts cleared and nothing is captured. */
    constructor()
      ensures State() == HookState(false, false, false, false, false, None, false, false)
    {
      captureActive := false;
      capturedHotkey := None;
      ctrlVDetected := false;
      ctrlPressed := false;
      captureCtrl := false;
      captureAlt := false;
      captureShift := false;
      captureWin := false;
    }

    /** `start_hotkey_capture`: begin capturing and forget any earlier result. */
    method StartHotkeyCapture()
      modifies this
      ensures State() == old(State()).(active := true, captured := None)
    {
      captureActive := true;
      capturedHotkey := None;
    }

    /** `stop_hotkey_capture`: only the capture flag is cleared. */
    method StopHotkeyCapture()
      modifies this
      ensures State() == old(State()).(active := false)
    {
      captureActive := false;
    }

    /** `get_captured_hotkey`: a consuming read of the result slot. */
    method GetCapturedHotkey() returns (r: Option<string>)
      modifies this
      ensures r == old(capturedHotkey)
      ensures State() == old(State()).(captured := None)
    {
      r := capturedHotkey;
      capturedHotkey := None;
    }

    /** `check_ctrl_v_pressed`: a consuming read of the paste latch. */
    method CheckCtrlVPressed() returns (b: bool)
      modifies this
      ensures b == old(ctrlVDetected)
      ensures State() == old(State()).(ctrlVDetected := false)
    {
      b := ctrlVDetected;
      ctrlVDetected := false;
    }

    /** Sets or clears the held flag of the modifier family `vk` belongs to. */
    method TrackHeldModifier(vk: nat, isKeyDown: bool, isKeyUp: bool)
      modifies this
      ensures State() == TrackHeld(old(State()), vk, isKeyDown, isKeyUp)
    {
      if isKeyDown || isKeyUp {
        if vk == 0x10 || vk == 0xA0 || vk == 0xA1 {
          captureShift := isKeyDown;
        } else if vk == 0x11 || vk == 0xA2 || vk == 0xA3 {
          captureCtrl := isKeyDown;
        } else if vk == 0x12 || vk == 0xA4 || vk == 0xA5 {
          captureAlt := isKeyDown;
        } else if vk == 0x5B || vk == 0x5C {
          captureWin := isKeyDown;
        }
      }
    }

    /** The capture part of the hook; `returned` tells whether the hook returns `swallow` at once. */
    method CaptureEvent(vk: nat, isKeyDown: bool, isKeyUp: bool, e: KeyEvent) returns (returned: bool, swallow: bool)
      requires captureActive
      modifies this
      ensures returned ==> Capture(old(State()), vk, isKeyDown, isKeyUp, VkToName(vk, e.scanCode, e.keyText)) == Returned(State(), swallow)
      ensures !returned ==> Capture(old(State()), vk, isKeyDown, isKeyUp, VkToName(vk, e.scanCode, e.keyText)) == Continue(State())
    {
      TrackHeldModifier(vk, isKeyDown, isKeyUp);
      if isKeyDown && vk == VkEscape {
        captureActive := false;
        capturedHotkey := Some("");
        return true, true;
      }
      if isKeyDown && !IsModifierKey(vk) {
        if vk == VkTab {
          return true, false;
        }
        if captureCtrl || captureAlt || captureShift || captureWin {
          var hotkey := BuildPrefix(captureCtrl, captureAlt, captureShift, captureWin);
          var keyName := VkToName(vk, e.scanCode, e.keyText);
          if keyName.Some? {
            hotkey := hotkey + keyName.value;
            capturedHotkey := Some(hotkey);
            captureActive := false;
            return true, true;
          }
        }
      }
      return false, false;
    }

    /** `keyboard_hook_proc`: returns true when the event is swallowed. */
    method KeyboardHookProc(code: int, e: KeyEvent) returns (swallow: bool)
      modifies this
      ensures State() == HookStep(old(State()), code, e).state
      ensures swallow == HookStep(old(State()), code, e).swallow
    {
      if code >= 0 {
        var vk := e.vkCode % 0x10000;
        var isKeyDown := e.message == KeyDown || e.message == SysKeyDown;
        var isKeyUp := e.message == KeyUp || e.message == SysKeyUp;
        if captureActive {
          var returned;
          returned, swallow := CaptureEvent(vk, isKeyDown, isKeyUp, e);
          if returned {
            return;
          }
        }
        if vk == VkControl || vk == 0xA2 || vk == 0xA3 {
          ctrlPressed := isKeyDown;
        }
        if isKeyDown && vk == VkV && ctrlPressed {
          ctrlVDetected := true;
        }
      }
      return false;
    }

    /**
     * `poll_hotkey_capture`, with `GetAsyncKeyState` as the set of keys held
     * down and `MapVirtualKeyW`/`GetKeyNameTextW` as functions of the key.
     */
    method PollHotkeyCapture(pressed: set<nat>, scanCodeOf: nat -> nat, keyTextOf: nat -> string)
      returns (r: Option<string>)
      modifies this
      ensures State() == Poll(old(State()), pressed, scanCodeOf, keyTextOf).state
      ensures r == Poll(old(State()), pressed, scanCodeOf, keyTextOf).result
    {
      if !captureActive {
        return None;
      }
      var hasCtrl := 0x11 in pressed || 0xA2 in pressed || 0xA3 in pressed;
      var hasAlt := 0x12 in pressed || 0xA4 in pressed || 0xA5 in pressed;
      var hasShift := 0x10 in pressed || 0xA0 in pressed || 0xA1 in pressed;
      var hasWin := 0x5B in pressed || 0x5C in pressed;
      if !(hasCtrl || hasAlt || hasShift || hasWin) {
        return None;
      }
      var found := FindPressedCandidate(pressed);
      match found
      case None =>
        return None;
      case Some(vk) =>
        var name := PollName(vk, scanCodeOf, keyTextOf);
        var hotkey := BuildPrefix(hasCtrl, hasAlt, hasShift, hasWin);
        hotkey := hotkey + name;
        captureActive := false;
        capturedHotkey := Some(hotkey);
        return Some(hotkey);
    }
  }

  /** The loop of `poll_hotkey_capture` over the candidates, stopping at the first one pressed. */
  method FindPressedCandidate(pressed: set<nat>) returns (found: Option<nat>)
    ensures found == FirstPressed(HotkeyCandidates, pressed)
  {
    var i := 0;
    while i < |HotkeyCandidates|
      invariant 0 <= i <= |HotkeyCandidates|
      invariant forall j :: 0 <= j < i ==> !Pressed(pressed, HotkeyCandidates[j])
    {
      var vk := HotkeyCandidates[i];
      if vk in pressed && !IsModifierKey(vk) {
        FirstPressedAt(HotkeyCandidates, pressed, i);
        return Some(vk);
      }
      i := i + 1;
    }
    FirstPressedSpec(HotkeyCandidates, pressed);
    return None;
  }

  /** Builds the modifier prefix with successive appends, as both capture paths do. */
  method BuildPrefix(ctrl: bool, alt: bool, shift: bool, win: bool) returns (hotkey: string)
    ensures hotkey == ModifierPrefix(ctrl, alt, shift, win)
  {
    hotkey := "";
    if ctrl { hotkey := hotkey + "Ctrl+"; }
    if alt { hotkey := hotkey + "Alt+"; }
    if shift { hotkey := hotkey + "Shift+"; }
    if win { hotkey := hotkey + "Win+"; }
  }

  /** A second consuming read straight after the first finds nothing. */
  method ConsumingReads(m: InputMonitor) returns (first: Option<string>, second: Option<string>, v1: bool, v2: bool)
    modifies m
    ensures first == old(m.capturedHotkey) && second == None
    ensures v1 == old(m.ctrlVDetected) && !v2
  {
    first := m.GetCapturedHotkey();
    second := m.GetCapturedHotkey();
    v1 := m.CheckCtrlVPressed();
    v2 := m.CheckCtrlVPressed();
  }

  /** Start then stop leaves the capture inactive with no result, and keeps the held flags. */
  method StartStop(m: InputMonitor)
    modifies m
    ensures !m.captureActive && m.capturedHotkey == None
    ensures m.State() == old(m.State()).(active := false, captured := None)
  {
    m.StartHotkeyCapture();
    assert m.captureActive;
    m.StopHotkeyCapture();
  }
}
