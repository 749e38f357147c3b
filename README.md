# NanoTrans core, modelled in Dafny

NanoTrans is a desktop translation helper. A global hotkey takes the selected
text and shows a popup next to the caret with its translation, which comes
from Google, DeepL, an OpenAI-compatible endpoint or Anthropic. This project
models and proves properties of the logic behind that:

- **Hotkey binding** (`hotkey.dfy`). The mnemonic parser turns `Ctrl+Shift+T`
  into a modifier set and one key code. The `HotkeyManager` class holds the
  current binding. The platform registry is a `HotkeyRegistry` class: a set of
  registered keys, plus the keys other programs hold (`taken`) and keys that
  refuse to be released (`stuck`).
  `hotkey_examples.dfy` works through the source's own test strings.
  `capture_parse.dfy` shows that every hotkey the capture produces parses
  back to the modifiers that were held and the key that was pressed.
- **Interactive capture and the paste latch** (`input.dfy`). The keyboard hook
  is a step function over `HookState`. The `InputMonitor` class holds that
  state and updates it one event at a time. The snapshot-based poll takes the
  set of pressed virtual keys.
- **Popup placement and caret lookup** (`caret.dfy`). The operating system's
  answers (foreground window, GUI thread info, client origin, cursor, screen
  size) are parameters.
- **Configuration** (`config.dfy`). `Config` is a class. `NormalizeProviders`
  merges the saved providers with the built-in ones in place. The lookups and
  the defaults are also modelled.
- **Prompt construction and request shaping** (`translate.dfy`). This covers
  CJK detection, language names, placeholder substitution, the choice between
  preset and built-in prompts, endpoints, the per-provider request fields, the
  reply extraction, and the checks `translate` makes before any request.
- **Interface language** (`i18n.dfy`). This covers the index mapping, the
  system-language test and the current-language cell.
- **Settings-window bookkeeping** (`app.dfy`, from `src/main.rs`). This covers
  the prompt-preset draft (edit, add, delete, select), the initial selections,
  the language list, applying a captured hotkey, and the start-up fallback to
  the default hotkey.
- `text.dfy` holds the string operations of Rust's standard library that the
  code relies on: `split`, `trim`, `to_lowercase`, `replace`,
  `trim_end_matches` and number formatting. `wrappers.dfy` holds `Option`,
  `Result` and `Outcome`.

Two behaviours of the code that its error names do not suggest:

- `parse_hotkey` has no "empty input" or "several main keys" error.
  `"".split('+')` always yields one part, so the `parts.is_empty()` guard
  (src/hotkey.rs:118) never fires. A later key token silently replaces an
  earlier one.
- `update_hotkey` decides "unchanged" by comparing lower-cased strings only.
  Reordered or synonym spellings count as a change.

## Model

| member | source | states |
|---|---|---|
| Hotkey.ParseKeyCode | src/hotkey.rs:147-227 | an error always names the rejected token itself |
| Hotkey.KeyCodeSingleChar | src/hotkey.rs:148-187 | a single letter in either case maps to its upper-case letter key; a single digit maps to its digit key |
| Hotkey.FunctionKeyNames | src/hotkey.rs:189-201 | exactly `f1` to `f12` name a function key, and each names the one with its own number |
| Hotkey.KeyCodeUnknown | src/hotkey.rs:222 | a token outside the key table is rejected as unknown, with the token as given |
| Hotkey.ParseKeyCodeCaseInsensitive | src/hotkey.rs:148 | whether a key token is accepted, and which key it names, does not depend on its case |
| Hotkey.LookupFirst | src/hotkey.rs:203-221 | a table lookup succeeds exactly when some row carries the name, and then returns the first such row |
| Hotkey.Finish | src/hotkey.rs:137-143 | a parsed hotkey always carries at least one modifier |
| Hotkey.ParseHotkey | src/hotkey.rs:115-144 | the loop over trimmed, lower-cased `+`-separated tokens computes the parser's specification |
| Hotkey.ScanTokens | src/hotkey.rs:124-135 | the token loop computes the left-to-right scan, stopping at the first error |
| Hotkey.ApplyToken | src/hotkey.rs:125-134 | one token either adds a modifier, replaces the key, or fails |
| Hotkey.ScanPrefix | src/hotkey.rs:124-135 | the scan of one more token is one step from the scan of the tokens before it |
| Hotkey.PrefixErrorPersists | src/hotkey.rs:132 | once a prefix of the tokens fails, the whole scan fails with that same error (the `?` ends the loop) |
| Hotkey.ScanOkIff | src/hotkey.rs:124-135 | the scan succeeds exactly when every lower-cased token is a modifier synonym or a known key |
| Hotkey.ScanStepOk | src/hotkey.rs:125-133 | one step fails exactly on a token that is neither a modifier synonym nor a known key |
| Hotkey.ScanMods | src/hotkey.rs:126-129 | a modifier is in the result exactly when one of its synonyms occurs among the tokens |
| Hotkey.ScanNoKey | src/hotkey.rs:130-141 | no key is recorded exactly when every token is a modifier synonym |
| Hotkey.ScanLastKey | src/hotkey.rs:131-133 | the recorded key is the one named by the last non-modifier token |
| Hotkey.Tokens | src/hotkey.rs:116 | defines the tokens: the `+`-separated pieces, each trimmed; `TokensOfPieces` and `TokensLower` state their properties |
| Hotkey.Scan | src/hotkey.rs:122-135 | defines the token loop, left to right and stopping at the first unknown token; `ScanOkIff`, `ScanMods`, `ScanLastKey` and `ScanError` characterise it |
| Hotkey.ParseSpec | src/hotkey.rs:115-144 | defines what `parse_hotkey` returns: the scan of the tokens followed by the modifier and key checks; `ParseHotkey` is proved to compute it |
| Hotkey.ScanError | src/hotkey.rs:124-135 | a failed scan names the first token that is neither a modifier nor a known key |
| Hotkey.TokensLower | src/hotkey.rs:116-125 | lower-casing the string first yields the same tokens, each lower-cased |
| Hotkey.ScanLowerAll | src/hotkey.rs:125 | the scan ignores the case of its tokens |
| Hotkey.ParseCaseInsensitive | src/hotkey.rs:115-144 | parsing the lower-cased string gives exactly the same result, success or error |
| Hotkey.SameLowerSameBinding | src/hotkey.rs:86-91 | two strings that the "already bound" test treats as equal parse to the same hotkey or the same error |
| Hotkey.ScanSnoc | src/hotkey.rs:124-135 | scanning one more token extends the scan by one step, or keeps its error |
| Hotkey.StepModifier | src/hotkey.rs:126-129 | a modifier token adds its modifier and keeps the key |
| Hotkey.StepKey | src/hotkey.rs:130-133 | a key token replaces the key and keeps the modifiers |
| Hotkey.TokensOfPieces | src/hotkey.rs:116 | a string whose `+`-pieces need no trimming splits into exactly those pieces |
| Hotkey.TokensOfOne | src/hotkey.rs:116 | a string without `+` or surrounding space is one token |
| Hotkey.TokensOfTwo | src/hotkey.rs:116 | `a+b` yields the tokens a and b |
| Hotkey.TokensOfThree | src/hotkey.rs:116 | `a+b+c` yields the tokens a, b and c |
| Hotkey.ParseSpecOfScan | src/hotkey.rs:137-143 | a scan with modifiers and a key is the parse result |
| Hotkey.ScanSnocModifier | src/hotkey.rs:126-129 | appending a modifier token adds its modifier to a successful scan |
| Hotkey.ScanSnocKey | src/hotkey.rs:130-133 | appending a key token sets the key of a successful scan |
| Hotkey.ScanModifierKey | src/hotkey.rs:124-135 | a modifier token followed by a key token scans to that modifier and key |
| Hotkey.ParseModifierKey | src/hotkey.rs:115-144 | `modifier+key` parses to that single modifier and key |
| Hotkey.ScanModifiersKey | src/hotkey.rs:124-135 | two modifier tokens followed by a key token scan to both modifiers and the key |
| Hotkey.ParseModifiersKey | src/hotkey.rs:115-144 | `modifier+modifier+key` parses to both modifiers and the key |
| Hotkey.ModifierBits | src/hotkey.rs:67 | the modifier part of a hotkey id fits in four bits |
| Hotkey.ModifierBitsInjective | src/hotkey.rs:67 | different modifier sets get different modifier bits |
| Hotkey.CodeNumberInjective | src/hotkey.rs:67 | different key codes get different numbers |
| Hotkey.IdParts | src/hotkey.rs:67 | an id splits back into its modifier bits and its key number |
| Hotkey.IdInjective | src/hotkey.rs:81-83 | two hotkeys have the same id exactly when they are the same hotkey |
| Hotkey.IdPositive | src/hotkey.rs:245-256 | every parsed hotkey has a positive id in the model's id encoding |
| Hotkey.HotkeyRegistry.constructor | src/hotkey.rs:64 | a new platform manager has nothing registered |
| Hotkey.HotkeyRegistry.Register | src/hotkey.rs:95 | registering succeeds exactly for a key that is neither registered already nor held elsewhere, and adds only that key |
| Hotkey.HotkeyRegistry.Unregister | src/hotkey.rs:97 | releasing succeeds exactly for a registered key that is not stuck, and removes only that key |
| Hotkey.HotkeyManager.constructor | src/hotkey.rs:71-76 | the fields hold the hotkey, its id and the lower-cased string |
| Hotkey.HotkeyManager.New | src/hotkey.rs:64-78 | a parse error is returned as it is; otherwise the new manager exists exactly when registration succeeds, and then holds the parsed hotkey, its id and the lower-cased string, with only that key added to the registry |
| Hotkey.HotkeyManager.IsTranslateHotkey | src/hotkey.rs:81-83 | an event matches exactly when its id is the bound hotkey's id, that is, exactly when it comes from the bound hotkey |
| Hotkey.HotkeyManager.UpdateHotkey | src/hotkey.rs:86-104 | the same lower-cased string changes nothing; otherwise the update succeeds exactly when the string parses, the new key is neither registered nor taken, and the old key can be released; the error is the parse error, then `RegisterFailed`, then `UnregisterFailed`; success swaps the keys in the registry and any failure leaves the fields as they were and the old key registered |
| Hotkey.HotkeyManager.Rebind | src/hotkey.rs:95-101 | the new key is registered before the old one is released; the swap succeeds exactly when the new key is free and the old one is not stuck, failing with `RegisterFailed` or else `UnregisterFailed`; the fields change only after both steps succeed |
| Hotkey.HotkeyManager.Release | src/hotkey.rs:108-112 | dropping the manager releases the bound key unless the platform refuses |
| HotkeyExamples.KeyCodeExampleLetter | src/hotkey.rs:261 | `a` is the key A |
| HotkeyExamples.KeyCodeExampleFunction | src/hotkey.rs:262 | `F1` is the key F1 |
| HotkeyExamples.KeyCodeExampleNamed | src/hotkey.rs:263 | `space` is the space key |
| HotkeyExamples.KeyCodeExampleUnknown | src/hotkey.rs:264 | `invalid` is rejected as an unknown key |
| HotkeyExamples.SevenLetterTokenUnknown | src/hotkey.rs:147-222 | no key name has seven letters, so every seven-letter token is unknown |
| HotkeyExamples.ShortTokenNotModifier | src/hotkey.rs:126-129 | no token shorter than three characters is a modifier synonym |
| HotkeyExamples.LetterToken | src/hotkey.rs:148-175 | an upper-case letter is a key token for its own letter key |
| HotkeyExamples.ParseExampleAltQ | src/hotkey.rs:246 | `Alt+Q` parses to Alt with Q |
| HotkeyExamples.CtrlToken | src/hotkey.rs:126 | `Ctrl` is the Control modifier |
| HotkeyExamples.ShiftToken | src/hotkey.rs:128 | `Shift` is the Shift modifier |
| HotkeyExamples.CmdToken | src/hotkey.rs:129 | `Cmd` is the Meta modifier |
| HotkeyExamples.OptionToken | src/hotkey.rs:127 | `Option` is the Alt modifier |
| HotkeyExamples.ParseExampleCtrlShiftT | src/hotkey.rs:249 | `Ctrl+Shift+T` parses to Control and Shift with T |
| HotkeyExamples.ParseExampleCmdShiftT | src/hotkey.rs:252 | `Cmd+Shift+T` parses to Meta and Shift with T |
| HotkeyExamples.ParseExampleOptionQ | src/hotkey.rs:255 | `Option+Q` parses to Alt with Q |
| HotkeyExamples.ParseExampleNoModifier | src/hotkey.rs:137-139 | `Q` alone is rejected for lacking a modifier |
| HotkeyExamples.ParseExampleNoKey | src/hotkey.rs:141 | `Ctrl` alone is rejected for lacking a key |
| HotkeyExamples.ParseLoneModifier | src/hotkey.rs:141 | any single modifier token is rejected for lacking a key |
| HotkeyExamples.ParseExampleEmpty | src/hotkey.rs:115-144 | the empty string is one empty token, rejected as an unknown key, not as an empty hotkey |
| HotkeyExamples.EmptyTokenUnknown | src/hotkey.rs:130-133 | the empty token is not a modifier and is an unknown key |
| HotkeyExamples.NoEmptyKeyName | src/hotkey.rs:147-222 | no key is named by the empty string |
| Input.Vk | src/input.rs:189 | the `as u16` cast keeps codes below 65536 and always yields one below 65536 |
| Input.ModifierFamilies | src/input.rs:178-217 | the modifier keys are exactly the Shift, Ctrl, Alt and Win codes, and the four families do not overlap |
| Input.CommonKeyName | src/input.rs:154-176 | defines the fixed names of letters, digits, F1-F12 and the named keys; `CaptureParse.CommonKeyNameParses` proves each parses back to its key |
| Input.VkToName | src/input.rs:124-152 | defines the key name: the common name, else the trimmed NUL-free key text when there is a scan code; `VkToNameResult` states its cases |
| Input.ModifierPrefix | src/input.rs:238-241 | defines the `Ctrl+`, `Alt+`, `Shift+`, `Win+` prefix of the held modifiers; `ModifierPrefixShape` and `BuildPrefix` state its shape and construction |
| Input.WithoutNul | src/input.rs:144 | dropping NUL characters leaves none and keeps a NUL-free name as it is |
| Input.VkToNameResult | src/input.rs:124-152 | a key has no name exactly when it has neither a common name nor a scan code; a name is never empty; the common name wins |
| Input.ModifierPrefixShape | src/input.rs:236-241 | the modifier prefix is empty exactly when no modifier is held, and otherwise ends in `+` |
| Input.Range | src/input.rs:117-122 | a code range lists each code from its lower bound up, once |
| Input.CandidatesNamed | src/input.rs:117-122 | the 62 poll candidates all have common names and none is a modifier; Tab is one of them and Esc is not |
| Input.HookStep | src/input.rs:182-266 | defines one call of `keyboard_hook_proc` on the hook state; `KeyboardHookProc` is proved to compute it and the `Hook` lemmas state its promises |
| Input.HookNegativeCode | src/input.rs:187-265 | an event with a negative hook code changes nothing and is passed on |
| Input.HookInactive | src/input.rs:254-262 | without an active capture only the paste tracking runs, and the event is passed on |
| Input.DecideKeepsFlags | src/input.rs:219-250 | the capture decision changes at most the active flag and the captured result |
| Input.CaptureKeepsFlags | src/input.rs:192-252 | the capture part changes only the held-modifier flags, the active flag and the captured result |
| Input.TrackHeldNonModifier | src/input.rs:194-217 | a key that is not a modifier leaves the held flags alone |
| Input.TrackHeldFlags | src/input.rs:194-217 | a press sets and a release clears the flag of the key's family; the other flags stay |
| Input.HookHeldFlags | src/input.rs:194-217 | during a capture, each event on a modifier key sets or clears its family's held flag; left, right and generic codes share one flag |
| Input.HookEscCancels | src/input.rs:219-224 | Esc pressed during a capture ends it, stores the empty cancel marker, and swallows the key, whatever is held |
| Input.HookTabSkipped | src/input.rs:226-229 | Tab pressed during a capture changes nothing and is passed on |
| Input.HookBareKeyIgnored | src/input.rs:231-236 | a non-modifier key pressed with no modifier held keeps the capture going, leaves the result alone and is passed on |
| Input.DecideCompletes | src/input.rs:231-250 | an active capture finalises exactly on a named non-modifier, non-Esc, non-Tab key pressed with a modifier held, storing the held prefix plus the key name |
| Input.CaptureCompletes | src/input.rs:190-252 | the capture part finalises exactly under those conditions, and then stores the held prefix plus the key name and swallows the key |
| Input.CaptureReturns | src/input.rs:219-250 | the capture part returns early only on a non-modifier key press, and passes the key on only for Tab |
| Input.HookCaptures | src/input.rs:182-266 | one hook event completes a capture exactly when it is a named non-modifier, non-Esc, non-Tab key press with a modifier held; the result is the prefix in the order Ctrl, Alt, Shift, Win followed by the key name |
| Input.HookSwallows | src/input.rs:182-266 | the hook swallows a key exactly when it cancels or completes a capture |
| Input.HookPasteLatch | src/input.rs:254-262 | the ctrl flag follows the last Ctrl event; the latch rises on V pressed with Ctrl held, unless that event ended a capture, and otherwise keeps its value |
| Input.FirstPressedSpec | src/input.rs:86-87 | the search finds the earliest pressed non-modifier candidate, and nothing exactly when none is pressed |
| Input.FirstPressed | src/input.rs:86-87 | defines the search for the first pressed candidate; `FirstPressedSpec` characterises it |
| Input.Poll | src/input.rs:72-111 | defines one call of `poll_hotkey_capture`; `PollResult` characterises it and `PollHotkeyCapture` is proved to compute it |
| Input.FirstPressedAt | src/input.rs:86-87 | the earliest pressed candidate is the one found |
| Input.PollResult | src/input.rs:72-111 | a poll yields a hotkey exactly when a capture is active, a modifier is pressed and a candidate is pressed; it then ends the capture, stores the result, and builds it from the pressed modifiers and the first pressed candidate's name; otherwise nothing changes |
| Input.InputMonitor.constructor | src/input.rs:16-18 | all flags start cleared and nothing is captured |
| Input.InputMonitor.StartHotkeyCapture | src/input.rs:20-24 | starting a capture sets the active flag and clears any previous result |
| Input.InputMonitor.StopHotkeyCapture | src/input.rs:26-29 | stopping only clears the active flag |
| Input.InputMonitor.GetCapturedHotkey | src/input.rs:31-33 | reading the result returns it and empties the slot |
| Input.InputMonitor.CheckCtrlVPressed | src/input.rs:35-37 | reading the latch returns it and lowers it |
| Input.InputMonitor.TrackHeldModifier | src/input.rs:194-217 | the held flags are updated as the step function says |
| Input.InputMonitor.CaptureEvent | src/input.rs:190-252 | the capture part updates the state and decides on returning early as the step function says |
| Input.InputMonitor.KeyboardHookProc | src/input.rs:182-266 | one event updates the globals and answers "swallow" exactly as the step function says |
| Input.InputMonitor.PollHotkeyCapture | src/input.rs:72-111 | the poll loop updates the globals and returns the result exactly as the poll function says |
| Input.FindPressedCandidate | src/input.rs:86-87 | the loop over the candidates finds the first pressed one |
| Input.BuildPrefix | src/input.rs:96-101 | the `push_str` sequence builds the modifier prefix in the order Ctrl, Alt, Shift, Win |
| Input.ConsumingReads | src/input.rs:31-37 | a second read straight after the first yields no result and no latch |
| Input.StartStop | src/input.rs:391-397 | starting then stopping a capture leaves it inactive with no result, and nothing else changed |
| CaptureParse.PrefixedAppend | src/input.rs:237-241 | the prefix of two token lists is the concatenation of their prefixes |
| CaptureParse.PrefixedMaybe | src/input.rs:237-241 | an optional modifier contributes its token and `+`, or nothing |
| CaptureParse.ModifierPrefixTokens | src/input.rs:237-241 | the capture's prefix is each held modifier's token followed by `+`, in order |
| CaptureParse.JoinPrefixed | src/input.rs:237-244 | prefix plus key name is the tokens joined by `+` |
| CaptureParse.AltToken | src/hotkey.rs:127 | `Alt` is the Alt modifier |
| CaptureParse.WinToken | src/hotkey.rs:129 | `Win` is the Meta modifier |
| CaptureParse.ScanModifierTokens | src/hotkey.rs:124-135 | the tokens the capture writes for its held modifiers scan to exactly those modifiers |
| CaptureParse.ScanFourModifiers | src/hotkey.rs:124-135 | four optional modifier tokens scan to the set of those present |
| CaptureParse.ScanMaybeModifier | src/hotkey.rs:126-129 | an optional modifier token adds its modifier when present |
| CaptureParse.LetterKeyToken | src/hotkey.rs:150-175 | a letter's common name parses to that letter's key |
| CaptureParse.DigitKeyToken | src/hotkey.rs:178-187 | a digit's common name parses to that digit's key |
| CaptureParse.FTokenNotModifier | src/hotkey.rs:126-129 | no token starting with `f` is a modifier synonym |
| CaptureParse.FunctionKeyLower | src/input.rs:166-168 | the lower-cased name of a function key is `f` and its number |
| CaptureParse.FunctionKeyPlain | src/input.rs:166-168 | a function key's name needs no trimming and holds no `+` |
| CaptureParse.FunctionKeyToken | src/hotkey.rs:190-201 | F1 to F12's common names parse to those function keys |
| CaptureParse.LowerPointwise | src/hotkey.rs:125 | lower-casing is character by character |
| CaptureParse.NamedToken | src/hotkey.rs:203-221 | a name whose lower case is a key-table row, and no earlier row or modifier, parses to that row's key |
| CaptureParse.SpaceKeyToken | src/hotkey.rs:204 | `Space` parses to the space key |
| CaptureParse.EnterKeyToken | src/hotkey.rs:205 | `Enter` parses to the enter key |
| CaptureParse.TabKeyToken | src/hotkey.rs:206 | `Tab` parses to the tab key |
| CaptureParse.BackspaceKeyToken | src/hotkey.rs:208 | `Backspace` parses to the backspace key |
| CaptureParse.DeleteKeyToken | src/hotkey.rs:209 | `Delete` parses to the delete key |
| CaptureParse.InsertKeyToken | src/hotkey.rs:210 | `Insert` parses to the insert key |
| CaptureParse.HomeKeyToken | src/hotkey.rs:211 | `Home` parses to the home key |
| CaptureParse.EndKeyToken | src/hotkey.rs:212 | `End` parses to the end key |
| CaptureParse.PageUpKeyToken | src/hotkey.rs:213 | `PageUp` parses to the page-up key |
| CaptureParse.PageDownKeyToken | src/hotkey.rs:214 | `PageDown` parses to the page-down key |
| CaptureParse.LeftKeyToken | src/hotkey.rs:219 | `Left` parses to the left arrow |
| CaptureParse.UpKeyToken | src/hotkey.rs:217 | `Up` parses to the up arrow |
| CaptureParse.RightKeyToken | src/hotkey.rs:220 | `Right` parses to the right arrow |
| CaptureParse.DownKeyToken | src/hotkey.rs:218 | `Down` parses to the down arrow |
| CaptureParse.EditingKeyToken | src/input.rs:169-171 | the editing keys' common names parse to their own key codes |
| CaptureParse.NavigationKeyToken | src/input.rs:171-173 | the navigation keys' common names parse to their own key codes |
| CaptureParse.CommonKeyNameParses | src/hotkey.rs:147-227 | every common key name the capture can write parses to the key it was written for |
| CaptureParse.ModifierTokensPlain | src/input.rs:237-241 | the modifier tokens need no trimming and hold no `+` |
| CaptureParse.CapturedTokens | src/hotkey.rs:116 | a captured string splits into the held modifiers' tokens followed by the key name |
| CaptureParse.CapturedParses | src/hotkey.rs:115-144 | a prefix with a held modifier plus a common key name parses to exactly those modifiers and that key |
| CaptureParse.HookCaptureParses | src/hotkey.rs:115-144 | a hook capture of a commonly named key yields a string that parses to the held modifiers and that key |
| CaptureParse.PollCaptureParses | src/hotkey.rs:115-144 | every poll result parses, to the pressed modifiers |
| Caret.PopupPosition | src/caret.rs:150-176 | defines the popup's corner in closed form; `CalculatePopupPosition` is proved to compute it and `PopupOnScreen`, `PopupUnclamped` and `PopupVertical` state its placement |
| Caret.HalfTowardZero | src/caret.rs:158 | `/ 2` on i32 rounds toward zero, for negative widths too |
| Caret.CalculatePopupPosition | src/caret.rs:150-176 | the four successive clamps compute the closed-form placement |
| Caret.PopupOnScreen | src/caret.rs:161-173 | the popup never runs past the right or bottom edge, and starts on screen horizontally when it fits |
| Caret.PopupUnclamped | src/caret.rs:158-175 | when no clamp fires, the popup sits at its initial placement |
| Caret.PopupVertical | src/caret.rs:159-173 | the popup goes above the cursor when there is room; otherwise 20 pixels below, unless it would then leave the screen, when it rests on the bottom edge |
| Caret.PopupExamples | src/caret.rs:150-176 | a 380 by 220 popup on a 1920 by 1080 screen: cursor (960,540) gives (770,310); a cursor at y=5 gives y=25; clamps at both side edges |
| Caret.CaretPosition | src/caret.rs:37-42 | defines the caret, mouse, origin fallback that `CaretPositionFallback` states |
| Caret.CaretFromGuiThread | src/caret.rs:44-91 | a caret point exists exactly when there is a foreground window, a thread, GUI info with a blinking caret window and a client origin; it is the caret's left and bottom in screen coordinates |
| Caret.CaretPositionFallback | src/caret.rs:37-42 | the caret wins when there is one; then the mouse; then the origin |
| Caret.HiddenCaretIgnored | src/caret.rs:72-83 | a caret without a window or not blinking is never used |
| AppConfig.ProviderIds | src/config.rs:238-240 | the id list lines up with the providers |
| AppConfig.PresetIds | src/config.rs:242-244 | the id list lines up with the presets |
| AppConfig.IndexOf | src/config.rs:238-244 | `position` finds the first matching index, and nothing exactly when no entry matches |
| AppConfig.SavedById | src/config.rs:281-285 | collecting into a map keeps exactly the saved ids, each filed under its own id |
| AppConfig.SavedByIdLastWins | src/config.rs:281-285 | for a duplicated id, the last saved entry is kept |
| AppConfig.ClearAll | src/config.rs:311-324 | every provider has the fields its type does not use cleared, in place |
| AppConfig.DefaultIdsDistinct | src/config.rs:125-188 | the built-in providers have distinct ids |
| AppConfig.DefaultsClean | src/config.rs:125-188 | the built-in providers already have their unused fields empty |
| AppConfig.NormalizedFromEmpty | src/config.rs:278-279 | an empty provider list normalises to the built-in providers |
| AppConfig.CollectById | src/config.rs:281-285 | the drain loop builds the map by id, later entries winning |
| AppConfig.MergeDefaults | src/config.rs:286-302 | for each default in order: the merged saved entry if one exists, else the default itself; and the matched entries are removed from the map |
| AppConfig.SortedSnoc | src/config.rs:305 | appending an entry whose id is greater than all keeps the list sorted by id |
| AppConfig.RemoveShrinks | src/config.rs:288 | removing a present key makes the map smaller |
| AppConfig.ExtractLeast | src/config.rs:304-305 | taking the least remaining id extends the sorted list of extras |
| AppConfig.SortExtras | src/config.rs:303-307 | the extras come out sorted by id, exactly the leftover ids, each the leftover entry |
| AppConfig.ClearedExtras | src/config.rs:305-324 | clearing unused fields keeps the extras sorted, with the same ids |
| AppConfig.ArrangedFromParts | src/config.rs:281-324 | merged defaults followed by the sorted extras, with unused fields cleared, is the normalised arrangement |
| AppConfig.ClearUnusedIdempotent | src/config.rs:311-324 | clearing unused fields twice is clearing them once, and keeps the id and type |
| AppConfig.ArrangedIds | src/config.rs:286-301 | the first entries of the result carry the defaults' ids, in default order |
| AppConfig.NormalizedDefaultsFirst | src/config.rs:286-301 | the entry in each default's place takes name, type and built-in flag from the default; keeps the saved key; keeps the saved base and model unless blank, where the default's are used; and is the default itself when nothing was saved |
| AppConfig.ArrangedSettled | src/config.rs:286-301 | the same, for any arrangement over any saved map |
| AppConfig.SettledFields | src/config.rs:288-298 | the field-by-field outcome of merging one default |
| AppConfig.NormalizedClearsUnused | src/config.rs:311-324 | after normalising, Google providers have no base, key or model, and DeepL providers no model |
| AppConfig.ArrangedClean | src/config.rs:311-324 | every arranged entry has its unused fields already cleared |
| AppConfig.NormalizedKeepsLlmProviders | src/config.rs:302-324 | a saved OpenAI or Anthropic provider with a non-default id is kept as saved |
| AppConfig.SortedDistinct | src/config.rs:305 | a list sorted strictly by id has distinct ids |
| AppConfig.ArrangedDistinct | src/config.rs:281-308 | normalising yields distinct ids, so duplicated saved ids collapse to one |
| AppConfig.NormalizedIdsDistinct | src/config.rs:276-308 | a normalised provider list has distinct ids |
| AppConfig.IdSetEmpty | src/config.rs:302 | a list has no ids exactly when it is empty |
| AppConfig.IdSetTail | src/config.rs:305 | with distinct ids, dropping the head drops exactly its id |
| AppConfig.SortedHeads | src/config.rs:305 | two sorted lists with the same ids start with the same id |
| AppConfig.SortedSameIds | src/config.rs:305 | two sorted lists with the same id set list the ids in the same order |
| AppConfig.ArrangedUnique | src/config.rs:281-324 | the normalised arrangement of a saved map is unique |
| AppConfig.NormalizedDeterminate | src/config.rs:276-324 | normalising a provider list has exactly one possible result |
| AppConfig.SettledStable | src/config.rs:288-298 | merging an already merged entry with its default again changes nothing |
| AppConfig.IdSetSplit | src/config.rs:307 | the ids of a list are the ids of its two halves |
| AppConfig.ArrangedStable | src/config.rs:281-324 | an arranged list is also the arrangement of itself |
| AppConfig.ArrangedStableDefaults | src/config.rs:286-301 | the defaults' places stay as they are when merged again |
| AppConfig.ArrangedStableIds | src/config.rs:302-307 | the extras of an arranged list are exactly its non-default ids |
| AppConfig.NormalizeIdempotent | src/config.rs:276-324 | normalising a normalised provider list changes nothing |
| AppConfig.DefaultsNormalized | src/config.rs:276-324 | the built-in providers are already normalised |
| AppConfig.Config.constructor | src/config.rs:73-87 | the default settings: hotkey `Alt+Q`, target `zh`, auto-detect on, the Google provider active, the built-in providers and presets, automatic interface language |
| AppConfig.Config.ProviderIndex | src/config.rs:238-240 | the first position whose id matches, and nothing exactly when none does |
| AppConfig.Config.GetProvider | src/config.rs:230-232 | the first provider whose id matches, and nothing exactly when none does |
| AppConfig.Config.ActiveProvider | src/config.rs:222-224 | the provider at the active id's first position, and nothing exactly when that id is missing |
| AppConfig.Config.PromptPresetIndex | src/config.rs:242-244 | the first position whose preset id matches, and nothing exactly when none does |
| AppConfig.Config.GetPromptPreset | src/config.rs:254-256 | the first preset whose id matches, and nothing exactly when none does |
| AppConfig.Config.ActivePromptPreset | src/config.rs:246-248 | the preset at the active id's first position, and nothing exactly when that id is missing |
| AppConfig.Config.ClearUnusedFields | src/config.rs:311-324 | the loop clears each provider's unused fields in place |
| AppConfig.Config.NormalizeProviders | src/config.rs:276-333 | the providers become the normalisation of the saved list (the defaults when it was empty), and the active id is kept when present, else becomes the first provider's |
| AppConfig.Config.NormalizePromptPresets | src/config.rs:264-273 | an empty preset list becomes the defaults, and a dangling active preset id becomes the first preset's |
| AppConfig.Config.Normalize | src/config.rs:262-274 | both lists are normalised, and afterwards both active ids name an existing entry |
| AppConfig.DefaultActiveIdsExist | src/config.rs:80-91 | the default active provider and preset ids are present in the defaults |
| Translate.HasCjk | src/translate/mod.rs:65-72 | the text holds a character in one of the four CJK ranges |
| Translate.DetermineTargetLang | src/translate/mod.rs:63-78 | with auto-detect the target is `en` exactly when the text holds a CJK character, else `zh`; without it, the configured target |
| Translate.LanguageNameCases | src/translate/mod.rs:287-305 | the name depends only on the code's lower case, and an unknown code is returned with its own case |
| Translate.LanguageName | src/translate/mod.rs:287-305 | defines the language-name table lookup on the lower-cased code; `LanguageNameCases` states its cases |
| Translate.LanguageNameUpperCase | src/translate/mod.rs:288-297 | `ZH-TW` is named as traditional Chinese |
| Translate.LanguageNameUnknown | src/translate/mod.rs:303 | `zh-Hans` is not in the table and comes back unchanged |
| Translate.ScriptCodeLower | src/translate/mod.rs:288 | the lookup key of `zh-Hans` is `zh-hans` |
| Translate.LanguageCodesShort | src/translate/mod.rs:289-302 | every code in the table has at most five characters |
| Translate.RenderPromptTemplate | src/translate/mod.rs:314-321 | defines the four placeholder replacements in order; the `Render` lemmas state their effect |
| Translate.BuiltinSystemPrompt | src/translate/mod.rs:354-367 | defines the built-in system prompt around the target language's name |
| Translate.BuiltinUserPrompt | src/translate/mod.rs:370-373 | defines the built-in user prompt, ending in the text; `DefaultUserTemplateIsBuiltin` relates it to the default preset |
| Translate.BuildTranslationPrompts | src/translate/mod.rs:323-352 | defines the pair of prompts; `PromptHalves` states the per-half fallback |
| Translate.RenderWithoutPlaceholders | src/translate/mod.rs:314-321 | a template without placeholders is returned unchanged |
| Translate.RenderTextThenSource | src/translate/mod.rs:317-320 | the substitutions run in order: a text that contains the source placeholder is itself substituted, here by the empty missing source |
| Translate.RenderNameOnce | src/translate/mod.rs:316-320 | a name that contains its own placeholder is not substituted again |
| Translate.PromptHalves | src/translate/mod.rs:323-352 | without an active preset both prompts are built in; otherwise each half is built in when its template is blank and rendered from the template otherwise |
| Translate.ReplaceBetween | src/translate/mod.rs:314-321 | a placeholder between brace-free parts is replaced in place |
| Translate.RenderNameThenText | src/translate/mod.rs:314-321 | a template of brace-free parts with the name and text placeholders renders to the parts with the name and the text |
| Translate.DefaultUserTemplateIsBuiltin | src/config.rs:93-123 | the built-in preset's user template renders to the built-in user prompt |
| Translate.Endpoint | src/translate/mod.rs:146 | the endpoint ends in the fixed suffix, preceded by a prefix of the base that does not end in `/` and after which the base holds only `/` |
| Translate.EndpointSlashes | src/translate/mod.rs:146 | an extra trailing `/` on the base does not change the endpoint, and a base without one is used as it is |
| Translate.LlmReply | src/translate/mod.rs:220-224 | the reply is the first choice, trimmed, and an error naming the provider exactly when there is none |
| Translate.LlmReplyTrimmed | src/translate/mod.rs:224 | a model's reply has no surrounding white space |
| Translate.JoinedEmpty | src/translate/mod.rs:100-111 | the joined Google text is empty exactly when every text part is empty |
| Translate.JoinedPrefix | src/translate/mod.rs:100-106 | the joined text of the first parts starts the joined text of all parts |
| Translate.GoogleReply | src/translate/mod.rs:99-114 | the loop joins the text parts; an empty join is the "no translation" error |
| Translate.DeepLReply | src/translate/mod.rs:157-160 | the first translation, and an error exactly when there is none |
| Translate.MakeRequest | src/translate/mod.rs:48-52 | the request carries the text, and the configured source language exactly when auto-detect is off |
| Translate.GoogleRequest | src/translate/mod.rs:80-90 | the Google call asks for `auto` as source when no source is set |
| Translate.DeepLRequest | src/translate/mod.rs:117-146 | a missing key is an error; otherwise the call carries the key, the trimmed endpoint and upper-cased language codes |
| Translate.OpenAIRequest | src/translate/mod.rs:164-208 | a missing key is an error naming the provider; otherwise the call carries the model, the key, the trimmed endpoint and the two prompts |
| Translate.AnthropicRequest | src/translate/mod.rs:228-266 | a missing key is an error; otherwise the call carries the model, the key, 4096 as the token limit, the trimmed endpoint and the two prompts |
| Translate.PlanChecksFirst | src/translate/mod.rs:39-46 | blank text is rejected before the provider lookup, and a missing active provider is the next error |
| Translate.PlanTranslation | src/translate/mod.rs:39-60 | defines `translate` up to the request; `PlanChecksFirst` and `PlanFollowsProvider` state its checks and branches |
| Translate.PlanFollowsProvider | src/translate/mod.rs:54-59 | the active provider's type decides which call is made, and only Google needs no key |
| Translate.GoogleCallShape | src/translate/mod.rs:48-90 | with auto-detect the call goes from `auto` to `en` exactly for CJK text; without it, between the configured languages |
| I18n.TablesDiffer | src/i18n.rs:51-109 | the English and Chinese tables differ, for example in the tray's exit entry |
| I18n.ChineseLangIdIsLowByte | src/i18n.rs:128 | the Chinese-language test reduces to "the low byte is 0x04" |
| I18n.DetectSystemLanguage | src/i18n.rs:122-133 | the system language is Chinese exactly when the language id is known and its low byte is 0x04 |
| I18n.InitialLanguage | src/i18n.rs:112-119 | English and Chinese are taken as they are; automatic means the detected language |
| I18n.InitialLanguageIgnoresSystem | src/i18n.rs:112-119 | a fixed interface language does not depend on the system |
| I18n.LanguageCell.constructor | src/i18n.rs:9 | the language starts as English |
| I18n.LanguageCell.SetLanguage | src/i18n.rs:136-141 | setting the language stores it |
| I18n.LanguageCell.Init | src/i18n.rs:112-119 | initialising stores the chosen or detected language |
| I18n.SetThenRead | src/i18n.rs:136-153 | after setting a language, the current language is it, and the text table is that language's |
| I18n.LanguageToIndex | src/i18n.rs:156-163 | the index is 0, 1 or 2: automatic, English, Chinese, each exactly |
| I18n.IndexToLanguage | src/i18n.rs:165-171 | 1 is English, 2 is Chinese, and every other index is automatic |
| I18n.IndexRoundTrip | src/i18n.rs:156-171 | language to index and back is the identity; index to language and back is the identity on 0 to 2, and maps other indices to 0 |
| App.Clamp | src/main.rs:402-405 | an index is kept inside the list, and 0 for an empty list |
| App.InitialSelection | src/main.rs:446-451 | the first position of the active id, else 0, always inside a non-empty list |
| App.InitialProviderIndex | src/main.rs:402-405 | the provider selected at first is the active provider when there is one, else the first |
| App.SelectionFound | src/main.rs:446-451 | when the active id is present, the selection is its first position |
| App.LanguageIndexOfName | src/main.rs:580-585 | "English" gives 1, "中文" gives 2, and every other entry text gives 0 |
| App.LanguageListConsistent | src/main.rs:580-585 | each entry of the language list maps back to its own position and to the language there |
| App.SelectLanguage | src/main.rs:579-588 | choosing a language by name applies the language of that index |
| App.EditPreset | src/main.rs:333-346 | the name changes only to a non-blank name; the system template is copied; a blank user template becomes `{{text}}`; id and built-in flag stay |
| App.EditPresetSettles | src/main.rs:333-346 | an edited preset's user template is never blank, and editing it again with the same form changes nothing |
| App.CustomPreset | src/main.rs:357-363 | a custom preset is not built in, with an empty system template and `{{text}}` as user template |
| App.CustomIdsDiffer | src/main.rs:351 | different numbers give different custom ids |
| App.SubsetCard | src/main.rs:349-355 | a subset is no larger than its superset |
| App.ElementsCard | src/main.rs:349-355 | a list has no more distinct ids than entries |
| App.FirstFreeUnique | src/main.rs:349-355 | there is only one smallest free custom number |
| App.CustomIdsUpToCard | src/main.rs:349-355 | the first k custom ids are k distinct ids |
| App.CustomIdsBound | src/main.rs:349-355 | if the first k custom ids are all taken, there are at least k presets, so the search ends |
| App.AppendFreshKeepsDistinct | src/main.rs:634 | appending a preset with a new id keeps the ids distinct |
| App.EditKeepsIds | src/main.rs:333-346 | editing the selected preset keeps every id |
| App.NameIndex | src/main.rs:617 | the first preset with the name, and nothing exactly when none has it |
| App.Removed | src/main.rs:659 | `remove` drops exactly the entry at the index and shifts the later ones down |
| App.PromptPresetDraft.constructor | src/main.rs:442-452 | the draft holds the saved presets, or the defaults for an empty list, with the active preset's first position selected, else 0 |
| App.PromptPresetDraft.UpdateSelectedFromUi | src/main.rs:333-346 | the selected preset is edited from the form, and nothing changes when the selection is out of range |
| App.PromptPresetDraft.NextCustomPreset | src/main.rs:348-364 | the new preset carries the smallest positive number whose custom id is not yet used |
| App.PromptPresetDraft.AddPreset | src/main.rs:630-641 | after editing the selected preset, the next custom preset is appended and selected, and the ids stay distinct |
| App.PromptPresetDraft.DeletePreset | src/main.rs:647-667 | nothing happens for a single preset or a built-in one; otherwise the selected entry is removed and the selection clamped; built-in presets always survive |
| App.PromptPresetDraft.SelectPreset | src/main.rs:612-624 | after editing the selected preset, the first preset with the chosen name is selected, else the selection stays |
| App.ApplyCapturedHotkey | src/main.rs:788-817 | an empty capture changes nothing, the registry included; the capture is accepted exactly when `update_hotkey` succeeds on it, and is then shown, stored and bound; a refused one keeps the shown text, the settings and the manager's binding, and the registry gains at most the new key |
| App.StartHotkey | src/main.rs:47-62 | a configured hotkey that parses to a free key is kept and bound; otherwise the default replaces it in the settings, and start-up succeeds exactly when the default's key is free; the registry gains exactly the bound key |
| Text.Trim | src/hotkey.rs:116 | the trimmed string has no white space at either end |
| Text.BlankIffAllWhitespace | src/config.rs:292-297 | a string is blank exactly when it is all white space |
| Text.Lower | src/hotkey.rs:125 | lower-casing maps each character on its own and keeps the length |
| Text.LowerIdempotent | src/hotkey.rs:87 | lower-casing twice is lower-casing once |
| Text.TrimLower | src/hotkey.rs:116-125 | trimming and lower-casing commute |
| Text.JoinSplit | src/hotkey.rs:116 | joining the split pieces gives back the string |
| Text.SplitJoin | src/hotkey.rs:116 | splitting joined pieces gives back the pieces |
| Text.SplitLower | src/hotkey.rs:116-125 | splitting then lower-casing is lower-casing then splitting |
| Text.Split | src/hotkey.rs:116 | `split` on one character: at least one piece, none holding the separator; `JoinSplit` and `SplitJoin` make it the inverse of joining |
| Text.Replace | src/translate/mod.rs:314-321 | defines `replace`, left to right and without rescanning replaced text; `ReplaceAbsent`, `ReplaceSelf` and `RenderNameOnce` state its behaviour |
| Text.TrimEndMatches | src/translate/mod.rs:146 | all trailing copies of the character are removed, and nothing else |
| Text.ReplaceAbsent | src/translate/mod.rs:314-321 | replacing a pattern that does not occur changes nothing |
| Text.ReplaceSelf | src/translate/mod.rs:314-321 | replacing a pattern by itself changes nothing |
| Text.ParseNatToString | src/main.rs:351 | the decimal form of a number reads back as that number |
| Text.ParseHex2 | src/input.rs:151 | the `{:02X}` form of a number reads back as that number |
| Text.LeastString | src/config.rs:305 | every non-empty set of ids has a least one |

## Left out

- The macOS code paths: the Carbon/CGEvent monitor, the Cocoa alert and font code, and the `input` functions that `src/hotkey.rs` and `src/main.rs` call only on macOS.
- HTTP requests, JSON bodies and replies, headers and the OpenAI temperature (a float). The model stops at the call each provider would make, and starts again at the reply's fields.
- `Config::load`, `Config::save`, the configuration path, and `log_hotkey`: file I/O.
- Threads, atomics, `Mutex` and `RwLock` (including lock poisoning). The hook and the poll are modelled as sequential steps over one state.
- Hook installation, the message loop, `SendInput` and the Ctrl+C/Ctrl+V helpers, and `start_keyboard_monitor`: calls into the operating system.
- Caret.CalculatePopupPosition: does not model i32 overflow in `cursor_y + 20` or the other sums. Integers are unbounded.
- `GetGUIThreadInfo`, `ClientToScreen`, `GetCursorPos`, `GetSystemMetrics`, `MapVirtualKeyW` and `GetKeyNameTextW`: their answers are parameters.
- Key names longer than the 64-character buffer of `vk_to_name` are not truncated in the model; the key text is a parameter.
- The `_mut` lookups of `Config`: they find the same entry as the lookups that are modelled.
- AppConfig.SortExtras: the stable sort by id is modelled as repeated extraction of the least remaining id. Ids in the map are distinct, so the order is the same.
- Hotkey.IdPositive: positivity is a property of the model's id encoding (modifier bits plus sixteen times a key number of at least 1), not of the crate's hash; the crate's own test asserts it only for its four example strings.
- The `global-hotkey` crate's id is a hash of the modifiers and the key. It is modelled as an injective number, which is what the comparison in `is_translate_hotkey` relies on.
- Hotkey.HotkeyRegistry.Register: the platform's answers are modelled by two sets, keys held by other programs and keys that refuse release. No other failure is modelled.
- Text.Lower: models `to_lowercase` on A-Z and on the Kelvin sign, the one non-ASCII character whose lower case is ASCII. Acceptance by the ASCII key and modifier tables is therefore exact. The lower case of other non-ASCII text, which only affects error messages and the "already bound" comparison, is not.
- `to_uppercase` of the DeepL language codes is modelled on ASCII letters only; language codes are ASCII.
- Slint window wiring: callbacks, timers, autosave, dragging and widget state. Widget values enter the model as parameters (`PresetForm`, `shown`).
- `src/clipboard.rs`, `src/tray.rs` and `build.rs` are not part of this model.
