/**
 * The settings window's bookkeeping that is not drawing: the draft of prompt
 * presets kept until the settings are saved, the first selections shown, the
 * language list, the application of a captured hotkey, and the start-up
 * fallback to the default hotkey. Widgets enter only through the values
 * they hold.
 */
module App {
  import opened Wrappers
  import opened Text
  import opened AppConfig
  import Hotkey
  import I18n

  // ---------------------------------------------------------------------
  // Selections

  /** `i.min(len.saturating_sub(1))`: an index kept inside a list of length `len`, and 0 for an empty list. */
  function Clamp(i: nat, len: nat): (r: nat)
    ensures len == 0 ==> r == 0
    ensures len > 0 ==> r < len
    ensures i < len ==> r == i
    ensures i >= len > 0 ==> r == len - 1
  {
    var last := if len == 0 then 0 else len - 1;
    if i <= last then i else last
  }

  /** The first selection: the position of the active id, else the first entry, kept inside the list. */
  function InitialSelection(ids: seq<string>, activeId: string): (r: nat)
    ensures ids != [] ==> r < |ids|
    ensures activeId in ids ==> ids[r] == activeId && forall j :: 0 <= j < r ==> ids[j] != activeId
    ensures activeId !in ids ==> r == 0
  {
    Clamp(IndexOf(ids, activeId).GetOr(0), |ids|)
  }

  /** The provider the settings window shows first: the active one, else the first. */
  function InitialProviderIndex(config: Config): (r: nat)
    reads config
    ensures config.providers != [] ==> r < |config.providers|
    ensures config.ActiveProvider().Some? ==> config.providers[r] == config.ActiveProvider().value
    ensures config.ActiveProvider().None? ==> r == 0
  {
    Clamp(config.ProviderIndex(config.activeProviderId).GetOr(0), |config.providers|)
  }

  /** The clamp never moves a found position: it only matters for the fallback on an empty list. */
  lemma {:induction false} SelectionFound(ids: seq<string>, activeId: string)
    requires activeId in ids
    ensures InitialSelection(ids, activeId) == IndexOf(ids, activeId).value
  {
    var i := IndexOf(ids, activeId).value;
    assert i < |ids|;
    assert Clamp(i, |ids|) == i;
  }

  // ---------------------------------------------------------------------
  // The language list

  /** The entries of the settings window's language list, in order. */
  const LanguageListNames: seq<string> := ["Auto", "English", "中文"]

  /** The index the language callback derives from the chosen entry's text; an unknown text counts as "Auto". */
  function LanguageIndexOfName(name: string): (r: int)
    ensures 0 <= r <= 2
    ensures r == 1 <==> name == "English"
    ensures r == 2 <==> name == "中文"
  {
    if name == "Auto" then 0
    else if name == "English" then 1
    else if name == "中文" then 2
    else 0
  }

  /** Each entry of the list maps back to its own position, and so to the language at that position. */
  lemma LanguageListConsistent(i: nat)
    requires i < |LanguageListNames|
    ensures LanguageIndexOfName(LanguageListNames[i]) == i
    ensures I18n.LanguageToIndex(I18n.IndexToLanguage(LanguageIndexOfName(LanguageListNames[i]))) == i
  {
    assert "English" != "Auto" && "中文" != "Auto" && "中文" != "English";
  }

  /** Choosing a language in the list makes it the current one at once (`i18n::init` on the chosen entry). */
  method SelectLanguage(cell: I18n.LanguageCell, name: string, langId: Option<nat>)
    modifies cell
    ensures cell.current == I18n.InitialLanguage(I18n.IndexToLanguage(LanguageIndexOfName(name)), langId)
  {
    var newLang := I18n.IndexToLanguage(LanguageIndexOfName(name));
    cell.Init(newLang, langId);
  }

  // ---------------------------------------------------------------------
  // The prompt-preset draft

  /** The three fields of the preset editor, as the window holds them. */
  datatype PresetForm = PresetForm(name: string, systemTemplate: string, userTemplate: string)

  /** `update_selected_preset_from_ui` on one preset: a blank name is ignored, a blank user template becomes "{{text}}". */
  function EditPreset(p: PromptPreset, form: PresetForm): (r: PromptPreset)
    ensures r.id == p.id && r.isPreset == p.isPreset
    ensures r.name == if IsBlank(form.name) then p.name else form.name
    ensures r.systemTemplate == form.systemTemplate
    ensures r.userTemplate == if IsBlank(form.userTemplate) then "{{text}}" else form.userTemplate
  {
    var name := if IsBlank(form.name) then p.name else form.name;
    var user := if IsBlank(form.userTemplate) then "{{text}}" else form.userTemplate;
    p.(name := name, systemTemplate := form.systemTemplate, userTemplate := user)
  }

  /** An edited preset always has a user template that is not blank, and editing twice with the same form is editing once. */
  lemma EditPresetSettles(p: PromptPreset, form: PresetForm)
    ensures !IsBlank(EditPreset(p, form).userTemplate)
    ensures EditPreset(EditPreset(p, form), form) == EditPreset(p, form)
  {
    var t := "{{text}}";
    assert t[0] == '{' && !IsWhitespace('{');
    BlankIffAllWhitespace(t);
    if !IsBlank(form.userTemplate) {
      assert EditPreset(p, form).userTemplate == form.userTemplate;
    }
  }

  /** The custom preset numbered `n`. */
  function CustomPreset(n: nat): (r: PromptPreset)
    ensures !r.isPreset && r.userTemplate == "{{text}}" && r.systemTemplate == ""
  {
    PromptPreset("custom-" + NatToString(n), "自定义 " + NatToString(n), "", "{{text}}", false)
  }

  /** Different numbers give different ids. */
  lemma CustomIdsDiffer(m: nat, n: nat)
    requires CustomPreset(m).id == CustomPreset(n).id
    ensures m == n
  {
    var prefix := "custom-";
    assert (prefix + NatToString(m))[|prefix|..] == NatToString(m);
    assert (prefix + NatToString(n))[|prefix|..] == NatToString(n);
    NatToStringInjective(m, n);
  }

  /** A set is no larger than a set holding it. */
  lemma {:induction false} SubsetCard(a: set<string>, b: set<string>)
    requires a <= b
    ensures |a| <= |b|
    decreases |a|
  {
    if a != {} {
      var x :| x in a;
      SubsetCard(a - {x}, b - {x});
    }
  }

  /** A list holds no more distinct ids than it has entries. */
  lemma {:induction false} ElementsCard(ids: seq<string>)
    ensures |set x | x in ids| <= |ids|
  {
    if ids != [] {
      var init := ids[..|ids| - 1];
      ElementsCard(init);
      assert (set x | x in ids) == (set x | x in init) + {ids[|ids| - 1]} by {
        assert ids == init + [ids[|ids| - 1]];
      }
    }
  }

  /** `n` is the smallest number from 1 up whose custom id is not among `ids`. */
  predicate FirstFree(ids: seq<string>, n: nat) {
    && 1 <= n
    && CustomPreset(n).id !in ids
    && forall m: nat :: 1 <= m < n ==> CustomPreset(m).id in ids
  }

  /** There is only one such number. */
  lemma FirstFreeUnique(ids: seq<string>, a: nat, b: nat)
    requires FirstFree(ids, a) && FirstFree(ids, b)
    ensures a == b
  {
  }

  /** The custom ids numbered 1 to `k`. */
  ghost function CustomIdsUpTo(k: nat): set<string> {
    set m: nat | 1 <= m <= k :: CustomPreset(m).id
  }

  lemma {:induction false} CustomIdsUpToCard(k: nat)
    ensures |CustomIdsUpTo(k)| == k
  {
    if k == 0 {
      assert CustomIdsUpTo(0) == {};
    } else {
      CustomIdsUpToCard(k - 1);
      var c := CustomPreset(k).id;
      assert CustomIdsUpTo(k) == CustomIdsUpTo(k - 1) + {c};
      if c in CustomIdsUpTo(k - 1) {
        var m: nat :| 1 <= m <= k - 1 && CustomPreset(m).id == c;
        CustomIdsDiffer(m, k);
      }
    }
  }

  /** A list of ids holding the custom ids 1 to `k` has at least `k` entries. */
  lemma CustomIdsBound(ids: seq<string>, k: nat)
    requires forall m: nat :: 1 <= m <= k ==> CustomPreset(m).id in ids
    ensures k <= |ids|
  {
    CustomIdsUpToCard(k);
    SubsetCard(CustomIdsUpTo(k), set x | x in ids);
    ElementsCard(ids);
  }

  /** Ids in a list of presets are distinct. */
  predicate DistinctPresetIds(ps: seq<PromptPreset>) {
    forall i, j :: 0 <= i < j < |ps| ==> ps[i].id != ps[j].id
  }

  /** Appending a preset whose id is new keeps the ids distinct. */
  lemma AppendFreshKeepsDistinct(ps: seq<PromptPreset>, p: PromptPreset)
    requires p.id !in PresetIds(ps)
    ensures DistinctPresetIds(ps) ==> DistinctPresetIds(ps + [p])
  {
    forall i | 0 <= i < |ps|
      ensures ps[i].id != p.id
    {
      assert PresetIds(ps)[i] == ps[i].id;
    }
  }

  /** Editing the selected preset keeps every id where it was. */
  lemma EditKeepsIds(ps: seq<PromptPreset>, i: nat, form: PresetForm)
    requires i < |ps|
    ensures PresetIds(ps[i := EditPreset(ps[i], form)]) == PresetIds(ps)
    ensures DistinctPresetIds(ps) ==> DistinctPresetIds(ps[i := EditPreset(ps[i], form)])
  {
    var edited := ps[i := EditPreset(ps[i], form)];
    assert forall j :: 0 <= j < |ps| ==> edited[j].id == ps[j].id;
  }

  /** The first position holding a preset with that name. */
  function NameIndex(ps: seq<PromptPreset>, name: string): (r: Option<nat>)
    ensures r.None? <==> forall i :: 0 <= i < |ps| ==> ps[i].name != name
    ensures r.Some? ==> r.value < |ps| && ps[r.value].name == name
    ensures r.Some? ==> forall j :: 0 <= j < r.value ==> ps[j].name != name
  {
    if ps == [] then None
    else if ps[0].name == name then Some(0)
    else match NameIndex(ps[1..], name)
      case None => None
      case Some(i) => Some(i + 1)
  }

  /** `p.presets.remove(i)`. */
  function Removed(ps: seq<PromptPreset>, i: nat): (r: seq<PromptPreset>)
    requires i < |ps|
    ensures |r| == |ps| - 1
    ensures forall j :: 0 <= j < i ==> r[j] == ps[j]
    ensures forall j :: i < j < |ps| ==> r[j - 1] == ps[j]
  {
    ps[..i] + ps[i + 1..]
  }

  /** The draft: the presets being edited and the one selected, which the window always has in range. */
  class PromptPresetDraft {
    var presets: seq<PromptPreset>
    var selected: nat

    predicate Valid()
      reads this
    {
      selected < |presets|
    }

    /** The draft the settings window opens with: the saved presets, or the defaults in their place. */
    constructor (saved: seq<PromptPreset>, activeId: string)
      ensures presets == if saved == [] then DefaultPromptPresets else saved
      ensures selected == InitialSelection(PresetIds(presets), activeId)
      ensures Valid()
    {
      presets := if saved == [] then DefaultPromptPresets else saved;
      selected := InitialSelection(PresetIds(if saved == [] then DefaultPromptPresets else saved), activeId);
    }

    /** `update_selected_preset_from_ui`: the selected preset takes the form's fields. */
    method UpdateSelectedFromUi(form: PresetForm)
      modifies this
      ensures selected == old(selected)
      ensures old(selected) < |old(presets)| ==> presets == old(presets)[old(selected) := EditPreset(old(presets)[old(selected)], form)]
      ensures old(selected) >= |old(presets)| ==> presets == old(presets)
    {
      if selected < |presets| {
        presets := presets[selected := EditPreset(presets[selected], form)];
      }
    }

    /**
     * `next_custom_preset`: the custom preset with the smallest number from 1
     * up whose id is not in the draft yet.
     */
    method NextCustomPreset() returns (p: PromptPreset)
      ensures exists n: nat :: FirstFree(PresetIds(presets), n) && p == CustomPreset(n)
    {
      var ids := PresetIds(presets);
      var idx: nat := 1;
      while CustomPreset(idx).id in ids
        invariant 1 <= idx
        invariant forall m: nat :: 1 <= m < idx ==> CustomPreset(m).id in ids
        decreases |ids| + 1 - idx
      {
        CustomIdsBound(ids, idx);
        idx := idx + 1;
      }
      p := CustomPreset(idx);
    }

    /** The add callback: the form is saved into the selected preset, a fresh custom preset is appended and selected. */
    method AddPreset(form: PresetForm)
      requires Valid()
      modifies this
      ensures Valid()
      ensures |presets| == |old(presets)| + 1 && selected == |presets| - 1
      ensures presets[..|old(presets)|] == old(presets)[old(selected) := EditPreset(old(presets)[old(selected)], form)]
      ensures exists n: nat :: FirstFree(PresetIds(old(presets)), n) && presets[selected] == CustomPreset(n)
      ensures DistinctPresetIds(old(presets)) ==> DistinctPresetIds(presets)
    {
      UpdateSelectedFromUi(form);
      EditKeepsIds(old(presets), old(selected), form);
      var added := NextCustomPreset();
      AppendFreshKeepsDistinct(presets, added);
      presets := presets + [added];
      selected := |presets| - 1;
    }

    /**
     * The delete callback: nothing happens to the last preset standing or to
     * a built-in one; otherwise the selected preset goes and the selection
     * stays in range.
     */
    method DeletePreset()
      requires Valid()
      modifies this
      ensures Valid()
      ensures |old(presets)| <= 1 || old(presets)[old(selected)].isPreset ==>
        presets == old(presets) && selected == old(selected)
      ensures |old(presets)| > 1 && !old(presets)[old(selected)].isPreset ==>
        && presets == Removed(old(presets), old(selected))
        && selected == if old(selected) < |presets| then old(selected) else |presets| - 1
      ensures forall p :: p in old(presets) && p.isPreset ==> p in presets
    {
      if |presets| <= 1 {
        return;
      }
      if presets[selected].isPreset {
        return;
      }
      var removeIdx := selected;
      ghost var before := presets;
      presets := Removed(presets, removeIdx);
      if selected >= |presets| {
        selected := |presets| - 1;
      }
      forall p | p in before && p.isPreset
        ensures p in presets
      {
        var j :| 0 <= j < |before| && before[j] == p;
        if j < removeIdx {
          assert presets[j] == p;
        } else {
          assert presets[j - 1] == p;
        }
      }
    }

    /** The selection callback: the form is saved first, then the first preset with the chosen name, if any, is selected. */
    method SelectPreset(form: PresetForm, name: string)
      requires Valid()
      modifies this
      ensures Valid()
      ensures presets == old(presets)[old(selected) := EditPreset(old(presets)[old(selected)], form)]
      ensures selected == NameIndex(presets, name).GetOr(old(selected))
    {
      UpdateSelectedFromUi(form);
      match NameIndex(presets, name)
      case Some(i) =>
        selected := i;
      case None =>
    }
  }

  // ---------------------------------------------------------------------
  // Hotkeys

  /**
   * `apply_captured_hotkey`: an empty capture (a cancel) does nothing; a
   * binding the manager refuses leaves the shown text and the settings as
   * they were; an accepted one is shown and stored. `shown` is the text the
   * window displays.
   */
  method ApplyCapturedHotkey(manager: Hotkey.HotkeyManager, config: Config, shown: string, hotkey: string)
    returns (newShown: string)
    requires manager.Valid()
    modifies manager, manager.registry, config`hotkey
    ensures manager.Valid()
    ensures manager.registry.taken == old(manager.registry.taken) && manager.registry.stuck == old(manager.registry.stuck)
    ensures hotkey == [] ==>
      newShown == shown && config.hotkey == old(config.hotkey) && unchanged(manager) && unchanged(manager.registry)
    ensures hotkey != [] && manager.currentHotkey != Lower(hotkey) ==> newShown == shown && config.hotkey == old(config.hotkey)
    ensures hotkey != [] && manager.currentHotkey == Lower(hotkey) ==>
      newShown == hotkey && config.hotkey == hotkey && Hotkey.ParseSpec(hotkey) == Ok(manager.translateHotkey)
    // The manager takes the capture exactly when it is its current binding up to case, or when
    // it parses to a free key and the old binding can be released.
    ensures hotkey != [] ==>
      (manager.currentHotkey == Lower(hotkey) <==>
        || Lower(hotkey) == old(manager.currentHotkey)
        || (&& Hotkey.ParseSpec(hotkey).Ok?
            && Hotkey.ParseSpec(hotkey).value !in old(manager.registry.registered) + manager.registry.taken
            && old(manager.translateHotkey) !in manager.registry.stuck))
    // A refused capture leaves the binding, and the registry holds at most the new key in addition.
    ensures hotkey != [] && manager.currentHotkey != Lower(hotkey) ==>
      && manager.currentHotkey == old(manager.currentHotkey)
      && manager.translateHotkey == old(manager.translateHotkey)
      && (|| manager.registry.registered == old(manager.registry.registered)
          || (Hotkey.ParseSpec(hotkey).Ok? &&
              manager.registry.registered == old(manager.registry.registered) + {Hotkey.ParseSpec(hotkey).value}))
  {
    if hotkey == [] {
      return shown;
    }
    var previous := shown;
    var r := manager.UpdateHotkey(hotkey);
    if r.Fail? {
      return previous;
    }
    config.hotkey := hotkey;
    newShown := hotkey;
  }

  /**
   * The start-up registration: the configured hotkey, or, when it cannot be
   * registered, the default one, which then also replaces it in the
   * settings. A failure of the second attempt ends start-up.
   */
  method StartHotkey(registry: Hotkey.HotkeyRegistry, config: Config)
    returns (r: Result<Hotkey.HotkeyManager, Hotkey.HotkeyError>)
    modifies registry, config`hotkey
    ensures r.Ok? ==>
      && r.value.Valid() && r.value.registry == registry
      && r.value.currentHotkey == Lower(config.hotkey)
      && Hotkey.ParseSpec(config.hotkey) == Ok(r.value.translateHotkey)
    // The configured hotkey is kept and bound whenever it parses to a free key ...
    ensures
      && Hotkey.ParseSpec(old(config.hotkey)).Ok?
      && Hotkey.ParseSpec(old(config.hotkey)).value !in old(registry.registered) + registry.taken
      ==> r.Ok? && config.hotkey == old(config.hotkey)
    // ... and otherwise the default replaces it, and start-up succeeds exactly when the default's key is free.
    ensures
      || Hotkey.ParseSpec(old(config.hotkey)).Err?
      || Hotkey.ParseSpec(old(config.hotkey)).value in old(registry.registered) + registry.taken
      ==>
      && config.hotkey == Hotkey.DefaultHotkey
      && (r.Ok? <==>
          Hotkey.ParseSpec(Hotkey.DefaultHotkey).Ok? &&
          Hotkey.ParseSpec(Hotkey.DefaultHotkey).value !in old(registry.registered) + registry.taken)
    ensures registry.registered == if r.Ok? then old(registry.registered) + {r.value.translateHotkey} else old(registry.registered)
    ensures registry.taken == old(registry.taken) && registry.stuck == old(registry.stuck)
  {
    r := Hotkey.HotkeyManager.New(registry, config.hotkey);
    if r.Err? {
      config.hotkey := Hotkey.DefaultHotkey;
      r := Hotkey.HotkeyManager.New(registry, config.hotkey);
    }
  }
}
