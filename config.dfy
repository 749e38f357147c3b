/**
 * The application settings: providers, prompt presets and the repair that
 * `Config::normalize` applies to settings read back from disk. Reading,
 * writing and (de)serialising the settings file are not modelled.
 */
module AppConfig {
  import opened Wrappers
  import opened Text

  datatype ProviderType = Google | DeepL | OpenAI | Anthropic

  /** One translation service the user can pick. */
  datatype ProviderConfig = ProviderConfig(
    id: string,
    name: string,
    providerType: ProviderType,
    apiBase: string,
    apiKey: string,
    model: string,
    isPreset: bool)

  /** A pair of prompt templates for the LLM providers. */
  datatype PromptPreset = PromptPreset(
    id: string,
    name: string,
    systemTemplate: string,
    userTemplate: string,
    isPreset: bool)

  datatype UiLanguage = Auto | En | Zh

  const DefaultActivePromptPresetId: string := "default"

  const StrictSystemTemplate: string := @"你是一位专业的 {{target_lang_name}} 母语翻译者，需要流畅地将文本翻译成 {{target_lang_name}}。

## 翻译规则
1. 仅输出翻译内容，不要包含解释或其他额外内容（例如""翻译如下：""或""以下是翻译：""等）
2. 返回的翻译必须保持与原文完全相同的段落数和格式
3. 如果文本包含 HTML 标签，在保持流畅性的同时，请考虑标签在翻译中的位置
4. 对于不应翻译的内容（如专有名词、代码等），请保留原文
5. 直接输出翻译（无分隔符，无额外文本）"

  const StrictUserTemplate: string := "翻译成 {{target_lang_name}}（仅输出翻译）：\n\n{{text}}"

  const PolishSystemTemplate: string := @"你是一位专业的 {{target_lang_name}} 母语译者。请在忠实原意的前提下，让译文更自然、更符合目标语言的表达习惯。

规则：
1. 仅输出译文，不要附加解释、标题或标注
2. 段落与格式保持一致（包括换行、列表等）
3. 遇到代码、专有名词、链接等不应翻译内容时，保持原样"

  const PolishUserTemplate: string := "将下文翻译为 {{target_lang_name}}：\n\n{{text}}"

  /** The two shipped presets, "default" and "polish". */
  const DefaultPromptPresets: seq<PromptPreset> := [
    PromptPreset("default", "默认（严格）", StrictSystemTemplate, StrictUserTemplate, true),
    PromptPreset("polish", "更自然（轻润色）", PolishSystemTemplate, PolishUserTemplate, true)
  ]

  const DefaultProviders: seq<ProviderConfig> := [
    ProviderConfig("google", "Google Translate", Google, "", "", "", true),
    ProviderConfig("deepl", "DeepL", DeepL, "https://api-free.deepl.com/v2", "", "", true),
    ProviderConfig("zhipu", "Zhipu GLM", OpenAI, "https://open.bigmodel.cn/api/paas/v4", "", "glm-4-flash", true),
    ProviderConfig("openai", "OpenAI", OpenAI, "https://api.openai.com/v1", "", "gpt-4o-mini", true),
    ProviderConfig("anthropic", "Anthropic", Anthropic, "https://api.anthropic.com", "", "claude-3-5-haiku-latest", true),
    ProviderConfig("custom", "Custom", OpenAI, "", "", "", false)
  ]

  // ---------------------------------------------------------------------
  // Lookups

  function ProviderIds(ps: seq<ProviderConfig>): (r: seq<string>)
    ensures |r| == |ps| && forall i :: 0 <= i < |ps| ==> r[i] == ps[i].id
  {
    seq(|ps|, i requires 0 <= i < |ps| => ps[i].id)
  }

  /** The same projection as `ProviderIds`, over the prompt presets, as `prompt_preset_index` searches them. */
  function PresetIds(ps: seq<PromptPreset>): (r: seq<string>)
    ensures |r| == |ps| && forall i :: 0 <= i < |ps| ==> r[i] == ps[i].id
  {
    seq(|ps|, i requires 0 <= i < |ps| => ps[i].id)
  }

  /** `iter().position(|p| p.id == id)`: the first position holding `id`, if any. */
  function IndexOf(ids: seq<string>, id: string): (r: Option<nat>)
    ensures r.None? <==> id !in ids
    ensures r.Some? ==> r.value < |ids| && ids[r.value] == id
    ensures r.Some? ==> forall j :: 0 <= j < r.value ==> ids[j] != id
  {
    if ids == [] then None
    else if ids[0] == id then Some(0)
    else
      assert ids == [ids[0]] + ids[1..];
      match IndexOf(ids[1..], id)
      case None => None
      case Some(i) => Some(i + 1)
  }

  // ---------------------------------------------------------------------
  // Provider normalisation

  /** The providers by id, as `collect` into a `HashMap` builds them: of several entries with one id the last is kept. */
  function SavedById(ps: seq<ProviderConfig>): (m: map<string, ProviderConfig>)
    ensures m.Keys == set i | 0 <= i < |ps| :: ps[i].id
    ensures forall k :: k in m ==> m[k].id == k
  {
    if ps == [] then map[]
    else
      var last := ps[|ps| - 1];
      var init := SavedById(ps[..|ps| - 1]);
      assert forall i :: 0 <= i < |ps| - 1 ==> ps[..|ps| - 1][i] == ps[i];
      init[last.id := last]
  }

  /** The entry kept for an id is the last one with that id. */
  lemma {:induction false} SavedByIdLastWins(ps: seq<ProviderConfig>, i: nat)
    requires i < |ps|
    requires forall j :: i < j < |ps| ==> ps[j].id != ps[i].id
    ensures SavedById(ps)[ps[i].id] == ps[i]
  {
    if i < |ps| - 1 {
      var init := ps[..|ps| - 1];
      assert init[i] == ps[i];
      SavedByIdLastWins(init, i);
    }
  }

  /** A saved entry completed from the default with the same id: the default's name, type and preset flag, the saved key, and the saved address and model unless they are blank. */
  function MergeWithDefault(saved: ProviderConfig, def: ProviderConfig): ProviderConfig {
    saved.(name := def.name, providerType := def.providerType, isPreset := def.isPreset,
           apiBase := if IsBlank(saved.apiBase) then def.apiBase else saved.apiBase,
           model := if IsBlank(saved.model) then def.model else saved.model)
  }

  /** What stands in the place of a default provider: the merged saved entry, or the default itself. */
  function Settled(saved: map<string, ProviderConfig>, def: ProviderConfig): ProviderConfig {
    if def.id in saved then MergeWithDefault(saved[def.id], def) else def
  }

  /** The fields a provider of each type may keep: Google needs none, DeepL no model. */
  function ClearUnused(p: ProviderConfig): ProviderConfig {
    match p.providerType
    case Google => p.(apiBase := "", apiKey := "", model := "")
    case DeepL => p.(model := "")
    case _ => p
  }

  function ClearAll(ps: seq<ProviderConfig>): (r: seq<ProviderConfig>)
    ensures |r| == |ps| && forall i :: 0 <= i < |ps| ==> r[i] == ClearUnused(ps[i])
  {
    seq(|ps|, i requires 0 <= i < |ps| => ClearUnused(ps[i]))
  }

  function IdSet(ps: seq<ProviderConfig>): set<string> {
    set i | 0 <= i < |ps| :: ps[i].id
  }

  predicate SortedById(ps: seq<ProviderConfig>) {
    forall i, j :: 0 <= i < j < |ps| ==> LexLess(ps[i].id, ps[j].id)
  }

  /**
   * The shape of a normalised list, for defaults `d` and saved entries `m` by
   * id: first one entry per default, in the defaults' order (the merged saved
   * entry with that id, or the default), then every other saved id once, in
   * ascending id order; every entry stripped of the fields its type does not use.
   */
  predicate Arranged(d: seq<ProviderConfig>, m: map<string, ProviderConfig>, r: seq<ProviderConfig>) {
    && |r| >= |d|
    && (forall i :: 0 <= i < |d| ==> r[i] == ClearUnused(Settled(m, d[i])))
    && SortedById(r[|d|..])
    && IdSet(r[|d|..]) == m.Keys - IdSet(d)
    && (forall j :: |d| <= j < |r| ==> r[j].id in m && r[j] == ClearUnused(m[r[j].id]))
  }

  /** The list `normalize_providers` makes of the saved list `saved`. */
  predicate NormalizedFrom(saved: seq<ProviderConfig>, r: seq<ProviderConfig>) {
    Arranged(DefaultProviders, SavedById(saved), r)
  }

  predicate DistinctIds(ps: seq<ProviderConfig>) {
    forall i, j :: 0 <= i < j < |ps| ==> ps[i].id != ps[j].id
  }

  lemma DefaultIdsDistinct()
    ensures DistinctIds(DefaultProviders)
  {
    var d := DefaultProviders;
    assert d[0].id == "google" && d[1].id == "deepl" && d[2].id == "zhipu";
    assert d[3].id == "openai" && d[4].id == "anthropic" && d[5].id == "custom";
  }

  /** The defaults already carry no field their type does not use. */
  lemma DefaultsClean()
    ensures forall i :: 0 <= i < |DefaultProviders| ==> ClearUnused(DefaultProviders[i]) == DefaultProviders[i]
  {
    var d := DefaultProviders;
    assert d[0].providerType == Google && d[0].apiBase == "" && d[0].apiKey == "" && d[0].model == "";
    assert d[1].providerType == DeepL && d[1].model == "";
    assert d[2].providerType == OpenAI && d[3].providerType == OpenAI;
    assert d[4].providerType == Anthropic && d[5].providerType == OpenAI;
  }

  /** An empty provider list normalises to exactly the defaults. */
  lemma NormalizedFromEmpty()
    ensures NormalizedFrom([], DefaultProviders)
  {
    DefaultsClean();
    var d := DefaultProviders;
    assert d[|d|..] == [];
    assert IdSet([]) == {};
  }

  method CollectById(ps: seq<ProviderConfig>) returns (m: map<string, ProviderConfig>)
    ensures m == SavedById(ps)
  {
    m := map[];
    for i := 0 to |ps|
      invariant m == SavedById(ps[..i])
    {
      assert ps[..i + 1][..i] == ps[..i];
      m := m[ps[i].id := ps[i]];
    }
    assert ps[..|ps|] == ps;
  }

  /** The loop over the defaults: each takes its saved entry out of `existing`, merged, or stands as it is. */
  method MergeDefaults(defaults: seq<ProviderConfig>, existing: map<string, ProviderConfig>)
    returns (merged: seq<ProviderConfig>, rest: map<string, ProviderConfig>)
    requires DistinctIds(defaults)
    ensures |merged| == |defaults|
    ensures forall i :: 0 <= i < |defaults| ==> merged[i] == Settled(existing, defaults[i])
    ensures rest == existing - IdSet(defaults)
  {
    merged := [];
    rest := existing;
    for i := 0 to |defaults|
      invariant |merged| == i
      invariant forall j :: 0 <= j < i ==> merged[j] == Settled(existing, defaults[j])
      invariant rest == existing - IdSet(defaults[..i])
    {
      var def := defaults[i];
      assert def.id !in IdSet(defaults[..i]);
      assert defaults[..i + 1] == defaults[..i] + [def];
      IdSetSnoc(defaults[..i], def);
      if def.id in rest {
        var saved := rest[def.id];
        rest := rest - {def.id};
        saved := saved.(name := def.name, providerType := def.providerType, isPreset := def.isPreset);
        if IsBlank(saved.apiBase) {
          saved := saved.(apiBase := def.apiBase);
        }
        if IsBlank(saved.model) {
          saved := saved.(model := def.model);
        }
        merged := merged + [saved];
      } else {
        merged := merged + [def];
      }
    }
    assert defaults[..|defaults|] == defaults;
  }

  lemma IdSetSnoc(ps: seq<ProviderConfig>, p: ProviderConfig)
    ensures IdSet(ps + [p]) == IdSet(ps) + {p.id}
  {
    var q := ps + [p];
    assert forall i :: 0 <= i < |ps| ==> q[i] == ps[i];
    assert q[|ps|] == p;
  }

  /** Appending an entry whose id follows every id so far keeps the list sorted. */
  lemma SortedSnoc(ps: seq<ProviderConfig>, p: ProviderConfig)
    requires SortedById(ps)
    requires forall i :: 0 <= i < |ps| ==> LexLess(ps[i].id, p.id)
    ensures SortedById(ps + [p])
  {
    var q := ps + [p];
    forall i, j | 0 <= i < j < |q|
      ensures LexLess(q[i].id, q[j].id)
    {
      assert q[i] == ps[i];
    }
  }

  /**
   * Progress of the extraction of `rest` in id order: `extras` holds the
   * entries taken so far, in order, `remaining` the rest, all of whose ids
   * come after those taken.
   */
  predicate Extracting(rest: map<string, ProviderConfig>, extras: seq<ProviderConfig>,
                       remaining: map<string, ProviderConfig>)
  {
    && (forall k :: k in remaining ==> k in rest && remaining[k] == rest[k])
    && SortedById(extras)
    && IdSet(extras) + remaining.Keys == rest.Keys
    && (forall i, k :: 0 <= i < |extras| && k in remaining ==> LexLess(extras[i].id, k))
    && (forall j :: 0 <= j < |extras| ==> extras[j].id in rest && extras[j] == rest[extras[j].id])
  }

  /** Removing a present key makes a map one entry smaller. */
  lemma RemoveShrinks(m: map<string, ProviderConfig>, k: string)
    requires k in m
    ensures |m - {k}| < |m|
  {
    assert (m - {k}).Keys + {k} == m.Keys;
  }

  /** Taking the entry with the least remaining id extends the extraction. */
  lemma ExtractLeast(rest: map<string, ProviderConfig>, extras: seq<ProviderConfig>,
                     remaining: map<string, ProviderConfig>, k: string)
    requires Extracting(rest, extras, remaining)
    requires k in remaining && forall x :: x in remaining && x != k ==> LexLess(k, x)
    requires forall x :: x in rest ==> rest[x].id == x
    ensures Extracting(rest, extras + [remaining[k]], remaining - {k})
  {
    var next := remaining[k];
    var longer := extras + [next];
    IdSetSnoc(extras, next);
    SortedSnoc(extras, next);
    forall i, x | 0 <= i < |longer| && x in remaining - {k}
      ensures LexLess(longer[i].id, x)
    {
      if i < |extras| {
        assert longer[i] == extras[i];
      }
    }
    forall j | 0 <= j < |longer|
      ensures longer[j].id in rest && longer[j] == rest[longer[j].id]
    {
      if j < |extras| {
        assert longer[j] == extras[j];
      }
    }
  }

  /** The leftover saved entries in ascending id order, taking the least remaining id each time. */
  method SortExtras(rest: map<string, ProviderConfig>) returns (extras: seq<ProviderConfig>)
    requires forall k :: k in rest ==> rest[k].id == k
    ensures SortedById(extras)
    ensures IdSet(extras) == rest.Keys
    ensures forall j :: 0 <= j < |extras| ==> extras[j].id in rest && extras[j] == rest[extras[j].id]
  {
    extras := [];
    var remaining := rest;
    while remaining != map[]
      invariant Extracting(rest, extras, remaining)
      decreases |remaining|
    {
      ghost var least := LeastString(remaining.Keys);
      var k :| k in remaining && forall x :: x in remaining && x != k ==> LexLess(k, x);
      ExtractLeast(rest, extras, remaining, k);
      RemoveShrinks(remaining, k);
      extras := extras + [remaining[k]];
      remaining := remaining - {k};
    }
    assert remaining.Keys == {};
  }

  /** Stripping keeps the ids, so a sorted tail stays sorted with the same ids and values. */
  lemma ClearedExtras(m: map<string, ProviderConfig>, extras: seq<ProviderConfig>, tail: seq<ProviderConfig>)
    requires SortedById(extras) && tail == ClearAll(extras)
    requires forall j :: 0 <= j < |extras| ==> extras[j].id in m && extras[j] == m[extras[j].id]
    ensures SortedById(tail) && IdSet(tail) == IdSet(extras)
    ensures forall j :: 0 <= j < |tail| ==> tail[j].id in m && tail[j] == ClearUnused(m[tail[j].id])
  {
    assert forall j :: 0 <= j < |extras| ==> tail[j].id == extras[j].id;
  }

  /** The merged defaults and the sorted extras, stripped, have the normalised shape. */
  lemma ArrangedFromParts(d: seq<ProviderConfig>, m: map<string, ProviderConfig>,
                          merged: seq<ProviderConfig>, extras: seq<ProviderConfig>)
    requires |merged| == |d|
    requires forall i :: 0 <= i < |d| ==> merged[i] == Settled(m, d[i])
    requires SortedById(extras)
    requires IdSet(extras) == m.Keys - IdSet(d)
    requires forall j :: 0 <= j < |extras| ==> extras[j].id in m && extras[j] == m[extras[j].id]
    ensures Arranged(d, m, ClearAll(merged + extras))
  {
    var r := ClearAll(merged + extras);
    var tail := r[|d|..];
    assert tail == ClearAll(extras);
    ClearedExtras(m, extras, tail);
    forall j | |d| <= j < |r|
      ensures r[j].id in m && r[j] == ClearUnused(m[r[j].id])
    {
      assert r[j] == tail[j - |d|];
    }
  }

  // ---------------------------------------------------------------------
  // Properties of the normalised list

  lemma ClearUnusedIdempotent(p: ProviderConfig)
    ensures ClearUnused(ClearUnused(p)) == ClearUnused(p)
    ensures ClearUnused(p).id == p.id && ClearUnused(p).providerType == p.providerType
  {
  }

  /** Saved entries are filed under their own ids. */
  predicate FiledById(m: map<string, ProviderConfig>) {
    forall k :: k in m ==> m[k].id == k
  }

  /** Every entry of an arranged list is filed under its id: the first ones under the defaults' ids. */
  lemma ArrangedIds(d: seq<ProviderConfig>, m: map<string, ProviderConfig>, r: seq<ProviderConfig>)
    requires Arranged(d, m, r) && FiledById(m)
    ensures forall i :: 0 <= i < |d| ==> r[i].id == d[i].id
  {
    forall i | 0 <= i < |d|
      ensures r[i].id == d[i].id
    {
      ClearUnusedIdempotent(Settled(m, d[i]));
    }
  }

  /**
   * The defaults come first, in order, each with the default's id, name, type
   * and preset flag; a saved entry with that id keeps its key and keeps its
   * address and model unless they are blank, in which case the default's are used.
   */
  lemma NormalizedDefaultsFirst(saved: seq<ProviderConfig>, r: seq<ProviderConfig>, i: nat)
    requires NormalizedFrom(saved, r) && i < |DefaultProviders|
    ensures var d := DefaultProviders[i];
      && r[i].id == d.id && r[i].name == d.name && r[i].providerType == d.providerType
      && r[i].isPreset == d.isPreset
    ensures var d := DefaultProviders[i];
      var m := SavedById(saved);
      d.id in m && r[i].providerType != Google ==>
        && r[i].apiKey == m[d.id].apiKey
        && r[i].apiBase == (if IsBlank(m[d.id].apiBase) then d.apiBase else m[d.id].apiBase)
        && (r[i].providerType != DeepL ==> r[i].model == (if IsBlank(m[d.id].model) then d.model else m[d.id].model))
    ensures DefaultProviders[i].id !in SavedById(saved) ==> r[i] == DefaultProviders[i]
  {
    DefaultsClean();
    ArrangedSettled(DefaultProviders, SavedById(saved), r, i);
  }

  lemma ArrangedSettled(d: seq<ProviderConfig>, m: map<string, ProviderConfig>, r: seq<ProviderConfig>, i: nat)
    requires Arranged(d, m, r) && FiledById(m) && i < |d| && ClearUnused(d[i]) == d[i]
    ensures && r[i].id == d[i].id && r[i].name == d[i].name && r[i].providerType == d[i].providerType
            && r[i].isPreset == d[i].isPreset
    ensures d[i].id in m && r[i].providerType != Google ==>
        && r[i].apiKey == m[d[i].id].apiKey
        && r[i].apiBase == (if IsBlank(m[d[i].id].apiBase) then d[i].apiBase else m[d[i].id].apiBase)
        && (r[i].providerType != DeepL ==> r[i].model == (if IsBlank(m[d[i].id].model) then d[i].model else m[d[i].id].model))
    ensures d[i].id !in m ==> r[i] == d[i]
  {
    SettledFields(m, d[i], r[i]);
  }

  /** One default's place: its identity fields, the saved key, and the saved address and model unless blank. */
  lemma SettledFields(m: map<string, ProviderConfig>, def: ProviderConfig, x: ProviderConfig)
    requires x == ClearUnused(Settled(m, def)) && FiledById(m) && ClearUnused(def) == def
    ensures x.id == def.id && x.name == def.name && x.providerType == def.providerType && x.isPreset == def.isPreset
    ensures def.id in m && x.providerType != Google ==>
        && x.apiKey == m[def.id].apiKey
        && x.apiBase == (if IsBlank(m[def.id].apiBase) then def.apiBase else m[def.id].apiBase)
        && (x.providerType != DeepL ==> x.model == (if IsBlank(m[def.id].model) then def.model else m[def.id].model))
    ensures def.id !in m ==> x == def
  {
    if def.id in m {
      var merged := MergeWithDefault(m[def.id], def);
      assert Settled(m, def) == merged;
      assert merged.providerType == def.providerType;
    }
  }

  /** Google providers keep no address, key or model; DeepL providers keep no model. */
  lemma NormalizedClearsUnused(saved: seq<ProviderConfig>, r: seq<ProviderConfig>)
    requires NormalizedFrom(saved, r)
    ensures forall i :: 0 <= i < |r| && r[i].providerType == Google ==> r[i].apiBase == "" && r[i].apiKey == "" && r[i].model == ""
    ensures forall i :: 0 <= i < |r| && r[i].providerType == DeepL ==> r[i].model == ""
    ensures forall i :: 0 <= i < |r| ==> ClearUnused(r[i]) == r[i]
  {
    ArrangedClean(DefaultProviders, SavedById(saved), r);
  }

  lemma ArrangedClean(d: seq<ProviderConfig>, m: map<string, ProviderConfig>, r: seq<ProviderConfig>)
    requires Arranged(d, m, r)
    ensures forall i :: 0 <= i < |r| ==> ClearUnused(r[i]) == r[i]
  {
    forall i | 0 <= i < |r|
      ensures ClearUnused(r[i]) == r[i]
    {
      if i < |d| {
        ClearUnusedIdempotent(Settled(m, d[i]));
      } else {
        ClearUnusedIdempotent(m[r[i].id]);
      }
    }
  }

  /** OpenAI and Anthropic providers after the defaults are the saved entries exactly. */
  lemma NormalizedKeepsLlmProviders(saved: seq<ProviderConfig>, r: seq<ProviderConfig>, j: nat)
    requires NormalizedFrom(saved, r) && |DefaultProviders| <= j < |r|
    requires r[j].providerType == OpenAI || r[j].providerType == Anthropic
    ensures r[j] == SavedById(saved)[r[j].id]
  {
    var m := SavedById(saved);
    assert r[j] == ClearUnused(m[r[j].id]);
  }

  lemma SortedDistinct(ps: seq<ProviderConfig>)
    requires SortedById(ps)
    ensures DistinctIds(ps)
  {
    forall i, j | 0 <= i < j < |ps|
      ensures ps[i].id != ps[j].id
    {
      if ps[i].id == ps[j].id {
        LexLessIrreflexive(ps[i].id);
      }
    }
  }

  lemma ArrangedDistinct(d: seq<ProviderConfig>, m: map<string, ProviderConfig>, r: seq<ProviderConfig>)
    requires Arranged(d, m, r) && FiledById(m) && DistinctIds(d)
    ensures DistinctIds(r)
  {
    var n := |d|;
    var tail := r[n..];
    SortedDistinct(tail);
    ArrangedIds(d, m, r);
    forall i, j | 0 <= i < j < |r|
      ensures r[i].id != r[j].id
    {
      if j >= n && i < n {
        assert r[j] == tail[j - n];
        assert r[j].id in IdSet(tail);
        assert d[i].id in IdSet(d);
      } else if i >= n {
        assert r[i] == tail[i - n] && r[j] == tail[j - n];
      }
    }
  }

  /** No two providers of a normalised list share an id. */
  lemma NormalizedIdsDistinct(saved: seq<ProviderConfig>, r: seq<ProviderConfig>)
    requires NormalizedFrom(saved, r)
    ensures DistinctIds(r)
  {
    DefaultIdsDistinct();
    ArrangedDistinct(DefaultProviders, SavedById(saved), r);
  }

  lemma IdSetEmpty(ps: seq<ProviderConfig>)
    ensures IdSet(ps) == {} <==> ps == []
  {
    if ps != [] {
      assert ps[0].id in IdSet(ps);
    }
  }

  lemma IdSetTail(ps: seq<ProviderConfig>)
    requires ps != [] && DistinctIds(ps)
    ensures IdSet(ps[1..]) == IdSet(ps) - {ps[0].id}
  {
    assert forall k :: 0 <= k < |ps| - 1 ==> ps[1..][k] == ps[k + 1];
    assert forall k :: 1 <= k < |ps| ==> ps[k] == ps[1..][k - 1];
  }

  /** The first entry of a sorted list holds its least id. */
  lemma SortedHeads(a: seq<ProviderConfig>, b: seq<ProviderConfig>)
    requires SortedById(a) && SortedById(b) && IdSet(a) == IdSet(b) && a != [] && b != []
    ensures a[0].id == b[0].id
  {
    assert a[0].id in IdSet(b) && b[0].id in IdSet(a);
    if a[0].id != b[0].id {
      var i :| 0 <= i < |a| && a[i].id == b[0].id;
      var j :| 0 <= j < |b| && b[j].id == a[0].id;
      LexLessTransitive(a[0].id, b[0].id, a[0].id);
      LexLessIrreflexive(a[0].id);
    }
  }

  /** Two lists sorted by id with the same ids list them in the same order. */
  lemma {:induction false} SortedSameIds(a: seq<ProviderConfig>, b: seq<ProviderConfig>)
    requires SortedById(a) && SortedById(b) && IdSet(a) == IdSet(b)
    ensures ProviderIds(a) == ProviderIds(b)
    decreases |a|
  {
    IdSetEmpty(a);
    IdSetEmpty(b);
    if a != [] {
      assert a[0].id in IdSet(b);
      SortedHeads(a, b);
      SortedDistinct(a);
      SortedDistinct(b);
      IdSetTail(a);
      IdSetTail(b);
      SortedSameIds(a[1..], b[1..]);
      assert ProviderIds(a) == [a[0].id] + ProviderIds(a[1..]);
      assert ProviderIds(b) == [b[0].id] + ProviderIds(b[1..]);
    }
  }

  /** The shape pins the list down: at most one list is arranged from given defaults and saved entries. */
  lemma ArrangedUnique(d: seq<ProviderConfig>, m: map<string, ProviderConfig>, r1: seq<ProviderConfig>, r2: seq<ProviderConfig>)
    requires Arranged(d, m, r1) && Arranged(d, m, r2)
    ensures r1 == r2
  {
    var t1 := r1[|d|..];
    var t2 := r2[|d|..];
    SortedSameIds(t1, t2);
    assert ProviderIds(t1) == ProviderIds(t2);
    assert |t1| == |t2|;
    forall j | 0 <= j < |t1|
      ensures t1[j] == t2[j]
    {
      assert t1[j] == r1[|d| + j] && t2[j] == r2[|d| + j];
      assert t1[j].id == ProviderIds(t1)[j] == ProviderIds(t2)[j] == t2[j].id;
    }
    assert r1 == r1[..|d|] + t1 && r2 == r2[..|d|] + t2;
  }

  /** The normalised list is fully determined by the saved one. */
  lemma NormalizedDeterminate(saved: seq<ProviderConfig>, r1: seq<ProviderConfig>, r2: seq<ProviderConfig>)
    requires NormalizedFrom(saved, r1) && NormalizedFrom(saved, r2)
    ensures r1 == r2
  {
    ArrangedUnique(DefaultProviders, SavedById(saved), r1, r2);
  }

  /** A settled, stripped entry is its own merge with the default. */
  lemma SettledStable(m: map<string, ProviderConfig>, def: ProviderConfig, x: ProviderConfig)
    requires x == ClearUnused(Settled(m, def)) && FiledById(m) && ClearUnused(def) == def
    ensures ClearUnused(MergeWithDefault(x, def)) == x
  {
    SettledFields(m, def, x);
    if def.id in m {
      var s := m[def.id];
      assert IsBlank(x.apiBase) && x.providerType != Google ==> x.apiBase == def.apiBase;
      assert IsBlank(x.model) && x.providerType != Google && x.providerType != DeepL ==> x.model == def.model;
    }
  }

  lemma IdSetSplit(r: seq<ProviderConfig>, n: nat)
    requires n <= |r|
    ensures IdSet(r) == IdSet(r[..n]) + IdSet(r[n..])
  {
    forall k | k in IdSet(r)
      ensures k in IdSet(r[..n]) + IdSet(r[n..])
    {
      var i :| 0 <= i < |r| && r[i].id == k;
      if i < n {
        assert r[..n][i] == r[i];
      } else {
        assert r[n..][i - n] == r[i];
      }
    }
  }

  /** The entries of an arranged list, filed by id, give back the same list. */
  lemma ArrangedStable(d: seq<ProviderConfig>, m: map<string, ProviderConfig>, r: seq<ProviderConfig>)
    requires Arranged(d, m, r) && FiledById(m) && DistinctIds(d)
    requires forall i :: 0 <= i < |d| ==> ClearUnused(d[i]) == d[i]
    ensures Arranged(d, SavedById(r), r)
  {
    var m2 := SavedById(r);
    ArrangedDistinct(d, m, r);
    ArrangedClean(d, m, r);
    forall i | 0 <= i < |r|
      ensures r[i].id in m2 && m2[r[i].id] == r[i]
    {
      SavedByIdLastWins(r, i);
    }
    ArrangedStableDefaults(d, m, m2, r);
    ArrangedStableIds(d, m, r);
  }

  lemma ArrangedStableDefaults(d: seq<ProviderConfig>, m: map<string, ProviderConfig>,
                               m2: map<string, ProviderConfig>, r: seq<ProviderConfig>)
    requires Arranged(d, m, r) && FiledById(m)
    requires forall i :: 0 <= i < |d| ==> ClearUnused(d[i]) == d[i]
    requires forall i :: 0 <= i < |r| ==> r[i].id in m2 && m2[r[i].id] == r[i]
    ensures forall i :: 0 <= i < |d| ==> r[i] == ClearUnused(Settled(m2, d[i]))
  {
    ArrangedIds(d, m, r);
    forall i | 0 <= i < |d|
      ensures r[i] == ClearUnused(Settled(m2, d[i]))
    {
      assert m2[d[i].id] == r[i];
      SettledStable(m, d[i], r[i]);
    }
  }

  lemma ArrangedStableIds(d: seq<ProviderConfig>, m: map<string, ProviderConfig>, r: seq<ProviderConfig>)
    requires Arranged(d, m, r) && FiledById(m)
    ensures IdSet(r[|d|..]) == IdSet(r) - IdSet(d)
  {
    var n := |d|;
    ArrangedIds(d, m, r);
    IdSetSplit(r, n);
    assert IdSet(r[..n]) == IdSet(d) by {
      assert forall i :: 0 <= i < n ==> r[..n][i].id == d[i].id;
    }
  }

  /** Normalising a normalised list changes nothing. */
  lemma NormalizeIdempotent(saved: seq<ProviderConfig>, r: seq<ProviderConfig>, r2: seq<ProviderConfig>)
    requires NormalizedFrom(saved, r) && NormalizedFrom(r, r2)
    ensures r2 == r
  {
    DefaultIdsDistinct();
    DefaultsClean();
    ArrangedStable(DefaultProviders, SavedById(saved), r);
    ArrangedUnique(DefaultProviders, SavedById(r), r, r2);
  }

  /** The default providers are already normalised. */
  lemma DefaultsNormalized()
    ensures NormalizedFrom(DefaultProviders, DefaultProviders)
  {
    NormalizedFromEmpty();
    DefaultIdsDistinct();
    DefaultsClean();
    ArrangedStable(DefaultProviders, SavedById([]), DefaultProviders);
  }

  // ---------------------------------------------------------------------
  // The settings object

  /** The settings, changed in place by `normalize` and by the settings window. */
  class Config {
    var hotkey: string
    var hotkeyLogEnabled: bool
    var targetLang: string
    var sourceLang: string
    var autoDetect: bool
    var activeProviderId: string
    var providers: seq<ProviderConfig>
    var activePromptPresetId: string
    var promptPresets: seq<PromptPreset>
    var uiLanguage: UiLanguage

    /** `Config::default`. */
    constructor ()
      ensures hotkey == "Alt+Q" && !hotkeyLogEnabled && targetLang == "zh" && sourceLang == "" && autoDetect
      ensures activeProviderId == "google" && providers == DefaultProviders
      ensures activePromptPresetId == DefaultActivePromptPresetId && promptPresets == DefaultPromptPresets
      ensures uiLanguage == Auto
    {
      hotkey := "Alt+Q";
      hotkeyLogEnabled := false;
      targetLang := "zh";
      sourceLang := "";
      autoDetect := true;
      activeProviderId := "google";
      providers := DefaultProviders;
      activePromptPresetId := DefaultActivePromptPresetId;
      promptPresets := DefaultPromptPresets;
      uiLanguage := Auto;
    }

    /** `provider_index`: the position of the first provider with that id. */
    function ProviderIndex(id: string): (r: Option<nat>)
      reads this
      ensures r.None? <==> forall i :: 0 <= i < |providers| ==> providers[i].id != id
      ensures r.Some? ==> r.value < |providers| && providers[r.value].id == id
                          && forall j :: 0 <= j < r.value ==> providers[j].id != id
    {
      IndexOf(ProviderIds(providers), id)
    }

    /** `get_provider`: the first provider with that id. */
    function GetProvider(id: string): (r: Option<ProviderConfig>)
      reads this
      ensures r.None? <==> forall i :: 0 <= i < |providers| ==> providers[i].id != id
      ensures r.Some? ==> r.value.id == id && exists i :: 0 <= i < |providers| && providers[i] == r.value
                                                       && forall j :: 0 <= j < i ==> providers[j].id != id
    {
      match ProviderIndex(id)
      case None => None
      case Some(i) => Some(providers[i])
    }

    /** `active_provider`: the first provider whose id is the active one. */
    function ActiveProvider(): (r: Option<ProviderConfig>)
      reads this
      ensures r.None? <==> activeProviderId !in ProviderIds(providers)
      ensures r.Some? ==> r.value.id == activeProviderId && r.value == providers[ProviderIndex(activeProviderId).value]
    {
      GetProvider(activeProviderId)
    }

    /** `prompt_preset_index`: the position of the first preset with that id. */
    function PromptPresetIndex(id: string): (r: Option<nat>)
      reads this
      ensures r.None? <==> forall i :: 0 <= i < |promptPresets| ==> promptPresets[i].id != id
      ensures r.Some? ==> r.value < |promptPresets| && promptPresets[r.value].id == id
                          && forall j :: 0 <= j < r.value ==> promptPresets[j].id != id
    {
      IndexOf(PresetIds(promptPresets), id)
    }

    /** `get_prompt_preset`: the first preset with that id. */
    function GetPromptPreset(id: string): (r: Option<PromptPreset>)
      reads this
      ensures r.None? <==> forall i :: 0 <= i < |promptPresets| ==> promptPresets[i].id != id
      ensures r.Some? ==> r.value.id == id && exists i :: 0 <= i < |promptPresets| && promptPresets[i] == r.value
                                                       && forall j :: 0 <= j < i ==> promptPresets[j].id != id
    {
      match PromptPresetIndex(id)
      case None => None
      case Some(i) => Some(promptPresets[i])
    }

    /** `active_prompt_preset`: the first preset whose id is the active one. */
    function ActivePromptPreset(): (r: Option<PromptPreset>)
      reads this
      ensures r.None? <==> activePromptPresetId !in PresetIds(promptPresets)
      ensures r.Some? ==> r.value.id == activePromptPresetId
                          && r.value == promptPresets[PromptPresetIndex(activePromptPresetId).value]
    {
      GetPromptPreset(activePromptPresetId)
    }

    /**
     * What `normalize` guarantees: the active provider and preset exist, there
     * is at least one preset, provider ids are distinct and no provider keeps
     * a field its type does not use.
     */
    predicate Normalized()
      reads this
    {
      && ActiveProvider().Some?
      && promptPresets != []
      && ActivePromptPreset().Some?
      && DistinctIds(providers)
      && forall i :: 0 <= i < |providers| ==> ClearUnused(providers[i]) == providers[i]
    }

    /** The loop that strips every provider of the fields its type does not use. */
    method ClearUnusedFields()
      modifies this`providers
      ensures providers == ClearAll(old(providers))
    {
      var i := 0;
      while i < |providers|
        invariant 0 <= i <= |providers| == |old(providers)|
        invariant forall j :: 0 <= j < i ==> providers[j] == ClearUnused(old(providers)[j])
        invariant forall j :: i <= j < |providers| ==> providers[j] == old(providers)[j]
      {
        var p := providers[i];
        match p.providerType {
          case Google =>
            p := p.(apiBase := "", apiKey := "", model := "");
          case DeepL =>
            p := p.(model := "");
          case OpenAI =>
          case Anthropic =>
        }
        providers := providers[i := p];
        i := i + 1;
      }
    }

    /** `normalize_providers`. */
    method NormalizeProviders()
      modifies this`providers, this`activeProviderId
      ensures NormalizedFrom(old(providers), providers)
      ensures old(providers) == [] ==> providers == DefaultProviders
      ensures activeProviderId == (if old(activeProviderId) in ProviderIds(providers) then old(activeProviderId)
                                   else providers[0].id)
    {
      var defaults := DefaultProviders;
      if providers == [] {
        providers := defaults;
        NormalizedFromEmpty();
        DefaultsClean();
      } else {
        var existing := CollectById(providers);
        DefaultIdsDistinct();
        var merged, rest := MergeDefaults(defaults, existing);
        var extras := [];
        if rest != map[] {
          extras := SortExtras(rest);
        }
        IdSetEmpty(extras);
        ArrangedFromParts(defaults, existing, merged, extras);
        providers := merged + extras;
      }
      ClearUnusedFields();
      if ProviderIndex(activeProviderId).None? {
        activeProviderId := if |providers| > 0 then providers[0].id else "google";
      }
    }

    /** The part of `normalize` after the providers: at least one preset, and an active preset that exists. */
    method NormalizePromptPresets()
      modifies this`promptPresets, this`activePromptPresetId
      ensures promptPresets == (if old(promptPresets) == [] then DefaultPromptPresets else old(promptPresets))
      ensures activePromptPresetId == (if old(activePromptPresetId) in PresetIds(promptPresets) then old(activePromptPresetId)
                                       else promptPresets[0].id)
    {
      if promptPresets == [] {
        promptPresets := DefaultPromptPresets;
      }
      if PromptPresetIndex(activePromptPresetId).None? {
        activePromptPresetId := if |promptPresets| > 0 then promptPresets[0].id else DefaultActivePromptPresetId;
      }
    }

    /** `normalize`: the providers, then the presets. */
    method Normalize()
      modifies this`providers, this`activeProviderId, this`promptPresets, this`activePromptPresetId
      ensures NormalizedFrom(old(providers), providers)
      ensures old(providers) == [] ==> providers == DefaultProviders
      ensures activeProviderId == (if old(activeProviderId) in ProviderIds(providers) then old(activeProviderId)
                                   else providers[0].id)
      ensures promptPresets == (if old(promptPresets) == [] then DefaultPromptPresets else old(promptPresets))
      ensures activePromptPresetId == (if old(activePromptPresetId) in PresetIds(promptPresets) then old(activePromptPresetId)
                                       else promptPresets[0].id)
      ensures Normalized()
    {
      NormalizeProviders();
      NormalizedIdsDistinct(old(providers), providers);
      NormalizedClearsUnused(old(providers), providers);
      NormalizePromptPresets();
    }
  }

  /** The default settings name a provider and a preset that exist. */
  lemma DefaultActiveIdsExist()
    ensures "google" in ProviderIds(DefaultProviders)
    ensures DefaultActivePromptPresetId in PresetIds(DefaultPromptPresets)
  {
    assert ProviderIds(DefaultProviders)[0] == "google";
    assert PresetIds(DefaultPromptPresets)[0] == "default";
  }
}
