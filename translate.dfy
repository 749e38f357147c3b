/**
 * What a translation request turns into before it goes on the wire: the
 * checks on the text and the active provider, the target language, the
 * prompts for the LLM providers, the endpoint addresses, and the clean-up of
 * what comes back. The HTTP exchanges themselves are not modelled: a request
 * is described by a `Call`, and a reply enters as the list of texts it carried.
 */
module Translate {
  import opened Wrappers
  import opened Text
  import opened AppConfig

  /** `TranslateRequest`. */
  datatype Request = Request(text: string, sourceLang: Option<string>, targetLang: string)

  /** The HTTP request the active provider's branch sends. */
  datatype Call =
    | GoogleCall(source: string, target: string, text: string)
    | DeepLCall(url: string, apiKey: string, targetLang: string, sourceLang: Option<string>, text: string)
    | OpenAICall(url: string, apiKey: string, model: string, system: string, user: string)
    | AnthropicCall(url: string, apiKey: string, model: string, maxTokens: nat, system: string, user: string)

  datatype TranslateError =
    | EmptyText                        // "Cannot translate empty text"
    | NoActiveProvider                 // "No active provider configured"
    | MissingApiKey(provider: string)  // "<provider> API key not configured"
    | NoTranslation(provider: string)  // "No translation returned from <provider>" / "No response from <provider>"

  // ---------------------------------------------------------------------
  // Target language

  /** CJK Unified Ideographs, Extension A, Hiragana and Katakana. */
  predicate IsCjk(c: char) {
    || ('\U{4E00}' <= c <= '\U{9FFF}')
    || ('\U{3400}' <= c <= '\U{4DBF}')
    || ('\U{3040}' <= c <= '\U{309F}')
    || ('\U{30A0}' <= c <= '\U{30FF}')
  }

  /** `text.chars().any(...)` over the CJK ranges. */
  function HasCjk(text: string): (r: bool)
    ensures r <==> exists i :: 0 <= i < |text| && IsCjk(text[i])
  {
    if text == [] then false
    else IsCjk(text[0]) || (assert forall i :: 0 <= i < |text| - 1 ==> text[1..][i] == text[i + 1];
                            HasCjk(text[1..]))
  }

  /** `determine_target_lang`: with detection on, English for CJK text and Chinese otherwise; without it, the configured target. */
  function DetermineTargetLang(autoDetect: bool, configuredTarget: string, text: string): (r: string)
    ensures autoDetect ==> (r == "en" <==> HasCjk(text)) && (r == "en" || r == "zh")
    ensures !autoDetect ==> r == configuredTarget
  {
    if autoDetect then (if HasCjk(text) then "en" else "zh") else configuredTarget
  }

  /** The language names the prompts use, keyed by lower-case code. */
  const LanguageNames: seq<(string, string)> := [
    ("zh", "简体中文"), ("zh-cn", "简体中文"),
    ("zh-tw", "繁體中文"), ("zh-hk", "繁體中文"),
    ("en", "English"),
    ("ja", "日本語"),
    ("ko", "한국어"),
    ("fr", "Français"),
    ("de", "Deutsch"),
    ("es", "Español"),
    ("ru", "Русский"),
    ("pt", "Português"),
    ("it", "Italiano"),
    ("ar", "العربية"),
    ("th", "ไทย"),
    ("vi", "Tiếng Việt")
  ]

  /** `get_language_name`: the name for the code in any case; an unknown code stands for itself, as written. */
  function LanguageName(code: string): string {
    match Lookup(Lower(code), LanguageNames)
    case Some(name) => name
    case None => code
  }

  /** The name depends on the code's lower case only, and an unknown code is kept with its own case. */
  lemma LanguageNameCases(code: string, other: string)
    ensures Lower(code) == Lower(other) && Lookup(Lower(code), LanguageNames).Some? ==> LanguageName(code) == LanguageName(other)
    ensures Lookup(Lower(code), LanguageNames).None? ==> LanguageName(code) == code
  {
  }

  /** A known code in upper case still finds its name. */
  lemma LanguageNameUpperCase()
    ensures LanguageName("ZH-TW") == "繁體中文"
  {
    assert Lower("ZH-TW") == "zh-tw" by {
      assert LowerChar('Z') == 'z' && LowerChar('H') == 'h' && LowerChar('-') == '-';
      assert LowerChar('T') == 't' && LowerChar('W') == 'w';
    }
    assert LanguageNames[2] == ("zh-tw", "繁體中文");
  }

  /** A code the table does not know, such as a script-qualified one, is its own name, with its own case. */
  lemma LanguageNameUnknown()
    ensures LanguageName("zh-Hans") == "zh-Hans"
  {
    ScriptCodeLower();
    LanguageCodesShort();
    LookupMissing("zh-hans", LanguageNames);
  }

  lemma ScriptCodeLower()
    ensures Lower("zh-Hans") == "zh-hans"
  {
    assert LowerChar('z') == 'z' && LowerChar('h') == 'h' && LowerChar('-') == '-';
    assert LowerChar('H') == 'h' && LowerChar('a') == 'a' && LowerChar('n') == 'n' && LowerChar('s') == 's';
  }

  /** Every code in the table has at most five characters. */
  lemma LanguageCodesShort()
    ensures forall i :: 0 <= i < |LanguageNames| ==> |LanguageNames[i].0| <= 5
  {
  }

  // ---------------------------------------------------------------------
  // Prompts

  const TargetNamePlaceholder: string := "{{target_lang_name}}"
  const TargetCodePlaceholder: string := "{{target_lang_code}}"
  const TextPlaceholder: string := "{{text}}"
  const SourceCodePlaceholder: string := "{{source_lang_code}}"

  /** `PromptTemplateContext`. */
  datatype PromptContext = PromptContext(targetCode: string, targetName: string, sourceCode: Option<string>, text: string)

  /** `render_prompt_template`: every placeholder replaced, one kind after the other, a missing source by "". */
  function RenderPromptTemplate(template: string, ctx: PromptContext): string {
    var withName := Replace(template, TargetNamePlaceholder, ctx.targetName);
    var withCode := Replace(withName, TargetCodePlaceholder, ctx.targetCode);
    var withText := Replace(withCode, TextPlaceholder, ctx.text);
    Replace(withText, SourceCodePlaceholder, ctx.sourceCode.GetOr(""))
  }

  /** A template without placeholders comes back as it is. */
  lemma RenderWithoutPlaceholders(template: string, ctx: PromptContext)
    requires !Contains(template, TargetNamePlaceholder) && !Contains(template, TargetCodePlaceholder)
    requires !Contains(template, TextPlaceholder) && !Contains(template, SourceCodePlaceholder)
    ensures RenderPromptTemplate(template, ctx) == template
  {
    ReplaceAbsent(template, TargetNamePlaceholder, ctx.targetName);
    ReplaceAbsent(template, TargetCodePlaceholder, ctx.targetCode);
    ReplaceAbsent(template, TextPlaceholder, ctx.text);
    ReplaceAbsent(template, SourceCodePlaceholder, ctx.sourceCode.GetOr(""));
  }

  /**
   * The replacements run in order over the text built so far, so a
   * placeholder inside a substituted value is itself replaced when its kind
   * comes later: a text that reads "{{source_lang_code}}" disappears when
   * the source language is detected.
   */
  lemma RenderTextThenSource()
    ensures RenderPromptTemplate(TextPlaceholder, PromptContext("en", "English", None, SourceCodePlaceholder)) == ""
  {
    ReplaceShort(TextPlaceholder, TargetNamePlaceholder, "English");
    ReplaceShort(TextPlaceholder, TargetCodePlaceholder, "en");
    ReplaceWhole(TextPlaceholder, SourceCodePlaceholder);
    ReplaceWhole(SourceCodePlaceholder, "");
  }

  /** A language name that reads "{{target_lang_name}}" is not replaced again: no placeholder kind comes back. */
  lemma RenderNameOnce(code: string, text: string)
    ensures RenderPromptTemplate(TargetNamePlaceholder, PromptContext(code, TargetNamePlaceholder, None, text))
            == TargetNamePlaceholder
  {
    ReplaceWhole(TargetNamePlaceholder, TargetNamePlaceholder);
    PassOverCode(TargetCodePlaceholder, code);
    PassOverName(TextPlaceholder, text);
    PassOverSource(SourceCodePlaceholder, "");
  }

  /** The code placeholder does not occur in the language-name placeholder: they differ at the same length. */
  lemma PassOverCode(p: string, r: string)
    requires p == TargetCodePlaceholder
    ensures Replace(TargetNamePlaceholder, p, r) == TargetNamePlaceholder
  {
    assert TargetNamePlaceholder[14] != p[14];
    ReplaceSameLength(TargetNamePlaceholder, p, r);
  }

  /** Nor does the source placeholder, of the same length. */
  lemma PassOverSource(p: string, r: string)
    requires p == SourceCodePlaceholder
    ensures Replace(TargetNamePlaceholder, p, r) == TargetNamePlaceholder
  {
    assert TargetNamePlaceholder[2] != p[2];
    ReplaceSameLength(TargetNamePlaceholder, p, r);
  }

  /** The text placeholder does not occur in the language-name placeholder. */
  lemma PassOverName(p: string, r: string)
    requires p == TextPlaceholder
    ensures Replace(TargetNamePlaceholder, p, r) == TargetNamePlaceholder
  {
    var rest := "target_lang_name}}";
    PassOverBraces(TargetNamePlaceholder, p, r, rest);
    PassOverNameTail(rest, p, r);
  }

  /** Neither of the two opening braces starts an occurrence of the text placeholder. */
  lemma PassOverBraces(s: string, p: string, r: string, rest: string)
    requires s == TargetNamePlaceholder && p == TextPlaceholder && rest == "target_lang_name}}"
    ensures Replace(s, p, r) == "{{" + Replace(rest, p, r)
  {
    assert s[..|p|][3] != p[3];
    ReplaceNoMatchHere(s, p, r);
    assert s[1..][..|p|][1] != p[1];
    ReplaceNoMatchHere(s[1..], p, r);
    assert s[1..][1..] == rest;
  }

  /** After the braces there is no brace left to start the text placeholder. */
  lemma PassOverNameTail(rest: string, p: string, r: string)
    requires p == TextPlaceholder && rest == "target_lang_name}}"
    ensures Replace(rest, p, r) == rest
  {
    NameTailLacksBrace();
    ReplaceSkip(rest, [], p, r);
    assert rest + [] == rest;
  }

  lemma NameTailLacksBrace()
    ensures Lacks("target_lang_name}}", '{')
  {
  }

  /** `get_translation_system_prompt`. */
  function BuiltinSystemPrompt(targetLang: string): string {
    var name := LanguageName(targetLang);
    "你是一位专业的 " + name + " 母语翻译者，需要流畅地将文本翻译成 " + name + SystemPromptRules
  }

  const SystemPromptRules: string := @"。

## 翻译规则
1. 仅输出翻译内容，不要包含解释或其他额外内容（例如""翻译如下：""或""以下是翻译：""等）
2. 返回的翻译必须保持与原文完全相同的段落数和格式
3. 如果文本包含 HTML 标签，在保持流畅性的同时，请考虑标签在翻译中的位置
4. 对于不应翻译的内容（如专有名词、代码等），请保留原文
5. 直接输出翻译（无分隔符，无额外文本）"

  /** `get_translation_user_prompt`. */
  function BuiltinUserPrompt(targetLang: string, text: string): string {
    StrictUserHead + LanguageName(targetLang) + StrictUserMiddle + text
  }

  /**
   * `build_translation_prompts`: the built-in prompts without an active
   * preset; otherwise each half is the preset's template rendered, or the
   * built-in prompt when that template is blank.
   */
  function BuildTranslationPrompts(config: Config, request: Request): (string, string)
    reads config
  {
    var ctx := PromptContext(request.targetLang, LanguageName(request.targetLang), request.sourceLang, request.text);
    match config.ActivePromptPreset()
    case None => (BuiltinSystemPrompt(request.targetLang), BuiltinUserPrompt(request.targetLang, request.text))
    case Some(preset) =>
      var system := if IsBlank(preset.systemTemplate) then BuiltinSystemPrompt(request.targetLang)
                    else RenderPromptTemplate(preset.systemTemplate, ctx);
      var user := if IsBlank(preset.userTemplate) then BuiltinUserPrompt(request.targetLang, request.text)
                  else RenderPromptTemplate(preset.userTemplate, ctx);
      (system, user)
  }

  /** Each half falls back on its own: a blank template is replaced by the built-in prompt, any other is rendered. */
  lemma PromptHalves(config: Config, request: Request)
    ensures var (system, user) := BuildTranslationPrompts(config, request);
      var ctx := PromptContext(request.targetLang, LanguageName(request.targetLang), request.sourceLang, request.text);
      match config.ActivePromptPreset()
      case None =>
        system == BuiltinSystemPrompt(request.targetLang) && user == BuiltinUserPrompt(request.targetLang, request.text)
      case Some(preset) =>
        && (IsBlank(preset.systemTemplate) ==> system == BuiltinSystemPrompt(request.targetLang))
        && (!IsBlank(preset.systemTemplate) ==> system == RenderPromptTemplate(preset.systemTemplate, ctx))
        && (IsBlank(preset.userTemplate) ==> user == BuiltinUserPrompt(request.targetLang, request.text))
        && (!IsBlank(preset.userTemplate) ==> user == RenderPromptTemplate(preset.userTemplate, ctx))
  {
  }

  /** One placeholder between two stretches without its first character, and a shorter tail: one replacement. */
  lemma ReplaceBetween(a: string, p: string, m: string, q: string, r: string)
    requires p != [] && Lacks(a, p[0]) && Lacks(m, p[0]) && |q| < |p|
    ensures Replace(a + p + m + q, p, r) == a + r + m + q
  {
    assert a + p + m + q == a + (p + (m + q));
    ReplaceSkip(a, p + (m + q), p, r);
    ReplaceFront(p, m + q, r);
    ReplaceSkip(m, q, p, r);
    ReplaceShort(q, p, r);
  }

  /** Text without the pattern's first character followed by a tail shorter than the pattern: nothing to replace. */
  lemma ReplaceNothing(a: string, q: string, p: string, r: string)
    requires p != [] && Lacks(a, p[0]) && |q| < |p|
    ensures Replace(a + q, p, r) == a + q
  {
    ReplaceSkip(a, q, p, r);
    ReplaceShort(q, p, r);
  }

  /** The placeholder at the very end is replaced. */
  lemma ReplaceAtEnd(a: string, p: string, r: string)
    requires p != [] && Lacks(a, p[0])
    ensures Replace(a + p, p, r) == a + r
  {
    ReplaceSkip(a, p, p, r);
    ReplaceWhole(p, r);
  }

  lemma PlaceholdersOpenWithBrace()
    ensures TargetNamePlaceholder[0] == '{' && TargetCodePlaceholder[0] == '{'
    ensures TextPlaceholder[0] == '{' && SourceCodePlaceholder[0] == '{'
    ensures |TextPlaceholder| < |TargetNamePlaceholder| && |TextPlaceholder| < |TargetCodePlaceholder|
  {
  }

  /**
   * A template with the language name and then the text, in surroundings
   * without '{', renders to those surroundings around the name and the text,
   * as long as neither of these contains a '{' that a later replacement
   * could pick up.
   */
  lemma RenderNameThenText(head: string, middle: string, ctx: PromptContext)
    requires Lacks(head, '{') && Lacks(middle, '{')
    requires Lacks(ctx.targetName, '{') && Lacks(ctx.text, '{')
    ensures RenderPromptTemplate(head + TargetNamePlaceholder + middle + TextPlaceholder, ctx)
            == head + ctx.targetName + middle + ctx.text
  {
    PlaceholdersOpenWithBrace();
    ReplaceBetween(head, TargetNamePlaceholder, middle, TextPlaceholder, ctx.targetName);
    var lead := head + ctx.targetName + middle;
    LacksConcat(head, ctx.targetName, '{');
    LacksConcat(head + ctx.targetName, middle, '{');
    ReplaceNothing(lead, TextPlaceholder, TargetCodePlaceholder, ctx.targetCode);
    ReplaceAtEnd(lead, TextPlaceholder, ctx.text);
    LacksConcat(lead, ctx.text, '{');
    ReplaceSkip(lead + ctx.text, [], SourceCodePlaceholder, ctx.sourceCode.GetOr(""));
    assert lead + ctx.text + [] == lead + ctx.text;
  }

  const StrictUserHead: string := "翻译成 "
  const StrictUserMiddle: string := "（仅输出翻译）：\n\n"

  lemma StrictUserTemplateParts()
    ensures StrictUserTemplate == StrictUserHead + TargetNamePlaceholder + StrictUserMiddle + TextPlaceholder
  {
    var named := StrictUserHead + TargetNamePlaceholder;
    assert named == "翻译成 {{target_lang_name}}";
    var framed := named + StrictUserMiddle;
    assert framed == "翻译成 {{target_lang_name}}（仅输出翻译）：\n\n";
  }

  lemma StrictUserPartsLackBrace()
    ensures Lacks(StrictUserHead, '{') && Lacks(StrictUserMiddle, '{')
  {
  }

  /**
   * The shipped "default" preset's user template renders to the built-in
   * user prompt when neither the language name nor the text contains a '{'.
   */
  lemma DefaultUserTemplateIsBuiltin(targetLang: string, ctx: PromptContext)
    requires ctx.targetName == LanguageName(targetLang)
    requires Lacks(ctx.targetName, '{') && Lacks(ctx.text, '{')
    ensures RenderPromptTemplate(StrictUserTemplate, ctx) == BuiltinUserPrompt(targetLang, ctx.text)
  {
    StrictUserTemplateParts();
    StrictUserPartsLackBrace();
    RenderNameThenText(StrictUserHead, StrictUserMiddle, ctx);
  }

  // ---------------------------------------------------------------------
  // Endpoints and replies

  /** `format!("{}<suffix>", api_base.trim_end_matches('/'))`: the address ends in the suffix,
      and what precedes it is the base cut just before its run of trailing slashes. */
  function Endpoint(apiBase: string, suffix: string): (r: string)
    ensures |suffix| <= |r| && r[|r| - |suffix|..] == suffix
    ensures var n := |r| - |suffix|; n <= |apiBase| && r[..n] == apiBase[..n]
    ensures var n := |r| - |suffix|; n == 0 || apiBase[n - 1] != '/'
    ensures forall i :: |r| - |suffix| <= i < |apiBase| ==> apiBase[i] == '/'
  {
    TrimEndMatches(apiBase, '/') + suffix
  }

  /** Trailing slashes on the configured address make no difference, and an address without one is used as it is. */
  lemma EndpointSlashes(apiBase: string, suffix: string)
    ensures Endpoint(apiBase + "/", suffix) == Endpoint(apiBase, suffix)
    ensures apiBase == [] || apiBase[|apiBase| - 1] != '/' ==> Endpoint(apiBase, suffix) == apiBase + suffix
  {
    assert (apiBase + "/")[..|apiBase + "/"| - 1] == apiBase;
  }

  /** The fixed paths of the three keyed services. */
  const DeepLPath: string := "/translate"
  const OpenAIPath: string := "/chat/completions"
  const AnthropicPath: string := "/v1/messages"

  /** Replies of the two LLM services are trimmed; the first choice wins, and no choice is an error. */
  function LlmReply(contents: seq<string>, provider: string): (r: Result<string, TranslateError>)
    ensures contents == [] <==> r.Err?
    ensures r.Err? ==> r.error == NoTranslation(provider)
    ensures r.Ok? ==> r.value == Trim(contents[0])
  {
    if contents == [] then Err(NoTranslation(provider)) else Ok(Trim(contents[0]))
  }

  /** A trimmed reply has no white space at either end, so trimming it again changes nothing. */
  lemma LlmReplyTrimmed(contents: seq<string>, provider: string)
    requires LlmReply(contents, provider).Ok?
    ensures var t := LlmReply(contents, provider).value;
      (t != [] ==> !IsWhitespace(t[0]) && !IsWhitespace(t[|t| - 1])) && Trim(t) == t
  {
    TrimNoSurroundingSpace(LlmReply(contents, provider).value);
  }

  /**
   * The text parts of Google's reply, one per item of its first array, in
   * order: `None` for an item whose first element is not a string. A reply
   * without that array has no items.
   */
  function Joined(parts: seq<Option<string>>): string
  {
    if parts == [] then []
    else Joined(parts[..|parts| - 1]) + parts[|parts| - 1].GetOr([])
  }

  /** The joined text is empty exactly when every text part present is empty. */
  lemma {:induction false} JoinedEmpty(parts: seq<Option<string>>)
    ensures Joined(parts) == [] <==> forall i :: 0 <= i < |parts| && parts[i].Some? ==> parts[i].value == []
  {
    if parts != [] {
      var init := parts[..|parts| - 1];
      JoinedEmpty(init);
      assert forall i :: 0 <= i < |init| ==> init[i] == parts[i];
    }
  }

  /** The joined text is the present parts one after the other: a part shows up right after the parts before it. */
  lemma {:induction false} JoinedPrefix(parts: seq<Option<string>>, k: nat)
    requires k <= |parts|
    ensures Joined(parts[..k]) <= Joined(parts)
    decreases |parts|
  {
    if k < |parts| {
      var init := parts[..|parts| - 1];
      assert parts[..k] == init[..k];
      JoinedPrefix(init, k);
    } else {
      assert parts[..k] == parts;
    }
  }

  /** `translate_google`'s reading of the reply: the text parts appended in order; nothing at all is an error. */
  method GoogleReply(parts: seq<Option<string>>) returns (r: Result<string, TranslateError>)
    ensures r.Ok? <==> Joined(parts) != []
    ensures r.Ok? ==> r.value == Joined(parts)
    ensures r.Err? ==> r.error == NoTranslation("Google")
  {
    var translated := "";
    for i := 0 to |parts|
      invariant translated == Joined(parts[..i])
    {
      assert parts[..i + 1][..i] == parts[..i];
      match parts[i]
      case Some(part) => translated := translated + part;
      case None =>
    }
    assert parts[..|parts|] == parts;
    if translated == [] {
      return Err(NoTranslation("Google"));
    }
    return Ok(translated);
  }

  /** DeepL's reply: the first translation, untrimmed. */
  function DeepLReply(translations: seq<string>): (r: Result<string, TranslateError>)
    ensures translations == [] <==> r.Err?
    ensures r.Ok? ==> r.value == translations[0]
  {
    if translations == [] then Err(NoTranslation("DeepL")) else Ok(translations[0])
  }

  // ---------------------------------------------------------------------
  // The dispatch

  /** The request `translate` builds from the settings. */
  function MakeRequest(config: Config, text: string): (r: Request)
    reads config
    ensures r.text == text
    ensures r.sourceLang.None? <==> config.autoDetect
    ensures r.sourceLang.Some? ==> r.sourceLang.value == config.sourceLang
  {
    Request(text, if config.autoDetect then None else Some(config.sourceLang),
            DetermineTargetLang(config.autoDetect, config.targetLang, text))
  }

  /** `translate_google` up to the request: an unset source is "auto"; no key is needed. */
  function GoogleRequest(request: Request): (c: Call)
    ensures c.GoogleCall? && c.target == request.targetLang && c.text == request.text
    ensures request.sourceLang.None? ==> c.source == "auto"
    ensures request.sourceLang.Some? ==> c.source == request.sourceLang.value
  {
    GoogleCall(request.sourceLang.GetOr("auto"), request.targetLang, request.text)
  }

  /** `translate_deepl` up to the request: the key is required, and the language codes go in upper case. */
  function DeepLRequest(provider: ProviderConfig, request: Request): (r: Result<Call, TranslateError>)
    ensures provider.apiKey == [] <==> r.Err?
    ensures r.Err? ==> r.error == MissingApiKey("DeepL")
    ensures r.Ok? ==> var c := r.value;
      && c.DeepLCall?
      && c.url == TrimEndMatches(provider.apiBase, '/') + DeepLPath
      && c.apiKey == provider.apiKey && c.text == request.text
      && |c.targetLang| == |request.targetLang|
      && (forall i :: 0 <= i < |request.targetLang| ==> c.targetLang[i] == UpperChar(request.targetLang[i]))
      && (c.sourceLang.Some? <==> request.sourceLang.Some?)
      && (c.sourceLang.Some? ==> c.sourceLang.value == Upper(request.sourceLang.value))
  {
    if provider.apiKey == [] then Err(MissingApiKey("DeepL"))
    else
      var source := match request.sourceLang case None => None case Some(s) => Some(Upper(s));
      Ok(DeepLCall(Endpoint(provider.apiBase, DeepLPath), provider.apiKey, Upper(request.targetLang), source, request.text))
  }

  /** `translate_openai` up to the request: the key is required, and the error names the provider. */
  function OpenAIRequest(config: Config, provider: ProviderConfig, request: Request): (r: Result<Call, TranslateError>)
    reads config
    ensures provider.apiKey == [] <==> r.Err?
    ensures r.Err? ==> r.error == MissingApiKey(provider.name)
    ensures r.Ok? ==> var c := r.value;
      && c.OpenAICall?
      && c.url == TrimEndMatches(provider.apiBase, '/') + OpenAIPath
      && c.apiKey == provider.apiKey && c.model == provider.model
      && (c.system, c.user) == BuildTranslationPrompts(config, request)
  {
    if provider.apiKey == [] then Err(MissingApiKey(provider.name))
    else
      var (system, user) := BuildTranslationPrompts(config, request);
      Ok(OpenAICall(Endpoint(provider.apiBase, OpenAIPath), provider.apiKey, provider.model, system, user))
  }

  /** `translate_anthropic` up to the request: the key is required, and at most 4096 tokens are asked for. */
  function AnthropicRequest(config: Config, provider: ProviderConfig, request: Request): (r: Result<Call, TranslateError>)
    reads config
    ensures provider.apiKey == [] <==> r.Err?
    ensures r.Err? ==> r.error == MissingApiKey("Anthropic")
    ensures r.Ok? ==> var c := r.value;
      && c.AnthropicCall?
      && c.url == TrimEndMatches(provider.apiBase, '/') + AnthropicPath
      && c.apiKey == provider.apiKey && c.model == provider.model && c.maxTokens == 4096
      && (c.system, c.user) == BuildTranslationPrompts(config, request)
  {
    if provider.apiKey == [] then Err(MissingApiKey("Anthropic"))
    else
      var (system, user) := BuildTranslationPrompts(config, request);
      Ok(AnthropicCall(Endpoint(provider.apiBase, AnthropicPath), provider.apiKey, provider.model, 4096, system, user))
  }

  /** `translate` up to the HTTP request: the checks, then the branch of the active provider's type. */
  function PlanTranslation(config: Config, text: string): Result<Call, TranslateError>
    reads config
  {
    if IsBlank(text) then Err(EmptyText)
    else match config.ActiveProvider()
      case None => Err(NoActiveProvider)
      case Some(provider) =>
        var request := MakeRequest(config, text);
        match provider.providerType
        case Google => Ok(GoogleRequest(request))
        case DeepL => DeepLRequest(provider, request)
        case OpenAI => OpenAIRequest(config, provider, request)
        case Anthropic => AnthropicRequest(config, provider, request)
  }

  /** Blank text is refused before anything else is looked at, and a missing active provider is the next refusal. */
  lemma PlanChecksFirst(config: Config, text: string)
    ensures IsBlank(text) ==> PlanTranslation(config, text) == Err(EmptyText)
    ensures !IsBlank(text) && config.ActiveProvider().None? ==> PlanTranslation(config, text) == Err(NoActiveProvider)
    ensures PlanTranslation(config, text).Ok? ==> !IsBlank(text) && config.ActiveProvider().Some?
  {
  }

  /**
   * A planned call goes to the service of the active provider's type, built
   * from the request the settings give; Google needs no key, every other
   * service refuses an empty key.
   */
  lemma PlanFollowsProvider(config: Config, text: string)
    requires !IsBlank(text) && config.ActiveProvider().Some?
    ensures var p := config.ActiveProvider().value;
      var request := MakeRequest(config, text);
      var r := PlanTranslation(config, text);
      && (p.providerType == Google ==> r == Ok(GoogleRequest(request)))
      && (p.providerType != Google ==> (p.apiKey == [] <==> r.Err? && r.error.MissingApiKey?))
      && (p.providerType == DeepL ==> r == DeepLRequest(p, request))
      && (p.providerType == OpenAI ==> r == OpenAIRequest(config, p, request))
      && (p.providerType == Anthropic ==> r == AnthropicRequest(config, p, request))
  {
  }

  /** With detection on, Google is asked to detect the source, and the target follows the script of the text. */
  lemma GoogleCallShape(config: Config, text: string)
    ensures var c := GoogleRequest(MakeRequest(config, text));
      && (config.autoDetect ==> c.source == "auto" && (c.target == "en" <==> HasCjk(text)))
      && (!config.autoDetect ==> c.source == config.sourceLang && c.target == config.targetLang)
      && c.text == text
  {
  }
}
