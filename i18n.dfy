/**
 * The user-interface language: the two string tables, the choice between
 * them at start-up (with the operating system's user-interface language as
 * a parameter), the process-wide current language, and the numbering the
 * settings window's language list uses.
 */
module I18n {
  import opened Wrappers
  import AppConfig

  /** `Lang`: the languages the interface is written in. */
  datatype Lang = En | Zh

  /** `Texts`: every string the windows and the tray menu show. */
  datatype Texts = Texts(
    settingsTitle: string,
    globalHotkey: string,
    hotkeyPlaceholder: string,
    hotkeyRecording: string,
    translationProvider: string,
    providerSettings: string,
    googleNoConfig: string,
    deeplSettings: string,
    apiKey: string,
    apiKeyPlaceholder: string,
    deeplHint: string,
    apiSettings: string,
    apiBaseUrl: string,
    model: string,
    modelPlaceholder: string,
    cancel: string,
    save: string,
    uiLanguage: string,
    providerLabel: string,
    translating: string,
    copy: string,
    apply: string,
    hintApply: string,
    traySettings: string,
    trayExit: string)

  const TextsEn: Texts := Texts(
    "Settings",
    "Global Hotkey",
    "Click and press keys...",
    "Press hotkey...",
    "Translation Provider",
    "Provider Settings",
    "Google Translate - no config needed",
    "DeepL Settings",
    "API Key",
    "Enter your API key",
    "Get your free API key at deepl.com/pro-api",
    "API Settings",
    "API Base URL",
    "Model",
    "e.g., gpt-4o-mini",
    "Cancel",
    "Save",
    "UI Language",
    "Provider:",
    "Translating...",
    "Copy",
    "Apply",
    "Click result or press Enter to apply",
    "Settings",
    "Exit")

  const TextsZh: Texts := Texts(
    "设置",
    "全局快捷键",
    "点击后按下快捷键...",
    "请按下快捷键...",
    "翻译服务",
    "服务设置",
    "Google 翻译 - 无需配置",
    "DeepL 设置",
    "API 密钥",
    "输入您的 API 密钥",
    "在 deepl.com/pro-api 获取免费密钥",
    "API 设置",
    "API 地址",
    "模型",
    "例如 gpt-4o-mini",
    "取消",
    "保存",
    "界面语言",
    "服务:",
    "翻译中...",
    "复制",
    "应用",
    "点击结果或按回车应用",
    "设置",
    "退出")

  /** The table for a language. */
  function TextsFor(lang: Lang): Texts {
    match lang
    case En => TextsEn
    case Zh => TextsZh
  }

  /** The two tables are different tables: the tray's exit item alone tells them apart. */
  lemma TablesDiffer()
    ensures TextsFor(En) != TextsFor(Zh)
    ensures TextsFor(En).trayExit == "Exit" && TextsFor(Zh).trayExit == "退出"
  {
    assert TextsEn.trayExit[0] != TextsZh.trayExit[0];
  }

  // ---------------------------------------------------------------------
  // Detecting the system language

  /**
   * The test on the user-interface language id (a 16-bit LANGID): Chinese
   * (PRC), Chinese (Taiwan), or any id whose primary language, the low byte,
   * is Chinese.
   */
  predicate IsChineseLangId(langId: nat) {
    langId == 0x0804 || langId == 0x0404 || langId % 0x100 == 0x04
  }

  /** The two named ids are themselves Chinese by their low byte, so the test is the low byte alone. */
  lemma ChineseLangIdIsLowByte(langId: nat)
    ensures IsChineseLangId(langId) <==> langId % 0x100 == 0x04
  {
  }

  /**
   * `detect_system_language`: `langId` is what `GetUserDefaultUILanguage`
   * answers on Windows, `None` elsewhere, where English is the answer.
   */
  function DetectSystemLanguage(langId: Option<nat>): (r: Lang)
    ensures r == Zh <==> langId.Some? && langId.value % 0x100 == 0x04
  {
    ChineseLangIdIsLowByte(langId.GetOr(0));
    match langId
    case Some(id) => if IsChineseLangId(id) then Zh else En
    case None => En
  }

  /** `init`'s choice: a fixed language is kept, `Auto` asks the system. */
  function InitialLanguage(uiLanguage: AppConfig.UiLanguage, langId: Option<nat>): (r: Lang)
    ensures uiLanguage == AppConfig.UiLanguage.En ==> r == En
    ensures uiLanguage == AppConfig.UiLanguage.Zh ==> r == Zh
    ensures uiLanguage == AppConfig.Auto ==> r == DetectSystemLanguage(langId)
  {
    match uiLanguage
    case En => En
    case Zh => Zh
    case Auto => DetectSystemLanguage(langId)
  }

  /** The system is asked only for `Auto`. */
  lemma InitialLanguageIgnoresSystem(uiLanguage: AppConfig.UiLanguage, a: Option<nat>, b: Option<nat>)
    requires uiLanguage != AppConfig.Auto
    ensures InitialLanguage(uiLanguage, a) == InitialLanguage(uiLanguage, b)
  {
  }

  // ---------------------------------------------------------------------
  // The current language

  /** `CURRENT_LANG`: the language every window reads its strings in; English until `init` runs. */
  class LanguageCell {
    var current: Lang

    constructor ()
      ensures current == En
    {
      current := En;
    }

    /** `set_language`. */
    method SetLanguage(lang: Lang)
      modifies this
      ensures current == lang
    {
      current := lang;
    }

    /** `current_language`. */
    function CurrentLanguage(): Lang
      reads this
    {
      current
    }

    /** `t`: the table of the current language. */
    function T(): Texts
      reads this
    {
      TextsFor(CurrentLanguage())
    }

    /** `init`: the language the settings ask for becomes the current one. */
    method Init(uiLanguage: AppConfig.UiLanguage, langId: Option<nat>)
      modifies this
      ensures current == InitialLanguage(uiLanguage, langId)
    {
      SetLanguage(InitialLanguage(uiLanguage, langId));
    }
  }

  /** After `set_language(l)`, `current_language()` is `l` and `t()` is the table of `l`. */
  method SetThenRead(cell: LanguageCell, lang: Lang) returns (now: Lang, texts: Texts)
    modifies cell
    ensures now == lang && texts == TextsFor(lang)
    ensures lang == En ==> texts.settingsTitle == "Settings"
    ensures lang == Zh ==> texts.settingsTitle == "设置"
  {
    cell.SetLanguage(lang);
    now := cell.CurrentLanguage();
    texts := cell.T();
  }

  // ---------------------------------------------------------------------
  // The settings window's language list: 0 Auto, 1 English, 2 Chinese

  /** `language_to_index`. */
  function LanguageToIndex(uiLanguage: AppConfig.UiLanguage): (r: int)
    ensures 0 <= r <= 2
    ensures r == 0 <==> uiLanguage == AppConfig.Auto
    ensures r == 1 <==> uiLanguage == AppConfig.UiLanguage.En
    ensures r == 2 <==> uiLanguage == AppConfig.UiLanguage.Zh
  {
    match uiLanguage
    case Auto => 0
    case En => 1
    case Zh => 2
  }

  /** `index_to_language`: any index other than 1 and 2, negative ones included, is `Auto`. */
  function IndexToLanguage(index: int): (r: AppConfig.UiLanguage)
    ensures r == AppConfig.UiLanguage.En <==> index == 1
    ensures r == AppConfig.UiLanguage.Zh <==> index == 2
    ensures r == AppConfig.Auto <==> index != 1 && index != 2
  {
    if index == 1 then AppConfig.UiLanguage.En
    else if index == 2 then AppConfig.UiLanguage.Zh
    else AppConfig.Auto
  }

  /** The two mappings are inverse on the list: every language comes back, and every index in 0..2 does. */
  lemma IndexRoundTrip(uiLanguage: AppConfig.UiLanguage, index: int)
    ensures IndexToLanguage(LanguageToIndex(uiLanguage)) == uiLanguage
    ensures 0 <= index <= 2 ==> LanguageToIndex(IndexToLanguage(index)) == index
    ensures !(0 <= index <= 2) ==> LanguageToIndex(IndexToLanguage(index)) == 0
  {
  }
}
