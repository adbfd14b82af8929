/**
 * The language helpers: lookups in the table of supported languages, the
 * language instruction for the model, and the fallbacks of detection and
 * translation. The detector, the ISO 639 conversion and the translation
 * service are oracles given as inputs.
 */
module Language {
  import opened Wrappers
  import opened Text
  import opened Types
  import opened LanguageTable

  const Unknown: string := "Unknown"
  const English: string := "en"

  /** The first table entry from position `i` on with the code. */
  function FindFrom(code: string, i: nat): (r: Option<nat>)
    decreases |SupportedLanguages| - i
    ensures r.Some? ==> i <= r.value < |SupportedLanguages| && SupportedLanguages[r.value].code == code
    ensures r.None? ==> forall j :: i <= j < |SupportedLanguages| ==> SupportedLanguages[j].code != code
  {
    if i >= |SupportedLanguages| then None
    else if SupportedLanguages[i].code == code then Some(i)
    else FindFrom(code, i + 1)
  }

  /** `SUPPORTED_LANGUAGES.find(lang => lang.code === code)`. */
  function Find(code: string): Option<LanguageInfo> {
    match FindFrom(code, 0)
    case Some(i) => Some(SupportedLanguages[i])
    case None => None
  }

  /** The code is in the table. */
  predicate IsSupported(code: string) {
    exists i :: 0 <= i < |SupportedLanguages| && SupportedLanguages[i].code == code
  }

  /** `getLanguageName`: the English name of the language, `Unknown` when it is not in the table. */
  function LanguageName(code: string): (r: string)
    ensures !IsSupported(code) ==> r == Unknown
  {
    match Find(code)
    case Some(l) => l.name
    case None => Unknown
  }

  /** `getNativeLanguageName`: the name in the language itself, `Unknown` when it is not in the table. */
  function NativeLanguageName(code: string): (r: string)
    ensures !IsSupported(code) ==> r == Unknown
  {
    match Find(code)
    case Some(l) => l.nativeName
    case None => Unknown
  }

  /** The codes are distinct, so looking up an entry's code finds that entry. */
  lemma FindEntry(i: nat)
    requires i < |SupportedLanguages|
    ensures Find(SupportedLanguages[i].code) == Some(SupportedLanguages[i])
    ensures LanguageName(SupportedLanguages[i].code) == SupportedLanguages[i].name
    ensures NativeLanguageName(SupportedLanguages[i].code) == SupportedLanguages[i].nativeName
  {
    SupportedLanguagesDistinct();
    var k := FindFrom(SupportedLanguages[i].code, 0);
    assert k == Some(i);
  }

  const PromptLead: string := "Please respond in "
  const PromptTail: string := " language. Ensure your entire response is in this language, including explanations and comments."

  /** The English name followed by the native name in parentheses. */
  function Names(code: string): string {
    LanguageName(code) + " (" + NativeLanguageName(code) + ")"
  }

  /** `getLanguageSystemPrompt`: both names in the fixed instruction. */
  function LanguageSystemPrompt(code: string): (r: string)
    ensures Contains(r, Names(code))
    ensures var a := |PromptLead|; var b := a + |Names(code)|;
      && |r| == b + |PromptTail|
      && r[..a] == PromptLead
      && r[a..b] == Names(code)
      && r[b..] == PromptTail
  {
    ContainsMiddle(PromptLead, Names(code), PromptTail);
    PromptLead + Names(code) + PromptTail
  }

  /** An unknown code asks for `Unknown (Unknown)`. */
  lemma UnknownPrompt(code: string)
    requires !IsSupported(code)
    ensures Contains(LanguageSystemPrompt(code), "Unknown (Unknown)")
  {
    assert Names(code) == "Unknown (Unknown)";
  }

  /** English asks for `English (English)`. */
  lemma EnglishPrompt()
    ensures Contains(LanguageSystemPrompt(English), "English (English)")
  {
    FindEntry(0);
    assert SupportedLanguages[0] == LanguageInfo("en", "English", "English");
    assert Names(English) == "English (English)";
  }

  /** What the detector gives: a three-letter code, or a thrown error. */
  datatype Detection = Detected(code: string) | DetectionThrew

  /**
   * `detectLanguage`: the two-letter code of the detected language when it
   * is supported; English when detection gives nothing, `und`, an
   * unsupported language or an error. The result is always supported.
   */
  function DetectLanguage(d: Detection, toIso2: string -> string): (r: string)
    ensures IsSupported(r)
    ensures d.Detected? && d.code != "" && d.code != "und" && toIso2(d.code) != "" && IsSupported(toIso2(d.code))
      ==> r == toIso2(d.code)
    ensures !(d.Detected? && d.code != "" && d.code != "und" && IsSupported(toIso2(d.code)))
      ==> r == English
  {
    SupportedLanguagesDistinct();
    assert SupportedLanguages[0].code == English;
    if d.Detected? && d.code != "" && d.code != "und" then
      var iso2 := toIso2(d.code);
      if iso2 != "" && exists i :: 0 <= i < |SupportedLanguages| && SupportedLanguages[i].code == iso2
      then iso2
      else English
    else English
  }

  /**
   * `translateText`: the source language is the given one (when non-empty) or
   * the detected one; the text comes back unchanged when it already is in
   * the target language or when the service fails.
   */
  function TranslateText(text: string, target: string, source: Option<string>,
                         detect: string -> Detection, toIso2: string -> string,
                         service: (string, string, string) -> Option<string>): (r: string)
    ensures var from := OrDetected(text, source, detect, toIso2);
      || (from == target && r == text)
      || (from != target && service(text, from, target).None? && r == text)
      || (from != target && service(text, from, target) == Some(r))
  {
    var from := OrDetected(text, source, detect, toIso2);
    if from == target then text
    else service(text, from, target).GetOr(text)
  }

  /** `sourceLang || detectLanguage(text)`. */
  function OrDetected(text: string, source: Option<string>, detect: string -> Detection, toIso2: string -> string): (r: string)
    ensures source.Some? && source.value != "" ==> r == source.value
    ensures source.None? || source.value == "" ==> r == DetectLanguage(detect(text), toIso2) && IsSupported(r)
  {
    if source.Some? && source.value != "" then source.value else DetectLanguage(detect(text), toIso2)
  }

  /** Text already in the target language is not sent to the service. */
  lemma TranslateSameLanguage(text: string, target: string, detect: string -> Detection,
                              toIso2: string -> string, service: (string, string, string) -> Option<string>)
    requires target != ""
    ensures TranslateText(text, target, Some(target), detect, toIso2, service) == text
  {
  }
}
