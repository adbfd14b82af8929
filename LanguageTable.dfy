/**
 * The table of supported languages of the translation feature, and the proof
 * that its two-letter codes are pairwise distinct.
 */
module LanguageTable {

  datatype LanguageInfo = LanguageInfo(code: string, name: string, nativeName: string)

  /** `SUPPORTED_LANGUAGES`, in the order of the table. */
  const SupportedLanguages: seq<LanguageInfo> := [
    LanguageInfo("en", "English", "English"),
    LanguageInfo("es", "Spanish", "Español"),
    LanguageInfo("fr", "French", "Français"),
    LanguageInfo("de", "German", "Deutsch"),
    LanguageInfo("it", "Italian", "Italiano"),
    LanguageInfo("pt", "Portuguese", "Português"),
    LanguageInfo("ru", "Russian", "Русский"),
    LanguageInfo("zh", "Chinese", "中文"),
    LanguageInfo("ja", "Japanese", "日本語"),
    LanguageInfo("ko", "Korean", "한국어"),
    LanguageInfo("ar", "Arabic", "العربية"),
    LanguageInfo("hi", "Hindi", "हिन्दी"),
    LanguageInfo("bn", "Bengali", "বাংলা"),
    LanguageInfo("ur", "Urdu", "اردو"),
    LanguageInfo("tr", "Turkish", "Türkçe"),
    LanguageInfo("nl", "Dutch", "Nederlands"),
    LanguageInfo("sv", "Swedish", "Svenska"),
    LanguageInfo("fi", "Finnish", "Suomi"),
    LanguageInfo("pl", "Polish", "Polski"),
    LanguageInfo("cs", "Czech", "Čeština"),
    LanguageInfo("uk", "Ukrainian", "Українська"),
    LanguageInfo("el", "Greek", "Ελληνικά"),
    LanguageInfo("he", "Hebrew", "עברית"),
    LanguageInfo("th", "Thai", "ไทย"),
    LanguageInfo("vi", "Vietnamese", "Tiếng Việt")
  ]

  /** A number that tells two-letter codes apart: two characters in base 256. */
  function CodeKey(c: string): int {
    if |c| == 2 then (c[0] as int) * 256 + c[1] as int else -1
  }

  /** The keys of the codes of `SUPPORTED_LANGUAGES`, in table order. */
  function LanguageKeys(): (r: seq<int>)
    ensures |r| == |SupportedLanguages|
    ensures forall i :: 0 <= i < |r| ==> r[i] == CodeKey(SupportedLanguages[i].code)
  {
    seq(|SupportedLanguages|, i requires 0 <= i < |SupportedLanguages| => CodeKey(SupportedLanguages[i].code))
  }

  /** The same keys, written out. */
  const LanguageKeyTable: seq<int> := [
    25966, 25971, 26226, 25701, 26996, 28788, 29301, 31336, 27233, 27503,
    24946, 26729, 25198, 30066, 29810, 28268, 29558, 26217, 28780, 25459,
    30059, 25964, 26725, 29800, 30313
  ]

  /** The table position of the code with key `k`. */
  function KeyPosition(k: int): int {
    if k == 25966 then 0 else
    if k == 25971 then 1 else
    if k == 26226 then 2 else
    if k == 25701 then 3 else
    if k == 26996 then 4 else
    if k == 28788 then 5 else
    if k == 29301 then 6 else
    if k == 31336 then 7 else
    if k == 27233 then 8 else
    if k == 27503 then 9 else
    if k == 24946 then 10 else
    if k == 26729 then 11 else
    if k == 25198 then 12 else
    if k == 30066 then 13 else
    if k == 29810 then 14 else
    if k == 28268 then 15 else
    if k == 29558 then 16 else
    if k == 26217 then 17 else
    if k == 28780 then 18 else
    if k == 25459 then 19 else
    if k == 30059 then 20 else
    if k == 25964 then 21 else
    if k == 26725 then 22 else
    if k == 29800 then 23 else
    if k == 30313 then 24 else -1
  }

  /** The keys of the table are the written-out ones. */
  lemma LanguageKeysValue()
    ensures LanguageKeys() == LanguageKeyTable
  {
  }

  /** `KeyPosition` inverts the key table, so no key occurs twice. */
  lemma LanguageKeysPositioned()
    ensures forall i :: 0 <= i < |LanguageKeyTable| ==> KeyPosition(LanguageKeyTable[i]) == i
  {
  }

  /** The language table has 25 entries with pairwise-distinct codes, English first. */
  lemma SupportedLanguagesDistinct()
    ensures |SupportedLanguages| == 25
    ensures SupportedLanguages[0] == LanguageInfo("en", "English", "English")
    ensures forall i, j :: 0 <= i < j < |SupportedLanguages| ==> SupportedLanguages[i].code != SupportedLanguages[j].code
  {
    LanguageKeysValue();
    LanguageKeysPositioned();
    forall i, j | 0 <= i < j < |SupportedLanguages| ensures SupportedLanguages[i].code != SupportedLanguages[j].code {
      assert KeyPosition(LanguageKeys()[i]) == i && KeyPosition(LanguageKeys()[j]) == j;
    }
  }
}
