/** The `languages` table from select-box name to translation code. */
module LanguageTable {

  /** The names in the order the select box lists them. */
  const LanguageNames: seq<string> :=
    ["English", "Spanish", "French", "German", "Chinese", "Japanese",
     "Korean", "Hindi", "Urdu", "Telugu", "Kannada"]

  const Languages: map<string, string> :=
    map["English" := "en", "Spanish" := "es", "French" := "fr",
        "German" := "de", "Chinese" := "zh-cn", "Japanese" := "ja",
        "Korean" := "ko", "Hindi" := "hi", "Urdu" := "ur",
        "Telugu" := "te", "Kannada" := "kn"]

  /** `languages[name]`, for a name the select box offers. */
  function LanguageCode(name: string): (code: string)
    requires name in Languages
    ensures code in Languages.Values
    ensures 2 <= |code| <= 5
  {
    Languages[name]
  }

  /** The select box offers exactly the table's keys, each once. */
  lemma NamesAreKeys()
    ensures |LanguageNames| == 11
    ensures forall i, j | 0 <= i < j < |LanguageNames| :: LanguageNames[i] != LanguageNames[j]
    ensures forall n :: n in Languages <==> n in LanguageNames
  {
  }

  /** The table has eleven entries. */
  lemma TableSize()
    ensures |Languages| == 11
  {
  }

  /** Different names get different codes. */
  lemma CodesDistinct(a: string, b: string)
    requires a in Languages && b in Languages && a != b
    ensures LanguageCode(a) != LanguageCode(b)
  {
  }

  /** Two sample entries. */
  lemma CodeExamples()
    ensures LanguageCode("French") == "fr"
    ensures LanguageCode("Chinese") == "zh-cn"
  {
  }
}
