/**
 * The entity translator `traduzirEntidade`: the short code of a municipal
 * entity, in any letter case, becomes the name shown in the page header.
 */
module Entity {

  /** `strtolower` on one character: ASCII letters only. */
  function LowerChar(c: char): (r: char)
    ensures 'A' <= c <= 'Z' ==> 'a' <= r <= 'z' && r as int == c as int + 32
    ensures !('A' <= c <= 'Z') ==> r == c
    ensures !('A' <= r <= 'Z')
  {
    if 'A' <= c <= 'Z' then (c as int + 32) as char else c
  }

  /** `strtolower`. */
  function Lower(s: string): (r: string)
    ensures |r| == |s|
    ensures forall i :: 0 <= i < |s| ==> r[i] == LowerChar(s[i])
  {
    seq(|s|, i requires 0 <= i < |s| => LowerChar(s[i]))
  }

  /** The translation table `$traducoes`. */
  const Translations: map<string, string> :=
    map["pm" := "Prefeitura", "cm" := "Câmara", "fpsm" := "RPPS"]

  /**
   * `traduzirEntidade`: the display name of a known code, whatever its letter
   * case, and the input itself, unchanged, for any other code.
   */
  function Translate(entity: string): (r: string)
    ensures Lower(entity) in Translations ==> r == Translations[Lower(entity)]
    ensures r == entity <==> Lower(entity) !in Translations
  {
    var key := Lower(entity);
    if key in Translations then
      assert Lower(Translations[key]) != key by {
        assert Lower("Prefeitura")[0] == 'p' && Lower("Prefeitura") != "pm";
        assert Lower("RPPS")[0] == 'r';
        assert Lower("Câmara") != "cm";
      }
      Translations[key]
    else entity
  }

  /** Lower-casing twice is lower-casing once. */
  lemma LowerIdempotent(s: string)
    ensures Lower(Lower(s)) == Lower(s)
  {
  }

  /** Two spellings of the same code that differ only in letter case translate alike. */
  lemma TranslateCaseInsensitive(a: string, b: string)
    requires Lower(a) == Lower(b)
    ensures Lower(a) in Translations ==> Translate(a) == Translate(b)
    ensures Lower(a) !in Translations ==> Translate(a) == a && Translate(b) == b
  {
  }

  /** The three codes the script knows and one it does not. */
  lemma TranslateExamples()
    ensures Translate("PM") == "Prefeitura"
    ensures Translate("pm") == "Prefeitura"
    ensures Translate("Cm") == "Câmara"
    ensures Translate("FPSM") == "RPPS"
    ensures Translate("xx") == "xx"
  {
    LowerExamples();
  }

  /** `strtolower` on the spellings used in the examples. */
  lemma LowerExamples()
    ensures Lower("PM") == "pm" && Lower("pm") == "pm" && Lower("Cm") == "cm"
    ensures Lower("FPSM") == "fpsm" && Lower("xx") == "xx"
  {
    assert Lower("PM") == "pm";
    assert Lower("pm") == "pm";
    assert Lower("Cm") == "cm";
    assert Lower("FPSM") == "fpsm";
    assert Lower("xx") == "xx";
  }
}
