/**
 The object-storage key an image is uploaded under (`outputPathFromText`):
 `validation/<phrase with spaces as underscores>/<file id>.jpg`.
 */
module StorageKey {
  import opened Wrappers
  import opened GoInt
  import opened Decimal
  import opened Strings
  import opened Format

  const OutputBase: string := "validation"
  const KeyTemplate: string := "%s/%s/%d.jpg"
  const Slash: string := "/"
  const JpgSuffix: string := ".jpg"

  /** The phrase as it appears inside a key. */
  function KeyPhrase(text: string): string {
    ReplaceChar(text, ' ', '_')
  }

  /** Everything in a key before the file id. */
  function KeyPrefix(text: string): string {
    OutputBase + "/" + KeyPhrase(text) + "/"
  }

  /** The template is a verb for the base, `/`, a verb for the phrase, `/`, a verb for the id and `.jpg`. */
  lemma KeyTemplateParts(base: string, phrase: string, id: int)
    ensures KeyTemplate == Template3("", Slash, Slash, JpgSuffix, Str(base), Str(phrase), Int(id))
    ensures '%' !in Slash && '%' !in JpgSuffix
  {
  }

  /** `KeyTemplate` applied to a base, a phrase and an id writes them separated by `/`, then `.jpg`. */
  lemma KeyTemplateShape(base: string, phrase: string, id: int)
    ensures Matches(KeyTemplate, [Str(base), Str(phrase), Int(id)])
    ensures Sprintf(KeyTemplate, [Str(base), Str(phrase), Int(id)])
            == base + "/" + phrase + "/" + IntToDecimal(id) + ".jpg"
  {
    KeyTemplateParts(base, phrase, id);
    SprintfThree("", Slash, Slash, JpgSuffix, Str(base), Str(phrase), Int(id));
  }

  /** The key for file `fileID` of the images found for `text`. */
  function OutputPath(text: string, fileID: Int64): string
  {
    KeyPrefix(text) + IntToDecimal(fileID) + ".jpg"
  }

  /** The key is what the program's `Sprintf` call writes for the base, the formatted phrase and the id. */
  lemma OutputPathIsSprintf(text: string, fileID: Int64)
    ensures Matches(KeyTemplate, [Str(OutputBase), Str(ReplaceChar(text, ' ', '_')), Int(fileID)])
    ensures OutputPath(text, fileID)
            == Sprintf(KeyTemplate, [Str(OutputBase), Str(ReplaceChar(text, ' ', '_')), Int(fileID)])
  {
    KeyTemplateShape(OutputBase, ReplaceChar(text, ' ', '_'), fileID);
  }

  /** The file id a key for `text` carries, or `None` if `key` is not one. */
  function ParseFileId(text: string, key: string): Option<Int64> {
    match Between(key, KeyPrefix(text), ".jpg")
    case None => None
    case Some(digits) =>
      match ParseInt(digits)
      case Some(id) => if MinInt64 <= id <= MaxInt64 then Some(id) else None
      case None => None
  }

  /** The file id is recovered from the key. */
  lemma FileIdRoundTrip(text: string, fileID: Int64)
    ensures ParseFileId(text, OutputPath(text, fileID)) == Some(fileID)
  {
    BetweenRoundTrip(KeyPrefix(text), IntToDecimal(fileID), ".jpg");
    IntRoundTrip(fileID);
  }

  /** Every string the parser accepts is exactly the key of the id it returns. */
  lemma ParseFileIdSound(text: string, key: string, fileID: Int64)
    requires ParseFileId(text, key) == Some(fileID)
    ensures OutputPath(text, fileID) == key
  {
    var digits := Between(key, KeyPrefix(text), ".jpg").value;
    ParseIntCanonical(digits, fileID);
  }

  /** For one phrase, distinct file ids give distinct keys. */
  lemma DistinctIdsDistinctKeys(text: string, a: Int64, b: Int64)
    requires a != b
    ensures OutputPath(text, a) != OutputPath(text, b)
  {
    FileIdRoundTrip(text, a);
    FileIdRoundTrip(text, b);
  }

  /** A key never contains a space, whatever the phrase. */
  lemma OutputPathNoSpace(text: string, fileID: Int64)
    ensures ' ' !in OutputPath(text, fileID)
  {
    ReplaceCharRemoves(text, ' ', '_');
    var digits := IntToDecimal(fileID);
    assert ' ' !in digits by {
      forall i | 0 <= i < |digits|
        ensures digits[i] != ' '
      {
      }
    }
    assert OutputPath(text, fileID) == OutputBase + "/" + KeyPhrase(text) + "/" + digits + ".jpg";
  }

  /** The phrase segment keeps the phrase's length and differs from it only where it had spaces. */
  lemma KeyPhraseSegment(text: string, fileID: Int64)
    ensures var key := OutputPath(text, fileID);
            var seg := key[|OutputBase| + 1..|OutputBase| + 1 + |text|];
            && key[..|OutputBase| + 1] == "validation/"
            && key[|OutputBase| + 1 + |text|] == '/'
            && |seg| == |text|
            && (forall i :: 0 <= i < |text| ==> seg[i] == (if text[i] == ' ' then '_' else text[i]))
  {
    var key := OutputPath(text, fileID);
    assert key == OutputBase + "/" + KeyPhrase(text) + "/" + (IntToDecimal(fileID) + ".jpg");
    assert key[|OutputBase| + 1..|OutputBase| + 1 + |text|] == KeyPhrase(text);
  }

  /** Two phrases that differ only in spaces versus underscores share their keys. */
  lemma PhrasesMayShareKeys()
    ensures OutputPath("a b", 0) == OutputPath("a_b", 0)
  {
    assert KeyPhrase("a b") == KeyPhrase("a_b");
  }
}
