/**
 * The XML text sanitiser (`clean_text_for_xml`): control characters that XML
 * 1.0 cannot carry are removed, everything else is kept in order.  Dafny
 * strings hold Unicode scalar values only, so the UTF-8 round trip with
 * `errors='ignore'` that follows the filter never changes the text.
 */
module XmlText {

  /** `[\x00-\x08\x0B\x0C\x0E-\x1F\x7F]`. */
  predicate IsXmlIllegal(c: char)
  {
    c <= '\U{8}' || c == '\U{B}' || c == '\U{C}' || ('\U{E}' <= c <= '\U{1F}') || c == '\U{7F}'
  }

  /** `clean_text_for_xml(text)`. */
  function CleanTextForXml(text: string): (r: string)
    ensures |r| <= |text|
    ensures forall i :: 0 <= i < |r| ==> !IsXmlIllegal(r[i])
  {
    if text == [] then ""
    else
      var k := |text| - 1;
      CleanTextForXml(text[..k]) + (if IsXmlIllegal(text[k]) then "" else [text[k]])
  }

  /** Cleaning works character by character: it distributes over concatenation. */
  lemma {:induction false} CleanAppend(a: string, b: string)
    ensures CleanTextForXml(a + b) == CleanTextForXml(a) + CleanTextForXml(b)
    decreases |b|
  {
    if b == [] {
      assert a + b == a;
    } else {
      var k := |b| - 1;
      CleanAppend(a, b[..k]);
      assert (a + b)[..|a| + k] == a + b[..k];
    }
  }

  /** A single character is dropped exactly when it is one of the illegal controls. */
  lemma CleanChar(c: char)
    ensures CleanTextForXml([c]) == if IsXmlIllegal(c) then "" else [c]
    ensures c == '\t' || c == '\n' || c == '\r' ==> CleanTextForXml([c]) == [c]
  {
    assert [c][..0] == "";
  }

  /** Text without illegal characters comes back unchanged, and only such text does. */
  lemma {:induction false} CleanIdentityIff(text: string)
    ensures CleanTextForXml(text) == text <==> forall i :: 0 <= i < |text| ==> !IsXmlIllegal(text[i])
  {
    if text != [] {
      var k := |text| - 1;
      CleanIdentityIff(text[..k]);
      var pre := CleanTextForXml(text[..k]);
      if IsXmlIllegal(text[k]) {
        assert |CleanTextForXml(text)| < |text|;
      } else if CleanTextForXml(text) == text {
        assert pre == text[..k];
      }
    }
  }

  /** Cleaning twice is cleaning once. */
  lemma CleanIdempotent(text: string)
    ensures CleanTextForXml(CleanTextForXml(text)) == CleanTextForXml(text)
  {
    CleanIdentityIff(CleanTextForXml(text));
  }

  /** The illegal characters of a string, in order. */
  function IllegalOf(text: string): (r: string)
    ensures forall i :: 0 <= i < |r| ==> IsXmlIllegal(r[i])
  {
    if text == [] then ""
    else
      var k := |text| - 1;
      IllegalOf(text[..k]) + (if IsXmlIllegal(text[k]) then [text[k]] else "")
  }

  /**
   * Every character of the input ends up either in the cleaned text or among
   * the removed illegal characters, and in exactly one of them.
   */
  lemma {:induction false} CleanSplitsText(text: string)
    ensures multiset(CleanTextForXml(text)) + multiset(IllegalOf(text)) == multiset(text)
  {
    if text != [] {
      var k := |text| - 1;
      CleanSplitsText(text[..k]);
      assert text == text[..k] + [text[k]];
    }
  }
}
