/**
 * Normalisation of a resource type tag before it is handed to the plugin
 * loader: every character outside [A-Za-z0-9_] becomes a space, ucwords
 * upper-cases the first letter of each word, and the spaces are removed.
 * Upper-casing is ASCII-only.
 */
module ResourceTags {

  predicate IsWordChar(c: char)
  {
    'A' <= c <= 'Z' || 'a' <= c <= 'z' || '0' <= c <= '9' || c == '_'
  }

  /** ASCII upper-casing, as PHP's locale-independent toupper. */
  function ToUpper(c: char): (u: char)
    ensures 'a' <= c <= 'z' ==> 'A' <= u <= 'Z' && u as int == c as int - 32
    ensures !('a' <= c <= 'z') ==> u == c
  {
    if 'a' <= c <= 'z' then (c as int - 32) as char else c
  }

  /** The word separators of ucwords' default delimiter list " \t\r\n\f\v". */
  predicate IsDelimiter(c: char)
  {
    c == ' ' || c == '\t' || c == '\r' || c == '\n' || c == '\U{0C}' || c == '\U{0B}'
  }

  /** preg_replace("/[^A-Za-z0-9_]/", " ", s). */
  function ReplaceNonWord(s: string): (r: string)
    ensures |r| == |s|
  {
    if |s| == 0 then ""
    else [if IsWordChar(s[0]) then s[0] else ' '] + ReplaceNonWord(s[1..])
  }

  /** Each character outside [A-Za-z0-9_] becomes a space; the others stay. */
  lemma {:induction false} ReplaceNonWordAt(s: string, i: nat)
    requires i < |s|
    ensures ReplaceNonWord(s)[i] == if IsWordChar(s[i]) then s[i] else ' '
  {
    if i > 0 {
      ReplaceNonWordAt(s[1..], i - 1);
    }
  }

  /**
   * ucwords from a position whose predecessor was a delimiter (or the start of
   * the string) exactly when capitalize holds.
   */
  function UcWordsFrom(s: string, capitalize: bool): (r: string)
    ensures |r| == |s|
  {
    if |s| == 0 then ""
    else [if capitalize then ToUpper(s[0]) else s[0]] + UcWordsFrom(s[1..], IsDelimiter(s[0]))
  }

  /**
   * ucwords upper-cases exactly the first character (when capitalize holds)
   * and each character that follows a delimiter.
   */
  lemma {:induction false} UcWordsFromAt(s: string, capitalize: bool, i: nat)
    requires i < |s|
    ensures UcWordsFrom(s, capitalize)[i] ==
      if (if i == 0 then capitalize else IsDelimiter(s[i - 1])) then ToUpper(s[i]) else s[i]
  {
    if i > 0 {
      UcWordsFromAt(s[1..], IsDelimiter(s[0]), i - 1);
    }
  }

  /** ucwords(s): the first character and every character after a delimiter upper-cased. */
  function UcWords(s: string): (r: string)
    ensures |r| == |s|
  {
    UcWordsFrom(s, true)
  }

  /** str_replace(" ", "", s). */
  function RemoveSpaces(s: string): (r: string)
    ensures ' ' !in r
    ensures |r| <= |s|
  {
    if |s| == 0 then ""
    else (if s[0] == ' ' then "" else [s[0]]) + RemoveSpaces(s[1..])
  }

  /** Removing the spaces keeps every other character of s, and only those. */
  lemma {:induction false} RemoveSpacesKeepsOthers(s: string, c: char)
    ensures c in RemoveSpaces(s) <==> c in s && c != ' '
  {
    if |s| > 0 {
      RemoveSpacesKeepsOthers(s[1..], c);
      assert c in s <==> c == s[0] || c in s[1..];
    }
  }

  /** The tag getResourceParser passes to the loader. */
  function NormalizeTag(resourceType: string): (tag: string)
    ensures ' ' !in tag && |tag| <= |resourceType|
  {
    RemoveSpaces(UcWords(ReplaceNonWord(resourceType)))
  }

  /** The number of characters of s in [A-Za-z0-9_]. */
  function CountWordChars(s: string): (n: nat)
    ensures n <= |s|
  {
    if |s| == 0 then 0 else (if IsWordChar(s[0]) then 1 else 0) + CountWordChars(s[1..])
  }

  /**
   * One-pass reference for the normalisation: keep the word characters, drop
   * the rest, and upper-case a kept character exactly when it comes first or
   * right after a dropped one (afterBreak says whether that holds at the start).
   */
  function Capitalized(s: string, afterBreak: bool): (r: string)
  {
    if |s| == 0 then ""
    else if IsWordChar(s[0]) then [if afterBreak then ToUpper(s[0]) else s[0]] + Capitalized(s[1..], false)
    else Capitalized(s[1..], true)
  }

  /** The reference keeps exactly the word characters, one for one. */
  lemma {:induction false} CapitalizedKeepsWordChars(s: string, afterBreak: bool)
    ensures |Capitalized(s, afterBreak)| == CountWordChars(s)
    ensures forall i :: 0 <= i < |Capitalized(s, afterBreak)| ==> IsWordChar(Capitalized(s, afterBreak)[i])
  {
    if |s| > 0 {
      CapitalizedKeepsWordChars(s[1..], !IsWordChar(s[0]));
    }
  }

  lemma {:induction false} PipelineIsCapitalized(s: string, capitalize: bool)
    ensures RemoveSpaces(UcWordsFrom(ReplaceNonWord(s), capitalize)) == Capitalized(s, capitalize)
  {
    if |s| > 0 {
      var t := ReplaceNonWord(s);
      assert t == [t[0]] + ReplaceNonWord(s[1..]);
      assert t[1..] == ReplaceNonWord(s[1..]);
      var u := UcWordsFrom(t, capitalize);
      assert u[1..] == UcWordsFrom(t[1..], IsDelimiter(t[0]));
      PipelineIsCapitalized(s[1..], IsDelimiter(t[0]));
    }
  }

  /**
   * The normalised tag holds only [A-Za-z0-9_], one character per such
   * character of the input, upper-cased where it starts the tag or follows a
   * replaced character and unchanged elsewhere.
   */
  lemma NormalizeTagIsCapitalized(resourceType: string)
    ensures NormalizeTag(resourceType) == Capitalized(resourceType, true)
    ensures |NormalizeTag(resourceType)| == CountWordChars(resourceType)
    ensures forall i :: 0 <= i < |NormalizeTag(resourceType)| ==> IsWordChar(NormalizeTag(resourceType)[i])
  {
    PipelineIsCapitalized(resourceType, true);
    CapitalizedKeepsWordChars(resourceType, true);
  }

  /** The reference splits over a concatenation: the break flag carries across the seam. */
  lemma {:induction false} CapitalizedAppend(a: string, b: string, afterBreak: bool)
    ensures Capitalized(a + b, afterBreak) ==
      Capitalized(a, afterBreak) + Capitalized(b, if |a| == 0 then afterBreak else !IsWordChar(a[|a| - 1]))
  {
    if |a| == 0 {
      assert a + b == b;
    } else {
      assert (a + b)[1..] == a[1..] + b;
      CapitalizedAppend(a[1..], b, !IsWordChar(a[0]));
    }
  }

  lemma ReferenceStream()
    ensures Capitalized("str" + "eam", true) == "Stream"
  {
    CapitalizedAppend("str", "eam", true);
    assert Capitalized("str", true) == "Str";
    assert Capitalized("eam", false) == "eam";
    assert "Str" + "eam" == "Stream";
  }

  /** A one-word tag gets its first letter upper-cased. */
  lemma NormalizeStream(tag: string)
    requires tag == "stream"
    ensures NormalizeTag(tag) == "Stream"
  {
    assert tag == "str" + "eam";
    ReferenceStream();
    NormalizeTagIsCapitalized(tag);
  }

  lemma ReferenceSeparated()
    ensures Capitalized("foo-" + ("bar!!" + "baz"), true) == "FooBarBaz"
  {
    CapitalizedAppend("foo-", "bar!!" + "baz", true);
    CapitalizedAppend("bar!!", "baz", true);
    assert Capitalized("foo-", true) == "Foo";
    assert Capitalized("bar!!", true) == "Bar";
    assert Capitalized("baz", true) == "Baz";
    assert "Foo" + ("Bar" + "Baz") == "FooBarBaz";
  }

  /** Each run of other characters starts a new word and disappears. */
  lemma NormalizeSeparated(tag: string)
    requires tag == "foo-bar!!baz"
    ensures NormalizeTag(tag) == "FooBarBaz"
  {
    assert tag == "foo-" + ("bar!!" + "baz");
    ReferenceSeparated();
    NormalizeTagIsCapitalized(tag);
  }

  lemma ReferenceUnderscoreKept()
    ensures Capitalized(("str" + "eam") + ("_co" + "ntext"), true) == "Stream_context"
  {
    CapitalizedAppend("str" + "eam", "_co" + "ntext", true);
    ReferenceStream();
    CapitalizedAppend("_co", "ntext", false);
    assert Capitalized("_co", false) == "_co";
    assert Capitalized("ntext", false) == "ntext";
    assert "Stream" + ("_co" + "ntext") == "Stream_context";
  }

  /** An underscore is a word character: it stays and does not start a word. */
  lemma NormalizeUnderscoreKept(tag: string)
    requires tag == "stream_context"
    ensures NormalizeTag(tag) == "Stream_context"
  {
    assert tag == ("str" + "eam") + ("_co" + "ntext");
    ReferenceUnderscoreKept();
    NormalizeTagIsCapitalized(tag);
  }

  lemma ReferenceSpaced()
    ensures Capitalized("gd " + "image", true) == "GdImage"
  {
    CapitalizedAppend("gd ", "image", true);
    assert Capitalized("gd ", true) == "Gd";
    assert Capitalized("image", true) == "Image";
    assert "Gd" + "Image" == "GdImage";
  }

  /** A host tag with a space becomes one camel-cased word. */
  lemma NormalizeSpaced(tag: string)
    requires tag == "gd image"
    ensures NormalizeTag(tag) == "GdImage"
  {
    assert tag == "gd " + "image";
    ReferenceSpaced();
    NormalizeTagIsCapitalized(tag);
  }
}
