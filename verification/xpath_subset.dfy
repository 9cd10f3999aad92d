/**
 The validation GMLAS applies to an ignored XPath: the path must be non-empty and
 belong to the small subset it understands, made of '/', names (letters, '_'
 and, after the first character of a name, digits), namespace prefixes
 "prefix:name" and attributes "@name". Characters are classified as in the
 "C" locale, so only ASCII letters and digits count.
 */
module XPathSubset {
  import opened Text

  /** A character that may continue a name: what a digit or ':' must follow. */
  predicate IsNameChar(c: char) {
    IsAlnum(c) || c == '_'
  }

  /**
   Whether the validator's loop lets the character at `i` through: one
   disjunct per branch, in the order the validator tries them.
   */
  predicate Accepted(s: string, i: nat)
    requires i < |s|
  {
    var c := s[i];
    || c == '/'
    || (c == '@' && (i == 0 || s[i - 1] == '/') && i + 1 < |s| && IsAlpha(s[i + 1]))
    || c == '_' || IsAlpha(c)
    || (IsDigit(c) && i > 0 && IsNameChar(s[i - 1]))
    || (c == ':' && i > 0 && IsNameChar(s[i - 1]) && i + 1 < |s| && IsAlpha(s[i + 1]))
  }

  /** The loop from position `i`: it stops at the first character it rejects. */
  function ScanFrom(s: string, i: nat): (ok: bool)
    requires i <= |s|
    ensures ok <==> forall j :: i <= j < |s| ==> Accepted(s, j)
    decreases |s| - i
  {
    if i == |s| then true
    else if !Accepted(s, i) then false
    else ScanFrom(s, i + 1)
  }

  /** `IsValidXPath`: non-empty, and every character accepted. */
  function IsValidXPath(s: string): (ok: bool)
    ensures ok <==> |s| > 0 && forall j :: 0 <= j < |s| ==> Accepted(s, j)
  {
    |s| > 0 && ScanFrom(s, 0)
  }

  /** The characters that can appear in a valid path at all. */
  predicate InAlphabet(c: char) {
    c == '/' || IsAlpha(c) || c == '_' || IsDigit(c) || c == '@' || c == ':'
  }

  /** The empty path is invalid, and a valid path uses only the subset's characters. */
  lemma ValidPathAlphabet(s: string)
    ensures !IsValidXPath("")
    ensures IsValidXPath(s) ==> forall j :: 0 <= j < |s| ==> InAlphabet(s[j])
  {
    if IsValidXPath(s) {
      forall j | 0 <= j < |s|
        ensures InAlphabet(s[j])
      {
        assert Accepted(s, j);
      }
    }
  }

  /** Every non-empty string of '/', letters and '_' is a valid path. */
  lemma PlainPathsAreValid(s: string)
    requires |s| > 0
    requires forall j :: 0 <= j < |s| ==> s[j] == '/' || IsAlpha(s[j]) || s[j] == '_'
    ensures IsValidXPath(s)
  {
  }

  /**
   In a valid path a digit is never first and always follows a letter, a
   digit or '_'; so a path starting with a digit, or with a digit right after
   a '/', is invalid.
   */
  lemma DigitRule(s: string, j: nat)
    requires j < |s| && IsDigit(s[j])
    ensures IsValidXPath(s) ==> j > 0 && IsNameChar(s[j - 1])
    ensures j == 0 ==> !IsValidXPath(s)
    ensures j > 0 && s[j - 1] == '/' ==> !IsValidXPath(s)
  {
    if IsValidXPath(s) {
      assert Accepted(s, j);
    }
  }

  /**
   In a valid path '@' is first or right after '/', and a letter follows it;
   ':' follows a letter, digit or '_' and a letter follows it. So a path
   ending in '@' or ':' is invalid.
   */
  lemma AtAndColonRules(s: string, j: nat)
    requires j < |s|
    ensures IsValidXPath(s) && s[j] == '@' ==>
              (j == 0 || s[j - 1] == '/') && j + 1 < |s| && IsAlpha(s[j + 1])
    ensures IsValidXPath(s) && s[j] == ':' ==>
              j > 0 && IsNameChar(s[j - 1]) && j + 1 < |s| && IsAlpha(s[j + 1])
    ensures (s[|s| - 1] == '@' || s[|s| - 1] == ':') ==> !IsValidXPath(s)
  {
    if IsValidXPath(s) {
      assert Accepted(s, j);
      assert Accepted(s, |s| - 1);
    }
  }

  /** Worked values. */
  lemma XPathExamples()
    ensures IsValidXPath("gml:name")
    ensures IsValidXPath("a/@b1")
    ensures !IsValidXPath("a/1")
    ensures !IsValidXPath("a@b")
    ensures !IsValidXPath("a[1]")
  {
    var s := "gml:name";
    assert Accepted(s, 3);
    PlainPathsAreValid("gml");
    assert forall j :: 0 <= j < |s| && j != 3 ==> IsAlpha(s[j]);
    var t := "a/@b1";
    assert Accepted(t, 2) && Accepted(t, 4);
    assert forall j :: 0 <= j < |t| ==> Accepted(t, j);
    assert !Accepted("a/1", 2);
    assert !Accepted("a@b", 1);
    assert !Accepted("a[1]", 1);
  }
}
