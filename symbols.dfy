/**
 The symbols tried for one root ticker, and the normalisation the command line
 applies to the typed ticker before the lookup.
 */
module Symbols {
  import opened Text

  /** Exchange suffixes in order of preference: Milan, Paris, Germany,
      Amsterdam, London. */
  const Suffixes: seq<string> := [".MI", ".PA", ".DE", ".AS", ".L"]

  /** The ordered candidate list: the root with each suffix, then the bare root
      (the US listing). The root is used exactly as given. */
  function Candidates(root: string): (c: seq<string>)
    ensures |c| == |Suffixes| + 1 == 6
    ensures forall k :: 0 <= k < |Suffixes| ==> c[k] == root + Suffixes[k]
    ensures c[|Suffixes|] == root
  {
    [root + ".MI", root + ".PA", root + ".DE", root + ".AS", root + ".L", root]
  }

  /** No candidate appears twice, so no symbol is tried twice. */
  lemma CandidatesDistinct(root: string)
    ensures forall j, k :: 0 <= j < k < |Candidates(root)| ==> Candidates(root)[j] != Candidates(root)[k]
  {
    var cs := Candidates(root);
    var n := |root|;
    forall j, k | 0 <= j < k < |cs|
      ensures cs[j] != cs[k]
    {
      if k == |Suffixes| {
        assert |cs[j]| > |cs[k]|;
      } else if |cs[j]| == |cs[k]| {
        // equal lengths (suffixes of three characters): the last two characters differ
        assert cs[j][n + 1..] == Suffixes[j][1..];
        assert cs[k][n + 1..] == Suffixes[k][1..];
        assert Suffixes[j][1..] != Suffixes[k][1..];
      }
    }
  }

  /** What the command line does to the typed ticker: `.upper().strip()`. */
  function Normalize(input: string): (t: string)
  {
    Strip(ToUpper(input))
  }

  /** A normalised ticker has no lower-case letter and no surrounding blank. */
  lemma NormalizeShape(input: string)
    ensures var t := Normalize(input);
      NoLower(t) && (t != [] ==> !IsSpace(t[0]) && !IsSpace(t[|t| - 1]))
  {
    ToUpperNoLower(input);
    StripKeepsNoLower(ToUpper(input));
    StripEnds(ToUpper(input));
  }

  /** Normalising twice is normalising once. */
  lemma NormalizeIdempotent(input: string)
    ensures Normalize(Normalize(input)) == Normalize(input)
  {
    NormalizeShape(input);
    ToUpperOfUpper(Normalize(input));
    StripIdempotent(ToUpper(input));
  }

  /** Two spellings of one ticker that differ only in case and surrounding
      blanks are looked up through the same candidates. */
  lemma NormalizedExample(typed: string, canonical: string)
    requires typed == " mwrd " && canonical == "MWRD"
    ensures Normalize(typed) == canonical
    ensures Candidates(Normalize(typed)) == Candidates(Normalize(canonical))
  {
    UpperTyped(typed);
    StripUpperTyped(ToUpper(typed));
    CanonicalIsNormal(canonical);
  }

  lemma UpperTyped(typed: string)
    requires typed == " mwrd "
    ensures ToUpper(typed) == " MWRD "
  {
  }

  lemma StripUpperTyped(s: string)
    requires s == " MWRD "
    ensures Strip(s) == "MWRD"
  {
    assert LeadingSpaces(s[1..]) == 0;
    assert LeadingSpaces(s) == 1;
    var l := s[1..];
    assert l == "MWRD ";
    assert TrailingStart(l[..4]) == 4;
    assert TrailingStart(l) == 4;
  }

  lemma CanonicalIsNormal(s: string)
    requires s == "MWRD"
    ensures Normalize(s) == s
  {
    assert NoLower(s);
    ToUpperOfUpper(s);
    TrimLeftOfTrimmed(s);
    TrimRightOfTrimmed(s);
  }
}
