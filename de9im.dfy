/** The DE-9IM mask matcher: compares a 9-character intersection-matrix code
    (as produced by the planar geometry library) against a 9-character
    wildcard mask, position by position.

    The comparator is narrower than the pattern language of section 6.1.15 of
    OGC Simple Features Access Part 1 (ISO 19125-1): only 'T' and 'F' in the
    mask are compared; a digit in the mask never matches, and a '*' on EITHER
    side matches anything. */
module De9im {

  /** A mask: exactly the nine characters of the row-major 3x3 matrix. */
  type Mask = s: string | |s| == 9 witness "*********"

  /** The dimension values a well-formed intersection matrix is made of. */
  predicate IsDimensionValue(c: char) {
    c == 'F' || c == '0' || c == '1' || c == '2'
  }

  /** A code the geometry library can produce: nine dimension values. */
  predicate IsDimensionCode(code: string) {
    |code| == 9 && forall i :: 0 <= i < 9 ==> IsDimensionValue(code[i])
  }

  /** Mask characters that the comparator handles: no digits. */
  predicate IsWildcardMask(mask: Mask) {
    forall i :: 0 <= i < 9 ==> mask[i] == 'T' || mask[i] == 'F' || mask[i] == '*'
  }

  /** compareDe9imChars: a code character against a mask character.
      Only a 'T' or an 'F' in the mask can ever match. */
  function CompareDe9imChars(c: char, m: char): (r: bool)
    ensures r ==> m == 'T' || m == 'F'
  {
    if c != 'F' && m == 'T' then true
    else if c == 'F' && m == 'F' then true
    else false
  }

  /** The test compareMasks applies at one position before moving on. */
  predicate PositionMatches(c: char, m: char) {
    c == '*' || m == '*' || CompareDe9imChars(c, m)
  }

  /** The matching relation compareMasks decides: every one of the first
      nine positions matches. */
  predicate MatchesMask(code: string, mask: Mask)
    requires |code| >= 9
  {
    forall i :: 0 <= i < 9 ==> PositionMatches(code[i], mask[i])
  }

  /** compareMasks: walks positions 0..8 and gives up at the first one
      that does not match. */
  method CompareMasks(code: string, mask: Mask) returns (ok: bool)
    requires |code| >= 9
    ensures ok <==> MatchesMask(code, mask)
  {
    for i := 0 to 9
      invariant forall j :: 0 <= j < i ==> PositionMatches(code[j], mask[j])
    {
      if !(code[i] == '*' || mask[i] == '*' || CompareDe9imChars(code[i], mask[i])) {
        return false;
      }
    }
    return true;
  }

  /** The reference semantics of a pattern character in section 6.1.15 of
      OGC Simple Features Access Part 1: '*' anything, 'T' any dimension,
      'F' empty, and a digit exactly that dimension. */
  predicate OgcPatternMatches(c: char, m: char) {
    match m
    case '*' => true
    case 'T' => c == '0' || c == '1' || c == '2'
    case 'F' => c == 'F'
    case '0' => c == '0'
    case '1' => c == '1'
    case '2' => c == '2'
    case _ => false
  }

  /** On dimension values the comparator agrees with the standard for the
      mask characters 'T' and 'F', and for '*' once compareMasks has looked
      at it first. */
  lemma CompareDe9imCharsAgreesOnTF(c: char, m: char)
    requires IsDimensionValue(c)
    requires m == 'T' || m == 'F' || m == '*'
    ensures PositionMatches(c, m) <==> OgcPatternMatches(c, m)
  {
  }

  /** A digit in the mask never matches, not even the same digit, although
      the standard says it should. */
  lemma DigitMaskNeverMatches(c: char, m: char)
    requires m == '0' || m == '1' || m == '2'
    ensures !CompareDe9imChars(c, m)
    ensures c != '*' ==> !PositionMatches(c, m)
    ensures OgcPatternMatches(m, m)
  {
  }

  /** For library-produced codes and digit-free masks, compareMasks decides
      exactly the standard's pattern match. */
  lemma MatchesMaskAgreesWithOgc(code: string, mask: Mask)
    requires IsDimensionCode(code) && IsWildcardMask(mask)
    ensures MatchesMask(code, mask) <==> forall i :: 0 <= i < 9 ==> OgcPatternMatches(code[i], mask[i])
  {
  }

  /** The all-wildcard mask matches every code of nine or more characters. */
  lemma AllWildcardMatches(code: string)
    requires |code| >= 9
    ensures MatchesMask(code, "*********")
  {
  }

  /** compareMasks looks at nothing past position 8 of the code. */
  lemma MatchesMaskReadsNinePositions(code: string, mask: Mask)
    requires |code| >= 9
    ensures MatchesMask(code, mask) <==> MatchesMask(code[..9], mask)
  {
  }

  /** Mask a subsumes mask b when b is a with some positions turned into '*'. */
  predicate Subsumes(a: Mask, b: Mask) {
    forall i :: 0 <= i < 9 ==> b[i] == '*' || b[i] == a[i]
  }

  /** A code that matches a mask also matches every mask it subsumes. */
  lemma SubsumedMaskMatches(code: string, a: Mask, b: Mask)
    requires |code| >= 9
    requires Subsumes(a, b) && MatchesMask(code, a)
    ensures MatchesMask(code, b)
  {
  }
}
