/** The relation classifier: maps an intersection-matrix code to one of six
    relation categories by trying fixed masks in a fixed priority order and
    taking the first that matches. The code is a parameter here; producing it
    from two polygons is the geometry library's job. */
module Classifier {
  import opened De9im

  /** The six categories refineFindRelation can return. */
  datatype Relation = Disjoint | Equal | RContainsS | SContainsR | Meet | Overlap

  // The masks the classifier uses, as declared at file scope in the source.
  const InsideCode: Mask := "T*F**F***"
  const ContainsCode: Mask := "T*****FF*"
  const MeetCode1: Mask := "FT*******"
  const MeetCode2: Mask := "F**T*****"
  const MeetCode3: Mask := "F***T****"
  const EqualCode: Mask := "T*F**FFF*"
  const DisjointCode: Mask := "FF*FF****"

  /** One classification rule: if any of its masks matches, its category wins. */
  datatype Rule = Rule(masks: seq<Mask>, category: Relation)

  /** The rules in the order the classifier tries them. */
  const PriorityRules: seq<Rule> := [
    Rule([DisjointCode], Disjoint),
    Rule([EqualCode], Equal),
    Rule([ContainsCode], RContainsS),
    Rule([InsideCode], SContainsR),
    Rule([MeetCode1, MeetCode2, MeetCode3], Meet)
  ]

  predicate AnyMatches(code: string, masks: seq<Mask>)
    requires |code| >= 9
  {
    exists i :: 0 <= i < |masks| && MatchesMask(code, masks[i])
  }

  /** First-match-wins evaluation of an ordered rule list; OVERLAP when no
      rule applies. */
  function FirstMatch(code: string, rules: seq<Rule>): Relation
    requires |code| >= 9
  {
    if rules == [] then Overlap
    else if AnyMatches(code, rules[0].masks) then rules[0].category
    else FirstMatch(code, rules[1..])
  }

  /** The classification the source computes, as a rule table. */
  function Classify(code: string): Relation
    requires |code| >= 9
  {
    FirstMatch(code, PriorityRules)
  }

  lemma AnyMatchesOne(code: string, m: Mask)
    requires |code| >= 9
    ensures AnyMatches(code, [m]) <==> MatchesMask(code, m)
  {
    if MatchesMask(code, m) {
      assert [m][0] == m;
    }
  }

  lemma AnyMatchesThree(code: string, a: Mask, b: Mask, c: Mask)
    requires |code| >= 9
    ensures AnyMatches(code, [a, b, c]) <==> MatchesMask(code, a) || MatchesMask(code, b) || MatchesMask(code, c)
  {
    var ms := [a, b, c];
    if MatchesMask(code, a) { assert ms[0] == a; }
    if MatchesMask(code, b) { assert ms[1] == b; }
    if MatchesMask(code, c) { assert ms[2] == c; }
  }

  /** What the priority order means, category by category: each category is
      returned exactly when its masks match and no earlier category's do.
      OVERLAP is returned exactly when none of the seven masks matches. */
  lemma ClassifyPriority(code: string)
    requires |code| >= 9
    ensures var d, e, c, i := MatchesMask(code, DisjointCode), MatchesMask(code, EqualCode),
                              MatchesMask(code, ContainsCode), MatchesMask(code, InsideCode);
            var m := MatchesMask(code, MeetCode1) || MatchesMask(code, MeetCode2) || MatchesMask(code, MeetCode3);
            && (Classify(code) == Disjoint <==> d)
            && (Classify(code) == Equal <==> !d && e)
            && (Classify(code) == RContainsS <==> !d && !e && c)
            && (Classify(code) == SContainsR <==> !d && !e && !c && i)
            && (Classify(code) == Meet <==> !d && !e && !c && !i && m)
            && (Classify(code) == Overlap <==> !d && !e && !c && !i && !m)
  {
    var rs := PriorityRules;
    AnyMatchesOne(code, DisjointCode);
    AnyMatchesOne(code, EqualCode);
    AnyMatchesOne(code, ContainsCode);
    AnyMatchesOne(code, InsideCode);
    AnyMatchesThree(code, MeetCode1, MeetCode2, MeetCode3);
    var rs1, rs2, rs3, rs4 := rs[1..], rs[2..], rs[3..], rs[4..];
    assert rs1[1..] == rs2 && rs2[1..] == rs3 && rs3[1..] == rs4 && rs4[1..] == [];
    assert FirstMatch(code, rs4) == if AnyMatches(code, rs4[0].masks) then Meet else Overlap;
    assert FirstMatch(code, rs3) == if AnyMatches(code, rs3[0].masks) then SContainsR else FirstMatch(code, rs4);
    assert FirstMatch(code, rs2) == if AnyMatches(code, rs2[0].masks) then RContainsS else FirstMatch(code, rs3);
    assert FirstMatch(code, rs1) == if AnyMatches(code, rs1[0].masks) then Equal else FirstMatch(code, rs2);
    assert Classify(code) == if AnyMatches(code, rs[0].masks) then Disjoint else FirstMatch(code, rs1);
  }

  /** refineFindRelation, on the code the geometry library computed: the masks
      are tried in the source's order, each through compareMasks. */
  method RefineFindRelation(code: string) returns (r: Relation)
    requires |code| >= 9
    ensures r == Classify(code)
  {
    ClassifyPriority(code);
    var matched := CompareMasks(code, DisjointCode);
    if matched {
      return Disjoint;
    }
    matched := CompareMasks(code, EqualCode);
    if matched {
      return Equal;
    }
    matched := CompareMasks(code, ContainsCode);
    if matched {
      return RContainsS;
    }
    matched := CompareMasks(code, InsideCode);
    if matched {
      return SContainsR;
    }
    // meetCode1 || meetCode2 || meetCode3, evaluated left to right
    matched := CompareMasks(code, MeetCode1);
    if !matched {
      matched := CompareMasks(code, MeetCode2);
    }
    if !matched {
      matched := CompareMasks(code, MeetCode3);
    }
    if matched {
      return Meet;
    }
    return Overlap;
  }

  /** A code matching the disjoint mask is always DISJOINT. */
  lemma DisjointAlwaysWins(code: string)
    requires |code| >= 9 && MatchesMask(code, DisjointCode)
    ensures Classify(code) == Disjoint
  {
    ClassifyPriority(code);
  }

  /** The equal mask is subsumed by both containment masks, so every code
      matching it also matches them; the order is what makes it EQUAL unless
      the disjoint mask matches too, which a library-produced code cannot. */
  lemma EqualShadowsContainment(code: string)
    requires |code| >= 9 && MatchesMask(code, EqualCode)
    ensures MatchesMask(code, ContainsCode) && MatchesMask(code, InsideCode)
    ensures !MatchesMask(code, DisjointCode) ==> Classify(code) == Equal
    ensures IsDimensionCode(code) ==> !MatchesMask(code, DisjointCode)
    ensures IsDimensionCode(code) ==> Classify(code) == Equal
  {
    SubsumedMaskMatches(code, EqualCode, ContainsCode);
    SubsumedMaskMatches(code, EqualCode, InsideCode);
    ClassifyPriority(code);
    if IsDimensionCode(code) {
      assert PositionMatches(code[0], EqualCode[0]);
      assert !PositionMatches(code[0], DisjointCode[0]);
    }
  }

  /** The masks overlap, so the order matters: the identical-squares code
      matches the containment mask but is classified EQUAL, and a code made
      only of wildcards matches every mask but is classified DISJOINT. */
  lemma OrderMatters()
    ensures MatchesMask("2FFF1FFF2", ContainsCode) && Classify("2FFF1FFF2") == Equal
    ensures MatchesMask("*********", EqualCode) && Classify("*********") == Disjoint
  {
    EqualShadowsContainment("2FFF1FFF2");
    ClassifyPriority("*********");
  }

  /** EQUAL and both containments need the interiors to meet. */
  lemma ContainmentNeedsInteriors(code: string)
    requires |code| >= 9
    requires Classify(code) in {Equal, RContainsS, SContainsR}
    ensures code[0] != 'F'
  {
    ClassifyPriority(code);
    if Classify(code) == Equal {
      assert PositionMatches(code[0], EqualCode[0]);
    } else if Classify(code) == RContainsS {
      assert PositionMatches(code[0], ContainsCode[0]);
    } else {
      assert PositionMatches(code[0], InsideCode[0]);
    }
  }

  /** A MEET code is never a disjoint one; on a library-produced code the
      interiors do not meet either. */
  lemma MeetShape(code: string)
    requires |code| >= 9 && Classify(code) == Meet
    ensures !MatchesMask(code, DisjointCode)
    ensures IsDimensionCode(code) ==> code[0] == 'F'
  {
    ClassifyPriority(code);
    if !IsDimensionCode(code) {
    } else if MatchesMask(code, MeetCode1) {
      assert PositionMatches(code[0], MeetCode1[0]);
    } else if MatchesMask(code, MeetCode2) {
      assert PositionMatches(code[0], MeetCode2[0]);
    } else {
      assert PositionMatches(code[0], MeetCode3[0]);
    }
  }

  /** Because a '*' in the code matches anything, MeetShape needs a
      library-produced code: this one is MEET with a '*' at position 0. */
  lemma MeetWithWildcardInterior()
    ensures Classify("*10**00**") == Meet
  {
    var code := "*10**00**";
    ClassifyPriority(code);
    assert !PositionMatches(code[1], DisjointCode[1]);
    assert !PositionMatches(code[2], EqualCode[2]);
    assert !PositionMatches(code[6], ContainsCode[6]);
    assert !PositionMatches(code[2], InsideCode[2]);
    assert MatchesMask(code, MeetCode1);
  }

  /** The codes of plain configurations of two squares and their
      categories: apart, one strictly inside the other (either way), sharing
      an edge, and partly overlapping. The code of two identical squares is
      in OrderMatters. */
  lemma ClassifyApartSquares()
    ensures Classify("FF2FF1212") == Disjoint
  {
    var code := "FF2FF1212";
    ClassifyPriority(code);
    assert MatchesMask(code, DisjointCode);
  }

  lemma ClassifyRContainsSquare()
    ensures Classify("212FF1FF2") == RContainsS
  {
    var code := "212FF1FF2";
    ClassifyPriority(code);
    assert !PositionMatches(code[0], DisjointCode[0]);
    assert !PositionMatches(code[2], EqualCode[2]);
    assert MatchesMask(code, ContainsCode);
  }

  lemma ClassifySContainsSquare()
    ensures Classify("2FF1FF212") == SContainsR
  {
    var code := "2FF1FF212";
    ClassifyPriority(code);
    assert !PositionMatches(code[0], DisjointCode[0]);
    assert !PositionMatches(code[6], EqualCode[6]);
    assert !PositionMatches(code[6], ContainsCode[6]);
    assert MatchesMask(code, InsideCode);
  }

  lemma ClassifyTouchingSquares()
    ensures Classify("FF2F11212") == Meet
  {
    var code := "FF2F11212";
    ClassifyPriority(code);
    assert !PositionMatches(code[4], DisjointCode[4]);
    assert !PositionMatches(code[0], EqualCode[0]);
    assert !PositionMatches(code[0], ContainsCode[0]);
    assert !PositionMatches(code[0], InsideCode[0]);
    assert MatchesMask(code, MeetCode3);
  }

  lemma ClassifyOverlappingSquares()
    ensures Classify("212101212") == Overlap
  {
    var code := "212101212";
    ClassifyPriority(code);
    assert !PositionMatches(code[0], DisjointCode[0]);
    assert !PositionMatches(code[2], EqualCode[2]);
    assert !PositionMatches(code[6], ContainsCode[6]);
    assert !PositionMatches(code[2], InsideCode[2]);
    assert !PositionMatches(code[0], MeetCode1[0]);
    assert !PositionMatches(code[0], MeetCode2[0]);
    assert !PositionMatches(code[0], MeetCode3[0]);
  }
}
