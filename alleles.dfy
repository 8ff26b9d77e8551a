/**
 * The allele classifier (`parse_allele`): check the shape of an allele name,
 * remove its trailing lower-case suffix and give the cleaned name a type.
 *
 * Every pattern of the source is anchored with `^...$`. Python's `$` also
 * matches just before a final newline, so a name whose last character is a
 * newline is judged on the text before it, and keeps that newline.
 */
module AlleleNames {
  import opened Text

  datatype AlleleType = Mutant | Transgene | Rearrangement | Other

  /** The triple `(allele_name, allele_type, err_key)`: a cleaned name with
   *  its type and no error key, or the error key `invalid_allele_name`. */
  datatype AlleleParse = Parsed(name: string, alleleType: AlleleType) | InvalidAlleleName

  /** `([a-zA-Z]+[0-9]+[a-z]*)+` from index `k` to the end: groups of
   *  letters then digits; only the last group may end with a run of
   *  lower-case letters (a middle group's `[a-z]*` merges with the letters
   *  of the next group). */
  predicate NameShapeFrom(s: string, k: nat)
    requires k <= |s|
    decreases |s| - k
  {
    var i := k + SpanAt(s, k, Letter);
    var j := i + SpanAt(s, i, Digit);
    k < i < j && (j == |s| || AllIn(s, j, |s|, Lower) || NameShapeFrom(s, j))
  }

  predicate NameShape(s: string) {
    NameShapeFrom(s, 0)
  }

  /** `([a-z]{1,3}[0-9]+)+` from index `k` to the end: groups of one to
   *  three lower-case letters, each followed by digits. */
  predicate MutantShapeFrom(s: string, k: nat)
    requires k <= |s|
    decreases |s| - k
  {
    var i := k + SpanAt(s, k, Lower);
    var j := i + SpanAt(s, i, Digit);
    1 <= i - k <= 3 && i < j && (j == |s| || MutantShapeFrom(s, j))
  }

  predicate MutantShape(s: string) {
    MutantShapeFrom(s, 0)
  }

  /** `Ex`, `Is` or `Si`. */
  predicate TransgeneMarker(a: char, b: char) {
    (a == 'E' && b == 'x') || (a == 'I' && b == 's') || (a == 'S' && b == 'i')
  }

  /** `[a-z]{1,3}(Ex|Is|Si)[0-9]+` */
  predicate TransgeneShape(s: string) {
    var i := SpanAt(s, 0, Lower);
    1 <= i <= 3 && i + 2 < |s| && TransgeneMarker(s[i], s[i + 1]) && AllIn(s, i + 2, |s|, Digit)
  }

  /** Length of the marker `T|C|In|Df` at index `i` of `s`, 0 if none. */
  function MarkerLength(s: string, i: nat): nat {
    if i < |s| && (s[i] == 'T' || s[i] == 'C') then 1
    else if i + 1 < |s| && ((s[i] == 'I' && s[i + 1] == 'n') || (s[i] == 'D' && s[i + 1] == 'f')) then 2
    else 0
  }

  /** `[a-z]{1,3}(T|C|In|Df)[0-9]+` */
  predicate RearrangementShape(s: string) {
    var i := SpanAt(s, 0, Lower);
    var m := MarkerLength(s, i);
    1 <= i <= 3 && m > 0 && i + m < |s| && AllIn(s, i + m, |s|, Digit)
  }

  /** `re.sub(r'[a-z]+$', '', s)` on a name without a final newline: the
   *  name less its maximal run of trailing lower-case letters. */
  function StripLowerSuffix(s: string): (c: string)
    ensures |c| <= |s| && c == s[..|c|] && AllIn(s, |c|, |s|, Lower)
    ensures |c| > 0 ==> !IsLower(c[|c| - 1])
  {
    SpanBackFacts(s, |s|, Lower);
    s[..|s| - SpanBack(s, |s|, Lower)]
  }

  /** The type tests of the source, tried in its order. */
  function TypeOf(cleaned: string): AlleleType {
    if MutantShape(cleaned) then Mutant
    else if TransgeneShape(cleaned) then Transgene
    else if RearrangementShape(cleaned) then Rearrangement
    else Other
  }

  /** `parse_allele`. A name is valid iff it has the letters-digits shape. */
  function ParseAllele(name: string): (r: AlleleParse)
    ensures r.InvalidAlleleName? <==> !NameShape(Body(name))
    ensures name == "" ==> r.InvalidAlleleName?
  {
    var body := Body(name);
    if name == "" || !NameShape(body) then InvalidAlleleName
    else Parsed(StripLowerSuffix(body) + FinalNewline(name), TypeOf(StripLowerSuffix(body)))
  }

  /** The cleaned name is the valid name less its maximal trailing run of
   *  lower-case letters, so it ends in a digit; the type is decided by
   *  which of the three disjoint shapes the cleaned name has. */
  lemma ParseAlleleResult(name: string)
    ensures var r := ParseAllele(name);
      r.Parsed? ==>
      var core := Body(r.name);
      && r.name == core + FinalNewline(name)
      && 0 < |core| <= |Body(name)| && IsDigit(core[|core| - 1])
      && core == Body(name)[..|core|]
      && AllIn(Body(name), |core|, |Body(name)|, Lower)
    ensures var r := ParseAllele(name);
      r.Parsed? ==>
      var core := Body(r.name);
      && (r.alleleType == Mutant <==> MutantShape(core))
      && (r.alleleType == Transgene <==> TransgeneShape(core))
      && (r.alleleType == Rearrangement <==> RearrangementShape(core))
  {
    var body := Body(name);
    if name != "" && NameShape(body) {
      var cleaned := StripLowerSuffix(body);
      CleanedShape(body, 0);
      BodyOfCleaned(cleaned, FinalNewline(name));
      ShapesDisjoint(cleaned);
    }
  }

  // ---------------------------------------------------------------------
  // Cleaning

  /** The first group of a name from index `k`: letters up to `i`, digits
   *  up to `j`. */
  lemma NameGroup(s: string, k: nat) returns (i: nat, j: nat)
    requires k <= |s| && NameShapeFrom(s, k)
    ensures i == k + SpanAt(s, k, Letter) && j == i + SpanAt(s, i, Digit) && k < i < j <= |s|
    ensures AllIn(s, k, i, Letter) && AllIn(s, i, j, Digit) && (j < |s| ==> !IsDigit(s[j]))
    ensures j == |s| || AllIn(s, j, |s|, Lower) || NameShapeFrom(s, j)
  {
    i := k + SpanAt(s, k, Letter);
    j := i + SpanAt(s, i, Digit);
    SpanAtFacts(s, k, Letter);
    SpanAtFacts(s, i, Digit);
  }

  /** The name shape, one group at a time. */
  lemma NameShapeIntro(c: string, k: nat, i: nat, j: nat)
    requires k <= |c|
    requires i == k + SpanAt(c, k, Letter) && j == i + SpanAt(c, i, Digit) && k < i < j
    requires j == |c| || AllIn(c, j, |c|, Lower) || NameShapeFrom(c, j)
    ensures NameShapeFrom(c, k)
  {
  }

  /** A prefix of `s` that keeps a whole letters-then-digits group keeps the
   *  spans of that group. */
  lemma PrefixSpans(s: string, m: nat, k: nat, i: nat, j: nat)
    requires k < i < j <= m <= |s|
    requires AllIn(s, k, i, Letter) && !In(s[i], Letter)
    requires AllIn(s, i, j, Digit) && (j < |s| ==> !In(s[j], Digit))
    ensures SpanAt(s[..m], k, Letter) == i - k && SpanAt(s[..m], i, Digit) == j - i
  {
    var c := s[..m];
    assert forall x :: 0 <= x < m ==> c[x] == s[x];
    SpanAtUnique(c, k, Letter, i - k);
    SpanAtUnique(c, i, Digit, j - i);
  }

  /** The lower-case suffix of a valid name stands after a digit, and what is
   *  left has the name shape again. */
  lemma {:induction false} CleanedShape(s: string, k: nat)
    requires k <= |s| && NameShapeFrom(s, k)
    ensures var m := |StripLowerSuffix(s)|;
            k < m && IsDigit(s[m - 1]) && NameShapeFrom(s[..m], k)
    decreases |s| - k
  {
    var i, j := NameGroup(s, k);
    var m := |StripLowerSuffix(s)|;
    assert IsDigit(s[j - 1]);
    if j == |s| {
      SpanBackUnique(s, |s|, Lower, 0);
      assert s[..m] == s;
    } else if AllIn(s, j, |s|, Lower) {
      SpanBackUnique(s, |s|, Lower, |s| - j);
      PrefixSpans(s, j, k, i, j);
      NameShapeIntro(s[..j], k, i, j);
    } else {
      CleanedShape(s, j);
      PrefixSpans(s, m, k, i, j);
      NameShapeIntro(s[..m], k, i, j);
    }
  }

  lemma BodyOfCleaned(c: string, nl: string)
    requires |c| > 0 && IsDigit(c[|c| - 1]) && (nl == "" || nl == "\n")
    ensures Body(c + nl) == c && FinalNewline(c + nl) == nl
  {
    if nl == "" {
      assert c + nl == c;
    }
  }

  // ---------------------------------------------------------------------
  // Types

  /** A mutant name is lower-case letters and digits only. */
  lemma {:induction false} MutantChars(s: string, k: nat)
    requires k <= |s| && MutantShapeFrom(s, k)
    ensures forall x :: k <= x < |s| ==> IsLower(s[x]) || IsDigit(s[x])
    decreases |s| - k
  {
    var i := k + SpanAt(s, k, Lower);
    var j := i + SpanAt(s, i, Digit);
    SpanAtFacts(s, k, Lower);
    SpanAtFacts(s, i, Digit);
    if j < |s| {
      MutantChars(s, j);
    }
    forall x | k <= x < |s| ensures IsLower(s[x]) || IsDigit(s[x]) {
      if x < i {
        assert In(s[x], Lower);
      } else if x < j {
        assert In(s[x], Digit);
      }
    }
  }

  /** No cleaned name has two of the three shapes, so each type is decided
   *  by its own shape alone. */
  lemma ShapesDisjoint(s: string)
    ensures MutantShape(s) ==> !TransgeneShape(s) && !RearrangementShape(s)
    ensures !(TransgeneShape(s) && RearrangementShape(s))
  {
    var i := SpanAt(s, 0, Lower);
    if MutantShape(s) {
      MutantChars(s, 0);
      if i < |s| {
        assert !IsUpper(s[i]);
      }
    }
  }

  /** Cleaning is idempotent: the cleaned name parses to itself, with the
   *  same type. */
  lemma ParseAlleleIdempotent(name: string)
    requires ParseAllele(name).Parsed?
    ensures ParseAllele(ParseAllele(name).name) == ParseAllele(name)
  {
    var body := Body(name);
    var c := StripLowerSuffix(body);
    var nl := FinalNewline(name);
    CleanedShape(body, 0);
    assert c == body[..|c|];
    assert ParseAllele(name) == Parsed(c + nl, TypeOf(c));
    BodyOfCleaned(c, nl);
    SpanBackUnique(c, |c|, Lower, 0);
    assert StripLowerSuffix(c) == c;
    assert ParseAllele(c + nl) == Parsed(c + nl, TypeOf(c));
  }

  /** A name that starts with a digit, or holds a `-`, is invalid. */
  lemma InvalidNames(name: string)
    requires |name| > 0 && (IsDigit(name[0]) || '-' in name)
    ensures ParseAllele(name).InvalidAlleleName?
  {
    var body := Body(name);
    assert body == name[..|body|];
    if '-' in name {
      var x :| 0 <= x < |name| && name[x] == '-';
      assert x < |body| && body[x] == '-';
    }
    ShapeIsAlphanumeric(body, 0);
  }

  /** A name is letters and digits, and starts with a letter. */
  lemma {:induction false} ShapeIsAlphanumeric(s: string, k: nat)
    requires k <= |s|
    ensures NameShapeFrom(s, k) ==>
      k < |s| && IsLetter(s[k]) && forall x :: k <= x < |s| ==> IsLetter(s[x]) || IsDigit(s[x])
    decreases |s| - k
  {
    if NameShapeFrom(s, k) {
      var i, j := NameGroup(s, k);
      if j < |s| && !AllIn(s, j, |s|, Lower) {
        ShapeIsAlphanumeric(s, j);
      }
      assert In(s[k], Letter);
      forall x | k <= x < |s| ensures IsLetter(s[x]) || IsDigit(s[x]) {
        if x < i {
          assert In(s[x], Letter);
        } else if x < j {
          assert In(s[x], Digit);
        } else if AllIn(s, j, |s|, Lower) {
          assert In(s[x], Lower);
        }
      }
    }
  }
}

module AlleleExamples {
  import opened Text
  import opened AlleleNames

  /** A suffix letter is removed and what is left is a mutant name. */
  lemma SuffixLetterRemoved()
    ensures ParseAllele("tm290a") == Parsed("tm290", Mutant)
  {
    var s := "tm290a";
    assert Body(s) == s && FinalNewline(s) == "";
    SpanAtUnique(s, 0, Letter, 2);
    SpanAtUnique(s, 2, Digit, 3);
    NameShapeIntro(s, 0, 2, 5);
    SpanBackUnique(s, 6, Lower, 1);
    assert StripLowerSuffix(s) == "tm290";
    MutantExample();
  }

  /** A name without a suffix is kept as it is. */
  lemma UnsuffixedMutant()
    ensures ParseAllele("tm290") == Parsed("tm290", Mutant)
  {
    var s := "tm290";
    assert Body(s) == s && FinalNewline(s) == "";
    SpanAtUnique(s, 0, Letter, 2);
    SpanAtUnique(s, 2, Digit, 3);
    NameShapeIntro(s, 0, 2, 5);
    SpanBackUnique(s, 5, Lower, 0);
    assert StripLowerSuffix(s) == s;
    MutantExample();
  }

  lemma MutantExample()
    ensures TypeOf("tm290") == Mutant
  {
    var s := "tm290";
    SpanAtUnique(s, 0, Lower, 2);
    SpanAtUnique(s, 2, Digit, 3);
    assert MutantShapeFrom(s, 0);
  }

  /** `Is` marks a transgene. */
  lemma TransgeneExample()
    ensures ParseAllele("nsIs53") == Parsed("nsIs53", Transgene)
  {
    var s := "nsIs53";
    assert Body(s) == s && FinalNewline(s) == "";
    SpanAtUnique(s, 0, Letter, 4);
    SpanAtUnique(s, 4, Digit, 2);
    NameShapeIntro(s, 0, 4, 6);
    SpanBackUnique(s, 6, Lower, 0);
    assert StripLowerSuffix(s) == s;
    SpanAtUnique(s, 0, Lower, 2);
    assert TransgeneShape(s);
    ShapesDisjoint(s);
  }

  /** `T` marks a rearrangement. */
  lemma RearrangementExample()
    ensures ParseAllele("eT1") == Parsed("eT1", Rearrangement)
  {
    var s := "eT1";
    assert Body(s) == s && FinalNewline(s) == "";
    SpanAtUnique(s, 0, Letter, 2);
    SpanAtUnique(s, 2, Digit, 1);
    NameShapeIntro(s, 0, 2, 3);
    SpanBackUnique(s, 3, Lower, 0);
    assert StripLowerSuffix(s) == s;
    SpanAtUnique(s, 0, Lower, 1);
    assert MarkerLength(s, 1) == 1;
    assert RearrangementShape(s);
    ShapesDisjoint(s);
  }

  /** A name may not start with a digit nor hold a `-`. */
  lemma InvalidExamples()
    ensures ParseAllele("123abc") == InvalidAlleleName
    ensures ParseAllele("unc-5") == InvalidAlleleName
  {
    InvalidNames("123abc");
    assert "unc-5"[3] == '-';
    InvalidNames("unc-5");
  }
}
