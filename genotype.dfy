/**
 * The genotype parser (`parse_genotype`). A genotype such as
 * `ced-3 (n717) IV; ok700/nT1 (qIs51); bec-1` is cleaned of bracketed notes
 * and `(line N)` notes, cut into clauses at `;`, and each clause is read as
 * an allele part with an optional chromosome label at its end. The allele
 * part is cut into allele sets at `/`, and each set is scanned for
 * `gene(allele)` and bare `allele` tokens.
 *
 * Each regular expression of the source is modelled by a predicate or a
 * scanner of its own that follows the way Python's `re` engine resolves
 * that pattern (greedy and lazy repetition, backtracking, `$` matching
 * before a final newline).
 */
module Genotype {
  import opened Options
  import opened Text

  datatype Chromosome = I | II | III | IV | V | X

  /** One allele record: `{allele_name, gene_name?, heterozygous}`. */
  datatype Allele = Allele(name: string, gene: Option<string>, heterozygous: bool)

  /** One clause of the genotype: `{chromosome, allelesets}`, the sets kept
   *  in the order of their keys `alleleset1`, `alleleset2`, ... */
  datatype Item = Item(chromosome: Option<Chromosome>, allelesets: seq<seq<Allele>>)

  function Label(c: Chromosome): string {
    match c
    case I => "I"
    case II => "II"
    case III => "III"
    case IV => "IV"
    case V => "V"
    case X => "X"
  }

  /** The chromosome whose label is exactly `s`. */
  function LabelOf(s: string): (r: Option<Chromosome>)
    ensures r.Some? ==> Label(r.value) == s
    ensures r.None? ==> forall c: Chromosome :: Label(c) != s
  {
    if |s| == 1 then
      if s[0] == 'I' then Some(I) else if s[0] == 'V' then Some(V) else if s[0] == 'X' then Some(X) else None
    else if |s| == 2 && s[0] == 'I' then
      if s[1] == 'I' then Some(II) else if s[1] == 'V' then Some(IV) else None
    else if |s| == 3 && s[0] == 'I' && s[1] == 'I' && s[2] == 'I' then Some(III)
    else None
  }

  // ---------------------------------------------------------------------
  // Clean-up

  /** No `]` and no newline from index `k` up to `e`. */
  predicate ClearTo(s: string, k: nat, e: nat) {
    forall i :: k <= i < e && i < |s| ==> s[i] != ']' && s[i] != '\n'
  }

  /** Where the shortest `[...]` that starts at `s[0]` ends: the first `]`
   *  from index `k` on, provided no newline comes before it (`.` does not
   *  match a newline); none when a newline or the end comes first. */
  function ScanClose(s: string, k: nat): (r: Option<nat>)
    requires k >= 1
    ensures r.Some? ==> k <= r.value < |s| && s[r.value] == ']' && ClearTo(s, k, r.value)
    ensures r.None? ==> forall e :: k <= e < |s| && ClearTo(s, k, e) ==> s[e] != ']'
    decreases |s| - k
  {
    if k >= |s| || s[k] == '\n' then None
    else if s[k] == ']' then Some(k)
    else ScanClose(s, k + 1)
  }

  /** `re.sub(r'\[.*?\]', '', s)`: scanning left to right, every `[` that has
   *  a `]` after it on the same line is removed together with the shortest
   *  text up to and including that `]`. */
  function RemoveBracketed(s: string): (r: string)
    ensures |r| <= |s|
    decreases |s|
  {
    if s == [] then []
    else if s[0] == '[' && ScanClose(s, 1).Some? then RemoveBracketed(s[ScanClose(s, 1).value + 1..])
    else [s[0]] + RemoveBracketed(s[1..])
  }

  /** `s` starts with the note `(line N)` of length `m`: the text `(line `,
   *  one or more digits, then `)`. */
  predicate LineNoteAt(s: string, m: int) {
    7 < m <= |s| && s[..6] == "(line " && AllIn(s, 6, m - 1, Digit) && s[m - 1] == ')'
  }

  /** Length of the `(line N)` note at the start of `s`, 0 if there is none.
   *  The digits cannot hold `)`, so there is at most one such length. */
  function LineNoteLength(s: string): (n: nat)
    ensures n > 0 ==> LineNoteAt(s, n) && s[0] == '('
    ensures n == 0 ==> forall m :: !LineNoteAt(s, m)
  {
    if |s| >= 6 && s[..6] == "(line " then
      var d := SpanAt(s, 6, Digit);
      assert s[0] == s[..6][0];
      SpanAtFacts(s, 6, Digit);
      assert forall m :: LineNoteAt(s, m) ==> m == 7 + d by {
        forall m | LineNoteAt(s, m) ensures m == 7 + d {
          SpanAtUnique(s, 6, Digit, m - 7);
        }
      }
      if d > 0 && 6 + d < |s| && s[6 + d] == ')' then 7 + d else 0
    else 0
  }

  /** `re.sub(r'\(line [0-9]+\)', '', s)`: every `(line N)` note is removed. */
  function RemoveLineNotes(s: string): (r: string)
    ensures |r| <= |s|
    decreases |s|
  {
    if s == [] then []
    else if LineNoteLength(s) > 0 then RemoveLineNotes(s[LineNoteLength(s)..])
    else [s[0]] + RemoveLineNotes(s[1..])
  }

  /** The genotype text once stripped and cleaned of notes. */
  function Clean(s: string): string {
    RemoveLineNotes(RemoveBracketed(Strip(s)))
  }

  /** `re.split(r'\s*;\s*', ...)` of the cleaned text: the clauses. */
  function Clauses(s: string): (r: seq<string>)
    ensures |r| == 1 + Occurrences(Clean(s), {';'})
  {
    SplitTrimmed(Clean(s), {';'})
  }

  /** Text before the first `[` is kept as it is. */
  lemma {:induction false} BracketFreePrefix(p: string, t: string)
    requires '[' !in p
    ensures RemoveBracketed(p + t) == p + RemoveBracketed(t)
    decreases |p|
  {
    if p != [] {
      assert (p + t)[0] == p[0] && (p + t)[1..] == p[1..] + t;
      BracketFreePrefix(p[1..], t);
      assert [p[0]] + (p[1..] + RemoveBracketed(t)) == p + RemoveBracketed(t);
    } else {
      assert p + t == t;
    }
  }

  /** The scan for `]` stops at the first `]` when no newline comes first. */
  lemma {:induction false} ScanCloseFinds(s: string, k: nat, e: nat)
    requires 1 <= k <= e < |s| && s[e] == ']'
    requires forall i :: k <= i < e ==> s[i] != ']' && s[i] != '\n'
    ensures ScanClose(s, k) == Some(e)
    decreases e - k
  {
    if k < e {
      ScanCloseFinds(s, k + 1, e);
    }
  }

  /** A bracketed note with no `]` or newline inside is removed whole. */
  lemma BracketedNoteRemoved(x: string, b: string)
    requires ']' !in x && '\n' !in x
    ensures RemoveBracketed("[" + x + "]" + b) == RemoveBracketed(b)
  {
    var s := "[" + x + "]" + b;
    var e := |x| + 1;
    forall i | 1 <= i < e ensures s[i] != ']' && s[i] != '\n' {
      assert s[i] == x[i - 1];
    }
    ScanCloseFinds(s, 1, e);
    assert s[e + 1..] == b;
  }

  /** Text with no `(` is kept as it is by the line-note removal. */
  lemma {:induction false} ParenFreePrefix(p: string, t: string)
    requires '(' !in p
    ensures RemoveLineNotes(p + t) == p + RemoveLineNotes(t)
    decreases |p|
  {
    if p != [] {
      assert (p + t)[0] == p[0] && (p + t)[1..] == p[1..] + t;
      ParenFreePrefix(p[1..], t);
      assert [p[0]] + (p[1..] + RemoveLineNotes(t)) == p + RemoveLineNotes(t);
    } else {
      assert p + t == t;
    }
  }

  /** A `(line N)` note is removed whole. */
  lemma LineNoteRemoved(d: string, b: string)
    requires d != [] && All(d, Digit)
    ensures RemoveLineNotes("(line " + d + ")" + b) == RemoveLineNotes(b)
  {
    var s := "(line " + d + ")" + b;
    assert s[..6] == "(line ";
    forall i | 6 <= i < 6 + |d| ensures In(s[i], Digit) {
      assert s[i] == d[i - 6];
    }
    assert s[6 + |d|] == ')';
    SpanAtUnique(s, 6, Digit, |d|);
    assert s[7 + |d|..] == b;
  }

  /** Text whose ends are not whitespace is left alone by `strip()`. */
  lemma StripKeeps(s: string)
    requires s != [] && !IsSpace(s[0]) && !IsSpace(s[|s| - 1])
    ensures Strip(s) == s
  {
    assert SpanAt(s, 0, Space) == 0;
    assert SpanBack(s, |s|, Space) == 0;
  }

  /** Two genotypes with the same cleaned text parse alike. */
  lemma SameCleanSameParse(s: string, t: string)
    requires Clean(s) == Clean(t)
    ensures Parse(s) == Parse(t)
  {
    assert Clauses(s) == Clauses(t);
  }

  /** A bracketed note inside a genotype neither yields alleles nor makes
   *  the parse fail: the genotype parses as if the note were not there. */
  lemma BracketedNoteIgnored(a: string, x: string, b: string)
    requires a != [] && !IsSpace(a[0]) && '[' !in a
    requires b != [] && !IsSpace(b[|b| - 1])
    requires ']' !in x && '\n' !in x
    ensures Parse(a + "[" + x + "]" + b) == Parse(a + b)
  {
    var s := a + "[" + x + "]" + b;
    var rest := "[" + x + "]" + b;
    assert s == a + rest;
    assert s[0] == a[0] && s[|s| - 1] == b[|b| - 1];
    assert (a + b)[0] == a[0] && (a + b)[|a + b| - 1] == b[|b| - 1];
    StripKeeps(s);
    StripKeeps(a + b);
    BracketFreePrefix(a, rest);
    BracketedNoteRemoved(x, b);
    BracketFreePrefix(a, b);
    assert Clean(s) == Clean(a + b);
    SameCleanSameParse(s, a + b);
  }

  /** A `(line N)` note inside a genotype is ignored in the same way. */
  lemma LineNoteIgnored(a: string, d: string, b: string)
    requires a != [] && !IsSpace(a[0]) && '[' !in a && '(' !in a
    requires b != [] && !IsSpace(b[|b| - 1])
    requires d != [] && All(d, Digit)
    ensures Parse(a + "(line " + d + ")" + b) == Parse(a + b)
  {
    var s := a + "(line " + d + ")" + b;
    assert s[0] == a[0] && s[|s| - 1] == b[|b| - 1];
    assert (a + b)[0] == a[0] && (a + b)[|a + b| - 1] == b[|b| - 1];
    StripKeeps(s);
    StripKeeps(a + b);
    LineNoteCleaned(a, d, b);
    SameCleanSameParse(s, a + b);
  }

  lemma LineNoteCleaned(a: string, d: string, b: string)
    requires '[' !in a && '(' !in a && d != [] && All(d, Digit)
    ensures RemoveLineNotes(RemoveBracketed(a + "(line " + d + ")" + b))
            == RemoveLineNotes(RemoveBracketed(a + b))
  {
    var note := "(line " + d + ")";
    NoteBracketFree(d);
    assert a + "(line " + d + ")" + b == (a + note) + b;
    assert '[' !in a + note;
    BracketFreePrefix(a + note, b);
    BracketFreePrefix(a, b);
    var rb := RemoveBracketed(b);
    assert (a + note) + rb == a + (note + rb);
    ParenFreePrefix(a, note + rb);
    assert note + rb == "(line " + d + ")" + rb;
    LineNoteRemoved(d, rb);
    ParenFreePrefix(a, rb);
  }

  lemma NoteBracketFree(d: string)
    requires All(d, Digit)
    ensures '[' !in "(line " + d + ")"
  {
    var note := "(line " + d + ")";
    forall i | 0 <= i < |note| ensures note[i] != '[' {
      if 6 <= i < 6 + |d| {
        assert note[i] == d[i - 6];
      }
    }
  }

  /** A blank genotype fails. */
  lemma BlankFails(s: string)
    requires All(s, Space)
    ensures Parse(s) == None
  {
    SpanAtFacts(s, 0, Space);
    SpanAtUnique(s, 0, Space, |s|);
    assert Strip(s) == [];
    assert Clauses(s)[0] == [];
  }

  /** A genotype whose cleaned text ends with `;` fails: its last clause is
   *  empty. */
  lemma TrailingSemicolonFails(s: string)
    requires Clean(s) != [] && Clean(s)[|Clean(s)| - 1] == ';'
    ensures Parse(s) == None
  {
    var c := Clean(s);
    assert c == c[..|c| - 1] + [';'];
    SplitRawLastEmpty(c[..|c| - 1], ';');
    var raw := SplitRaw(c, {';'});
    var cs := Clauses(s);
    var last := |cs| - 1;
    assert cs[last] == TrimPiece(raw[last], last > 0, false);
    assert cs[last] == [];
    assert MatchClause(cs[last]).None?;
    MapAllInOrder(MatchClause, cs);
  }

  /** Splitting text that ends with the separator ends with an empty piece. */
  lemma {:induction false} SplitRawLastEmpty(t: string, c: char)
    ensures var r := SplitRaw(t + [c], {c}); r[|r| - 1] == []
    decreases |t|
  {
    if t == [] {
      assert SplitRaw([c], {c}) == [""] + SplitRaw([], {c});
    } else {
      assert (t + [c])[1..] == t[1..] + [c];
      SplitRawLastEmpty(t[1..], c);
    }
  }

  // ---------------------------------------------------------------------
  // Clauses: `^(?P<nonchr>[-+.)(a-zA-Z0-9\s/]+?)\s*(?P<chr>I|II|III|IV|V|X)?$`

  /** What the `chr` group sees when the allele part ends at index `k`: the
   *  rest of the clause after its leading whitespace, as `$` sees it. */
  function TailLabel(c: string, k: nat): string
    requires k <= |c|
  {
    Body(c[k + SpanAt(c, k, Space)..])
  }

  /** The allele part may end at index `k`: what follows is whitespace, an
   *  optional label, and the end of the clause (or a final newline). */
  predicate TailAt(c: string, k: nat)
    requires k <= |c|
  {
    TailLabel(c, k) == "" || LabelOf(TailLabel(c, k)).Some?
  }

  /** The result of a clause match: the `nonchr` group and the `chr` group. */
  datatype ClauseMatch = ClauseMatch(nonchr: string, chromosome: Option<Chromosome>)

  /** The lazy `nonchr` group: the least end `n` or later such that the
   *  characters before it are all in the class and the tail matches. */
  function FirstTail(c: string, n: nat): (r: Option<nat>)
    requires 1 <= n && AllIn(c, 0, n - 1, ClauseChar)
    ensures r.Some? ==> n <= r.value <= |c| && AllIn(c, 0, r.value, ClauseChar) && TailAt(c, r.value)
    decreases |c| + 1 - n
  {
    if n > |c| || !In(c[n - 1], ClauseChar) then None
    else if TailAt(c, n) then Some(n)
    else FirstTail(c, n + 1)
  }

  /** No end from `n` on that the pattern could take is before the one
   *  `FirstTail` finds. */
  lemma {:induction false} FirstTailLeast(c: string, n: nat)
    requires 1 <= n && AllIn(c, 0, n - 1, ClauseChar)
    ensures forall k :: n <= k <= |c| && AllIn(c, 0, k, ClauseChar) && TailAt(c, k) ==>
              FirstTail(c, n).Some? && FirstTail(c, n).value <= k
    decreases |c| + 1 - n
  {
    if n <= |c| && In(c[n - 1], ClauseChar) && !TailAt(c, n) {
      FirstTailLeast(c, n + 1);
    }
  }

  /** The clause pattern applied to one clause. It matches iff the clause is
   *  non-empty and made of clause characters only, and the allele part is
   *  then a non-empty prefix of the clause. */
  function MatchClause(c: string): (r: Option<ClauseMatch>)
    ensures r.Some? <==> c != [] && All(c, ClauseChar)
    ensures r.Some? ==> 1 <= |r.value.nonchr| <= |c| && r.value.nonchr == c[..|r.value.nonchr|]
  {
    if c == [] then None
    else
      match FirstTail(c, 1)
      case None =>
        FirstTailLeast(c, 1);
        assert TailAt(c, |c|);
        None
      case Some(n) =>
        TailInClass(c, n);
        Some(ClauseMatch(c[..n], LabelOf(TailLabel(c, n))))
  }

  /** The allele part of a matched clause is the shortest non-empty prefix
   *  after which whitespace and an optional label end the clause, and the
   *  chromosome is that label. */
  lemma MatchClauseShortest(c: string)
    requires MatchClause(c).Some?
    ensures var m := MatchClause(c).value;
            var n := |m.nonchr|;
            && TailAt(c, n) && m.chromosome == LabelOf(TailLabel(c, n))
            && forall k :: 1 <= k < n ==> !TailAt(c, k)
  {
    var n := FirstTail(c, 1).value;
    FirstTailLeast(c, 1);
    forall k | 1 <= k < n ensures !TailAt(c, k) {
      assert AllIn(c, 0, k, ClauseChar);
    }
  }

  /** A tail that matches holds only whitespace and label letters. */
  lemma TailInClass(c: string, k: nat)
    requires k <= |c|
    ensures TailAt(c, k) ==> AllIn(c, k, |c|, ClauseChar)
  {
    var w := k + SpanAt(c, k, Space);
    var b := TailLabel(c, k);
    SpanAtFacts(c, k, Space);
    if TailAt(c, k) {
      assert forall x :: 0 <= x < |b| ==> b[x] == 'I' || b[x] == 'V' || b[x] == 'X';
      forall x | k <= x < |c| ensures In(c[x], ClauseChar) {
        if x >= w && x - w < |b| {
          assert c[x] == b[x - w];
        } else if x >= w {
          assert c[x] == '\n';
        } else {
          assert In(c[x], Space);
        }
      }
    }
  }

  /** The `$`-view of a suffix is the suffix of the `$`-view. */
  lemma BodyOfSuffix(c: string, w: nat)
    requires w <= |Body(c)|
    ensures Body(c[w..]) == Body(c)[w..]
  {
    if |c| > 0 && c[|c| - 1] == '\n' && w < |c| {
      assert c[w..][|c[w..]| - 1] == '\n';
    }
  }

  /** A chromosome is only ever the label the clause ends with, and at least
   *  one character comes before it. */
  lemma ChromosomeEndsClause(c: string)
    requires MatchClause(c).Some? && MatchClause(c).value.chromosome.Some?
    ensures var l := Label(MatchClause(c).value.chromosome.value);
            |l| < |Body(c)| && Body(c)[|Body(c)| - |l|..] == l
  {
    var m := MatchClause(c).value;
    MatchClauseShortest(c);
    LabelEndsBody(c, |m.nonchr|, m.chromosome.value);
  }

  /** A label seen as the tail after index `n >= 1` ends the clause's
   *  `$`-view, with at least one character before it. */
  lemma LabelEndsBody(c: string, n: nat, x: Chromosome)
    requires 1 <= n <= |c| && LabelOf(TailLabel(c, n)) == Some(x)
    ensures |Label(x)| < |Body(c)| && Body(c)[|Body(c)| - |Label(x)|..] == Label(x)
  {
    assert TailLabel(c, n) == Label(x);
    TailLabelEndsBody(c, n);
  }

  /** A non-empty tail seen after index `n >= 1` is a suffix of the clause's
   *  `$`-view, with at least one character before it. */
  lemma TailLabelEndsBody(c: string, n: nat)
    requires 1 <= n <= |c| && TailLabel(c, n) != []
    ensures var b := TailLabel(c, n);
            |b| < |Body(c)| && Body(c)[|Body(c)| - |b|..] == b
  {
    var w := n + SpanAt(c, n, Space);
    BodyOfSuffix(c, w);
  }

  /** The longest label wins: when the clause ends with a label after at
   *  least one other character, a chromosome is found and that label is a
   *  suffix of it. */
  lemma LongestLabel(c: string, front: string, x: Chromosome)
    requires front != [] && All(c, ClauseChar) && Body(c) == front + Label(x)
    ensures MatchClause(c).Some? && MatchClause(c).value.chromosome.Some?
    ensures var l := Label(MatchClause(c).value.chromosome.value);
            |Label(x)| <= |l| && l[|l| - |Label(x)|..] == Label(x)
  {
    LabelTail(c, front, x);
    MatchClauseShortest(c);
    LabelSuffix(c, front, x, |MatchClause(c).value.nonchr|);
  }

  /** An allele part that ends at or before the label leaves a tail that
   *  ends with the label. */
  lemma LabelSuffix(c: string, front: string, x: Chromosome, n: nat)
    requires front != [] && Body(c) == front + Label(x) && 1 <= n <= |front|
    ensures var b := TailLabel(c, n);
            |Label(x)| <= |b| && b[|b| - |Label(x)|..] == Label(x)
  {
    var k := |front|;
    LabelTail(c, front, x);
    var w := SpacesBefore(c, n, k);
    BodyOfSuffix(c, w);
    var b := TailLabel(c, n);
    var body := Body(c);
    assert b == body[w..];
    assert b[|b| - |Label(x)|..] == body[k..];
  }

  /** With a label after a non-empty front, the allele part may end right
   *  where the label starts, and that label is what the tail then sees. */
  lemma LabelTail(c: string, front: string, x: Chromosome)
    requires front != [] && Body(c) == front + Label(x)
    ensures |front| < |c| && !IsSpace(c[|front|])
    ensures TailLabel(c, |front|) == Label(x) == Body(c)[|front|..] && TailAt(c, |front|)
  {
    var k := |front|;
    var body := Body(c);
    assert c[k] == body[k] == Label(x)[0];
    assert SpanAt(c, k, Space) == 0;
    BodyOfSuffix(c, k);
    assert body[k..] == Label(x);
  }

  /** The whitespace run after index `n` stops at a non-space index `k`. */
  lemma SpacesBefore(c: string, n: nat, k: nat) returns (w: nat)
    requires n <= k < |c| && !IsSpace(c[k])
    ensures w == n + SpanAt(c, n, Space) && w <= k
  {
    w := n + SpanAt(c, n, Space);
    SpanAtFacts(c, n, Space);
  }

  /** A lone label is an allele, not a chromosome. */
  lemma LoneLabelIsAllele()
    ensures MatchClause("X") == Some(ClauseMatch("X", None))
  {
    var c := "X";
    assert SpanAt(c, 1, Space) == 0;
    assert c[1..] == "";
    assert TailLabel(c, 1) == "";
    assert FirstTail(c, 1) == Some(1);
    assert c[..1] == c;
  }

  /** A label right after an allele name is its chromosome. */
  lemma LabelAfterName()
    ensures MatchClause("e1X") == Some(ClauseMatch("e1", Some(X)))
  {
    var c := "e1X";
    LabelAfterNameTails();
    assert FirstTail(c, 2) == Some(2);
    assert FirstTail(c, 1) == Some(2);
    assert c[..2] == "e1";
  }

  lemma LabelAfterNameTails()
    ensures !TailAt("e1X", 1) && TailAt("e1X", 2) && TailLabel("e1X", 2) == "X"
  {
    var c := "e1X";
    assert SpanAt(c, 1, Space) == 0 && SpanAt(c, 2, Space) == 0;
    assert c[1..] == "1X" && c[2..] == "X";
  }

  // ---------------------------------------------------------------------
  // Allele sets and tokens

  /** `re.split` of the allele part at `/`, with the whitespace around each
   *  `/`: the allele sets. */
  function SetParts(nonchr: string): (r: seq<string>)
    ensures |r| == 1 + Occurrences(nonchr, {'/'})
  {
    SplitTrimmed(nonchr, {'/'})
  }

  /** Index of the first occurrence of `x` in `xs`. */
  function IndexOf(xs: seq<string>, x: string): (k: nat)
    requires x in xs
    ensures k < |xs| && xs[k] == x && x !in xs[..k]
  {
    if xs[0] == x then 0 else 1 + IndexOf(xs[1..], x)
  }

  /** `list.remove(x)`: the list without its first `x`. */
  function RemoveFirst(xs: seq<string>, x: string): (r: seq<string>)
    ensures x !in xs ==> r == xs
    ensures x in xs ==> r == xs[..IndexOf(xs, x)] + xs[IndexOf(xs, x) + 1..]
    ensures x in xs ==> |r| == |xs| - 1 && multiset(r) == multiset(xs) - multiset{x}
  {
    if x !in xs then xs
    else
      var k := IndexOf(xs, x);
      assert xs == xs[..k] + [xs[k]] + xs[k + 1..];
      xs[..k] + xs[k + 1..]
  }

  /** A token of the allele scanner. */
  datatype Token = GeneAllele(gene: string, allele: string) | BareAllele(allele: string)

  /** An allele name: non-empty, over `[-a-zA-Z0-9]`. */
  predicate AlleleName(s: string) {
    s != [] && All(s, AlleleChar)
  }

  /** A gene name: non-empty, over `[-.a-zA-Z0-9]`. */
  predicate GeneName(s: string) {
    s != [] && All(s, GeneChar)
  }

  /** No character of `s` from index `k` on can start an allele. */
  predicate NoAlleleChar(s: string, k: nat) {
    forall i :: k <= i < |s| ==> !In(s[i], AlleleChar)
  }

  /** `s[k..e]` is the text `gene`, spaces, `(`, `allele`, `)`. */
  predicate GeneFormText(s: string, k: nat, gene: string, allele: string, e: nat) {
    && k + |gene| + |allele| + 2 <= e <= |s|
    && s[k..k + |gene|] == gene
    && AllIn(s, k + |gene|, e - 2 - |allele|, Space)
    && s[e - 2 - |allele|] == '(' && s[e - 1 - |allele|..e - 1] == allele && s[e - 1] == ')'
  }

  /** `s[k..e]` is the text of token `t`; a bare allele is the whole run of
   *  allele characters there. */
  predicate TokenText(s: string, k: nat, t: Token, e: nat) {
    match t
    case GeneAllele(gene, allele) => GeneFormText(s, k, gene, allele, e)
    case BareAllele(allele) => k <= e <= |s| && s[k..e] == allele && (e == |s| || !In(s[e], AlleleChar))
  }

  /** No character of `s` from index `k` up to `e` can start an allele. */
  predicate NoAlleleIn(s: string, k: nat, e: nat) {
    forall i :: k <= i < e && i < |s| ==> !In(s[i], AlleleChar)
  }

  /** The run `s[k..k + n]` as a name of class `p`. */
  lemma RunName(s: string, k: nat, n: nat, p: CharClass)
    requires k + n <= |s| && AllIn(s, k, k + n, p)
    ensures All(s[k..k + n], p)
  {
    var t := s[k..k + n];
    forall i | 0 <= i < |t| ensures In(t[i], p) {
      assert t[i] == s[k + i];
    }
  }

  /** The first alternative `gene\s*\(allele\)` at index `k`. The gene and
   *  allele runs are greedy; backtracking into them cannot help, since the
   *  character after a shorter run is not whitespace, `(` or `)`. */
  function GeneFormAt(s: string, k: nat): (r: Option<(Token, nat)>)
    requires k <= |s|
    ensures r.Some? ==> r.value.0.GeneAllele? && k < r.value.1 <= |s|
    ensures r.Some? ==> GeneName(r.value.0.gene) && AlleleName(r.value.0.allele)
    ensures r.Some? ==> GeneFormText(s, k, r.value.0.gene, r.value.0.allele, r.value.1)
  {
    var g := SpanAt(s, k, GeneChar);
    var p := k + g + SpanAt(s, k + g, Space);
    if g == 0 || p >= |s| || s[p] != '(' then None
    else
      var a := SpanAt(s, p + 1, AlleleChar);
      if a == 0 || p + 1 + a >= |s| || s[p + 1 + a] != ')' then None
      else
        GeneFormFacts(s, k, g, p, a);
        Some((GeneAllele(s[k..k + g], s[p + 1..p + 1 + a]), p + 2 + a))
  }

  /** The runs `GeneFormAt` finds make a well-formed gene and allele name,
   *  standing in the text as written. */
  lemma GeneFormFacts(s: string, k: nat, g: nat, p: nat, a: nat)
    requires k + g <= p && p + 1 + a < |s| && g > 0 && a > 0
    requires g == SpanAt(s, k, GeneChar) && p == k + g + SpanAt(s, k + g, Space) && s[p] == '('
    requires a == SpanAt(s, p + 1, AlleleChar) && s[p + 1 + a] == ')'
    ensures GeneName(s[k..k + g]) && AlleleName(s[p + 1..p + 1 + a])
    ensures GeneFormText(s, k, s[k..k + g], s[p + 1..p + 1 + a], p + 2 + a)
  {
    SpanAtFacts(s, k, GeneChar);
    SpanAtFacts(s, p + 1, AlleleChar);
    RunName(s, k, g, GeneChar);
    RunName(s, p + 1, a, AlleleChar);
    GeneFormTextAt(s, k, g, p, a);
  }

  lemma GeneFormTextAt(s: string, k: nat, g: nat, p: nat, a: nat)
    requires k + g <= p && p + 1 + a < |s|
    requires p == k + g + SpanAt(s, k + g, Space) && s[p] == '(' && s[p + 1 + a] == ')'
    ensures GeneFormText(s, k, s[k..k + g], s[p + 1..p + 1 + a], p + 2 + a)
  {
    SpanAtFacts(s, k + g, Space);
    var gene, allele := s[k..k + g], s[p + 1..p + 1 + a];
    assert |gene| == g && |allele| == a;
  }

  /** The second alternative, a bare `allele`, at index `k`: it matches iff
   *  an allele character stands there. */
  function BareAt(s: string, k: nat): (r: Option<(Token, nat)>)
    requires k <= |s|
    ensures r.Some? <==> k < |s| && In(s[k], AlleleChar)
    ensures r.Some? ==> r.value.0.BareAllele? && k < r.value.1 <= |s| && AlleleName(r.value.0.allele)
    ensures r.Some? ==> TokenText(s, k, r.value.0, r.value.1)
  {
    var b := SpanAt(s, k, AlleleChar);
    SpanAtFacts(s, k, AlleleChar);
    RunName(s, k, b, AlleleChar);
    if b > 0 then Some((BareAllele(s[k..k + b]), k + b)) else None
  }

  /** The scanner `gene\s*\(allele\)|allele` at index `k` of `s`: the token
   *  and the index where it ends, the first alternative tried first. */
  function TokenAt(s: string, k: nat): (r: Option<(Token, nat)>)
    requires k <= |s|
    ensures r.Some? ==> k < r.value.1 <= |s| && AlleleName(r.value.0.allele) && !NoAlleleChar(s, k)
    ensures r.Some? && r.value.0.GeneAllele? ==> GeneName(r.value.0.gene)
    ensures k < |s| && In(s[k], AlleleChar) ==> r.Some?
    ensures r.Some? ==> TokenText(s, k, r.value.0, r.value.1)
    ensures r.Some? && r.value.0.BareAllele? ==> GeneFormAt(s, k).None?
  {
    var gf := GeneFormAt(s, k);
    if gf.Some? then
      var e := gf.value.1;
      var allele := gf.value.0.allele;
      assert s[e - 1 - |allele|..e - 1][0] == allele[0];
      assert In(s[e - 1 - |allele|], AlleleChar);
      gf
    else BareAt(s, k)
  }

  /** `regex.finditer(set)` from index `k`: the tokens, left to right;
   *  characters that start no token (a standalone `+`, spaces) are skipped. */
  function TokensFrom(s: string, k: nat): (r: seq<Token>)
    requires k <= |s|
    ensures forall i :: 0 <= i < |r| ==> AlleleName(r[i].allele)
    ensures forall i :: 0 <= i < |r| && r[i].GeneAllele? ==> GeneName(r[i].gene)
    ensures r == [] <==> NoAlleleChar(s, k)
    decreases |s| - k
  {
    if k == |s| then []
    else
      match TokenAt(s, k)
      case None => TokensFrom(s, k + 1)
      case Some((t, e)) => [t] + TokensFrom(s, e)
  }

  /** Where the tokens of `TokensFrom(s, k)` stand: the index each starts at
   *  and the index it ends at. */
  function TokenSpans(s: string, k: nat): (r: seq<(nat, nat)>)
    requires k <= |s|
    ensures |r| == |TokensFrom(s, k)|
    decreases |s| - k
  {
    if k == |s| then []
    else
      match TokenAt(s, k)
      case None => TokenSpans(s, k + 1)
      case Some((t, e)) => [(k, e)] + TokenSpans(s, e)
  }

  /** Where the scan stood before token `i`: at `k` for the first, else
   *  where token `i - 1` ends. */
  function Before(k: nat, sp: seq<(nat, nat)>, i: nat): nat
    requires i <= |sp|
  {
    if i == 0 then k else sp[i - 1].1
  }

  /** The tokens `ts` stand at the spans `sp` of `s` from index `k` on, left
   *  to right: each starts where or after the one before it ends, no allele
   *  character stands in between, each is the text it stands on, and no
   *  allele character follows the last. */
  predicate TokensLaid(s: string, k: nat, ts: seq<Token>, sp: seq<(nat, nat)>) {
    && |ts| == |sp|
    && (forall i {:trigger ts[i]} :: 0 <= i < |sp| ==>
          && Before(k, sp, i) <= sp[i].0 < sp[i].1 <= |s|
          && NoAlleleIn(s, Before(k, sp, i), sp[i].0)
          && TokenText(s, sp[i].0, ts[i], sp[i].1))
    && NoAlleleIn(s, Before(k, sp, |sp|), |s|)
  }

  /** `regex.finditer` reads the tokens left to right off the text. */
  lemma {:induction false} TokensInText(s: string, k: nat)
    requires k <= |s|
    ensures TokensLaid(s, k, TokensFrom(s, k), TokenSpans(s, k))
    decreases |s| - k
  {
    if k < |s| {
      var r := TokenAt(s, k);
      TokensFromStep(s, k);
      if r.None? {
        TokensInText(s, k + 1);
        LaidAfterSkip(s, k, TokensFrom(s, k + 1), TokenSpans(s, k + 1));
      } else {
        TokensInText(s, r.value.1);
        LaidAfterToken(s, k, r.value.0, r.value.1, TokensFrom(s, r.value.1), TokenSpans(s, r.value.1));
      }
    }
  }

  /** One step of the scan: a character that starts no token is skipped, a
   *  token is put in front of the ones after it. */
  lemma TokensFromStep(s: string, k: nat)
    requires k < |s|
    ensures var r := TokenAt(s, k);
            && (r.None? ==> !In(s[k], AlleleChar)
                            && TokensFrom(s, k) == TokensFrom(s, k + 1) && TokenSpans(s, k) == TokenSpans(s, k + 1))
            && (r.Some? ==> k < r.value.1 <= |s| && TokenText(s, k, r.value.0, r.value.1)
                            && TokensFrom(s, k) == [r.value.0] + TokensFrom(s, r.value.1)
                            && TokenSpans(s, k) == [(k, r.value.1)] + TokenSpans(s, r.value.1))
  {
  }

  /** A character that starts no token can be skipped. */
  lemma LaidAfterSkip(s: string, k: nat, ts: seq<Token>, sp: seq<(nat, nat)>)
    requires k < |s| && !In(s[k], AlleleChar) && TokensLaid(s, k + 1, ts, sp)
    ensures TokensLaid(s, k, ts, sp)
  {
    forall i | 0 <= i < |sp|
      ensures && Before(k, sp, i) <= sp[i].0 < sp[i].1 <= |s|
              && NoAlleleIn(s, Before(k, sp, i), sp[i].0)
              && TokenText(s, sp[i].0, ts[i], sp[i].1)
    {
      assert TokenText(s, sp[i].0, ts[i], sp[i].1);
    }
  }

  /** A token at `k` ending at `e` goes in front of the tokens from `e`. */
  lemma LaidAfterToken(s: string, k: nat, t: Token, e: nat, ts: seq<Token>, sp: seq<(nat, nat)>)
    requires k < e <= |s| && TokenText(s, k, t, e) && TokensLaid(s, e, ts, sp)
    ensures TokensLaid(s, k, [t] + ts, [(k, e)] + sp)
  {
    var ts1, sp1 := [t] + ts, [(k, e)] + sp;
    forall i | 0 <= i < |sp1|
      ensures && Before(k, sp1, i) <= sp1[i].0 < sp1[i].1 <= |s|
              && NoAlleleIn(s, Before(k, sp1, i), sp1[i].0)
              && TokenText(s, sp1[i].0, ts1[i], sp1[i].1)
    {
      if i > 0 {
        assert sp1[i] == sp[i - 1] && ts1[i] == ts[i - 1];
        assert Before(k, sp1, i) == Before(e, sp, i - 1);
      }
    }
    assert Before(k, sp1, |sp1|) == Before(e, sp, |sp|);
  }

  /** The tokens of one allele set. A set yields no record iff it holds no
   *  character of `[-a-zA-Z0-9]`. */
  function Tokens(s: string): (r: seq<Token>)
    ensures forall i :: 0 <= i < |r| ==> AlleleName(r[i].allele)
    ensures forall i :: 0 <= i < |r| && r[i].GeneAllele? ==> GeneName(r[i].gene)
    ensures r == [] <==> forall i :: 0 <= i < |s| ==> !In(s[i], AlleleChar)
  {
    TokensFrom(s, 0)
  }

  /** A bare allele name is one bare token. */
  lemma BareNameToken(a: string)
    requires AlleleName(a)
    ensures Tokens(a) == [BareAllele(a)]
  {
    SpanAtUnique(a, 0, GeneChar, |a|);
    SpanAtUnique(a, |a|, Space, 0);
    SpanAtUnique(a, 0, AlleleChar, |a|);
    assert a[0..|a|] == a;
  }

  /** `gene (allele)` is one token naming both. */
  lemma GeneFormToken(g: string, w: string, a: string)
    requires GeneName(g) && All(w, Space) && AlleleName(a)
    ensures Tokens(g + w + "(" + a + ")") == [GeneAllele(g, a)]
  {
    var s := g + w + "(" + a + ")";
    GeneFormSpans(g, w, a);
    var p := |g| + |w|;
    GeneFormAtRuns(s, 0, |g|, p, |a|);
    assert s[0..|g|] == g;
    assert s[p + 1..p + 1 + |a|] == a;
    var t := GeneAllele(g, a);
    assert TokenAt(s, 0) == Some((t, |s|));
    assert TokensFrom(s, |s|) == [];
    assert TokensFrom(s, 0) == [t] + TokensFrom(s, |s|);
  }

  /** Where the three runs stand, `GeneFormAt` finds the token they make. */
  lemma GeneFormAtRuns(s: string, k: nat, g: nat, p: nat, a: nat)
    requires k + g <= p && p + 1 + a < |s| && g > 0 && a > 0
    requires g == SpanAt(s, k, GeneChar) && p == k + g + SpanAt(s, k + g, Space) && s[p] == '('
    requires a == SpanAt(s, p + 1, AlleleChar) && s[p + 1 + a] == ')'
    ensures GeneFormAt(s, k) == Some((GeneAllele(s[k..k + g], s[p + 1..p + 1 + a]), p + 2 + a))
  {
    assert !(g == 0 || p >= |s| || s[p] != '(');
    assert !(a == 0 || p + 1 + a >= |s| || s[p + 1 + a] != ')');
  }

  /** The three runs of `gene (allele)` are where they are written. */
  lemma GeneFormSpans(g: string, w: string, a: string)
    requires GeneName(g) && All(w, Space) && AlleleName(a)
    ensures var s := g + w + "(" + a + ")";
            var p := |g| + |w|;
            && |s| == p + |a| + 2 && s[p] == '(' && s[p + 1 + |a|] == ')'
            && SpanAt(s, 0, GeneChar) == |g| && SpanAt(s, |g|, Space) == |w|
            && SpanAt(s, p + 1, AlleleChar) == |a|
  {
    var s := g + w + "(" + a + ")";
    var p := |g| + |w|;
    assert s[p] == '(' && s[p + 1 + |a|] == ')';
    forall i | 0 <= i < |g| ensures In(s[i], GeneChar) {
      assert s[i] == g[i];
    }
    forall i | |g| <= i < p ensures In(s[i], Space) {
      assert s[i] == w[i - |g|];
    }
    forall i | p + 1 <= i < p + 1 + |a| ensures In(s[i], AlleleChar) {
      assert s[i] == a[i - p - 1];
    }
    if |w| > 0 {
      assert s[|g|] == w[0];
    }
    SpanAtUnique(s, 0, GeneChar, |g|);
    SpanAtUnique(s, |g|, Space, |w|);
    SpanAtUnique(s, p + 1, AlleleChar, |a|);
  }

  // ---------------------------------------------------------------------
  // Items

  /** The sets of a clause once a wild-type `+` is dropped from a pair. */
  function AlleleSets(nonchr: string): seq<string> {
    var parts := SetParts(nonchr);
    if |parts| == 2 then RemoveFirst(parts, "+") else parts
  }

  function ToAllele(t: Token, heterozygous: bool): Allele {
    match t
    case GeneAllele(g, a) => Allele(a, Some(g), heterozygous)
    case BareAllele(a) => Allele(a, None, heterozygous)
  }

  /** The records of one set, in token order. */
  function AllelesOf(s: string, heterozygous: bool): (r: seq<Allele>)
    ensures |r| == |Tokens(s)|
    ensures forall k :: 0 <= k < |r| ==>
              r[k].name == Tokens(s)[k].allele && AlleleName(r[k].name)
              && (r[k].gene.Some? <==> Tokens(s)[k].GeneAllele?)
              && r[k].heterozygous == heterozygous
  {
    var toks := Tokens(s);
    seq(|toks|, k requires 0 <= k < |toks| => ToAllele(toks[k], heterozygous))
  }

  /** The item built for one matched clause: its chromosome, and one list
   *  of records per allele set. */
  function ItemOf(m: ClauseMatch): (item: Item)
    ensures item.chromosome == m.chromosome
    ensures |item.allelesets| == |AlleleSets(m.nonchr)|
  {
    var sets := AlleleSets(m.nonchr);
    var het := |SetParts(m.nonchr)| == 2;
    Item(m.chromosome, seq(|sets|, i requires 0 <= i < |sets| => AllelesOf(sets[i], het)))
  }

  /** Every record of a clause is heterozygous iff the `/` split gave exactly
   *  two parts, and names a valid allele; a `+` part of a pair is dropped,
   *  otherwise each part is a set. */
  lemma ItemShape(m: ClauseMatch)
    ensures var parts := SetParts(m.nonchr);
            |ItemOf(m).allelesets| == (if |parts| == 2 && "+" in parts then 1 else |parts|)
    ensures var sets := ItemOf(m).allelesets;
            forall i, k :: 0 <= i < |sets| && 0 <= k < |sets[i]| ==>
              sets[i][k].heterozygous == (|SetParts(m.nonchr)| == 2) && AlleleName(sets[i][k].name)
  {
    var sets: seq<seq<Allele>> := ItemOf(m).allelesets;
    var het := |SetParts(m.nonchr)| == 2;
    forall i | 0 <= i < |sets|
      ensures forall k :: 0 <= k < |sets[i]| ==> sets[i][k].heterozygous == het && AlleleName(sets[i][k].name)
    {
      assert sets[i] == AllelesOf(AlleleSets(m.nonchr)[i], het);
    }
  }

  /** In a pair with a `+` part, the one set left is the other part, and its
   *  records stay heterozygous. */
  lemma WildTypeDropped(m: ClauseMatch)
    requires |SetParts(m.nonchr)| == 2 && "+" in SetParts(m.nonchr)
    ensures var parts := SetParts(m.nonchr);
            var other := if parts[0] == "+" then parts[1] else parts[0];
            ItemOf(m).allelesets == [AllelesOf(other, true)]
  {
    var parts := SetParts(m.nonchr);
    PairWithoutPlus(parts);
    var sets := ItemOf(m).allelesets;
    assert |sets| == 1;
  }

  /** Removing `+` from a pair that holds one leaves the other part. */
  lemma PairWithoutPlus(parts: seq<string>)
    requires |parts| == 2 && "+" in parts
    ensures RemoveFirst(parts, "+") == [if parts[0] == "+" then parts[1] else parts[0]]
  {
    if parts[0] == "+" {
      assert IndexOf(parts, "+") == 0;
    } else {
      assert IndexOf(parts, "+") == 1;
    }
  }

  /** The clauses in order, each matched, or `None` when one clause does
   *  not match. */
  function MatchClauses(cs: seq<string>): Option<seq<ClauseMatch>> {
    MapAll(MatchClause, cs)
  }

  /** The items of the matched clauses, in order. */
  function ItemsOf(ms: seq<ClauseMatch>): (items: seq<Item>)
    ensures |items| == |ms|
  {
    seq(|ms|, i requires 0 <= i < |ms| => ItemOf(ms[i]))
  }

  /** The clauses in order turned into items, or `None` when one clause
   *  does not match. */
  function ParseClauses(cs: seq<string>): Option<seq<Item>> {
    match MatchClauses(cs)
    case None => None
    case Some(ms) => Some(ItemsOf(ms))
  }

  /** `parse_genotype` as a value. */
  function Parse(s: string): Option<seq<Item>> {
    ParseClauses(Clauses(s))
  }

  /** The parse succeeds iff every clause is non-empty and made of clause
   *  characters only (an empty clause, or one character outside
   *  `[-+.)(a-zA-Z0-9\s/]`, fails the whole genotype); it then holds one
   *  item per clause, in clause order. */
  lemma ParseResult(s: string)
    ensures var cs := Clauses(s);
            Parse(s).Some? <==> forall k :: 0 <= k < |cs| ==> cs[k] != [] && All(cs[k], ClauseChar)
    ensures var cs := Clauses(s);
            Parse(s).Some? ==> |Parse(s).value| == |cs| && forall k :: 0 <= k < |cs| ==>
              MatchClause(cs[k]).Some? && Parse(s).value[k] == ItemOf(MatchClause(cs[k]).value)
  {
    MapAllInOrder(MatchClause, Clauses(s));
  }

  /** `parse_genotype`: one item per clause, built and appended in order;
   *  `None` as soon as a clause does not match, never a partial list. */
  method ParseGenotype(s: string) returns (r: Option<seq<Item>>)
    ensures r == Parse(s)
  {
    var clauses := Clauses(s);
    r := ParseItems(clauses);
  }

  /** The loop of `parse_genotype` over the clauses. */
  method ParseItems(clauses: seq<string>) returns (r: Option<seq<Item>>)
    ensures r == ParseClauses(clauses)
  {
    var genotype: seq<Item> := [];
    ghost var matches: seq<ClauseMatch> := [];
    var i := 0;
    while i < |clauses|
      invariant 0 <= i <= |clauses|
      invariant MatchClauses(clauses[..i]) == Some(matches) && genotype == ItemsOf(matches)
    {
      var m := MatchClause(clauses[i]);
      if m.None? {
        MapAllInOrder(MatchClause, clauses);
        return None;
      }
      var item := BuildItem(m.value);
      MatchClausesSnoc(clauses, i, matches);
      assert ItemsOf(matches + [m.value]) == genotype + [item];
      genotype := genotype + [item];
      matches := matches + [m.value];
      i := i + 1;
    }
    assert clauses[..i] == clauses;
    r := Some(genotype);
  }

  /** One more matched clause extends the matches. */
  lemma MatchClausesSnoc(cs: seq<string>, i: nat, ms: seq<ClauseMatch>)
    requires i < |cs| && MatchClauses(cs[..i]) == Some(ms) && MatchClause(cs[i]).Some?
    ensures MatchClauses(cs[..i + 1]) == Some(ms + [MatchClause(cs[i]).value])
  {
    assert cs[..i + 1][..i] == cs[..i];
  }

  /** One item: the chromosome, then the sets in order. */
  method BuildItem(m: ClauseMatch) returns (item: Item)
    ensures item == ItemOf(m)
  {
    var parts := SetParts(m.nonchr);
    var heterozygous := false;
    if |parts| == 2 {
      heterozygous := true;
      if "+" in parts {
        parts := RemoveFirst(parts, "+");
      }
    }
    var sets := BuildSets(parts, heterozygous);
    item := Item(m.chromosome, sets);
  }

  /** The sets of one item, filled one after the other. */
  method BuildSets(parts: seq<string>, heterozygous: bool) returns (sets: seq<seq<Allele>>)
    ensures sets == seq(|parts|, i requires 0 <= i < |parts| => AllelesOf(parts[i], heterozygous))
  {
    sets := [];
    for i := 0 to |parts|
      invariant |sets| == i
      invariant forall j :: 0 <= j < i ==> sets[j] == AllelesOf(parts[j], heterozygous)
    {
      var alleles := BuildSet(parts[i], heterozygous);
      sets := sets + [alleles];
    }
  }

  /** One set: a record appended for each token, in order. */
  method BuildSet(s: string, heterozygous: bool) returns (alleles: seq<Allele>)
    ensures alleles == AllelesOf(s, heterozygous)
  {
    var tokens := Tokens(s);
    alleles := [];
    for t := 0 to |tokens|
      invariant |alleles| == t
      invariant forall k :: 0 <= k < t ==> alleles[k] == ToAllele(tokens[k], heterozygous)
    {
      alleles := alleles + [ToAllele(tokens[t], heterozygous)];
    }
  }
}
