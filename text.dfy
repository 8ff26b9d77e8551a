/**
 * Character classes and the string primitives the scripts borrow from Python:
 * `str.strip()`, the `re.split` calls whose separator pattern has the shape
 * `\s*[SEPS]\s*`, and the newline replacement applied to comments.
 * Character classes written `[a-z]`, `[0-9]`, ... in the patterns are ASCII
 * ranges; `\s` and `str.strip()` use Python's Unicode whitespace.
 */
module Text {

  /** Python's whitespace: `str.isspace()`, what `str.strip()` removes and
   *  what `\s` matches in a str pattern. */
  predicate IsSpace(c: char) {
    var n := c as int;
    n == 0x20 || 0x09 <= n <= 0x0D || 0x1C <= n <= 0x1F || n == 0x85 || n == 0xA0
    || n == 0x1680 || 0x2000 <= n <= 0x200A || n == 0x2028 || n == 0x2029
    || n == 0x202F || n == 0x205F || n == 0x3000
  }

  predicate IsDigit(c: char) { '0' <= c <= '9' }
  predicate IsLower(c: char) { 'a' <= c <= 'z' }
  predicate IsUpper(c: char) { 'A' <= c <= 'Z' }
  predicate IsLetter(c: char) { IsLower(c) || IsUpper(c) }

  /** The character classes the patterns of the scripts are built from. */
  datatype CharClass =
    | Space        // \s
    | Digit        // [0-9]
    | Lower        // [a-z]
    | Letter       // [a-zA-Z]
    | AlleleChar   // [-a-zA-Z0-9]
    | GeneChar     // [-.a-zA-Z0-9]
    | ClauseChar   // [-+.)(a-zA-Z0-9\s/]
    | GenotypeChar // [-+.\]\[)(a-zA-Z0-9\s/;]

  /** `[-+.)(a-zA-Z0-9\s/]` */
  predicate IsClauseChar(c: char) {
    c == '-' || c == '+' || c == '.' || c == '(' || c == ')' || c == '/'
    || IsLetter(c) || IsDigit(c) || IsSpace(c)
  }

  predicate In(c: char, cls: CharClass) {
    match cls
    case Space => IsSpace(c)
    case Digit => IsDigit(c)
    case Lower => IsLower(c)
    case Letter => IsLetter(c)
    case AlleleChar => c == '-' || IsLetter(c) || IsDigit(c)
    case GeneChar => c == '-' || c == '.' || IsLetter(c) || IsDigit(c)
    case ClauseChar => IsClauseChar(c)
    case GenotypeChar => IsClauseChar(c) || c == '[' || c == ']' || c == ';'
  }

  /** Every character of `s` is in `cls`. */
  predicate All(s: string, cls: CharClass) {
    forall i :: 0 <= i < |s| ==> In(s[i], cls)
  }

  /** Every character of `s` from index `lo` up to `hi` is in `cls`. */
  predicate AllIn(s: string, lo: int, hi: int, cls: CharClass) {
    forall i :: lo <= i < hi && 0 <= i < |s| ==> In(s[i], cls)
  }

  /** No character of `s` is in `seps`. */
  predicate NoneIn(s: string, seps: set<char>) {
    forall i :: 0 <= i < |s| ==> s[i] !in seps
  }

  /** Length of the run of characters of class `p` that starts at index `k`
   *  of `s` (what a greedy `[...]*` consumes from there). */
  function SpanAt(s: string, k: nat, p: CharClass): (n: nat)
    requires k <= |s|
    ensures k + n <= |s|
    decreases |s| - k
  {
    if k == |s| || !In(s[k], p) then 0 else 1 + SpanAt(s, k + 1, p)
  }

  /** The run is of class `p` throughout and stops at a character outside
   *  it, or at the end. */
  lemma {:induction false} SpanAtFacts(s: string, k: nat, p: CharClass)
    requires k <= |s|
    ensures AllIn(s, k, k + SpanAt(s, k, p), p)
    ensures k + SpanAt(s, k, p) < |s| ==> !In(s[k + SpanAt(s, k, p)], p)
    decreases |s| - k
  {
    if k < |s| && In(s[k], p) {
      SpanAtFacts(s, k + 1, p);
    }
  }

  /** The run is the only length with those two properties. */
  lemma {:induction false} SpanAtUnique(s: string, k: nat, p: CharClass, n: nat)
    requires k + n <= |s| && AllIn(s, k, k + n, p) && (k + n < |s| ==> !In(s[k + n], p))
    ensures SpanAt(s, k, p) == n
    decreases n
  {
    if n > 0 {
      assert In(s[k], p);
      SpanAtUnique(s, k + 1, p, n - 1);
    }
  }

  /** Length of the run of characters of class `p` that ends just before
   *  index `k` of `s`. */
  function SpanBack(s: string, k: nat, p: CharClass): (n: nat)
    requires k <= |s|
    ensures n <= k
    decreases k
  {
    if k == 0 || !In(s[k - 1], p) then 0 else 1 + SpanBack(s, k - 1, p)
  }

  lemma {:induction false} SpanBackFacts(s: string, k: nat, p: CharClass)
    requires k <= |s|
    ensures AllIn(s, k - SpanBack(s, k, p), k, p)
    ensures SpanBack(s, k, p) < k ==> !In(s[k - SpanBack(s, k, p) - 1], p)
    decreases k
  {
    if k > 0 && In(s[k - 1], p) {
      SpanBackFacts(s, k - 1, p);
    }
  }

  lemma {:induction false} SpanBackUnique(s: string, k: nat, p: CharClass, n: nat)
    requires n <= k <= |s| && AllIn(s, k - n, k, p) && (n < k ==> !In(s[k - n - 1], p))
    ensures SpanBack(s, k, p) == n
    decreases n
  {
    if n > 0 {
      assert In(s[k - 1], p);
      SpanBackUnique(s, k - 1, p, n - 1);
    }
  }

  /** `s` without a final newline, the part a `$`-anchored pattern looks at. */
  function Body(s: string): string {
    if |s| > 0 && s[|s| - 1] == '\n' then s[..|s| - 1] else s
  }

  /** The final newline of `s`, if it has one. */
  function FinalNewline(s: string): string {
    if |s| > 0 && s[|s| - 1] == '\n' then "\n" else ""
  }

  /** `s` without its leading whitespace. */
  function TrimLeft(s: string): (r: string)
    ensures |r| <= |s|
  {
    s[SpanAt(s, 0, Space)..]
  }

  /** `TrimLeft` drops whitespace only, up to the first other character. */
  lemma TrimLeftShape(s: string)
    ensures var r := TrimLeft(s);
            && r == s[|s| - |r|..]
            && AllIn(s, 0, |s| - |r|, Space)
            && (r != [] ==> !IsSpace(r[0]))
  {
    SpanAtFacts(s, 0, Space);
  }

  /** `s` without its trailing whitespace. */
  function TrimRight(s: string): (r: string)
    ensures |r| <= |s|
  {
    SpanBackFacts(s, |s|, Space);
    s[..|s| - SpanBack(s, |s|, Space)]
  }

  /** `TrimRight` drops whitespace only, back to the last other character. */
  lemma TrimRightShape(s: string)
    ensures var r := TrimRight(s);
            && r == s[..|r|]
            && AllIn(s, |r|, |s|, Space)
            && (r != [] ==> !IsSpace(r[|r| - 1]))
  {
    SpanBackFacts(s, |s|, Space);
  }

  /** Python's `str.strip()`: the infix of `s` left once the whitespace at
   *  both ends is removed. */
  function Strip(s: string): string {
    TrimRight(TrimLeft(s))
  }

  /** `strip()` keeps the infix of `s` that starts after the leading
   *  whitespace, drops only whitespace after it, and leaves text that
   *  neither starts nor ends with whitespace. */
  lemma StripShape(s: string)
    ensures var r := Strip(s);
            && SpanAt(s, 0, Space) + |r| <= |s|
            && r == s[SpanAt(s, 0, Space)..SpanAt(s, 0, Space) + |r|]
            && AllIn(s, SpanAt(s, 0, Space) + |r|, |s|, Space)
            && (r != [] ==> !IsSpace(r[0]) && !IsSpace(r[|r| - 1]))
  {
    TrimLeftShape(s);
    TrimRightShape(TrimLeft(s));
  }

  /** Stripping twice is stripping once. */
  lemma StripIdempotent(s: string)
    ensures Strip(Strip(s)) == Strip(s)
  {
    var r := Strip(s);
    StripShape(s);
    StripShape(r);
    if r != [] {
      assert SpanAt(r, 0, Space) == 0;
      assert SpanBack(r, |r|, Space) == 0;
    }
  }

  /** Number of characters of `s` that are in `seps`. */
  function Occurrences(s: string, seps: set<char>): nat
    decreases |s|
  {
    if s == [] then 0 else (if s[0] in seps then 1 else 0) + Occurrences(s[1..], seps)
  }

  /** The pieces of `s` between the characters of `seps`, left to right:
   *  one more piece than there are separators, none holding a separator. */
  function SplitRaw(s: string, seps: set<char>): (r: seq<string>)
    ensures |r| == 1 + Occurrences(s, seps)
    ensures forall k :: 0 <= k < |r| ==> NoneIn(r[k], seps)
    decreases |s|
  {
    if s == [] then [""]
    else
      var rest := SplitRaw(s[1..], seps);
      if s[0] in seps then [""] + rest
      else
        assert NoneIn([s[0]] + rest[0], seps) by {
          assert forall i :: 0 < i < |[s[0]] + rest[0]| ==> ([s[0]] + rest[0])[i] == rest[0][i - 1];
        }
        [[s[0]] + rest[0]] + rest[1..]
  }

  /** The pieces joined back with `c` between them. */
  function JoinWith(pieces: seq<string>, c: char): string
    requires |pieces| >= 1
    decreases |pieces|
  {
    if |pieces| == 1 then pieces[0] else pieces[0] + [c] + JoinWith(pieces[1..], c)
  }

  /** Splitting on one separator and joining with it gives the text back. */
  lemma {:induction false} SplitThenJoin(s: string, c: char)
    ensures JoinWith(SplitRaw(s, {c}), c) == s
    decreases |s|
  {
    if s != [] {
      var rest := SplitRaw(s[1..], {c});
      SplitThenJoin(s[1..], c);
      if s[0] == c {
        assert SplitRaw(s, {c}) == [""] + rest;
        assert ([""] + rest)[1..] == rest;
      } else {
        var r := [[s[0]] + rest[0]] + rest[1..];
        assert SplitRaw(s, {c}) == r;
        if |rest| > 1 {
          assert r[1..] == rest[1..];
          assert JoinWith(rest, c) == rest[0] + [c] + JoinWith(rest[1..], c);
        }
      }
    }
  }

  /** A separator-free prefix joins the first piece of what follows it. */
  lemma {:induction false} SplitOfPrefix(p: string, tail: string, seps: set<char>)
    requires NoneIn(p, seps)
    ensures var t := SplitRaw(tail, seps);
            SplitRaw(p + tail, seps) == [p + t[0]] + t[1..]
    decreases |p|
  {
    if p != [] {
      SplitOfPrefix(p[1..], tail, seps);
      assert (p + tail)[1..] == p[1..] + tail;
      assert p[0] !in seps;
      assert [p[0]] + (p[1..] + SplitRaw(tail, seps)[0]) == p + SplitRaw(tail, seps)[0];
    } else {
      var t := SplitRaw(tail, seps);
      assert p + tail == tail && p + t[0] == t[0];
      assert t == [t[0]] + t[1..];
    }
  }

  /** Joining separator-free pieces with one of the separators and splitting
   *  on the separators gives the pieces back. */
  lemma {:induction false} JoinThenSplit(pieces: seq<string>, c: char, seps: set<char>)
    requires |pieces| >= 1 && c in seps
    requires forall k :: 0 <= k < |pieces| ==> NoneIn(pieces[k], seps)
    ensures SplitRaw(JoinWith(pieces, c), seps) == pieces
    decreases |pieces|
  {
    if |pieces| == 1 {
      SplitOfPrefix(pieces[0], [], seps);
      assert pieces[0] + [] == pieces[0];
    } else {
      var rest := JoinWith(pieces[1..], c);
      JoinThenSplit(pieces[1..], c, seps);
      SplitOfPrefix(pieces[0], [c] + rest, seps);
      assert pieces[0] + [c] + rest == pieces[0] + ([c] + rest);
      assert ([c] + rest)[1..] == rest;
      assert pieces[0] + "" == pieces[0];
    }
  }

  /** `s` neither starts nor ends with whitespace. */
  predicate Trimmed(s: string) {
    s == [] || (!IsSpace(s[0]) && !IsSpace(s[|s| - 1]))
  }

  /** Joining trimmed, separator-free pieces with one of the separators and
   *  splitting with `SplitTrimmed` gives the pieces back. */
  lemma JoinThenSplitTrimmed(pieces: seq<string>, c: char, seps: set<char>)
    requires |pieces| >= 1 && c in seps
    requires forall k :: 0 <= k < |pieces| ==> NoneIn(pieces[k], seps) && Trimmed(pieces[k])
    ensures SplitTrimmed(JoinWith(pieces, c), seps) == pieces
  {
    JoinThenSplit(pieces, c, seps);
    var r := SplitTrimmed(JoinWith(pieces, c), seps);
    forall k | 0 <= k < |r|
      ensures r[k] == pieces[k]
    {
      TrimmedPieceKept(pieces[k], k > 0, k < |r| - 1);
    }
  }

  /** Trimming whitespace off a trimmed piece leaves it as it is. */
  lemma TrimmedPieceKept(p: string, after: bool, before: bool)
    requires Trimmed(p)
    ensures TrimPiece(p, after, before) == p
  {
    if p != [] {
      assert SpanAt(p, 0, Space) == 0;
      assert SpanBack(p, |p|, Space) == 0;
    }
  }

  /** `re.split(r'\s*[SEPS]\s*', s)`: the pieces between separators, where
   *  the whitespace that touches a separator belongs to the separator. The
   *  leading whitespace of the first piece and the trailing whitespace of the
   *  last piece are kept. */
  function SplitTrimmed(s: string, seps: set<char>): (r: seq<string>)
    ensures |r| == |SplitRaw(s, seps)| == 1 + Occurrences(s, seps)
  {
    var raw := SplitRaw(s, seps);
    seq(|raw|, k requires 0 <= k < |raw| => TrimPiece(raw[k], k > 0, k < |raw| - 1))
  }

  /** A raw piece without the whitespace next to the separator before it
   *  (when it has one) and after it (when it has one). */
  function TrimPiece(piece: string, after: bool, before: bool): (r: string)
    ensures |r| <= |piece|
  {
    var left := if after then TrimLeft(piece) else piece;
    if before then TrimRight(left) else left
  }

  /** Piece `k` is raw piece `k` less only whitespace, none removed from the
   *  start of the first piece or the end of the last; no piece holds a
   *  separator; a piece after a separator does not start with whitespace,
   *  and a piece before one does not end with it. */
  lemma SplitTrimmedPieces(s: string, seps: set<char>)
    ensures var raw := SplitRaw(s, seps);
            var r := SplitTrimmed(s, seps);
            && (forall k :: 0 <= k < |r| ==> InfixOf(raw[k], r[k], k > 0, k < |r| - 1))
            && (forall k :: 0 <= k < |r| ==> NoneIn(r[k], seps))
            && (forall k :: 0 < k < |r| && r[k] != [] ==> !IsSpace(r[k][0]))
            && (forall k :: 0 <= k < |r| - 1 && r[k] != [] ==> !IsSpace(r[k][|r[k]| - 1]))
  {
    var raw := SplitRaw(s, seps);
    var r := SplitTrimmed(s, seps);
    forall k | 0 <= k < |r|
      ensures InfixOf(raw[k], r[k], k > 0, k < |r| - 1)
      ensures NoneIn(r[k], seps)
      ensures k > 0 && r[k] != [] ==> !IsSpace(r[k][0])
      ensures k < |r| - 1 && r[k] != [] ==> !IsSpace(r[k][|r[k]| - 1])
    {
      assert r[k] == TrimPiece(raw[k], k > 0, k < |r| - 1);
      TrimPieceFacts(raw[k], k > 0, k < |r| - 1, seps);
      TrimPieceInfix(raw[k], k > 0, k < |r| - 1);
    }
  }

  lemma TrimPieceFacts(p: string, after: bool, before: bool, seps: set<char>)
    requires NoneIn(p, seps)
    ensures var r := TrimPiece(p, after, before);
            && NoneIn(r, seps)
            && (after && r != [] ==> !IsSpace(r[0]))
            && (before && r != [] ==> !IsSpace(r[|r| - 1]))
  {
    var left := if after then TrimLeft(p) else p;
    var r := TrimPiece(p, after, before);
    TrimLeftShape(p);
    TrimRightShape(left);
    assert NoneIn(left, seps) by {
      assert forall i :: 0 <= i < |left| ==> left[i] == p[|p| - |left| + i];
    }
    assert r == left[..|r|];
    if after && before && r != [] {
      assert r[0] == left[0];
    }
  }

  /** `r` stands at index `a` of `p`, and `p` holds only whitespace outside
   *  it: before it only when `after`, behind it only when `before`. */
  predicate InfixAt(p: string, r: string, a: int, after: bool, before: bool) {
    && 0 <= a && a + |r| <= |p| && r == p[a..a + |r|]
    && AllIn(p, 0, a, Space) && AllIn(p, a + |r|, |p|, Space)
    && (!after ==> a == 0) && (!before ==> a + |r| == |p|)
  }

  ghost predicate InfixOf(p: string, r: string, after: bool, before: bool) {
    exists a :: InfixAt(p, r, a, after, before)
  }

  /** A piece trimmed at either end is its raw piece less whitespace only. */
  lemma TrimPieceInfix(p: string, after: bool, before: bool)
    ensures InfixOf(p, TrimPiece(p, after, before), after, before)
  {
    var left := if after then TrimLeft(p) else p;
    var r := TrimPiece(p, after, before);
    var a := |p| - |left|;
    TrimLeftShape(p);
    TrimRightShape(left);
    assert left == p[a..];
    assert r == left[..|r|];
    SpacesInSuffix(p, a, |r|);
    assert r == p[a..a + |r|];
    assert InfixAt(p, r, a, after, before);
  }

  /** Whitespace behind index `n` of the suffix `p[a..]` stands behind index
   *  `a + n` of `p`. */
  lemma SpacesInSuffix(p: string, a: nat, n: nat)
    requires a + n <= |p| && AllIn(p[a..], n, |p| - a, Space)
    ensures AllIn(p, a + n, |p|, Space)
  {
    forall i | a + n <= i < |p| ensures In(p[i], Space) {
      assert p[i] == p[a..][i - a];
    }
  }

  /** `a , b` splits at the comma into `a ` and ` b`. */
  lemma SplitRawExample()
    ensures SplitRaw("a , b", {','}) == ["a ", " b"]
  {
    var seps := {','};
    assert SplitRaw("", seps) == [""];
    SplitRawStep('b', "", seps);
    assert ['b'] + "" == "b";
    SplitRawStep(' ', "b", seps);
    assert [' '] + "b" == " b";
    assert SplitRaw(" b", seps) == [" b"];
    assert SplitRaw(", b", seps) == ["", " b"] by {
      assert ", b"[1..] == " b";
    }
    assert [' '] + ", b" == " , b" && ['a'] + " , b" == "a , b";
    SplitRawStep(' ', ", b", seps);
    assert [' '] + "" == " ";
    assert SplitRaw(" , b", seps) == [" ", " b"];
    SplitRawStep('a', " , b", seps);
    assert ['a'] + " " == "a ";
  }

  /** A character that is not a separator joins the first piece of the
   *  text after it. */
  lemma SplitRawStep(c: char, t: string, seps: set<char>)
    requires c !in seps
    ensures SplitRaw([c] + t, seps) == [[c] + SplitRaw(t, seps)[0]] + SplitRaw(t, seps)[1..]
  {
    assert ([c] + t)[1..] == t;
  }

  /** The trimmed split of `a , b` at commas. */
  lemma SplitTrimmedExample()
    ensures SplitTrimmed("a , b", {','}) == ["a", "b"]
  {
    SplitRawExample();
    assert TrimRight("a ") == "a" by {
      assert SpanBack("a ", 2, Space) == 1;
    }
    assert TrimLeft(" b") == "b" by {
      assert SpanAt(" b", 0, Space) == 1;
    }
  }

  /** `re.sub(r'\n', ' ', s)`: every newline becomes a space, nothing else
   *  changes. */
  function NewlinesToSpaces(s: string): (r: string)
    ensures |r| == |s| && '\n' !in r
    ensures forall i :: 0 <= i < |s| ==> r[i] == (if s[i] == '\n' then ' ' else s[i])
  {
    seq(|s|, i requires 0 <= i < |s| => if s[i] == '\n' then ' ' else s[i])
  }
}
