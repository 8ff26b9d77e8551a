/**
 * The filtering pass: each raw row of the strain, allele and plasmid tables
 * is either written, cleaned, to the filtered table, or written to one or
 * more error files, each of which counts its failures.
 */
module Filter {
  import opened Options
  import opened Text
  import opened Genotype
  import AlleleNames
  import AlleleExamples

  const NULL := "NULL"

  /** A row of an error file: the raw table's line number, then the row's
   *  stripped cells. */
  datatype ErrorRow = ErrorRow(lineNumber: int, cells: seq<string>)

  /** One error file with its count of failures. */
  class ErrorFile {
    var count: nat
    var rows: seq<ErrorRow>

    /** The count is the number of rows written to the file. */
    ghost predicate Valid()
      reads this
    {
      count == |rows|
    }

    constructor ()
      ensures Valid() && rows == []
    {
      count := 0;
      rows := [];
    }

    /** Adds one to the count and writes `row` to the file. */
    method WriteFailure(row: ErrorRow)
      requires Valid()
      modifies this
      ensures Valid()
      ensures count == old(count) + 1 && rows == old(rows) + [row]
    {
      count := count + 1;
      rows := rows + [row];
    }
  }

  /** Every cell stripped of surrounding whitespace. */
  function Stripped(raw: seq<string>): (r: seq<string>)
    ensures |r| == |raw| && forall i :: 0 <= i < |raw| ==> r[i] == Strip(raw[i])
  {
    if raw == [] then [] else Stripped(raw[..|raw| - 1]) + [Strip(raw[|raw| - 1])]
  }

  /** Every row stripped; the passes below work on stripped rows. */
  function StrippedRows(rows: seq<seq<string>>): (r: seq<seq<string>>)
    ensures |r| == |rows| && forall j :: 0 <= j < |rows| ==> |r[j]| == |rows[j]|
    ensures forall j, i :: 0 <= j < |rows| && 0 <= i < |rows[j]| ==> r[j][i] == Strip(rows[j][i])
  {
    seq(|rows|, j requires 0 <= j < |rows| => Stripped(rows[j]))
  }

  /** An empty optional cell is written as `NULL`. */
  function NullIfEmpty(x: string): string {
    if x == "" then NULL else x
  }

  /** An empty comment is written as `NULL`, any other with its newlines
   *  turned into spaces. */
  function CommentCell(x: string): string {
    if x == "" then NULL else NewlinesToSpaces(x)
  }

  /** `xs` holds no value twice. */
  predicate Distinct(xs: seq<string>) {
    forall i, j :: 0 <= i < j < |xs| ==> xs[i] != xs[j]
  }

  // ---------------------------------------------------------------------
  // The name check all three tables make
  // ---------------------------------------------------------------------

  /** An invalid name fails whether seen before or not; a valid name seen
   *  before is a duplicate; a valid new name joins the seen names. */
  datatype NameCheck = Invalid | Duplicate | New

  function CheckName(seen: seq<string>, name: string, valid: bool): (r: NameCheck)
    ensures r.New? <==> valid && name !in seen
    ensures r.Duplicate? <==> valid && name in seen
  {
    if !valid then Invalid else if name in seen then Duplicate else New
  }

  /** The seen names after the check. */
  function Admit(seen: seq<string>, name: string, check: NameCheck): (r: seq<string>)
    ensures |r| == |seen| + (if check.New? then 1 else 0)
  {
    if check.New? then seen + [name] else seen
  }

  /** The invalid-name and duplicate-name error files of a table. */
  datatype NameErrors = NameErrors(invalid: seq<ErrorRow>, duplicate: seq<ErrorRow>)

  /** The name error files after the check: a failed check writes the row
   *  to exactly one of them. */
  function LogName(e: NameErrors, check: NameCheck, err: ErrorRow): (r: NameErrors)
    ensures |r.invalid| + |r.duplicate| == |e.invalid| + |e.duplicate| + (if check.New? then 0 else 1)
  {
    match check
    case Invalid => e.(invalid := e.invalid + [err])
    case Duplicate => e.(duplicate := e.duplicate + [err])
    case New => e
  }

  /** What the seen names and the accepted names keep: the seen names are
   *  valid and distinct, and the accepted names are distinct and among
   *  them. */
  predicate NamesKept(seen: seq<string>, accepted: seq<string>, valid: string -> bool) {
    && Distinct(seen) && Distinct(accepted)
    && (forall n :: n in seen ==> valid(n))
    && (forall n :: n in accepted ==> n in seen)
  }

  /** One name check keeps `NamesKept`, accepting the name or not. */
  lemma CheckNameKeeps(seen: seq<string>, accepted: seq<string>, valid: string -> bool,
                       name: string, accept: bool)
    requires NamesKept(seen, accepted, valid)
    requires accept ==> CheckName(seen, name, valid(name)).New?
    ensures NamesKept(Admit(seen, name, CheckName(seen, name, valid(name))),
                      if accept then accepted + [name] else accepted, valid)
  {
    var r := Admit(seen, name, CheckName(seen, name, valid(name)));
    assert forall i :: 0 <= i < |seen| ==> r[i] == seen[i];
    if accept {
      var a := accepted + [name];
      assert forall i :: 0 <= i < |accepted| ==> a[i] == accepted[i];
    }
  }

  // ---------------------------------------------------------------------
  // Strain table
  // ---------------------------------------------------------------------

  /** A row of the filtered strain table. */
  datatype FilteredStrain = FilteredStrain(
    lineNumber: int, name: string, genotype: Option<seq<Item>>,
    source: string, otherNames: string, comment: string)

  /** The strain pass so far: the names seen, the rows written and the
   *  error files. */
  datatype StrainState = StrainState(
    seen: seq<string>, out: seq<FilteredStrain>, names: NameErrors, invalidGenotype: seq<ErrorRow>)

  /** The strain table is read up to its sixteenth cell. */
  const StrainCells := 16

  /** `re.match(r'CHB[0-9]+', name)`: the name starts with `CHB` and a
   *  digit; anything may follow. */
  predicate StrainNameOk(name: string) {
    |name| >= 4 && name[0] == 'C' && name[1] == 'H' && name[2] == 'B' && IsDigit(name[3])
  }

  /** `g.upper() == 'WT'`. */
  predicate IsWildType(g: string) {
    |g| == 2 && (g[0] == 'W' || g[0] == 'w') && (g[1] == 'T' || g[1] == 't')
  }

  /** `re.match(r'^[-+.\]\[)(a-zA-Z0-9\s/;]+$', g)`. The class holds `\s`,
   *  so a final newline is matched by the class as well as by `$`, and the
   *  whole text must be made of the class. */
  predicate GenotypeCharsOk(g: string) {
    g != "" && All(g, GenotypeChar)
  }

  /** The strain pass takes the genotype parser as a parameter; the
   *  methods that run it require it to be `Genotype.Parse`. Keeping the
   *  parser's definition out of the pass keeps the pass's proofs small. */
  type GenotypeParser = string -> Option<seq<Item>>

  ghost predicate IsGenotypeParser(parse: GenotypeParser) {
    forall g {:trigger Parse(g)} :: parse(g) == Parse(g)
  }

  /** An empty genotype is allowed; one with a character outside the
   *  allowed set is invalid; the rest go to the genotype parser. */
  datatype GenotypeCheck = NoGenotype | BadCharacters | Unparsable | ParsedGenotype(items: seq<Item>)

  function CheckGenotype(g: string, parse: GenotypeParser): (r: GenotypeCheck)
    ensures r.NoGenotype? <==> g == ""
    ensures r.BadCharacters? <==> g != "" && !GenotypeCharsOk(g)
    ensures r.Unparsable? <==> g != "" && GenotypeCharsOk(g) && parse(g).None?
    ensures r.ParsedGenotype? ==> parse(g) == Some(r.items)
  {
    if g == "" then NoGenotype
    else if !GenotypeCharsOk(g) then BadCharacters
    else match parse(g)
      case None => Unparsable
      case Some(items) => ParsedGenotype(items)
  }

  /** The row written for an accepted strain: empty optional cells become
   *  `NULL` and the comment's newlines become spaces. */
  function CleanStrainRow(line: int, c: seq<string>, genotype: Option<seq<Item>>): (o: FilteredStrain)
    requires |c| >= StrainCells
    ensures o.lineNumber == line && o.name == c[2] && o.genotype == genotype && CleanStrain(o)
    ensures o.source == NullIfEmpty(c[9]) && o.otherNames == NullIfEmpty(c[15]) && o.comment == CommentCell(c[11])
  {
    var comment := CommentCell(c[11]);
    assert '\n' !in comment by {
      if c[11] != "" {
        assert comment == NewlinesToSpaces(c[11]);
      }
    }
    FilteredStrain(line, c[2], genotype, NullIfEmpty(c[9]), NullIfEmpty(c[15]), comment)
  }

  /** An accepted strain row never has an empty optional cell, and its
   *  comment holds no newline. */
  predicate CleanStrain(o: FilteredStrain) {
    o.source != "" && o.otherNames != "" && o.comment != "" && '\n' !in o.comment
  }

  /** One strain row of stripped cells `c` whose genotype cell is taken to
   *  be `genotype`: the name check, then the genotype check, then the
   *  cleaned row when neither failed. A genotype the parser rejects fails
   *  the row without going to any error file. */
  function StrainRowStep(st: StrainState, line: int, c: seq<string>, genotype: string,
                         parse: GenotypeParser): StrainState
    requires |c| >= StrainCells
  {
    var err := ErrorRow(line, c);
    var check := CheckName(st.seen, c[2], StrainNameOk(c[2]));
    var g := CheckGenotype(genotype, parse);
    var failed := !check.New? || g.BadCharacters? || g.Unparsable?;
    var parsed := if g.ParsedGenotype? then Some(g.items) else None;
    StrainState(
      Admit(st.seen, c[2], check),
      if failed then st.out else st.out + [CleanStrainRow(line, c, parsed)],
      LogName(st.names, check, err),
      if g.BadCharacters? then st.invalidGenotype + [err] else st.invalidGenotype)
  }

  /** One stripped strain row at line `line`, a wild-type genotype `WT` being
   *  read as no genotype. */
  function StrainStep(st: StrainState, line: int, c: seq<string>, parse: GenotypeParser): StrainState
    requires |c| >= StrainCells
  {
    StrainRowStep(st, line, c, if IsWildType(c[8]) then "" else c[8], parse)
  }

  /** One stripped strain row as the wild-type test is written: the test
   *  compares the string method `upper` itself with `'WT'`, which never
   *  holds, so the genotype cell is used as it is. */
  function StrainStepAsWritten(st: StrainState, line: int, c: seq<string>, parse: GenotypeParser): StrainState
    requires |c| >= StrainCells
  {
    StrainRowStep(st, line, c, c[8], parse)
  }

  /** The first `n` stripped strain rows in order, each taken as the
   *  wild-type test is written; the row at index `j` is line `j + 2` of the
   *  raw table, after its header. */
  function FilterStrains(rows: seq<seq<string>>, n: nat, parse: GenotypeParser): StrainState
    requires n <= |rows|
    requires forall j :: 0 <= j < |rows| ==> |rows[j]| >= StrainCells
    decreases n, 1
  {
    if n == 0 then StrainState([], [], NameErrors([], []), []) else StrainRowAt(rows, n, parse)
  }

  /** The state after the row at index `n - 1`: that row's step from the
   *  state before it. */
  function StrainRowAt(rows: seq<seq<string>>, n: nat, parse: GenotypeParser): StrainState
    requires 0 < n <= |rows|
    requires forall j :: 0 <= j < |rows| ==> |rows[j]| >= StrainCells
    decreases n, 0
  {
    StrainStepAsWritten(FilterStrains(rows, n - 1, parse), n + 1, rows[n - 1], parse)
  }

  /** One more row of the strain pass, from the state before it. */
  lemma StrainLoopStep(rows: seq<seq<string>>, j: nat, parse: GenotypeParser, before: StrainState)
    requires j < |rows| && forall k :: 0 <= k < |rows| ==> |rows[k]| >= StrainCells
    requires FilterStrains(rows, j, parse) == before
    ensures FilterStrains(rows, j + 1, parse) == StrainStepAsWritten(before, j + 2, rows[j], parse)
  {
  }

  function StrainNames(out: seq<FilteredStrain>): seq<string> {
    seq(|out|, k requires 0 <= k < |out| => out[k].name)
  }

  lemma StrainNamesSnoc(out: seq<FilteredStrain>, o: FilteredStrain)
    ensures StrainNames(out + [o]) == StrainNames(out) + [o.name]
  {
  }

  /** What the strain pass keeps after every row. */
  predicate StrainsKept(st: StrainState) {
    && NamesKept(st.seen, StrainNames(st.out), StrainNameOk)
    && forall k :: 0 <= k < |st.out| ==> CleanStrain(st.out[k])
  }

  /** One stripped row keeps `StrainsKept`, whichever genotype cell it is
   *  read with. */
  lemma StrainStepKeeps(st: StrainState, line: int, c: seq<string>, genotype: string, parse: GenotypeParser)
    requires |c| >= StrainCells && StrainsKept(st)
    ensures StrainsKept(StrainRowStep(st, line, c, genotype, parse))
  {
    var after := StrainRowStep(st, line, c, genotype, parse);
    var accept := after.out != st.out;
    CheckNameKeeps(st.seen, StrainNames(st.out), StrainNameOk, c[2], accept);
    if accept {
      StrainNamesSnoc(st.out, after.out[|st.out|]);
    }
  }

  /** The accepted strains have valid, pairwise distinct names; their
   *  optional cells are never empty and their comments hold no newline. */
  lemma {:induction false} AcceptedStrains(rows: seq<seq<string>>, n: nat, parse: GenotypeParser)
    requires n <= |rows|
    requires forall j :: 0 <= j < |rows| ==> |rows[j]| >= StrainCells
    ensures StrainsKept(FilterStrains(rows, n, parse))
    decreases n
  {
    if n > 0 {
      var before := FilterStrains(rows, n - 1, parse);
      AcceptedStrains(rows, n - 1, parse);
      StrainStepKeeps(before, n + 1, rows[n - 1], rows[n - 1][8], parse);
      assert FilterStrains(rows, n, parse) == StrainRowStep(before, n + 1, rows[n - 1], rows[n - 1][8], parse);
    }
  }

  /** Every strain row either joins the seen names or goes to exactly
   *  one of the two name error files; no more rows are written than names
   *  seen. */
  lemma {:induction false} StrainNamesAccounted(rows: seq<seq<string>>, n: nat, parse: GenotypeParser)
    requires n <= |rows|
    requires forall j :: 0 <= j < |rows| ==> |rows[j]| >= StrainCells
    ensures var st := FilterStrains(rows, n, parse);
            |st.seen| + |st.names.invalid| + |st.names.duplicate| == n && |st.out| <= |st.seen|
    decreases n
  {
    if n > 0 {
      StrainNamesAccounted(rows, n - 1, parse);
    }
  }

  /** An invalid strain name goes to the invalid-name file, never to the
   *  duplicate file, and does not join the seen names. */
  lemma InvalidStrainNameFirst(st: StrainState, line: int, c: seq<string>, parse: GenotypeParser)
    requires |c| >= StrainCells
    requires !StrainNameOk(c[2])
    ensures var r := StrainStepAsWritten(st, line, c, parse);
            && r.seen == st.seen && r.out == st.out
            && r.names == NameErrors(st.names.invalid + [ErrorRow(line, c)], st.names.duplicate)
  {
  }

  /** A genotype that has only allowed characters but does not parse fails
   *  the row without writing it to any error file; the strain's name still
   *  joins the seen names. */
  lemma UnparsableGenotypeSilent(st: StrainState, line: int, c: seq<string>, parse: GenotypeParser)
    requires |c| >= StrainCells
    requires StrainNameOk(c[2]) && c[2] !in st.seen
    requires c[8] != ""
    requires GenotypeCharsOk(c[8]) && parse(c[8]).None?
    ensures StrainStepAsWritten(st, line, c, parse) == StrainState(st.seen + [c[2]], st.out, st.names, st.invalidGenotype)
  {
  }

  /** A strain rejected for its genotype's characters goes to the
   *  invalid-genotype file and is not written, and its name still joins
   *  the seen names. */
  lemma RejectedStrainStillSeen(st: StrainState, line: int, c: seq<string>, parse: GenotypeParser)
    requires |c| >= StrainCells
    requires StrainNameOk(c[2]) && c[2] !in st.seen
    requires c[8] != "" && !GenotypeCharsOk(c[8])
    ensures var r := StrainStepAsWritten(st, line, c, parse);
            && r.out == st.out && r.seen == st.seen + [c[2]]
            && r.invalidGenotype == st.invalidGenotype + [ErrorRow(line, c)]
  {
  }

  /** A valid strain name seen before goes to the duplicate file and is not
   *  written, whatever its genotype. */
  lemma DuplicateStrainRejected(st: StrainState, line: int, c: seq<string>, parse: GenotypeParser)
    requires |c| >= StrainCells
    requires StrainNameOk(c[2]) && c[2] in st.seen
    ensures var r := StrainStepAsWritten(st, line, c, parse);
            && r.out == st.out && r.seen == st.seen
            && r.names == NameErrors(st.names.invalid, st.names.duplicate + [ErrorRow(line, c)])
  {
  }

  /** A new, valid strain whose genotype cell is `WT` is written with no
   *  genotype; as the test is written, the row comes out otherwise. */
  lemma WildTypeAsWritten(st: StrainState, line: int, c: seq<string>, parse: GenotypeParser)
    requires |c| >= StrainCells
    requires StrainNameOk(c[2]) && c[2] !in st.seen
    requires c[8] == "WT"
    ensures StrainStep(st, line, c, parse).out == st.out + [CleanStrainRow(line, c, None)]
    ensures StrainStepAsWritten(st, line, c, parse).out != StrainStep(st, line, c, parse).out
  {
    assert IsWildType(c[8]);
    var written := StrainStepAsWritten(st, line, c, parse);
    if written.out != st.out {
      assert written.out[|st.out|].genotype.Some?;
    }
  }

  /** The three error files of the strain table are distinct, and each
   *  counts its rows. */
  ghost predicate StrainErrorFiles(invalidName: ErrorFile, duplicate: ErrorFile, invalidGenotype: ErrorFile)
    reads invalidName, duplicate, invalidGenotype
  {
    && invalidName != duplicate && invalidName != invalidGenotype && duplicate != invalidGenotype
    && invalidName.Valid() && duplicate.Valid() && invalidGenotype.Valid()
  }

  /** One stripped strain row, written to the three error files of the strain
   *  table. */
  method WriteStrainRow(invalidName: ErrorFile, duplicate: ErrorFile, invalidGenotype: ErrorFile,
                        seen0: seq<string>, out0: seq<FilteredStrain>, line: int, c: seq<string>,
                        parse: GenotypeParser)
    returns (seen: seq<string>, out: seq<FilteredStrain>, failure: bool)
    requires StrainErrorFiles(invalidName, duplicate, invalidGenotype)
    requires |c| >= StrainCells && IsGenotypeParser(parse)
    modifies invalidName, duplicate, invalidGenotype
    ensures StrainErrorFiles(invalidName, duplicate, invalidGenotype)
    ensures StrainState(seen, out, NameErrors(invalidName.rows, duplicate.rows), invalidGenotype.rows)
            == StrainStepAsWritten(StrainState(seen0, out0, NameErrors(old(invalidName.rows), old(duplicate.rows)),
                                      old(invalidGenotype.rows)), line, c, parse)
    ensures |out| == |out0| + (if failure then 0 else 1)
  {
    var strainName, genotype, source, comment, otherNames := c[2], c[8], c[9], c[11], c[15];
    failure := false;
    seen := seen0;
    if !StrainNameOk(strainName) {
      invalidName.WriteFailure(ErrorRow(line, c));
      failure := true;
    } else if strainName in seen {
      duplicate.WriteFailure(ErrorRow(line, c));
      failure := true;
    } else {
      seen := seen + [strainName];
    }
    var parsed: Option<seq<Item>> := None;
    if genotype != "" {
      if !GenotypeCharsOk(genotype) {
        invalidGenotype.WriteFailure(ErrorRow(line, c));
        failure := true;
      } else {
        var dict := ParseGenotype(genotype);
        if dict.None? {
          failure := true;
        } else {
          parsed := dict;
        }
      }
    }
    out := out0;
    if !failure {
      if otherNames == "" { otherNames := NULL; }
      if source == "" { source := NULL; }
      comment := if comment == "" then NULL else NewlinesToSpaces(comment);
      var row := FilteredStrain(line, strainName, parsed, source, otherNames, comment);
      assert row == CleanStrainRow(line, c, parsed);
      out := out + [row];
    }
  }

  /** The loop of the strain pass over rows whose cells are stripped: fresh
   *  error files, then every row in order. */
  method WriteStrainRows(rows: seq<seq<string>>, parse: GenotypeParser)
    returns (out: seq<FilteredStrain>, successes: nat, processed: nat,
             invalidName: ErrorFile, duplicate: ErrorFile, invalidGenotype: ErrorFile)
    requires forall j :: 0 <= j < |rows| ==> |rows[j]| >= StrainCells
    requires IsGenotypeParser(parse)
    ensures fresh(invalidName) && fresh(duplicate) && fresh(invalidGenotype)
    ensures invalidName.Valid() && duplicate.Valid() && invalidGenotype.Valid()
    ensures var st := FilterStrains(rows, |rows|, parse);
            && out == st.out && invalidGenotype.rows == st.invalidGenotype
            && NameErrors(invalidName.rows, duplicate.rows) == st.names
    ensures successes == |out| && processed == |rows|
  {
    duplicate := new ErrorFile();
    invalidName := new ErrorFile();
    invalidGenotype := new ErrorFile();
    successes := 0;
    var line := 1;
    var seen: seq<string> := [];
    out := [];
    for j := 0 to |rows|
      invariant StrainErrorFiles(invalidName, duplicate, invalidGenotype)
      invariant line == j + 1 && successes == |out|
      invariant FilterStrains(rows, j, parse)
                == StrainState(seen, out, NameErrors(invalidName.rows, duplicate.rows), invalidGenotype.rows)
    {
      line := line + 1;
      var c := rows[j];
      var failure;
      StrainLoopStep(rows, j, parse, StrainState(seen, out, NameErrors(invalidName.rows, duplicate.rows),
                                                 invalidGenotype.rows));
      seen, out, failure := WriteStrainRow(invalidName, duplicate, invalidGenotype, seen, out, line, c, parse);
      if !failure {
        successes := successes + 1;
      }
    }
    processed := line - 1;
  }

  /** `write_strains`: every raw row of the strain table is stripped, then
   *  filtered in order. */
  method WriteStrains(raw: seq<seq<string>>)
    returns (out: seq<FilteredStrain>, successes: nat, processed: nat,
             invalidName: ErrorFile, duplicate: ErrorFile, invalidGenotype: ErrorFile)
    requires forall j :: 0 <= j < |raw| ==> |raw[j]| >= StrainCells
    ensures fresh(invalidName) && fresh(duplicate) && fresh(invalidGenotype)
    ensures invalidName.Valid() && duplicate.Valid() && invalidGenotype.Valid()
    ensures var st := FilterStrains(StrippedRows(raw), |raw|, Parse);
            && out == st.out && invalidGenotype.rows == st.invalidGenotype
            && NameErrors(invalidName.rows, duplicate.rows) == st.names
    ensures successes == |out| && processed == |raw|
  {
    out, successes, processed, invalidName, duplicate, invalidGenotype := WriteStrainRows(StrippedRows(raw), Parse);
  }

  // ---------------------------------------------------------------------
  // Allele table
  // ---------------------------------------------------------------------

  /** A row of the filtered allele table; the name is the cleaned name. */
  datatype FilteredAllele = FilteredAllele(
    lineNumber: int, name: string, alleleType: AlleleNames.AlleleType,
    gene: string, plasmids: string, comment: string)

  datatype AlleleState = AlleleState(seen: seq<string>, out: seq<FilteredAllele>, names: NameErrors)

  /** The allele table is read up to its ninth cell. */
  const AlleleCells := 9

  /** A name the allele parser accepts and gives back unchanged. */
  predicate CleanedAlleleName(name: string) {
    AlleleNames.ParseAllele(name).Parsed? && AlleleNames.ParseAllele(name).name == name
  }

  /** The allele pass takes the allele name parser as a parameter; the
   *  methods that run it require it to be `AlleleNames.ParseAllele`. */
  type AlleleParser = string -> AlleleNames.AlleleParse

  ghost predicate IsAlleleParser(parseAllele: AlleleParser) {
    forall n {:trigger AlleleNames.ParseAllele(n)} :: parseAllele(n) == AlleleNames.ParseAllele(n)
  }

  /** One stripped allele row, at line `line` of the raw table. The duplicate
   *  check compares cleaned names. */
  function AlleleStep(st: AlleleState, line: int, c: seq<string>, parseAllele: AlleleParser): AlleleState
    requires |c| >= AlleleCells
  {
    var parsed := parseAllele(c[2]);
    var name := if parsed.Parsed? then parsed.name else "";
    var check := CheckName(st.seen, name, parsed.Parsed?);
    AlleleState(
      Admit(st.seen, name, check),
      if !check.New? then st.out
      else st.out + [FilteredAllele(line, name, parsed.alleleType, NullIfEmpty(c[3]), c[8], CommentCell(c[5]))],
      LogName(st.names, check, ErrorRow(line, c)))
  }

  /** The first `n` stripped allele rows in order, the row at index `j` being
   *  line `j + 2`. */
  function FilterAlleles(rows: seq<seq<string>>, n: nat, parseAllele: AlleleParser): AlleleState
    requires n <= |rows|
    requires forall j :: 0 <= j < |rows| ==> |rows[j]| >= AlleleCells
    decreases n, 1
  {
    if n == 0 then AlleleState([], [], NameErrors([], [])) else AlleleRowAt(rows, n, parseAllele)
  }

  /** The state after the row at index `n - 1`. */
  function AlleleRowAt(rows: seq<seq<string>>, n: nat, parseAllele: AlleleParser): AlleleState
    requires 0 < n <= |rows|
    requires forall j :: 0 <= j < |rows| ==> |rows[j]| >= AlleleCells
    decreases n, 0
  {
    AlleleStep(FilterAlleles(rows, n - 1, parseAllele), n + 1, rows[n - 1], parseAllele)
  }

  /** One more row of the allele pass, from the state before it. */
  lemma AlleleLoopStep(rows: seq<seq<string>>, j: nat, parseAllele: AlleleParser, before: AlleleState)
    requires j < |rows| && forall k :: 0 <= k < |rows| ==> |rows[k]| >= AlleleCells
    requires FilterAlleles(rows, j, parseAllele) == before
    ensures FilterAlleles(rows, j + 1, parseAllele) == AlleleStep(before, j + 2, rows[j], parseAllele)
  {
  }

  function AlleleNamesOf(out: seq<FilteredAllele>): seq<string> {
    seq(|out|, k requires 0 <= k < |out| => out[k].name)
  }

  lemma AlleleNamesSnoc(out: seq<FilteredAllele>, o: FilteredAllele)
    ensures AlleleNamesOf(out + [o]) == AlleleNamesOf(out) + [o.name]
  {
  }

  /** One stripped row keeps the seen names valid and distinct, and the
   *  accepted names distinct and among them. */
  lemma AlleleStepKeeps(st: AlleleState, line: int, c: seq<string>, parseAllele: AlleleParser)
    requires |c| >= AlleleCells && IsAlleleParser(parseAllele)
    requires NamesKept(st.seen, AlleleNamesOf(st.out), CleanedAlleleName)
    ensures var r := AlleleStep(st, line, c, parseAllele);
            NamesKept(r.seen, AlleleNamesOf(r.out), CleanedAlleleName)
  {
    var parsed := AlleleNames.ParseAllele(c[2]);
    var name := if parsed.Parsed? then parsed.name else "";
    if parsed.Parsed? {
      AlleleNames.ParseAlleleIdempotent(c[2]);
    }
    var check := CheckName(st.seen, name, parsed.Parsed?);
    var after := AlleleStep(st, line, c, parseAllele);
    CheckNameKeeps(st.seen, AlleleNamesOf(st.out), CleanedAlleleName, name, check.New?);
    if check.New? {
      AlleleNamesSnoc(st.out, after.out[|st.out|]);
    }
  }

  /** The accepted alleles have pairwise distinct cleaned names, each one
   *  the parser gives back unchanged. */
  lemma {:induction false} AcceptedAlleles(rows: seq<seq<string>>, n: nat, parseAllele: AlleleParser)
    requires n <= |rows| && IsAlleleParser(parseAllele)
    requires forall j :: 0 <= j < |rows| ==> |rows[j]| >= AlleleCells
    ensures var st := FilterAlleles(rows, n, parseAllele);
            NamesKept(st.seen, AlleleNamesOf(st.out), CleanedAlleleName)
    decreases n
  {
    if n > 0 {
      AcceptedAlleles(rows, n - 1, parseAllele);
      AlleleStepKeeps(FilterAlleles(rows, n - 1, parseAllele), n + 1, rows[n - 1], parseAllele);
    }
  }

  /** Every allele row ends up in exactly one place: the filtered
   *  table, the invalid-name file or the duplicate file. */
  lemma {:induction false} AlleleRowsAccounted(rows: seq<seq<string>>, n: nat, parseAllele: AlleleParser)
    requires n <= |rows|
    requires forall j :: 0 <= j < |rows| ==> |rows[j]| >= AlleleCells
    ensures var st := FilterAlleles(rows, n, parseAllele);
            |st.out| == |st.seen| && |st.out| + |st.names.invalid| + |st.names.duplicate| == n
    decreases n
  {
    if n > 0 {
      AlleleRowsAccounted(rows, n - 1, parseAllele);
    }
  }

  /** A row whose name the parser accepts leaves its cleaned name among
   *  the seen names, whether the row is written or is a duplicate. */
  lemma CleanedNameSeen(st: AlleleState, line: int, c: seq<string>, parseAllele: AlleleParser)
    requires |c| >= AlleleCells
    requires parseAllele(c[2]).Parsed?
    ensures parseAllele(c[2]).name in AlleleStep(st, line, c, parseAllele).seen
  {
  }

  /** A row whose cleaned name has been seen goes to the duplicate file and
   *  is not written. */
  lemma CleanedNameDuplicate(st: AlleleState, line: int, c: seq<string>, parseAllele: AlleleParser)
    requires |c| >= AlleleCells
    requires parseAllele(c[2]).Parsed?
    requires parseAllele(c[2]).name in st.seen
    ensures var r := AlleleStep(st, line, c, parseAllele);
            && r.out == st.out && r.seen == st.seen
            && r.names == NameErrors(st.names.invalid, st.names.duplicate + [ErrorRow(line, c)])
  {
  }

  /** `tm290a` after `tm290` is a duplicate. */
  lemma SuffixedDuplicate(st: AlleleState, c: seq<string>, c2: seq<string>, parseAllele: AlleleParser)
    requires |c| >= AlleleCells && |c2| >= AlleleCells && IsAlleleParser(parseAllele)
    requires c[2] == "tm290" && c2[2] == "tm290a"
    ensures var r := AlleleStep(st, 2, c, parseAllele);
            AlleleStep(r, 3, c2, parseAllele).names.duplicate == r.names.duplicate + [ErrorRow(3, c2)]
  {
    AlleleExamples.UnsuffixedMutant();
    AlleleExamples.SuffixLetterRemoved();
    var r := AlleleStep(st, 2, c, parseAllele);
    CleanedNameSeen(st, 2, c, parseAllele);
    CleanedNameDuplicate(r, 3, c2, parseAllele);
  }

  /** The two error files of the allele table are distinct, and each counts
   *  its rows. */
  ghost predicate AlleleErrorFiles(invalidName: ErrorFile, duplicate: ErrorFile)
    reads invalidName, duplicate
  {
    invalidName != duplicate && invalidName.Valid() && duplicate.Valid()
  }

  /** One stripped allele row, written to the two error files of the allele
   *  table. */
  method WriteAlleleRow(invalidName: ErrorFile, duplicate: ErrorFile,
                        seen0: seq<string>, out0: seq<FilteredAllele>, line: int, c: seq<string>,
                        parseAllele: AlleleParser)
    returns (seen: seq<string>, out: seq<FilteredAllele>, failure: bool)
    requires AlleleErrorFiles(invalidName, duplicate)
    requires |c| >= AlleleCells && IsAlleleParser(parseAllele)
    modifies invalidName, duplicate
    ensures AlleleErrorFiles(invalidName, duplicate)
    ensures AlleleState(seen, out, NameErrors(invalidName.rows, duplicate.rows))
            == AlleleStep(AlleleState(seen0, out0, NameErrors(old(invalidName.rows), old(duplicate.rows))), line, c, parseAllele)
    ensures |out| == |out0| + (if failure then 0 else 1)
  {
    var geneName, comment, plasmids := c[3], c[5], c[8];
    var parsed := AlleleNames.ParseAllele(c[2]);
    failure := false;
    seen := seen0;
    if parsed.InvalidAlleleName? {
      invalidName.WriteFailure(ErrorRow(line, c));
      failure := true;
    } else if parsed.name in seen {
      duplicate.WriteFailure(ErrorRow(line, c));
      failure := true;
    } else {
      seen := seen + [parsed.name];
    }
    out := out0;
    if !failure {
      if geneName == "" { geneName := NULL; }
      comment := if comment == "" then NULL else NewlinesToSpaces(comment);
      out := out + [FilteredAllele(line, parsed.name, parsed.alleleType, geneName, plasmids, comment)];
    }
  }

  /** The loop of the allele pass over rows whose cells are stripped: fresh
   *  error files, then every row in order. */
  method WriteAlleleRows(rows: seq<seq<string>>, parseAllele: AlleleParser)
    returns (out: seq<FilteredAllele>, successes: nat, processed: nat,
             invalidName: ErrorFile, duplicate: ErrorFile)
    requires forall j :: 0 <= j < |rows| ==> |rows[j]| >= AlleleCells
    requires IsAlleleParser(parseAllele)
    ensures fresh(invalidName) && fresh(duplicate)
    ensures invalidName.Valid() && duplicate.Valid()
    ensures var st := FilterAlleles(rows, |rows|, parseAllele);
            out == st.out && NameErrors(invalidName.rows, duplicate.rows) == st.names
    ensures successes == |out| && processed == |rows|
  {
    duplicate := new ErrorFile();
    invalidName := new ErrorFile();
    successes := 0;
    var line := 1;
    var seen: seq<string> := [];
    out := [];
    for j := 0 to |rows|
      invariant AlleleErrorFiles(invalidName, duplicate)
      invariant line == j + 1 && successes == |out|
      invariant FilterAlleles(rows, j, parseAllele) == AlleleState(seen, out, NameErrors(invalidName.rows, duplicate.rows))
    {
      line := line + 1;
      var c := rows[j];
      var failure;
      AlleleLoopStep(rows, j, parseAllele, AlleleState(seen, out, NameErrors(invalidName.rows, duplicate.rows)));
      seen, out, failure := WriteAlleleRow(invalidName, duplicate, seen, out, line, c, parseAllele);
      if !failure {
        successes := successes + 1;
      }
    }
    processed := line - 1;
  }

  /** `write_alleles`: every raw row of the allele table is stripped, then
   *  filtered in order. */
  method WriteAlleles(raw: seq<seq<string>>)
    returns (out: seq<FilteredAllele>, successes: nat, processed: nat,
             invalidName: ErrorFile, duplicate: ErrorFile)
    requires forall j :: 0 <= j < |raw| ==> |raw[j]| >= AlleleCells
    ensures fresh(invalidName) && fresh(duplicate)
    ensures invalidName.Valid() && duplicate.Valid()
    ensures var st := FilterAlleles(StrippedRows(raw), |raw|, AlleleNames.ParseAllele);
            out == st.out && NameErrors(invalidName.rows, duplicate.rows) == st.names
    ensures successes == |out| && processed == |raw|
  {
    out, successes, processed, invalidName, duplicate := WriteAlleleRows(StrippedRows(raw), AlleleNames.ParseAllele);
  }

  // ---------------------------------------------------------------------
  // Plasmid table
  // ---------------------------------------------------------------------

  /** A row of the filtered plasmid table. */
  datatype FilteredPlasmid = FilteredPlasmid(
    lineNumber: int, name: string, expandedName: string, source: string,
    parent1: string, parent2: string, restrictionSite: string, date: string)

  datatype PlasmidState = PlasmidState(
    seen: seq<string>, out: seq<FilteredPlasmid>, names: NameErrors,
    invalidExpandedName: seq<ErrorRow>, invalidDate: seq<ErrorRow>)

  /** The plasmid table is read up to its fourteenth cell. */
  const PlasmidCells := 14

  /** `re.match(r'p[a-zA-Z]+[0-9]+', name)`: a `p`, one or more letters,
   *  then a digit; anything may follow. */
  predicate PlasmidNameOk(name: string) {
    |name| >= 1 && name[0] == 'p' && LettersThenDigit(name, 1, 1)
  }

  /** From index `k` of `s`: at least `least` letters, then a digit. */
  predicate LettersThenDigit(s: string, k: nat, least: nat)
    decreases |s| - k
  {
    && k < |s|
    && ((least == 0 && IsDigit(s[k]))
        || (IsLetter(s[k]) && LettersThenDigit(s, k + 1, if least == 0 then 0 else least - 1)))
  }

  /** The characters of `s` from `k` up to `m` are letters and the one at
   *  `m` is a digit. */
  predicate DigitAfterRun(s: string, k: nat, m: nat) {
    k <= m < |s| && AllIn(s, k, m, Letter) && IsDigit(s[m])
  }

  /** The recursive check accepts exactly the strings in which a run of at
   *  least `least` letters from `k` is followed by a digit. */
  lemma {:induction false} LettersThenDigitMatches(s: string, k: nat, least: nat)
    ensures LettersThenDigit(s, k, least) <==> exists m :: k + least <= m && DigitAfterRun(s, k, m)
    decreases |s| - k
  {
    var next := if least == 0 then 0 else least - 1;
    if LettersThenDigit(s, k, least) {
      if least == 0 && IsDigit(s[k]) {
        assert DigitAfterRun(s, k, k);
      } else {
        LettersThenDigitMatches(s, k + 1, next);
        var m :| k + 1 + next <= m && DigitAfterRun(s, k + 1, m);
        assert DigitAfterRun(s, k, m);
      }
    }
    if m: nat :| k + least <= m && DigitAfterRun(s, k, m) {
      if m > k {
        assert In(s[k], Letter);
        assert DigitAfterRun(s, k + 1, m);
        LettersThenDigitMatches(s, k + 1, next);
      }
    }
  }

  /** A plasmid name is valid exactly when the pattern matches it: a `p`,
   *  then a run of one or more letters followed by a digit. */
  lemma PlasmidNamePattern(name: string)
    ensures PlasmidNameOk(name) <==> |name| >= 1 && name[0] == 'p' && exists m :: 1 < m && DigitAfterRun(name, 1, m)
  {
    LettersThenDigitMatches(name, 1, 1);
  }

  /** What the date parser does with a cell: it reads a date, rendered as
   *  `year-month-day`; it raises `ParserError`, which the pass catches; or it
   *  raises another error, such as `OverflowError` for a number too large,
   *  which the pass does not catch. */
  datatype DateParse = Parsed(text: string) | Rejected | Raises

  type DateParser = string -> DateParse

  /** What the date cell gives: nothing when empty, else the parser's
   *  rendering, a rejection, or an error the pass does not catch. */
  datatype DateCell = NoDate | DateValue(value: string) | BadDate | DateError

  function ReadDate(cell: string, parseDate: DateParser): (r: DateCell)
    ensures r.NoDate? <==> cell == ""
    ensures r.BadDate? <==> cell != "" && parseDate(cell).Rejected?
    ensures r.DateError? <==> cell != "" && parseDate(cell).Raises?
    ensures r.DateValue? ==> parseDate(cell) == Parsed(r.value)
  {
    if cell == "" then NoDate
    else match parseDate(cell)
      case Rejected => BadDate
      case Raises => DateError
      case Parsed(d) => DateValue(d)
  }

  /** The row written for an accepted plasmid. */
  function CleanPlasmidRow(line: int, c: seq<string>, date: string): (o: FilteredPlasmid)
    requires |c| >= PlasmidCells
    ensures o.lineNumber == line && o.name == c[5] && o.expandedName == c[2] && o.date == date
    ensures o.source == NullIfEmpty(c[13]) && o.parent1 == NullIfEmpty(c[7])
            && o.parent2 == NullIfEmpty(c[8]) && o.restrictionSite == NullIfEmpty(c[9])
  {
    FilteredPlasmid(line, c[5], c[2], NullIfEmpty(c[13]), NullIfEmpty(c[7]),
                    NullIfEmpty(c[8]), NullIfEmpty(c[9]), date)
  }

  /** One stripped plasmid row, at line `line`. The name check, the date check
   *  and the expanded-name check each write the row to their own error
   *  file, so a row may go to several. Any failure of the date parser is a
   *  bad date. */
  function PlasmidStep(st: PlasmidState, line: int, c: seq<string>, parseDate: DateParser): PlasmidState
    requires |c| >= PlasmidCells
  {
    var err := ErrorRow(line, c);
    var check := CheckName(st.seen, c[5], PlasmidNameOk(c[5]));
    var date := ReadDate(c[6], parseDate);
    var badDate := date.BadDate? || date.DateError?;
    var failed := !check.New? || badDate || c[2] == "";
    PlasmidState(
      Admit(st.seen, c[5], check),
      if failed then st.out else st.out + [CleanPlasmidRow(line, c, if date.DateValue? then date.value else NULL)],
      LogName(st.names, check, err),
      if c[2] == "" then st.invalidExpandedName + [err] else st.invalidExpandedName,
      if badDate then st.invalidDate + [err] else st.invalidDate)
  }

  /** The plasmid pass as the date check is written: the parser's result
   *  `dt` outlives the row that set it; a rejected date is logged but does
   *  not fail the row, which takes `dt` from an earlier row, and when no
   *  earlier row set it the pass ends with an error. A parser error other
   *  than a rejection escapes the handler and ends the pass at once. */
  datatype PlasmidPass = PlasmidPass(state: PlasmidState, dt: Option<string>, crashed: bool)

  function PlasmidStepAsWritten(p: PlasmidPass, line: int, c: seq<string>,
                                parseDate: DateParser): PlasmidPass
    requires |c| >= PlasmidCells
  {
    if p.crashed then p
    else
      var st := p.state;
      var err := ErrorRow(line, c);
      var check := CheckName(st.seen, c[5], PlasmidNameOk(c[5]));
      var date := ReadDate(c[6], parseDate);
      var dt := if date.DateValue? then Some(date.value) else p.dt;
      var dateErrors := if date.BadDate? then st.invalidDate + [err] else st.invalidDate;
      if date.DateError? || (date.BadDate? && dt.None?) then
        PlasmidPass(PlasmidState(Admit(st.seen, c[5], check), st.out, LogName(st.names, check, err),
                                 st.invalidExpandedName, dateErrors), dt, true)
      else
        var value := if date.NoDate? then NULL else dt.value;
        var failed := !check.New? || c[2] == "";
        PlasmidPass(
          PlasmidState(
            Admit(st.seen, c[5], check),
            if failed then st.out else st.out + [CleanPlasmidRow(line, c, value)],
            LogName(st.names, check, err),
            if c[2] == "" then st.invalidExpandedName + [err] else st.invalidExpandedName,
            dateErrors),
          dt, false)
  }

  /** As written, a new, valid plasmid with an expanded name and a date the
   *  parser rejects is logged as an invalid date and yet written, with the
   *  date of an earlier row; the corrected step does not write it. */
  lemma StaleDateAsWritten(p: PlasmidPass, line: int, c: seq<string>, parseDate: DateParser,
                           earlier: string)
    requires |c| >= PlasmidCells && !p.crashed && p.dt == Some(earlier)
    requires PlasmidNameOk(c[5]) && c[5] !in p.state.seen && c[2] != ""
    requires c[6] != "" && parseDate(c[6]).Rejected?
    ensures var r := PlasmidStepAsWritten(p, line, c, parseDate);
            && r.state.out == p.state.out + [CleanPlasmidRow(line, c, earlier)]
            && r.state.invalidDate == p.state.invalidDate + [ErrorRow(line, c)]
    ensures PlasmidStep(p.state, line, c, parseDate).out == p.state.out
  {
  }

  /** As written, a rejected date with no earlier parsed date ends the
   *  pass. */
  lemma FirstBadDateAsWritten(p: PlasmidPass, line: int, c: seq<string>, parseDate: DateParser)
    requires |c| >= PlasmidCells && !p.crashed && p.dt.None?
    requires c[6] != "" && parseDate(c[6]).Rejected?
    ensures PlasmidStepAsWritten(p, line, c, parseDate).crashed
  {
  }

  /** The first `n` stripped plasmid rows in order, as the date check is
   *  written, the row at index `j` being line `j + 2`. A row that ends the
   *  pass leaves the state as it was after that row. */
  function FilterPlasmids(rows: seq<seq<string>>, n: nat, parseDate: DateParser): PlasmidPass
    requires n <= |rows|
    requires forall j :: 0 <= j < |rows| ==> |rows[j]| >= PlasmidCells
    decreases n, 1
  {
    if n == 0 then PlasmidPass(PlasmidState([], [], NameErrors([], []), [], []), None, false)
    else PlasmidRowAt(rows, n, parseDate)
  }

  /** The pass after the row at index `n - 1`. */
  function PlasmidRowAt(rows: seq<seq<string>>, n: nat, parseDate: DateParser): PlasmidPass
    requires 0 < n <= |rows|
    requires forall j :: 0 <= j < |rows| ==> |rows[j]| >= PlasmidCells
    decreases n, 0
  {
    PlasmidStepAsWritten(FilterPlasmids(rows, n - 1, parseDate), n + 1, rows[n - 1], parseDate)
  }

  /** One more row of the plasmid pass, from the pass before it. */
  lemma PlasmidLoopStep(rows: seq<seq<string>>, j: nat, parseDate: DateParser,
                        before: PlasmidPass)
    requires j < |rows| && forall k :: 0 <= k < |rows| ==> |rows[k]| >= PlasmidCells
    requires FilterPlasmids(rows, j, parseDate) == before
    ensures FilterPlasmids(rows, j + 1, parseDate) == PlasmidStepAsWritten(before, j + 2, rows[j], parseDate)
  {
  }

  /** Once the pass has ended, the rows after it change nothing. */
  lemma {:induction false} PlasmidPassStops(rows: seq<seq<string>>, m: nat, n: nat,
                                            parseDate: DateParser)
    requires m <= n <= |rows| && forall k :: 0 <= k < |rows| ==> |rows[k]| >= PlasmidCells
    requires FilterPlasmids(rows, m, parseDate).crashed
    ensures FilterPlasmids(rows, n, parseDate) == FilterPlasmids(rows, m, parseDate)
    decreases n
  {
    if n > m {
      PlasmidPassStops(rows, m, n - 1, parseDate);
    }
  }

  function PlasmidNamesOf(out: seq<FilteredPlasmid>): seq<string> {
    seq(|out|, k requires 0 <= k < |out| => out[k].name)
  }

  lemma PlasmidNamesSnoc(out: seq<FilteredPlasmid>, o: FilteredPlasmid)
    ensures PlasmidNamesOf(out + [o]) == PlasmidNamesOf(out) + [o.name]
  {
  }

  /** What the plasmid pass keeps after every row. */
  predicate PlasmidsKept(st: PlasmidState) {
    && NamesKept(st.seen, PlasmidNamesOf(st.out), PlasmidNameOk)
    && forall k :: 0 <= k < |st.out| ==> st.out[k].expandedName != ""
  }

  /** One stripped row keeps `PlasmidsKept`, whether or not it ends the
   *  pass. */
  lemma PlasmidStepKeeps(p: PlasmidPass, line: int, c: seq<string>, parseDate: DateParser)
    requires |c| >= PlasmidCells && PlasmidsKept(p.state)
    ensures PlasmidsKept(PlasmidStepAsWritten(p, line, c, parseDate).state)
  {
    if !p.crashed {
      var st := p.state;
      var after := PlasmidStepAsWritten(p, line, c, parseDate).state;
      var accept := after.out != st.out;
      CheckNameKeeps(st.seen, PlasmidNamesOf(st.out), PlasmidNameOk, c[5], accept);
      if accept {
        PlasmidNamesSnoc(st.out, after.out[|st.out|]);
      }
    }
  }

  /** The accepted plasmids have valid, pairwise distinct names and a
   *  non-empty expanded name. */
  lemma {:induction false} AcceptedPlasmids(rows: seq<seq<string>>, n: nat, parseDate: DateParser)
    requires n <= |rows|
    requires forall j :: 0 <= j < |rows| ==> |rows[j]| >= PlasmidCells
    ensures PlasmidsKept(FilterPlasmids(rows, n, parseDate).state)
    decreases n
  {
    if n > 0 {
      var before := FilterPlasmids(rows, n - 1, parseDate);
      AcceptedPlasmids(rows, n - 1, parseDate);
      PlasmidStepKeeps(before, n + 1, rows[n - 1], parseDate);
      PlasmidLoopStep(rows, n - 1, parseDate, before);
    }
  }

  /** Every plasmid row read either joins the seen names or goes to exactly
   *  one of the two name error files, so when the pass does not end early
   *  the three together count every row; no more rows are written than
   *  names seen. */
  lemma {:induction false} PlasmidNamesAccounted(rows: seq<seq<string>>, n: nat, parseDate: DateParser)
    requires n <= |rows|
    requires forall j :: 0 <= j < |rows| ==> |rows[j]| >= PlasmidCells
    ensures var p := FilterPlasmids(rows, n, parseDate);
            var total := |p.state.seen| + |p.state.names.invalid| + |p.state.names.duplicate|;
            && total <= n && (!p.crashed ==> total == n) && |p.state.out| <= |p.state.seen|
    decreases n
  {
    if n > 0 {
      PlasmidNamesAccounted(rows, n - 1, parseDate);
    }
  }

  /** A row with an invalid name and an empty expanded name goes to both
   *  files, unless its date ends the pass first. */
  lemma PlasmidTwoFailures(p: PlasmidPass, line: int, c: seq<string>, parseDate: DateParser)
    requires |c| >= PlasmidCells && !p.crashed
    requires !PlasmidNameOk(c[5]) && c[2] == ""
    requires c[6] == "" || parseDate(c[6]).Parsed? || (parseDate(c[6]).Rejected? && p.dt.Some?)
    ensures var r := PlasmidStepAsWritten(p, line, c, parseDate);
            && !r.crashed && r.state.out == p.state.out
            && r.state.names.invalid == p.state.names.invalid + [ErrorRow(line, c)]
            && r.state.invalidExpandedName == p.state.invalidExpandedName + [ErrorRow(line, c)]
  {
  }

  /** The date check as written: a parsed date becomes the latest `dt`; a
   *  rejected one goes to the invalid-date file and ends the pass when no
   *  row has set `dt`; an uncaught parser error ends the pass whatever `dt`
   *  is, and logs nothing; a written row's date is `NULL` for an empty cell
   *  and the latest `dt` otherwise. */
  lemma PlasmidDateAsWritten(p: PlasmidPass, line: int, c: seq<string>, parseDate: DateParser)
    requires |c| >= PlasmidCells && !p.crashed
    ensures var r := PlasmidStepAsWritten(p, line, c, parseDate);
            var cell := c[6];
            && r.dt == (if cell != "" && parseDate(cell).Parsed? then Some(parseDate(cell).text) else p.dt)
            && (r.crashed <==> cell != "" && (parseDate(cell).Raises? || (parseDate(cell).Rejected? && p.dt.None?)))
            && (cell != "" && parseDate(cell).Rejected? ==>
                  r.state.invalidDate == p.state.invalidDate + [ErrorRow(line, c)])
            && (cell != "" && parseDate(cell).Raises? ==>
                  r.state.invalidDate == p.state.invalidDate && r.state.out == p.state.out)
            && (r.state.out != p.state.out ==>
                  r.state.out == p.state.out + [r.state.out[|p.state.out|]]
                  && r.state.out[|p.state.out|].date == (if cell == "" then NULL else r.dt.value))
  {
  }

  /** A date the parser fails on, by rejecting it or by any other error,
   *  sends the row to the invalid-date file, and the row is not written; an
   *  accepted row's date is `NULL` or its own cell's rendering. */
  lemma PlasmidDate(st: PlasmidState, line: int, c: seq<string>, parseDate: DateParser)
    requires |c| >= PlasmidCells
    ensures var r := PlasmidStep(st, line, c, parseDate);
            var cell := c[6];
            && (cell != "" && !parseDate(cell).Parsed? ==>
                  r.out == st.out && r.invalidDate == st.invalidDate + [ErrorRow(line, c)])
            && (r.out != st.out ==>
                  r.out == st.out + [r.out[|st.out|]]
                  && r.out[|st.out|].date == (if cell == "" then NULL else parseDate(cell).text))
  {
  }

  /** The four error files of the plasmid table are distinct, and each
   *  counts its rows. */
  ghost predicate PlasmidErrorFiles(invalidName: ErrorFile, duplicate: ErrorFile,
                                    invalidExpandedName: ErrorFile, invalidDate: ErrorFile)
    reads invalidName, duplicate, invalidExpandedName, invalidDate
  {
    && invalidName != duplicate && invalidName != invalidExpandedName && invalidName != invalidDate
    && duplicate != invalidExpandedName && duplicate != invalidDate && invalidExpandedName != invalidDate
    && invalidName.Valid() && duplicate.Valid() && invalidExpandedName.Valid() && invalidDate.Valid()
  }

  /** One stripped plasmid row, written to the four error files of the plasmid
   *  table; `dt0` is the date parsed last, by this row or an earlier one. */
  method WritePlasmidRow(invalidName: ErrorFile, duplicate: ErrorFile, invalidExpandedName: ErrorFile,
                         invalidDate: ErrorFile, seen0: seq<string>, out0: seq<FilteredPlasmid>,
                         dt0: Option<string>, line: int, c: seq<string>, parseDate: DateParser)
    returns (seen: seq<string>, out: seq<FilteredPlasmid>, dt: Option<string>, crashed: bool, failure: bool)
    requires PlasmidErrorFiles(invalidName, duplicate, invalidExpandedName, invalidDate)
    requires |c| >= PlasmidCells
    modifies invalidName, duplicate, invalidExpandedName, invalidDate
    ensures PlasmidErrorFiles(invalidName, duplicate, invalidExpandedName, invalidDate)
    ensures PlasmidPass(PlasmidState(seen, out, NameErrors(invalidName.rows, duplicate.rows),
                                     invalidExpandedName.rows, invalidDate.rows), dt, crashed)
            == PlasmidStepAsWritten(PlasmidPass(PlasmidState(seen0, out0, NameErrors(old(invalidName.rows), old(duplicate.rows)),
                                                             old(invalidExpandedName.rows), old(invalidDate.rows)),
                                                dt0, false), line, c, parseDate)
    ensures |out| == |out0| + (if failure || crashed then 0 else 1)
  {
    var expandedName, plasmidName, date := c[2], c[5], c[6];
    var parent1, parent2, restrictionSite, source := c[7], c[8], c[9], c[13];
    failure := false;
    crashed := false;
    seen := seen0;
    out := out0;
    dt := dt0;
    if !PlasmidNameOk(plasmidName) {
      invalidName.WriteFailure(ErrorRow(line, c));
      failure := true;
    } else if plasmidName in seen {
      duplicate.WriteFailure(ErrorRow(line, c));
      failure := true;
    } else {
      seen := seen + [plasmidName];
    }
    if date == "" {
      date := NULL;
    } else {
      var parsed := parseDate(date);
      if parsed.Raises? {
        // an error other than `ParserError` escapes the handler, and the pass ends
        crashed := true;
        return;
      }
      if parsed.Parsed? {
        dt := Some(parsed.text);
      } else {
        invalidDate.WriteFailure(ErrorRow(line, c));
      }
      if dt.None? {
        // rendering a `dt` that no row has bound raises, and the pass ends
        crashed := true;
        return;
      }
      date := dt.value;
    }
    if expandedName == "" {
      invalidExpandedName.WriteFailure(ErrorRow(line, c));
      failure := true;
    }
    if !failure {
      if parent1 == "" { parent1 := NULL; }
      if parent2 == "" { parent2 := NULL; }
      if restrictionSite == "" { restrictionSite := NULL; }
      if source == "" { source := NULL; }
      out := out + [FilteredPlasmid(line, plasmidName, expandedName, source, parent1, parent2, restrictionSite, date)];
    }
  }

  /** The loop of the plasmid pass over rows whose cells are stripped: fresh
   *  error files, then every row in order until one raises, which ends the
   *  loop. */
  method WritePlasmidRows(rows: seq<seq<string>>, parseDate: DateParser)
    returns (out: seq<FilteredPlasmid>, successes: nat, processed: nat, crashed: bool,
             invalidName: ErrorFile, duplicate: ErrorFile, invalidExpandedName: ErrorFile, invalidDate: ErrorFile)
    requires forall j :: 0 <= j < |rows| ==> |rows[j]| >= PlasmidCells
    ensures fresh(invalidName) && fresh(duplicate) && fresh(invalidExpandedName) && fresh(invalidDate)
    ensures invalidName.Valid() && duplicate.Valid() && invalidExpandedName.Valid() && invalidDate.Valid()
    ensures var p := FilterPlasmids(rows, |rows|, parseDate);
            && out == p.state.out && NameErrors(invalidName.rows, duplicate.rows) == p.state.names
            && invalidExpandedName.rows == p.state.invalidExpandedName && invalidDate.rows == p.state.invalidDate
            && crashed == p.crashed
    ensures successes == |out| && processed <= |rows| && (!crashed ==> processed == |rows|)
    ensures crashed ==> 0 < processed && !FilterPlasmids(rows, processed - 1, parseDate).crashed
                        && FilterPlasmids(rows, processed, parseDate).crashed
  {
    duplicate := new ErrorFile();
    invalidName := new ErrorFile();
    invalidExpandedName := new ErrorFile();
    invalidDate := new ErrorFile();
    successes := 0;
    crashed := false;
    var line := 1;
    var seen: seq<string> := [];
    var dt: Option<string> := None;
    out := [];
    var j := 0;
    while j < |rows| && !crashed
      invariant j <= |rows|
      invariant PlasmidErrorFiles(invalidName, duplicate, invalidExpandedName, invalidDate)
      invariant line == j + 1 && successes == |out|
      invariant FilterPlasmids(rows, j, parseDate)
                == PlasmidPass(PlasmidState(seen, out, NameErrors(invalidName.rows, duplicate.rows),
                                            invalidExpandedName.rows, invalidDate.rows), dt, crashed)
      invariant crashed ==> 0 < j && !FilterPlasmids(rows, j - 1, parseDate).crashed
    {
      line := line + 1;
      var c := rows[j];
      var failure;
      PlasmidLoopStep(rows, j, parseDate,
                      PlasmidPass(PlasmidState(seen, out, NameErrors(invalidName.rows, duplicate.rows),
                                               invalidExpandedName.rows, invalidDate.rows), dt, false));
      seen, out, dt, crashed, failure := WritePlasmidRow(invalidName, duplicate, invalidExpandedName, invalidDate,
                                                         seen, out, dt, line, c, parseDate);
      if !failure && !crashed {
        successes := successes + 1;
      }
      j := j + 1;
    }
    if crashed {
      PlasmidPassStops(rows, j, |rows|, parseDate);
    }
    processed := line - 1;
  }

  /** `write_plasmids`: every raw row of the plasmid table is stripped,
   *  then filtered in order. */
  method WritePlasmids(raw: seq<seq<string>>, parseDate: DateParser)
    returns (out: seq<FilteredPlasmid>, successes: nat, processed: nat, crashed: bool,
             invalidName: ErrorFile, duplicate: ErrorFile, invalidExpandedName: ErrorFile, invalidDate: ErrorFile)
    requires forall j :: 0 <= j < |raw| ==> |raw[j]| >= PlasmidCells
    ensures fresh(invalidName) && fresh(duplicate) && fresh(invalidExpandedName) && fresh(invalidDate)
    ensures invalidName.Valid() && duplicate.Valid() && invalidExpandedName.Valid() && invalidDate.Valid()
    ensures var p := FilterPlasmids(StrippedRows(raw), |raw|, parseDate);
            && out == p.state.out && NameErrors(invalidName.rows, duplicate.rows) == p.state.names
            && invalidExpandedName.rows == p.state.invalidExpandedName && invalidDate.rows == p.state.invalidDate
            && crashed == p.crashed
    ensures successes == |out| && processed <= |raw| && (!crashed ==> processed == |raw|)
  {
    out, successes, processed, crashed, invalidName, duplicate, invalidExpandedName, invalidDate :=
      WritePlasmidRows(StrippedRows(raw), parseDate);
  }
}
