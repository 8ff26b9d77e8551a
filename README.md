# straindb core in Dafny

straindb turns the spreadsheets of a *C. elegans* strain collection into
tables for a MySQL database. This project models the core of that pipeline
and proves properties of the model.

- **Allele names.** `parse_allele` checks an allele name, strips its
  lower-case suffix and classifies it as mutant, transgene, rearrangement
  or other. It is modelled in `alleles.dfy` as the function
  `AlleleNames.ParseAllele`.
- **Genotypes.** `parse_genotype` removes bracketed notes and `(line N)`
  notes, splits the genotype at `;` into clauses and matches each clause.
  Each clause gives an optional chromosome and one or two allele sets of
  allele records. It is modelled in `genotype.dfy` as the function
  `Genotype.Parse`, and as the method `Genotype.ParseGenotype` with the
  same loops as the source, proved equal to it.
- **Filter passes.** The three passes of `filter_csv.py` (strains,
  alleles, plasmids) check each raw row. A row is written to the cleaned
  table, or it goes to one or more error files.
  - An error file is a class `Filter.ErrorFile` whose `WriteFailure`
    appends the failing row and bumps its count.
  - Each pass has three layers, all in `filter.dfy`: a pure step function
    for one row, a fold over the rows, and methods that run the loop and
    are proved to compute the fold.
  - The folds and the methods follow the script as it is written, including
    the two defects listed under Findings: the wild-type test that never
    holds, and the date check that keeps an earlier row's date or raises.
    The corrected steps stand beside them, with their own lemmas.
- **Normalisation.** The two passes of `normalize_csv.py`, in
  `normalize.dfy`:
  - One flattens each strain's genotype into one row per allele record.
    Its allele rows carry the source and other-names cells in the order the
    script writes them, which is not the header's order (see Findings).
  - One splits each allele's plasmid list into one row per plasmid.
- **Support modules.**
  - `text.dfy`: Python's `str.strip`, `re.split` with whitespace around
    the separator, and the `$` anchor, which also matches before a final
    newline.
  - `sequences.dfy`: the shape of a loop that writes rows until one step
    raises.
  - `options.dfy`: mapping a partial function over a list.

## Model

| member | source | states |
|---|---|---|
| Options.MapAllInOrder | straindb/parse_genotype.py:35-82 | mapping a partial function over a list succeeds iff it succeeds on every element, and then gives the results in order |
| Sequences.RunRaises | straindb/normalize_csv.py:64-74 | a loop of steps ends with an error iff one of its steps raises |
| Sequences.RunWithoutError | straindb/normalize_csv.py:64-96 | when no step raises, the loop writes every step's rows, in order |
| Sequences.RunStopsAt | straindb/normalize_csv.py:64-96 | the first step that raises ends the loop: the rows written before it stay, and nothing later is written |
| Sequences.RunSticks | straindb/normalize_csv.py:64-96 | once a step has raised, later elements change nothing |
| Sequences.RunHolds | straindb/normalize_csv.py:64-96 | a property of every row each step writes holds of every row of the loop |
| Sequences.FlattenAt | straindb/normalize_csv.py:77-96 | element `k` of part `i` sits right after the elements of the parts before `i` |
| Text.SpanAtFacts | straindb/parse_genotype.py:63 | a greedy run from index `k` holds only characters of its class and stops before the first character outside it |
| Text.StripShape | straindb/filter_csv.py:100 | `strip` removes exactly the leading and trailing whitespace: what is left is an infix that neither starts nor ends with whitespace |
| Text.StripIdempotent | straindb/filter_csv.py:100 | stripping twice is stripping once |
| Text.Strip | straindb/filter_csv.py:100 | `str.strip`, defined as trimming whitespace at both ends; `Text.StripShape` and `Text.StripIdempotent` state what it leaves |
| Text.SplitRaw | straindb/parse_genotype.py:32 | splitting gives one piece more than there are separators, and no piece holds a separator |
| Text.SplitThenJoin | straindb/parse_genotype.py:32 | joining the pieces of a split with the separator gives back the string |
| Text.JoinThenSplit | straindb/normalize_csv.py:127 | splitting pieces joined by a separator gives back the pieces, when no piece holds a separator |
| Text.SplitTrimmedPieces | straindb/normalize_csv.py:127 | `re.split(r'\s*[,;]\s*')` gives, for each piece of the plain split, that piece less only whitespace, none removed from the start of the first piece or the end of the last; no piece holds a separator, and no piece keeps whitespace that was next to a separator |
| Text.SplitTrimmed | straindb/normalize_csv.py:127 | gives as many pieces as the plain split, one more than there are separators; `Text.SplitTrimmedPieces` states their contents and `Text.SplitTrimmedExample` an instance |
| Text.SplitTrimmedExample | straindb/normalize_csv.py:127 | `a , b` splits at the comma into `a` and `b` |
| Text.NewlinesToSpaces | straindb/filter_csv.py:344 | the comment keeps its length and has every newline replaced by a space and nothing else changed |
| AlleleNames.StripLowerSuffix | straindb/parse_allele.py:20 | the cleaned name is a prefix of the name; what was removed is all lower-case letters, and the cleaned name does not end in one |
| AlleleNames.ParseAllele | straindb/parse_allele.py:14-17 | a name is invalid iff it is not a run of groups of letters, then digits, then optional lower-case letters; an empty name is invalid |
| AlleleNames.ParseAlleleResult | straindb/parse_allele.py:19-41 | a valid name is cleaned to itself less its maximal lower-case suffix, so it ends in a digit; the type is mutant, transgene or rearrangement iff the cleaned name has that shape, and other otherwise |
| AlleleNames.ShapesDisjoint | straindb/parse_allele.py:23-37 | the mutant, transgene and rearrangement shapes exclude one another, so the order of the tests does not matter |
| AlleleNames.ParseAlleleIdempotent | straindb/parse_allele.py:14-41 | parsing the cleaned name again gives the same cleaned name and type |
| AlleleNames.InvalidNames | straindb/parse_allele.py:14-17 | a name that starts with a digit, or holds a `-`, is invalid |
| AlleleNames.ShapeIsAlphanumeric | straindb/parse_allele.py:14 | a valid name holds only letters and digits, and starts with a letter |
| AlleleExamples.SuffixLetterRemoved | straindb/parse_allele.py:20-25 | `tm290a` is cleaned to the mutant `tm290` |
| AlleleExamples.UnsuffixedMutant | straindb/parse_allele.py:23-25 | `tm290` is a mutant and is kept as it is |
| AlleleExamples.TransgeneExample | straindb/parse_allele.py:27-29 | `nsIs53` is a transgene |
| AlleleExamples.RearrangementExample | straindb/parse_allele.py:31-33 | `eT1` is a rearrangement |
| AlleleExamples.InvalidExamples | straindb/parse_allele.py:14-17 | `123abc` and `unc-5` are invalid names |
| Genotype.LabelOf | straindb/parse_genotype.py:42-49 | a chromosome is read from exactly the labels `I`, `II`, `III`, `IV`, `V`, `X` |
| Genotype.ScanClose | straindb/parse_genotype.py:26 | the lazy `\[.*?\]` ends at the first `]` after the `[` when no newline comes before it, and finds nothing exactly when no `]` is reached before a newline or the end |
| Genotype.LineNoteLength | straindb/parse_genotype.py:29 | a positive length is exactly that of a note `(line `, one or more digits, `)` at the start of the text; the length is 0 exactly when no such note starts there |
| Genotype.RemoveBracketed | straindb/parse_genotype.py:26 | removing bracketed notes never lengthens the text; `Genotype.BracketedNoteRemoved` states that a note is removed |
| Genotype.RemoveLineNotes | straindb/parse_genotype.py:29 | removing `(line N)` notes never lengthens the text; `Genotype.LineNoteRemoved` states that a note is removed |
| Genotype.Clean | straindb/parse_genotype.py:21-29 | the genotype stripped, then cleaned of bracketed notes, then of `(line N)` notes; `Genotype.LineNoteCleaned` and `Genotype.SameCleanSameParse` state its effect |
| Genotype.BracketedNoteRemoved | straindb/parse_genotype.py:26 | a bracketed note without a newline is removed |
| Genotype.LineNoteRemoved | straindb/parse_genotype.py:29 | a `(line N)` note with a non-empty run of digits is removed |
| Genotype.LineNoteCleaned | straindb/parse_genotype.py:26-29 | a `(line N)` note is removed from text without brackets by the two cleaning steps |
| Genotype.SameCleanSameParse | straindb/parse_genotype.py:21-32 | two genotypes with the same cleaned text parse the same |
| Genotype.BracketedNoteIgnored | straindb/parse_genotype.py:21-26 | inserting a bracketed note between two non-blank parts does not change the parse |
| Genotype.LineNoteIgnored | straindb/parse_genotype.py:21-29 | inserting a `(line N)` note between two non-blank parts does not change the parse |
| Genotype.Clauses | straindb/parse_genotype.py:32 | the cleaned genotype gives one clause more than it has `;` |
| Genotype.BlankFails | straindb/parse_genotype.py:21-42 | a blank genotype does not parse, since its one clause is empty |
| Genotype.TrailingSemicolonFails | straindb/parse_genotype.py:32-82 | a genotype whose cleaned text ends with `;` does not parse, since its last clause is empty |
| Genotype.FirstTail | straindb/parse_genotype.py:42 | the lazy allele part ends at an index where the characters before it are clause characters and whitespace, an optional label and the end follow |
| Genotype.FirstTailLeast | straindb/parse_genotype.py:42 | no index the pattern could end the allele part at comes before the one found |
| Genotype.MatchClause | straindb/parse_genotype.py:42-44 | a clause matches iff it is non-empty and made of `[-+.)(a-zA-Z0-9\s/]` only; the allele part is then a non-empty prefix of the clause |
| Genotype.MatchClauseShortest | straindb/parse_genotype.py:42-49 | the allele part is the shortest non-empty prefix after which whitespace and an optional label end the clause, and the chromosome is that label |
| Genotype.ChromosomeEndsClause | straindb/parse_genotype.py:42-49 | a chromosome is only ever the label the clause ends with, with at least one character before it |
| Genotype.LongestLabel | straindb/parse_genotype.py:42-49 | when a clause ends with a label after at least one character, a chromosome is found, and the clause's label ends with it |
| Genotype.LoneLabelIsAllele | straindb/parse_genotype.py:42-49 | the clause `X` is an allele named `X` with no chromosome |
| Genotype.LabelAfterName | straindb/parse_genotype.py:42-49 | the clause `e1X` is the allele part `e1` on chromosome `X` |
| Genotype.SetParts | straindb/parse_genotype.py:51 | the allele part splits at `/` into one set more than it has `/` |
| Genotype.RemoveFirst | straindb/parse_genotype.py:56 | `list.remove` drops the first occurrence only: one element fewer, the rest in order |
| Genotype.GeneFormAt | straindb/parse_genotype.py:63 | the first alternative gives a gene name and an allele name of their classes, and the text it consumes is the gene, whitespace, `(`, the allele and `)` |
| Genotype.BareAt | straindb/parse_genotype.py:63 | the second alternative matches iff the next character can start an allele name; the token is then the allele text, up to a character that cannot continue it |
| Genotype.TokenAt | straindb/parse_genotype.py:63-72 | a token is found wherever an allele character starts; it is the text it consumes, names a valid allele and a valid gene when it has one, and is a bare name only when the gene form does not match there |
| Genotype.Tokens | straindb/parse_genotype.py:63-76 | every record names a valid allele, and a valid gene when it has one; there are none iff the set holds no allele character; `Genotype.TokensInText` ties the records to their text, in order |
| Genotype.TokensFrom | straindb/parse_genotype.py:63-76 | from index `k`, every record names a valid allele, and a valid gene when it has one; there are none iff no allele character stands from `k` on |
| Genotype.TokensInText | straindb/parse_genotype.py:63-76 | `finditer` reads the tokens left to right: each token is the text of its span, each span starts at or after the end of the one before, and no allele character stands before, between or after the tokens outside their spans |
| Genotype.TokenSpans | straindb/parse_genotype.py:63-76 | gives one span, where the token starts and ends, per token of the scan |
| Genotype.BareNameToken | straindb/parse_genotype.py:63-69 | a lone allele name is one record without a gene |
| Genotype.GeneFormToken | straindb/parse_genotype.py:63-72 | `gene (allele)` is one record with that gene and allele |
| Genotype.AllelesOf | straindb/parse_genotype.py:64-76 | one record per token, in order, with the token's names and the clause's heterozygous flag |
| Genotype.ItemShape | straindb/parse_genotype.py:51-76 | a clause gives one set, or one per `/` part less a dropped `+` of a pair; every record is heterozygous iff the split gave two parts |
| Genotype.WildTypeDropped | straindb/parse_genotype.py:53-56 | in a pair with a `+` part, the only set left is the other part, and its records are heterozygous |
| Genotype.ParseResult | straindb/parse_genotype.py:17-86 | a genotype parses iff every clause is non-empty and made of clause characters; it then gives one item per clause, in order |
| Genotype.Parse | straindb/parse_genotype.py:17-86 | `parse_genotype` as a value; `Genotype.ParseResult` states when it succeeds and what it gives, and `Genotype.ParseGenotype` is proved to compute it |
| Genotype.ParseGenotype | straindb/parse_genotype.py:17-86 | the loop builds one item per clause in order, and returns `None` as soon as a clause does not match, never a partial list |
| Genotype.ParseItems | straindb/parse_genotype.py:35-86 | the clause loop computes the items of the matched clauses, or `None` |
| Genotype.BuildItem | straindb/parse_genotype.py:51-78 | one item: its chromosome, and its sets after the `+` of a pair is dropped |
| Genotype.BuildSets | straindb/parse_genotype.py:58-60 | the sets are filled in order, one per part |
| Genotype.BuildSet | straindb/parse_genotype.py:64-76 | a record is appended for each token, in order |
| Normalize.HetValue | straindb/normalize_csv.py:83-89 | the heterozygous column is 0 or 1, and it is 1 iff the parser marked the record heterozygous and its name is not in the opposing set |
| Normalize.ItemRowsAt | straindb/normalize_csv.py:64-96 | the row of allele `k` of set `i` comes after the sets before `i`, with set id `i + 1`, its allele and gene (or `NULL`), the clause's chromosome (or `NULL`) and the checked heterozygous value |
| Normalize.NullRow | straindb/normalize_csv.py:58-61 | the row of a strain without a genotype, in header order; `Normalize.StrainRows` states its `NULL` cells |
| Normalize.AlleleRow | straindb/normalize_csv.py:77-96 | the row of one allele record with every cell under its own header, the corrected row; `Normalize.ItemRowsAt` and `Normalize.StrainColumns` state its cells |
| Normalize.AlleleRowAsWritten | straindb/normalize_csv.py:91-93 | the row as the script writes it, other names and source swapped; `Normalize.SwappedColumns` states where it differs from the header |
| Normalize.StrainOutcome | straindb/normalize_csv.py:44-96 | the rows the script writes for one strain, and whether it raised; `Normalize.StrainRows`, `Normalize.StrainColumnsAsWritten` and `Normalize.StrainStopsAtThirdSet` state them |
| Normalize.IntendedStrainOutcome | straindb/normalize_csv.py:44-96 | the rows the header calls for; `Normalize.StrainColumns` states their strain cells |
| Normalize.StrainColumns | straindb/normalize_csv.py:44-96 | with the columns the header names (the corrected rows), every row written for a strain has that strain's line number, name, source, other names and comment, each under its own header |
| Normalize.StrainColumnsAsWritten | straindb/normalize_csv.py:58-96 | as written, every row for a strain carries its line number, name and comment; a row without a genotype has source and other names in their own columns, and an allele row has them swapped |
| Normalize.RowsCarry | straindb/normalize_csv.py:64-96 | every row the clause loop writes carries the strain cells it was given |
| Normalize.StrainRows | straindb/normalize_csv.py:58-96 | a strain without a genotype gives one row with `NULL` in the five allele columns; otherwise every allele record gives one row, clause after clause, carrying the source and other names swapped as the script writes them |
| Normalize.StrainStopsAtThirdSet | straindb/normalize_csv.py:70-74 | a clause with a non-empty third set raises: the rows of the clauses before it stay, and nothing of it or after it is written |
| Normalize.SwappedColumns | straindb/normalize_csv.py:91-93 | the row as written puts the other names under the source header, unlike the corrected row |
| Normalize.SwappedColumnsExample | straindb/normalize_csv.py:91-93 | a concrete strain row whose written row has its source and other names swapped |
| Normalize.CollectNames | straindb/normalize_csv.py:70-74 | the first pass raises iff a set after the second one is non-empty, and otherwise collects the names of the first two sets |
| Normalize.WriteItem | straindb/normalize_csv.py:77-96 | the second pass writes the rows of the clause, set by set, record by record, each with the other-names cell before the source cell as the script writes them |
| Normalize.FlattenStrain | straindb/normalize_csv.py:44-96 | the rows written for one strain, and whether it raised, are those `StrainOutcome` defines: one header-order row without a genotype, else the allele rows with source and other names swapped, clause after clause, up to the first clause that raises |
| Normalize.NormalizeStrains | straindb/normalize_csv.py:42-96 | the pass writes each strain's rows, as the script writes them, in order and stops at the first strain that raises |
| Normalize.CellValue | straindb/normalize_csv.py:115 | an empty cell reads `NULL`; any other cell is stripped |
| Normalize.PlasmidRowsShape | straindb/normalize_csv.py:113-129 | an allele gives one row more than its plasmid cell has separators; each row carries the allele's line number, name, type, gene and comment, and a plasmid name without a separator and without whitespace next to a separator at either end |
| Normalize.EmptyPlasmidCell | straindb/normalize_csv.py:115-129 | an empty plasmid cell gives one row whose plasmid is `NULL` |
| Normalize.PlasmidListRoundTrip | straindb/normalize_csv.py:127 | a plasmid list of trimmed names joined by commas splits back into exactly those names |
| Normalize.AlleleTableRowCount | straindb/normalize_csv.py:113-129 | every allele row gives at least one output row |
| Normalize.NormalizeAlleles | straindb/normalize_csv.py:113-129 | the pass writes each allele's plasmid rows, in order |
| Normalize.SplitPlasmids | straindb/normalize_csv.py:127-129 | one allele's rows are written in the order of its plasmid list |
| Normalize.PlasmidRows | straindb/normalize_csv.py:127-129 | the rows of one allele, one per plasmid name; `Normalize.PlasmidRowsShape` states their number and cells |
| Filter.ErrorFile.constructor | straindb/filter_csv.py:31-36 | a new error file is empty and its count is zero |
| Filter.ErrorFile.WriteFailure | straindb/filter_csv.py:31-36 | the failing row is appended and the count goes up by one, so the count always equals the number of rows |
| Filter.Stripped | straindb/filter_csv.py:294 | stripping a row keeps its number of cells, and each cell becomes its stripped text |
| Filter.StrippedRows | straindb/filter_csv.py:294 | stripping keeps the number of rows and of cells per row, and each cell becomes its stripped text |
| Filter.CheckName | straindb/filter_csv.py:306-318 | a name is new iff it is valid and not seen, and a duplicate iff it is valid and seen; an invalid name is never a duplicate |
| Filter.CheckNameKeeps | straindb/filter_csv.py:306-318 | seen names stay valid and distinct, and accepted names stay distinct and among them |
| Filter.CheckGenotype | straindb/filter_csv.py:320-334 | an empty genotype is allowed; it has bad characters iff a character falls outside the allowed set; it is unparsable iff the characters pass and the parser fails |
| Filter.CleanStrainRow | straindb/filter_csv.py:336-346 | an accepted strain keeps its line number, name and genotype; its source and other names are their cells, or `NULL` when empty; its comment has every newline turned into a space, or is `NULL` when empty; so no optional cell is empty and no comment holds a newline |
| Filter.StrainRowStep | straindb/filter_csv.py:300-347 | one strain row checked with a given genotype text: the name check, the genotype check, and the cleaned row when neither failed; `Filter.StrainStepKeeps`, `Filter.InvalidStrainNameFirst`, `Filter.DuplicateStrainRejected`, `Filter.RejectedStrainStillSeen` and `Filter.UnparsableGenotypeSilent` state its cases |
| Filter.StrainStepAsWritten | straindb/filter_csv.py:300-347 | the step as written, the genotype cell checked as it is; `Filter.WriteStrainRow` is proved to perform it |
| Filter.StrainStep | straindb/filter_csv.py:300-347 | the corrected step, a genotype `WT` read as none; `Filter.WildTypeAsWritten` states where it differs |
| Filter.FilterStrains | straindb/filter_csv.py:292-347 | the as-written step folded over the rows; `Filter.AcceptedStrains` and `Filter.StrainNamesAccounted` state what it keeps |
| Filter.StrainLoopStep | straindb/filter_csv.py:292-294 | the row at index `j` is line `j + 2` and extends the pass by one step |
| Filter.StrainStepKeeps | straindb/filter_csv.py:292-347 | one row, whatever genotype text it is checked with, keeps the strain pass's invariant: valid, distinct names, and clean written rows |
| Filter.AcceptedStrains | straindb/filter_csv.py:292-347 | in the pass as written, the written strains have valid, pairwise distinct names, no empty optional cell and no newline in a comment |
| Filter.StrainNamesAccounted | straindb/filter_csv.py:305-318 | every strain row either joins the seen names or goes to exactly one name error file; no more rows are written than names seen |
| Filter.InvalidStrainNameFirst | straindb/filter_csv.py:306-309 | an invalid name goes to the invalid-name file and not the duplicate file, and it is not seen |
| Filter.UnparsableGenotypeSilent | straindb/filter_csv.py:320-332 | a new valid strain whose genotype has allowed characters and does not parse fails without going to any error file; its name is still seen |
| Filter.RejectedStrainStillSeen | straindb/filter_csv.py:316-325 | a strain rejected for its genotype's characters goes to the invalid-genotype file, and its name is still seen |
| Filter.DuplicateStrainRejected | straindb/filter_csv.py:311-314 | a valid name seen before goes to the duplicate file and is not written, whatever its genotype |
| Filter.WildTypeAsWritten | straindb/filter_csv.py:302 | with the intended test, a new valid strain with genotype `WT` is written with no genotype; with the test as written, its row comes out otherwise |
| Filter.WriteStrainRow | straindb/filter_csv.py:294-347 | one row updates the seen names, the written rows and the three error files exactly as the step as written says, the wild-type test never holding |
| Filter.WriteStrainRows | straindb/filter_csv.py:292-349 | the loop leaves the state of the fold of the as-written step over all rows, and counts every row and every success |
| Filter.WriteStrains | straindb/filter_csv.py:292-349 | the pass strips the raw rows and filters them with the genotype parser |
| Filter.AlleleLoopStep | straindb/filter_csv.py:202-204 | the row at index `j` is line `j + 2` and extends the pass by one step |
| Filter.AlleleStep | straindb/filter_csv.py:212-237 | one allele row: the name parsed, the duplicate check on the cleaned name, the cleaned row when neither failed; `Filter.AlleleStepKeeps`, `Filter.CleanedNameSeen` and `Filter.CleanedNameDuplicate` state its cases |
| Filter.FilterAlleles | straindb/filter_csv.py:202-237 | the allele step folded over the rows; `Filter.AcceptedAlleles` and `Filter.AlleleRowsAccounted` state what it keeps |
| Filter.AlleleStepKeeps | straindb/filter_csv.py:202-237 | one row keeps the cleaned names seen valid and distinct, and the written names among them |
| Filter.AcceptedAlleles | straindb/filter_csv.py:202-237 | the written alleles have pairwise distinct cleaned names, each one the parser gives back unchanged |
| Filter.AlleleRowsAccounted | straindb/filter_csv.py:212-237 | every allele row is written, or goes to exactly one of the invalid-name and duplicate files |
| Filter.CleanedNameSeen | straindb/filter_csv.py:212-228 | a name the parser accepts leaves its cleaned name among the seen names |
| Filter.CleanedNameDuplicate | straindb/filter_csv.py:221-224 | a row whose cleaned name was seen goes to the duplicate file and is not written |
| Filter.SuffixedDuplicate | straindb/filter_csv.py:212-224 | `tm290a` after `tm290` is a duplicate, since duplicates are found after cleaning |
| Filter.WriteAlleleRow | straindb/filter_csv.py:204-237 | one row updates the seen names, the written rows and the two error files exactly as the step function says |
| Filter.WriteAlleleRows | straindb/filter_csv.py:202-239 | the loop leaves the state of the fold over all rows, and counts every row and every success |
| Filter.WriteAlleles | straindb/filter_csv.py:202-239 | the pass strips the raw rows and filters them with the allele parser |
| Filter.LettersThenDigitMatches | straindb/filter_csv.py:112 | the recursive test holds iff a run of at least the required letters is followed by a digit |
| Filter.PlasmidNamePattern | straindb/filter_csv.py:112 | a plasmid name is valid iff it starts with `p`, then one or more letters, then a digit |
| Filter.ReadDate | straindb/filter_csv.py:126-135 | an empty date is allowed; a non-empty date is bad iff the parser rejects it, an uncaught error iff the parser raises any other error, and otherwise it is the parser's rendering |
| Filter.CleanPlasmidRow | straindb/filter_csv.py:142-147 | an accepted plasmid keeps its line number, name, expanded name and date; its source, parents and restriction site are their cells, or `NULL` when empty |
| Filter.PlasmidStep | straindb/filter_csv.py:110-147 | the corrected step, any failure of the date parser failing the row; `Filter.PlasmidDate` states its date handling |
| Filter.PlasmidStepAsWritten | straindb/filter_csv.py:110-147 | the step as written, carrying the last parsed date and whether the pass ended, by an unbound date or an uncaught parser error; `Filter.PlasmidDateAsWritten` states its date handling and `Filter.WritePlasmidRow` is proved to perform it |
| Filter.FilterPlasmids | straindb/filter_csv.py:98-147 | the as-written step folded over the rows; `Filter.AcceptedPlasmids`, `Filter.PlasmidNamesAccounted` and `Filter.PlasmidPassStops` state what it keeps |
| Filter.PlasmidLoopStep | straindb/filter_csv.py:98-100 | the row at index `j` is line `j + 2` and extends the pass by one step |
| Filter.PlasmidStepKeeps | straindb/filter_csv.py:98-147 | one row of the pass as written keeps the plasmid invariant (valid, distinct names, non-empty expanded names), also when it takes an earlier row's date or ends the pass |
| Filter.AcceptedPlasmids | straindb/filter_csv.py:98-147 | in the pass as written, the written plasmids have valid, pairwise distinct names and non-empty expanded names |
| Filter.PlasmidNamesAccounted | straindb/filter_csv.py:110-135 | every row the pass reaches either joins the seen names or goes to exactly one name error file, and when no date ends the pass that is every row; no more rows are written than names seen |
| Filter.PlasmidTwoFailures | straindb/filter_csv.py:112-140 | a row with an invalid name and an empty expanded name, whose date does not end the pass, goes to both error files and is not written |
| Filter.PlasmidDate | straindb/filter_csv.py:126-147 | with the corrected step, a date the parser fails on sends the row to the invalid-date file and the row is not written; a written row's date is `NULL` or its own cell's rendering |
| Filter.PlasmidDateAsWritten | straindb/filter_csv.py:126-135 | as written, a parsed date becomes the last date; a rejected one goes to the invalid-date file; the pass ends exactly when the parser raises an error other than a rejection, which logs nothing and writes nothing, or rejects the date before any row has parsed one; a written row's date is `NULL` for an empty cell and the last parsed date otherwise |
| Filter.PlasmidPassStops | straindb/filter_csv.py:98-135 | once a row's date has ended the pass, the rows after it change nothing |
| Filter.StaleDateAsWritten | straindb/filter_csv.py:130-135 | as written, a new valid plasmid with a rejected date is logged as a bad date yet written with an earlier row's date |
| Filter.FirstBadDateAsWritten | straindb/filter_csv.py:130-135 | as written, a rejected date with no earlier parsed date ends the pass with an error |
| Filter.WritePlasmidRow | straindb/filter_csv.py:100-147 | one row updates the seen names, the written rows, the last parsed date and the four error files exactly as the step as written says, and reports whether its date ended the pass |
| Filter.WritePlasmidRows | straindb/filter_csv.py:98-150 | the loop leaves the state of the as-written fold over all rows and reports whether it ended with an error; it then stops right after the row that raised, else it processes every row; it counts every success |
| Filter.WritePlasmids | straindb/filter_csv.py:98-150 | the pass strips the raw rows and filters them with the date parser, as written, reporting whether a date ended it |

## Left out

- Reading and writing CSV files is not modelled: opening files, headers, `csv` readers and writers, and creating directories. Tables are sequences of rows of cells, and an error file is the list of the rows written to it.
- The error statistics of `filter_csv.py` are not modelled: the counts are printed and written to a file. With an empty table, the success rate divides by zero.
- The `DEBUG` branches are not modelled: the printing, and stopping after line 250. Module-level calls and command-line handling are not modelled either.
- Date parsing is not modelled. The `dateutil` parser with `fuzzy=True`, and the `year-month-day` text built from its result, are a parameter `parseDate`. It returns the text, a rejection (`ParserError`, which the pass catches), or another error (such as `OverflowError`, which it does not catch).
- Filter.WriteStrainRows: the genotype parser is a parameter. It is required to equal `Genotype.Parse`, and `Filter.WriteStrains` passes that parser.
- Filter.WriteAlleleRows: the allele parser is a parameter. It is required to equal `AlleleNames.ParseAllele`, and `Filter.WriteAlleles` passes that parser.
- Filter.CleanStrainRow: an accepted genotype is kept as the parsed structure. The model does not render it as Python text (`str(genotype_dict)`). For the same reason, `Normalize.StrainRow` holds that structure and does not parse it back with `ast.literal_eval`.
- Filter.WriteStrains, Filter.WriteAlleles and Filter.WritePlasmids require every row to have enough cells (16, 9 and 14). The source raises `IndexError` on a shorter row, and that error is not modelled.
- Filter.WriteStrains: all rows are stripped before the loop rather than one row at a time. The result is the same, since a row's check never looks at another row's raw cells.
- Filter.IsWildType: `str.upper()` is modelled on the ASCII letters of `WT` only. Other characters whose upper case is `W` or `T` are not considered.
- Normalize.NormalizeStrains: the `NULL` genotype cell and the clause dictionaries are read as the structure `Genotype.Parse` builds. Any other text in that cell is not modelled.
- The `sets` of a clause are kept as a list, in the order the source numbers them (`alleleset1`, `alleleset2`, ...). The source keeps them in a dictionary, whose insertion order it reads back.

## Findings

| source | as written | input that shows it | evidently intended | confidence | as-written member | corrected member |
|---|---|---|---|---|---|---|
| straindb/normalize_csv.py:91-93 | the strain-allele row lists `other_names` before `source`, but the header has `source` first | a strain with source `CGC` and other names `N2 male` gets `N2 male` in the source column | `source` then `other_names`, as the header says | high (not executed) | Normalize.SwappedColumns | Normalize.StrainColumns |
| straindb/filter_csv.py:302 | `genotype.upper == 'WT'` compares the bound method with a string, so the test is never true | a new valid strain whose genotype cell is `WT` is not treated as having no genotype | `genotype.upper() == 'WT'`, making a wild type an empty genotype | high (not executed) | Filter.WildTypeAsWritten | Filter.StrainStep |
| straindb/filter_csv.py:130-135 | a date that fails to parse is logged, yet the row is not failed; the date is then built from `dt` | a bad date after a good one writes the row with the earlier row's date; a bad date before any good one raises `UnboundLocalError` | a bad date fails the row, like the other checks | high (not executed) | Filter.StaleDateAsWritten | Filter.PlasmidDate |

The passes themselves follow the scripts as they are written
(`Normalize.StrainOutcome`, `Filter.StrainStepAsWritten`,
`Filter.PlasmidStepAsWritten`), and the as-written members above exhibit
each defect on them. The corrected definitions (`Normalize.IntendedStrainOutcome`,
`Filter.StrainStep`, `Filter.PlasmidStep`) stand beside them, and the
corrected members prove the intended behaviour of those.
