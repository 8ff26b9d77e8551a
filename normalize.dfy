/**
 * The normalisation pass: every strain row of the filtered strain table
 * becomes one row of the strain-allele table per allele record of its
 * genotype, and every allele row of the filtered allele table becomes one
 * row per plasmid of its plasmid list.
 */
module Normalize {
  import opened Options
  import opened Text
  import opened Sequences
  import opened Genotype

  const NULL := "NULL"

  // ---------------------------------------------------------------------
  // Strain table
  // ---------------------------------------------------------------------

  /** A row of the filtered strain table. The genotype cell is read back
   *  into the structure the genotype parser built, or is `None` when the
   *  cell says `NULL`. */
  datatype StrainRow = StrainRow(
    lineNumber: string, name: string, genotype: Option<seq<Item>>,
    source: string, otherNames: string, comment: string)

  /** A column that holds a number, or the text `NULL`. */
  datatype Number = NullNumber | Int(value: int)

  /** A row of the strain-allele table, one field per header column. */
  datatype StrainAlleleRow = StrainAlleleRow(
    lineNumber: string, strainName: string, chromosome: string,
    allelesetId: Number, alleleName: string, geneName: string, heterozygous: Number,
    source: string, otherName: string, comment: string)

  /** Every text cell of the row stripped of surrounding whitespace. */
  function Stripped(s: StrainRow): StrainRow {
    StrainRow(Strip(s.lineNumber), Strip(s.name), s.genotype,
              Strip(s.source), Strip(s.otherNames), Strip(s.comment))
  }

  /** The single row of a strain without a genotype. */
  function NullRow(t: StrainRow): StrainAlleleRow {
    StrainAlleleRow(t.lineNumber, t.name, NULL, NullNumber, NULL, NULL, NullNumber,
                    t.source, t.otherNames, t.comment)
  }

  /** The names of set `j` of a clause, as the first pass collects them:
   *  none when the clause has no such set. */
  function SlotNames(sets: seq<seq<Allele>>, j: nat): seq<string> {
    if j < |sets| then Names(sets[j]) else []
  }

  function Names(aset: seq<Allele>): seq<string> {
    seq(|aset|, k requires 0 <= k < |aset| => aset[k].name)
  }

  /** The names an allele of set `i` is compared with: those of the other
   *  of the first two sets. */
  function Opposing(sets: seq<seq<Allele>>, i: nat): seq<string> {
    if i == 0 then SlotNames(sets, 1) else if i == 1 then SlotNames(sets, 0) else []
  }

  /** The heterozygous column: 1 for an allele the parser marked
   *  heterozygous whose name does not also occur in the opposing set,
   *  0 otherwise. */
  function HetValue(a: Allele, opposing: seq<string>): (h: int)
    ensures h == 0 || h == 1
    ensures h == 1 <==> a.heterozygous && a.name !in opposing
  {
    var flag := if a.heterozygous then 1 else 0;
    if a.name in opposing then 0 else flag
  }

  /** The row of allele `a` of set `i` of clause `item`, columns in header
   *  order. */
  function AlleleRow(t: StrainRow, item: Item, i: nat, a: Allele): StrainAlleleRow {
    StrainAlleleRow(
      t.lineNumber, t.name,
      if item.chromosome.Some? then Label(item.chromosome.value) else NULL,
      Int(i + 1), a.name,
      if a.gene.Some? then a.gene.value else NULL,
      Int(HetValue(a, Opposing(item.allelesets, i))),
      t.source, t.otherNames, t.comment)
  }

  /** The strain's cells in the order the script writes them into an
   *  allele row: the other-names cell where the source belongs, and the
   *  source cell where the other names belong. */
  function AsWritten(t: StrainRow): StrainRow {
    t.(source := t.otherNames, otherNames := t.source)
  }

  /** The row as the script writes it: the other-names cell under the
   *  `source` header and the source cell under `other_name`. */
  function AlleleRowAsWritten(t: StrainRow, item: Item, i: nat, a: Allele): StrainAlleleRow {
    AlleleRow(AsWritten(t), item, i, a)
  }

  /** The script's columns disagree with its header whenever the two cells
   *  differ, while the row of a strain without a genotype follows the
   *  header. */
  lemma SwappedColumns(t: StrainRow, item: Item, i: nat, a: Allele)
    requires t.source != t.otherNames
    ensures AlleleRowAsWritten(t, item, i, a).source == t.otherNames != NullRow(t).source
    ensures AlleleRowAsWritten(t, item, i, a) != AlleleRow(t, item, i, a)
  {
  }

  /** A concrete strain showing the swap. */
  lemma SwappedColumnsExample()
    ensures var t := StrainRow("2", "CHB1", Some([]), "CGC", "N2 male", "");
            var row := AlleleRowAsWritten(t, Item(Some(X), [[Allele("e1", None, false)]]), 0, Allele("e1", None, false));
            row.source == "N2 male" && row.otherName == "CGC"
  {
  }

  /** The rows of set `i` of a clause, one per allele, in order. */
  function SetRows(t: StrainRow, item: Item, i: nat): seq<StrainAlleleRow>
    requires i < |item.allelesets|
  {
    var aset := item.allelesets[i];
    seq(|aset|, k requires 0 <= k < |aset| => AlleleRow(t, item, i, aset[k]))
  }

  function RowBlocks(t: StrainRow, item: Item): (r: seq<seq<StrainAlleleRow>>)
    ensures |r| == |item.allelesets|
  {
    seq(|item.allelesets|, i requires 0 <= i < |item.allelesets| => SetRows(t, item, i))
  }

  /** The rows of one clause: set after set. */
  function ItemRows(t: StrainRow, item: Item): seq<StrainAlleleRow> {
    Flatten(RowBlocks(t, item))
  }

  /** Whether the first pass over the clause raises: the list of name lists
   *  has two slots, so the first allele of a third or later set has no
   *  slot to go to. */
  predicate ItemRaises(item: Item) {
    exists i :: 2 <= i < |item.allelesets| && item.allelesets[i] != []
  }

  function ItemOutcome(t: StrainRow, item: Item): (seq<StrainAlleleRow>, bool) {
    if ItemRaises(item) then ([], true) else (ItemRows(t, item), false)
  }

  function ItemStep(t: StrainRow): Item -> (seq<StrainAlleleRow>, bool) {
    item => ItemOutcome(t, item)
  }

  /** The rows for the stripped strain row `t`, its allele rows taking their
   *  strain cells from `cells`, and whether writing them raised. */
  function RowsOf(t: StrainRow, cells: StrainRow): (seq<StrainAlleleRow>, bool) {
    if t.genotype.None? then ([NullRow(t)], false) else Run(ItemStep(cells), t.genotype.value)
  }

  /** The rows written for one strain row, and whether writing them raised:
   *  the row of a strain without a genotype follows the header, while its
   *  allele rows carry the source and other-names cells swapped. */
  function StrainOutcome(s: StrainRow): (seq<StrainAlleleRow>, bool) {
    var t := Stripped(s);
    RowsOf(t, AsWritten(t))
  }

  /** The rows the header calls for: every cell under its own header. */
  function IntendedStrainOutcome(s: StrainRow): (seq<StrainAlleleRow>, bool) {
    var t := Stripped(s);
    RowsOf(t, t)
  }

  /** The rows written for the whole strain table, and whether the pass
   *  stopped on an error. */
  function StrainTableOutcome(table: seq<StrainRow>): (seq<StrainAlleleRow>, bool) {
    Run(StrainOutcome, table)
  }

  /** The row of allele `k` of set `i` sits after the alleles of the sets
   *  before `i`; it carries set id `i + 1`, the allele's name and gene (or
   *  `NULL`), the clause's chromosome (or `NULL`), and heterozygous 1 exactly
   *  when the parser marked it so and its name is not in the opposing set.
   *  When the clause does not raise, the set id is 1 or 2. */
  lemma ItemRowsAt(t: StrainRow, item: Item, i: nat, k: nat)
    requires i < |item.allelesets| && k < |item.allelesets[i]|
    ensures var rows := ItemRows(t, item);
            var a := item.allelesets[i][k];
            var at := |Flatten(item.allelesets[..i])| + k;
            && |rows| == |Flatten(item.allelesets)|
            && at < |rows|
            && rows[at].allelesetId == Int(i + 1)
            && rows[at].alleleName == a.name
            && rows[at].geneName == (if a.gene.Some? then a.gene.value else NULL)
            && (rows[at].chromosome == NULL <==> item.chromosome.None?)
            && (item.chromosome.Some? ==> rows[at].chromosome == Label(item.chromosome.value))
            && (rows[at].heterozygous == Int(0) || rows[at].heterozygous == Int(1))
            && (rows[at].heterozygous == Int(1) <==> a.heterozygous && a.name !in Opposing(item.allelesets, i))
            && (!ItemRaises(item) ==> i < 2)
  {
    var rows := ItemRows(t, item);
    var a := item.allelesets[i][k];
    var at := |Flatten(item.allelesets[..i])| + k;
    ItemRowPlace(t, item, i, k);
    var r := AlleleRow(t, item, i, a);
    assert rows[at] == r;
    if item.chromosome.Some? {
      assert Label(item.chromosome.value) != NULL;
    }
    if i >= 2 {
      assert item.allelesets[i] != [];
      assert ItemRaises(item);
    }
  }

  /** Where the row of allele `k` of set `i` sits among the clause's rows. */
  lemma ItemRowPlace(t: StrainRow, item: Item, i: nat, k: nat)
    requires i < |item.allelesets| && k < |item.allelesets[i]|
    ensures var rows := ItemRows(t, item);
            var at := |Flatten(item.allelesets[..i])| + k;
            && |rows| == |Flatten(item.allelesets)| && at < |rows|
            && rows[at] == AlleleRow(t, item, i, item.allelesets[i][k])
  {
    var sets := item.allelesets;
    var blocks := RowBlocks(t, item);
    FlattenAt(blocks, i, k);
    FlattenSameLength(blocks, sets);
    assert |blocks[..i]| == |sets[..i]|;
    FlattenSameLength(blocks[..i], sets[..i]);
    assert blocks[i][k] == AlleleRow(t, item, i, sets[i][k]);
  }

  /** Every allele row built from `cells` carries its line number, name,
   *  source, other names and comment. */
  lemma RowsCarry(cells: StrainRow, items: seq<Item>)
    ensures var rows := Run(ItemStep(cells), items).0;
            forall k :: 0 <= k < |rows| ==> CarriesStrain(cells, rows[k])
  {
    forall j, k | 0 <= j < |items| && 0 <= k < |ItemStep(cells)(items[j]).0|
      ensures CarriesStrain(cells, ItemStep(cells)(items[j]).0[k])
    {
      var blocks := RowBlocks(cells, items[j]);
      FlattenHolds(blocks, r => CarriesStrain(cells, r));
    }
    RunHolds(ItemStep(cells), items, r => CarriesStrain(cells, r));
  }

  /** With the columns in header order, every row written for a strain
   *  carries that strain's own line number, name, source, other names and
   *  comment, each under its own header. */
  lemma StrainColumns(s: StrainRow)
    ensures var rows := IntendedStrainOutcome(s).0;
            forall k :: 0 <= k < |rows| ==> CarriesStrain(Stripped(s), rows[k])
  {
    var t := Stripped(s);
    if t.genotype.Some? {
      assert IntendedStrainOutcome(s) == Run(ItemStep(t), t.genotype.value);
      RowsCarry(t, t.genotype.value);
    }
  }

  /** As the script writes them, the row of a strain without a genotype
   *  follows the header, while every allele row carries the strain's other
   *  names under `source` and its source under `other_name`. */
  lemma StrainColumnsAsWritten(s: StrainRow)
    ensures var t := Stripped(s);
            var rows := StrainOutcome(s).0;
            forall k :: 0 <= k < |rows| ==>
              && rows[k].lineNumber == t.lineNumber && rows[k].strainName == t.name
              && rows[k].comment == t.comment
              && rows[k].source == (if t.genotype.None? then t.source else t.otherNames)
              && rows[k].otherName == (if t.genotype.None? then t.otherNames else t.source)
  {
    var t := Stripped(s);
    if t.genotype.Some? {
      var w := AsWritten(t);
      assert StrainOutcome(s) == Run(ItemStep(w), t.genotype.value);
      RowsCarry(w, t.genotype.value);
      var rows := StrainOutcome(s).0;
      forall k | 0 <= k < |rows|
        ensures rows[k].source == t.otherNames && rows[k].otherName == t.source
      {
        assert CarriesStrain(w, rows[k]);
      }
    }
  }

  predicate CarriesStrain(t: StrainRow, r: StrainAlleleRow) {
    && r.lineNumber == t.lineNumber && r.strainName == t.name
    && r.source == t.source && r.otherName == t.otherNames && r.comment == t.comment
  }

  /** A strain without a genotype gives exactly one row, with `NULL` in the
   *  chromosome, set id, allele, gene and heterozygous columns. A strain
   *  whose clauses have at most two non-empty sets each gives one row per
   *  allele record, clause after clause. */
  lemma StrainRows(s: StrainRow)
    ensures s.genotype.None? ==>
              var r := StrainOutcome(s);
              && !r.1 && |r.0| == 1
              && r.0[0].chromosome == NULL && r.0[0].allelesetId == NullNumber
              && r.0[0].alleleName == NULL && r.0[0].geneName == NULL
              && r.0[0].heterozygous == NullNumber
    ensures s.genotype.Some? && (forall j :: 0 <= j < |s.genotype.value| ==> !ItemRaises(s.genotype.value[j])) ==>
              var items := s.genotype.value;
              StrainOutcome(s) == (Flatten(seq(|items|, j requires 0 <= j < |items| => ItemRows(AsWritten(Stripped(s)), items[j]))), false)
  {
    var t := Stripped(s);
    var w := AsWritten(t);
    if t.genotype.Some? && forall j :: 0 <= j < |t.genotype.value| ==> !ItemRaises(t.genotype.value[j]) {
      var items := t.genotype.value;
      RunWithoutError(ItemStep(w), items);
      assert Outputs(ItemStep(w), items) == seq(|items|, j requires 0 <= j < |items| => ItemRows(w, items[j]));
    }
  }

  /** A clause with a third set that is not empty stops the pass: the rows
   *  of the clauses before it are written, nothing of it or after it. */
  lemma StrainStopsAtThirdSet(s: StrainRow, j: nat)
    requires s.genotype.Some? && j < |s.genotype.value|
    requires ItemRaises(s.genotype.value[j])
    requires forall i :: 0 <= i < j ==> !ItemRaises(s.genotype.value[i])
    ensures var items := s.genotype.value;
            StrainOutcome(s) == (Flatten(seq(j, i requires 0 <= i < j => ItemRows(AsWritten(Stripped(s)), items[i]))), true)
  {
    var t := Stripped(s);
    var w := AsWritten(t);
    var items := t.genotype.value;
    forall i | 0 <= i < j
      ensures ItemStep(w)(items[i]) == (ItemRows(w, items[i]), false)
    {
    }
    assert ItemStep(w)(items[j]) == ([], true);
    RunStopsAt(ItemStep(w), items, j);
    var out := Outputs(ItemStep(w), items[..j]);
    assert out == seq(j, i requires 0 <= i < j => ItemRows(w, items[i])) by {
      forall i | 0 <= i < j
        ensures out[i] == ItemRows(w, items[i])
      {
        assert items[..j][i] == items[i];
      }
    }
    assert Flatten(out) + [] == Flatten(out);
  }

  /** The first pass over a clause: the names of its first two sets. Raises
   *  (reported as `raised`) at the first allele of a later set. */
  method CollectNames(item: Item) returns (names0: seq<string>, names1: seq<string>, raised: bool)
    ensures raised == ItemRaises(item)
    ensures !raised ==> names0 == SlotNames(item.allelesets, 0) && names1 == SlotNames(item.allelesets, 1)
  {
    var sets := item.allelesets;
    names0, names1 := [], [];
    for i := 0 to |sets|
      invariant names0 == (if 0 < i then SlotNames(sets, 0) else [])
      invariant names1 == (if 1 < i then SlotNames(sets, 1) else [])
      invariant forall j :: 2 <= j < i ==> sets[j] == []
    {
      var aset := sets[i];
      for k := 0 to |aset|
        invariant i == 0 ==> names0 == Names(aset[..k]) && names1 == []
        invariant i == 1 ==> names0 == SlotNames(sets, 0) && names1 == Names(aset[..k])
        invariant i >= 2 ==> k == 0 && names0 == SlotNames(sets, 0) && names1 == SlotNames(sets, 1)
      {
        if i == 0 {
          assert Names(aset[..k + 1]) == Names(aset[..k]) + [aset[k].name];
          names0 := names0 + [aset[k].name];
        } else if i == 1 {
          assert Names(aset[..k + 1]) == Names(aset[..k]) + [aset[k].name];
          names1 := names1 + [aset[k].name];
        } else {
          raised := true;
          return;
        }
      }
      assert aset[..|aset|] == aset;
    }
    raised := false;
  }

  /** The second pass over a clause: its rows, set after set, each with the
   *  strain's other names before its source. */
  method WriteItem(t: StrainRow, item: Item, names0: seq<string>, names1: seq<string>)
    returns (rows: seq<StrainAlleleRow>)
    requires names0 == SlotNames(item.allelesets, 0) && names1 == SlotNames(item.allelesets, 1)
    ensures rows == ItemRows(AsWritten(t), item)
  {
    var sets := item.allelesets;
    ghost var w := AsWritten(t);
    var chromosome := if item.chromosome.Some? then Label(item.chromosome.value) else NULL;
    rows := [];
    for i := 0 to |sets|
      invariant rows == Flatten(RowBlocks(w, item)[..i])
    {
      var aset := sets[i];
      for k := 0 to |aset|
        invariant rows == Flatten(RowBlocks(w, item)[..i]) + SetRows(w, item, i)[..k]
      {
        var allele := aset[k];
        var gene := if allele.gene.Some? then allele.gene.value else NULL;
        var het := if allele.heterozygous then 1 else 0;
        if i == 0 {
          if allele.name in names1 { het := 0; }
        } else if i == 1 {
          if allele.name in names0 { het := 0; }
        }
        var row := StrainAlleleRow(t.lineNumber, t.name, chromosome, Int(i + 1), allele.name,
                                   gene, Int(het), t.otherNames, t.source, t.comment);
        assert row == AlleleRowAsWritten(t, item, i, allele);
        assert SetRows(w, item, i)[..k + 1] == SetRows(w, item, i)[..k] + [row];
        rows := rows + [row];
      }
      assert SetRows(w, item, i)[..|aset|] == RowBlocks(w, item)[i];
      FlattenSnoc(RowBlocks(w, item), i);
    }
    assert RowBlocks(w, item)[..|sets|] == RowBlocks(w, item);
  }

  /** The rows of one strain row, clause by clause, and whether a clause
   *  raised. */
  method FlattenStrain(s: StrainRow) returns (rows: seq<StrainAlleleRow>, raised: bool)
    ensures (rows, raised) == StrainOutcome(s)
  {
    var t := Stripped(s);
    if t.genotype.None? {
      rows, raised := [NullRow(t)], false;
      return;
    }
    var items := t.genotype.value;
    ghost var w := AsWritten(t);
    rows := [];
    for g := 0 to |items|
      invariant Run(ItemStep(w), items[..g]) == (rows, false)
    {
      var names0, names1, stop := CollectNames(items[g]);
      RunSnoc(ItemStep(w), items, g);
      if stop {
        assert ItemStep(w)(items[g]) == ([], true);
        assert rows + [] == rows;
        RunSticks(ItemStep(w), items, g + 1);
        raised := true;
        return;
      }
      var more := WriteItem(t, items[g], names0, names1);
      assert ItemStep(w)(items[g]) == (more, false);
      rows := rows + more;
    }
    assert items[..|items|] == items;
    raised := false;
  }

  /** The strain pass over the whole table; it ends at the first error. */
  method NormalizeStrains(table: seq<StrainRow>) returns (out: seq<StrainAlleleRow>, raised: bool)
    ensures (out, raised) == StrainTableOutcome(table)
  {
    out := [];
    for n := 0 to |table|
      invariant Run(StrainOutcome, table[..n]) == (out, false)
    {
      var rows, stop := FlattenStrain(table[n]);
      RunSnoc(StrainOutcome, table, n);
      out := out + rows;
      if stop {
        RunSticks(StrainOutcome, table, n + 1);
        raised := true;
        return;
      }
    }
    assert table[..|table|] == table;
    raised := false;
  }

  // ---------------------------------------------------------------------
  // Allele table
  // ---------------------------------------------------------------------

  /** A row of the filtered allele table. */
  datatype AlleleInput = AlleleInput(
    lineNumber: string, name: string, alleleType: string,
    gene: string, plasmids: string, comment: string)

  /** A row of the normalised allele table, one field per header column. */
  datatype AllelePlasmidRow = AllelePlasmidRow(
    lineNumber: string, alleleName: string, alleleType: string,
    geneName: string, plasmidName: string, comment: string)

  /** An empty cell reads as `NULL`; any other cell is stripped, so a cell
   *  of spaces reads as the empty text. */
  function CellValue(x: string): (r: string)
    ensures x == "" ==> r == NULL
    ensures x != "" ==> r == Strip(x)
  {
    if x == "" then NULL else Strip(x)
  }

  const PlasmidSeparators: set<char> := {',', ';'}

  /** The plasmid names of a plasmid cell. */
  function PlasmidNames(cell: string): seq<string> {
    SplitTrimmed(CellValue(cell), PlasmidSeparators)
  }

  /** The rows of one allele row: one per plasmid name. */
  function PlasmidRows(r: AlleleInput): seq<AllelePlasmidRow> {
    var names := PlasmidNames(r.plasmids);
    seq(|names|, k requires 0 <= k < |names| => PlasmidRow(r, names[k]))
  }

  /** The row of plasmid `plasmid` of allele row `r`. */
  function PlasmidRow(r: AlleleInput, plasmid: string): AllelePlasmidRow {
    AllelePlasmidRow(CellValue(r.lineNumber), CellValue(r.name), CellValue(r.alleleType),
                     CellValue(r.gene), plasmid, CellValue(r.comment))
  }

  /** The rows of the whole allele table, row after row. */
  function AlleleTableRows(table: seq<AlleleInput>): seq<AllelePlasmidRow> {
    Flatten(seq(|table|, j requires 0 <= j < |table| => PlasmidRows(table[j])))
  }

  /** An allele row gives one row per separator in its plasmid cell plus
   *  one; each carries the row's other cells and a plasmid name without a
   *  separator and without whitespace next to one. */
  lemma PlasmidRowsShape(r: AlleleInput)
    ensures var rows := PlasmidRows(r);
            var cell := CellValue(r.plasmids);
            && |rows| == 1 + Occurrences(cell, PlasmidSeparators)
            && (forall k :: 0 <= k < |rows| ==> NoneIn(rows[k].plasmidName, PlasmidSeparators))
            && (forall k :: 0 < k < |rows| && rows[k].plasmidName != [] ==> !IsSpace(rows[k].plasmidName[0]))
            && (forall k :: 0 <= k < |rows| - 1 && rows[k].plasmidName != [] ==>
                  !IsSpace(rows[k].plasmidName[|rows[k].plasmidName| - 1]))
            && (forall k :: 0 <= k < |rows| ==>
                  && rows[k].lineNumber == CellValue(r.lineNumber) && rows[k].alleleName == CellValue(r.name)
                  && rows[k].alleleType == CellValue(r.alleleType) && rows[k].geneName == CellValue(r.gene)
                  && rows[k].comment == CellValue(r.comment))
  {
    SplitTrimmedPieces(CellValue(r.plasmids), PlasmidSeparators);
  }

  /** An empty plasmid cell gives a single row whose plasmid name is
   *  `NULL`. */
  lemma EmptyPlasmidCell(r: AlleleInput)
    requires r.plasmids == ""
    ensures |PlasmidRows(r)| == 1 && PlasmidRows(r)[0].plasmidName == NULL
  {
    SplitOfPrefix(NULL, [], PlasmidSeparators);
    assert NULL + [] == NULL && NULL + "" == NULL;
    assert SplitRaw(NULL, PlasmidSeparators) == [NULL];
    assert TrimPiece(NULL, false, false) == NULL;
  }

  /** A plasmid list written as trimmed names joined by commas splits back
   *  into exactly those names. */
  lemma PlasmidListRoundTrip(names: seq<string>)
    requires |names| >= 1
    requires forall k :: 0 <= k < |names| ==> NoneIn(names[k], PlasmidSeparators) && names[k] != [] && Trimmed(names[k])
    ensures PlasmidNames(JoinWith(names, ',')) == names
  {
    var cell := JoinWith(names, ',');
    assert cell != "" by { JoinNonEmpty(names, ','); }
    assert Strip(cell) == cell by { StripOfJoin(names); }
    JoinThenSplitTrimmed(names, ',', PlasmidSeparators);
  }

  lemma {:induction false} JoinNonEmpty(names: seq<string>, c: char)
    requires |names| >= 1 && names[0] != []
    ensures JoinWith(names, c) != [] && JoinWith(names, c)[0] == names[0][0]
  {
  }

  /** The last character of a join is that of the last piece. */
  lemma {:induction false} JoinLast(names: seq<string>, c: char)
    requires |names| >= 1 && names[|names| - 1] != []
    ensures JoinWith(names, c) != []
    ensures JoinWith(names, c)[|JoinWith(names, c)| - 1] == names[|names| - 1][|names[|names| - 1]| - 1]
    decreases |names|
  {
    if |names| > 1 {
      JoinLast(names[1..], c);
    }
  }

  lemma StripOfJoin(names: seq<string>)
    requires |names| >= 1
    requires forall k :: 0 <= k < |names| ==> names[k] != [] && Trimmed(names[k])
    ensures Strip(JoinWith(names, ',')) == JoinWith(names, ',')
  {
    var cell := JoinWith(names, ',');
    JoinNonEmpty(names, ',');
    JoinLast(names, ',');
    StripShape(cell);
    assert SpanAt(cell, 0, Space) == 0;
    assert SpanBack(cell, |cell|, Space) == 0;
  }

  /** Every allele row gives at least one row. */
  lemma AlleleTableRowCount(table: seq<AlleleInput>)
    ensures |AlleleTableRows(table)| >= |table|
  {
    var parts := seq(|table|, j requires 0 <= j < |table| => PlasmidRows(table[j]));
    forall j | 0 <= j < |table|
      ensures parts[j] != []
    {
      PlasmidRowsShape(table[j]);
    }
    FlattenAtLeast(parts);
  }

  /** The allele pass: for every row, one row per plasmid name. */
  method NormalizeAlleles(table: seq<AlleleInput>) returns (out: seq<AllelePlasmidRow>)
    ensures out == AlleleTableRows(table)
  {
    ghost var parts := seq(|table|, j requires 0 <= j < |table| => PlasmidRows(table[j]));
    out := [];
    for n := 0 to |table|
      invariant out == Flatten(parts[..n])
    {
      var rows := SplitPlasmids(table[n]);
      out := out + rows;
      FlattenSnoc(parts, n);
    }
    assert parts[..|table|] == parts;
  }

  /** The rows of one allele row, plasmid by plasmid. */
  method SplitPlasmids(r: AlleleInput) returns (rows: seq<AllelePlasmidRow>)
    ensures rows == PlasmidRows(r)
  {
    var line, name, kind := CellValue(r.lineNumber), CellValue(r.name), CellValue(r.alleleType);
    var gene, plasmids, comment := CellValue(r.gene), CellValue(r.plasmids), CellValue(r.comment);
    var names := SplitTrimmed(plasmids, PlasmidSeparators);
    rows := [];
    for k := 0 to |names|
      invariant |rows| == k
      invariant forall j :: 0 <= j < k ==> rows[j] == PlasmidRow(r, names[j])
    {
      var row := AllelePlasmidRow(line, name, kind, gene, names[k], comment);
      rows := rows + [row];
    }
  }
}
