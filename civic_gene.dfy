/**
 * The gene builder: every row of the monthly GeneSummaries snapshot becomes a
 * row of the `civic_gene` table, its aliases taken from the GraphQL response
 * for the gene; the table is indexed once at the end.
 */
module CivicGeneBuild {
  import opened Wrappers
  import opened Json
  import opened PyStrings
  import Snapshot
  import TsvHeader
  import opened BuildLoop

  const BaseDownloadUrl: string := "https://civicdb.org/downloads"

  /** One row of the `civic_gene` table: `(gene_id, name, description, aliases)`. */
  datatype GeneRow = GeneRow(id: string, name: string, description: string, aliases: string)

  /** The URL of the current month's gene snapshot, for an injected (year, month). */
  function GeneFileUrl(year: int, month: int): (url: string)
    requires Snapshot.ValidMonth(year, month)
    ensures var n := |BaseDownloadUrl|;
      && |url| == n + 42
      && url[..n + 1] == BaseDownloadUrl + "/"
      && Snapshot.ParseFirstOfMonth(url[n + 1..n + 12]) == Some((year, month))
      && url[n + 12] == '/'
      && url[n + 13..n + 24] == url[n + 1..n + 12]
      && url[n + 24..] == "-GeneSummaries.tsv"
  {
    Snapshot.SnapshotUrl(BaseDownloadUrl, "GeneSummaries", year, month)
  }

  /** The strings of a list, if all its items are strings. */
  function AllStrings(items: seq<Json>): (r: Option<seq<string>>)
    ensures r.Some? <==> forall i :: 0 <= i < |items| ==> items[i].JStr?
    ensures r.Some? ==> |r.value| == |items| && forall i :: 0 <= i < |items| ==> items[i] == JStr(r.value[i])
    decreases |items|
  {
    if items == [] then Some([])
    else
      var rest := AllStrings(items[1..]);
      if items[0].JStr? && rest.Some? then Some([items[0].s] + rest.value) else None
  }

  /** The one-character strings `for c in s` yields. */
  function Chars(s: string): (r: seq<string>)
    ensures |r| == |s| && forall i :: 0 <= i < |s| ==> r[i] == [s[i]]
  {
    seq(|s|, i requires 0 <= i < |s| => [s[i]])
  }

  /**
   * `",".join(gene_json['data']['gene']['geneAliases'])`: a subscript that
   * fails raises KeyError or TypeError, and so does a list item that is not a
   * string; a string is joined character by character.
   */
  function GeneAliases(geneJson: Json): (r: Result<string>)
    ensures geneJson.JObj? && "data" !in geneJson.fields ==> r == Err(KeyError)
    ensures !geneJson.JObj? ==> r == Err(TypeError)
    ensures DeepGet(geneJson, ["data", "gene"]) == JNull ==> r.Err?
    ensures DeepGet(geneJson, ["data", "gene", "geneAliases"]) == JNull ==> r.Err?
    ensures DeepGet(geneJson, ["data", "gene", "geneAliases"]) == JArr([]) ==> r == Ok("")
  {
    match Index(geneJson, "data")
    case Err(e) => Err(e)
    case Ok(data) =>
      match Index(data, "gene")
      case Err(e) => Err(e)
      case Ok(gene) =>
        match Index(gene, "geneAliases")
        case Err(e) => Err(e)
        case Ok(aliasList) =>
          match aliasList
          case JArr(items) =>
            (match AllStrings(items)
             case None => Err(TypeError)
             case Some(aliases) => Ok(Join(",", aliases)))
          case JStr(s) => Ok(Join(",", Chars(s)))
          case _ => Err(TypeError)
  }

  /**
   * The alias column can be split back on `,` into the alias list, when the
   * list is not empty and no alias contains a comma.
   */
  lemma AliasesRoundTrip(geneJson: Json, aliases: seq<string>)
    requires DeepGet(geneJson, ["data", "gene", "geneAliases"]) == JArr(seq(|aliases|, i requires 0 <= i < |aliases| => JStr(aliases[i])))
    requires |aliases| > 0 && forall i :: 0 <= i < |aliases| ==> ',' !in aliases[i]
    ensures GeneAliases(geneJson).Ok?
    ensures Split(',', GeneAliases(geneJson).value) == aliases
  {
    var items := seq(|aliases|, i requires 0 <= i < |aliases| => JStr(aliases[i]));
    var data := geneJson.fields["data"];
    var gene := data.fields["gene"];
    assert gene.fields["geneAliases"] == JArr(items);
    var strings := AllStrings(items);
    assert strings.Some? && |strings.value| == |aliases|;
    assert forall i :: 0 <= i < |aliases| ==> items[i] == JStr(aliases[i]) == JStr(strings.value[i]);
    assert strings.value == aliases;
    SplitJoin(',', aliases);
  }

  /**
   * `get_gene_data`: the snapshot's id, name and description columns and the
   * joined aliases; a short row raises IndexError, a response without the alias
   * list raises as `GeneAliases` does. There is no skip.
   */
  function GetGeneData(gene: seq<string>, geneJson: Json, idIdx: nat, nameIdx: nat, descriptionIdx: nat): (r: Result<GeneRow>)
    ensures r.Ok? <==> idIdx < |gene| && nameIdx < |gene| && descriptionIdx < |gene| && GeneAliases(geneJson).Ok?
    ensures !(idIdx < |gene| && nameIdx < |gene| && descriptionIdx < |gene|) ==> r == Err(IndexError)
    ensures r.Ok? ==>
      && r.value.id == gene[idIdx] && r.value.name == gene[nameIdx] && r.value.description == gene[descriptionIdx]
      && Ok(r.value.aliases) == GeneAliases(geneJson)
  {
    if !(idIdx < |gene| && nameIdx < |gene| && descriptionIdx < |gene|) then Err(IndexError)
    else
      match GeneAliases(geneJson)
      case Err(e) => Err(e)
      case Ok(aliases) => Ok(GeneRow(gene[idIdx], gene[nameIdx], gene[descriptionIdx], aliases))
  }

  /** The column a header scan leaves: the last one with that name, or the index it had before. */
  function Column(header: seq<string>, name: string, previous: nat): (c: nat)
    ensures name !in header ==> c == previous
    ensures name in header ==> c < |header| && header[c] == name && forall j :: c < j < |header| ==> header[j] != name
  {
    match TsvHeader.LastIndex(header, name)
    case Some(i) => i
    case None => previous
  }

  /** One pass of the row loop of `main`: query the API with `gene[id_idx]`, then `get_gene_data`. */
  function GeneStep(idIdx: nat, nameIdx: nat, descriptionIdx: nat, fetch: string -> Json): (step: seq<string> -> Result<Option<GeneRow>>)
    ensures forall gene :: step(gene) != Ok(None)
  {
    gene =>
      if idIdx >= |gene| then Err(IndexError)
      else
        match GetGeneData(gene, fetch(gene[idIdx]), idIdx, nameIdx, descriptionIdx)
        case Err(e) => Err(e)
        case Ok(g) => Ok(Some(g))
  }

  /** The whole of `main` after the table is created, from the column indices the builder held. */
  function GeneRun(lines: seq<seq<string>>, fetch: string -> Json, idIdx: nat, nameIdx: nat, descriptionIdx: nat): (h: Harvest<GeneRow>)
    ensures lines == [] ==> h == Harvest([], Some(IndexError))
    ensures |h.inserted| <= if lines == [] then 0 else |lines| - 1
  {
    if lines == [] then Harvest([], Some(IndexError))
    else
      HarvestRows(lines[1..], GeneStep(Column(lines[0], "gene_id", idIdx), Column(lines[0], "name", nameIdx),
                                       Column(lines[0], "description", descriptionIdx), fetch))
  }

  /**
   * There is no skip path: a run that raises nothing inserts one row per data
   * row, in snapshot order, each the `get_gene_data` of its row.
   */
  lemma GeneRunInsertsEveryRow(lines: seq<seq<string>>, fetch: string -> Json, idIdx: nat, nameIdx: nat, descriptionIdx: nat)
    requires GeneRun(lines, fetch, idIdx, nameIdx, descriptionIdx).failure.None?
    ensures |lines| >= 1
    ensures var h := GeneRun(lines, fetch, idIdx, nameIdx, descriptionIdx);
      var id, name, description := Column(lines[0], "gene_id", idIdx), Column(lines[0], "name", nameIdx),
                                   Column(lines[0], "description", descriptionIdx);
      && |h.inserted| == |lines| - 1
      && forall i :: 1 <= i < |lines| ==>
           id < |lines[i]| && GetGeneData(lines[i], fetch(lines[i][id]), id, name, description) == Ok(h.inserted[i - 1])
  {
    var step := GeneStep(Column(lines[0], "gene_id", idIdx), Column(lines[0], "name", nameIdx),
                         Column(lines[0], "description", descriptionIdx), fetch);
    var data := lines[1..];
    HarvestRowsNoSkip(data, step);
    forall i | 1 <= i < |lines| ensures data[i - 1] == lines[i] { }
  }

  /** `CivicDB` over the `civic_gene` table: its rows, and whether `civic_gene_index` exists. */
  class CivicDB {
    var hasTable: bool
    var rows: seq<GeneRow>
    var indexed: bool

    /** Connecting to `civic_gene.sqlite`, which may still hold a previous run's table. */
    constructor (hasTable: bool, rows: seq<GeneRow>, indexed: bool)
      ensures this.hasTable == hasTable && this.rows == rows && this.indexed == indexed
    {
      this.hasTable := hasTable;
      this.rows := rows;
      this.indexed := indexed;
    }

    /** `DROP TABLE IF EXISTS civic_gene` (and its index) and `CREATE TABLE civic_gene`. */
    method CreateVariantTable()
      modifies this
      ensures hasTable && rows == [] && !indexed
    {
      hasTable, rows, indexed := true, [], false;
    }

    /** `INSERT INTO civic_gene(...)`: one row appended, nothing else changed. */
    method InsertGene(row: GeneRow)
      requires hasTable
      modifies this
      ensures hasTable && indexed == old(indexed)
      ensures rows == old(rows) + [row]
    {
      rows := rows + [row];
    }

    /** `CREATE INDEX civic_gene_index ON civic_gene (name)`: the rows are left as they are. */
    method CreateIndex()
      requires hasTable && !indexed
      modifies this
      ensures hasTable && indexed && rows == old(rows)
    {
      indexed := true;
    }
  }

  /** `CivicBuilder` of the gene script: the three column indices its header scan sets. */
  class CivicBuilder {
    var idIdx: nat
    var nameIdx: nat
    var descriptionIdx: nat

    constructor ()
      ensures idIdx == 0 && nameIdx == 0 && descriptionIdx == 0
    {
      idIdx, nameIdx, descriptionIdx := 0, 0, 0;
    }

    /**
     * The header loop of `main`: each of `gene_id`, `name` and `description`
     * sets its index to the column's position, the last occurrence winning; a
     * column that is absent leaves its index as it was.
     */
    method ScanHeader(header: seq<string>)
      modifies this
      ensures idIdx == Column(header, "gene_id", old(idIdx))
      ensures nameIdx == Column(header, "name", old(nameIdx))
      ensures descriptionIdx == Column(header, "description", old(descriptionIdx))
    {
      for i := 0 to |header|
        invariant idIdx == Column(header[..i], "gene_id", old(idIdx))
        invariant nameIdx == Column(header[..i], "name", old(nameIdx))
        invariant descriptionIdx == Column(header[..i], "description", old(descriptionIdx))
      {
        assert header[..i + 1][..i] == header[..i];
        if header[i] == "gene_id" {
          idIdx := i;
        } else if header[i] == "name" {
          nameIdx := i;
        } else if header[i] == "description" {
          descriptionIdx := i;
        }
      }
      assert header[..|header|] == header;
    }

    /**
     * `main` with the snapshot's rows and the API given as inputs: recreate the
     * table, scan the header, insert one row per data row while counting, and
     * build the index once at the end. An exception leaves the rows inserted so
     * far (the connection still commits) and no index.
     */
    method BuildGeneTable(lines: seq<seq<string>>, fetch: string -> Json, db: CivicDB) returns (outcome: Result<nat>)
      modifies this, db
      ensures lines == [] ==> idIdx == old(idIdx) && nameIdx == old(nameIdx) && descriptionIdx == old(descriptionIdx)
      ensures lines != [] ==>
        && idIdx == Column(lines[0], "gene_id", old(idIdx))
        && nameIdx == Column(lines[0], "name", old(nameIdx))
        && descriptionIdx == Column(lines[0], "description", old(descriptionIdx))
      ensures db.hasTable
      ensures db.rows == GeneRun(lines, fetch, old(idIdx), old(nameIdx), old(descriptionIdx)).inserted
      ensures db.indexed <==> GeneRun(lines, fetch, old(idIdx), old(nameIdx), old(descriptionIdx)).failure.None?
      ensures outcome == match GeneRun(lines, fetch, old(idIdx), old(nameIdx), old(descriptionIdx)).failure
        case None => Ok(|db.rows|)
        case Some(e) => Err(e)
    {
      db.CreateVariantTable();
      if lines == [] {
        return Err(IndexError);
      }
      ScanHeader(lines[0]);
      var data := lines[1..];
      ghost var step := GeneStep(idIdx, nameIdx, descriptionIdx, fetch);
      var total := 0;
      var i := 0;
      while i < |data|
        invariant 0 <= i <= |data|
        invariant db.hasTable && !db.indexed
        invariant step == GeneStep(idIdx, nameIdx, descriptionIdx, fetch)
        invariant idIdx == Column(lines[0], "gene_id", old(idIdx))
        invariant nameIdx == Column(lines[0], "name", old(nameIdx))
        invariant descriptionIdx == Column(lines[0], "description", old(descriptionIdx))
        invariant HarvestRows(data[..i], step).failure.None?
        invariant db.rows == HarvestRows(data[..i], step).inserted
        invariant total == |db.rows|
      {
        var gene := data[i];
        HarvestRowsAppend(data[..i], [gene], step);
        HarvestRowsAppend(data[..i + 1], data[i + 1..], step);
        assert data[..i] + [gene] == data[..i + 1];
        assert data[..i + 1] + data[i + 1..] == data;
        if idIdx >= |gene| {
          return Err(IndexError);
        }
        var geneId := gene[idIdx];
        var gJson := fetch(geneId);
        var geneData := GetGeneData(gene, gJson, idIdx, nameIdx, descriptionIdx);
        match geneData {
          case Err(e) =>
            return Err(e);
          case Ok(g) =>
            total := total + 1;
            db.InsertGene(g);
        }
        i := i + 1;
      }
      assert data[..i] == data;
      db.CreateIndex();
      return Ok(total);
    }
  }
}
