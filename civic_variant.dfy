/**
 * The variant builder: join each row of the monthly VariantSummaries snapshot
 * with the GraphQL response for its variant, lift the coordinates from hg19 to
 * hg38, summarise the evidence diseases, and append the result to the `civic`
 * table, which is indexed once at the end.
 */
module CivicVariantBuild {
  import opened Wrappers
  import opened Json
  import opened PyStrings
  import Snapshot
  import TsvHeader
  import opened BuildLoop

  const BaseDownloadUrl: string := "https://civicdb.org/downloads"

  /** One entry of a liftover answer: the target chromosome and position. */
  datatype Mapping = Mapping(chrom: string, pos: int)

  /**
   * `LiftOver('hg19', 'hg38').convert_coordinate(chrom, pos)`: `None` when the
   * chromosome is unknown to the chain file, otherwise the list of mappings.
   */
  type Lifter = (string, Json) -> Option<seq<Mapping>>

  /** The `(reference_build, chromosome, start)` triple of a successful conversion. */
  datatype Lifted = Lifted(build: string, chrom: string, pos: int)

  /** One row of the `civic` table, in the column order of the INSERT statement. */
  datatype VariantRow = VariantRow(
    id: string,
    chromosome: string,
    start: int,
    referenceBuild: string,
    referenceBase: Json,
    variantBase: Json,
    description: Json,
    molecularProfileScore: Json,
    diseases: string)

  const VariantPath: seq<string> := ["data", "variant"]
  const ProfilePath: seq<string> := VariantPath + ["singleVariantMolecularProfile"]
  const CoordinatesPath: seq<string> := VariantPath + ["primaryCoordinates"]

  // ---------------------------------------------------------------------------
  // get_diseases

  /** `deep_get(e, 'disease', 'name')` for one evidence entry. */
  function DiseaseName(e: Json): Json
  {
    DeepGet(e, ["disease", "name"])
  }

  /** A name `sorted` and `", ".join` accept: absent (dropped) or a string. */
  predicate NameOk(e: Json)
  {
    DiseaseName(e).JNull? || DiseaseName(e).JStr?
  }

  /**
   * The non-`None` disease names of the entries, in list order; a name that is
   * neither `None` nor a string makes the set, `sorted` or `join` raise TypeError.
   */
  function DiseaseNames(items: seq<Json>): (r: Result<seq<string>>)
    ensures r.Ok? <==> forall i :: 0 <= i < |items| ==> NameOk(items[i])
    ensures r.Err? ==> r.error == TypeError
    ensures r.Ok? ==> forall n :: n in r.value <==> exists i :: 0 <= i < |items| && DiseaseName(items[i]) == JStr(n)
    decreases |items|
  {
    if items == [] then Ok([])
    else
      var rest := DiseaseNames(items[1..]);
      var name := DiseaseName(items[0]);
      assert forall i :: 1 <= i < |items| ==> items[i] == items[1..][i - 1];
      if rest.Err? || !(name.JNull? || name.JStr?) then Err(TypeError)
      else if name.JStr? then Ok([name.s] + rest.value)
      else rest
  }

  /**
   * `get_diseases(evidence)`: iterating `None` or a number raises TypeError; a
   * mapping or a string iterates keys or characters, none of which has a
   * disease, so the summary is empty; a list gives the `", "`-join of the
   * sorted set of its disease names.
   */
  function GetDiseases(evidence: Json): (r: Result<string>)
    ensures !(evidence.JArr? || evidence.JObj? || evidence.JStr?) ==> r == Err(TypeError)
    ensures evidence.JObj? || evidence.JStr? ==> r == Ok("")
    ensures evidence.JArr? ==>
      (r.Ok? <==> forall i :: 0 <= i < |evidence.items| ==> NameOk(evidence.items[i]))
  {
    match evidence
    case JArr(items) =>
      (match DiseaseNames(items)
       case Err(e) => Err(e)
       case Ok(names) => Ok(Join(", ", SortedSet(names))))
    case JObj(_) => Ok("")
    case JStr(_) => Ok("")
    case _ => Err(TypeError)
  }

  /**
   * A summary is the join of a strictly ascending, duplicate-free list that
   * holds exactly the names present among the entries.
   */
  lemma {:induction false} GetDiseasesSorted(items: seq<Json>)
    requires forall i :: 0 <= i < |items| ==> NameOk(items[i])
    ensures var s := SortedSet(DiseaseNames(items).value);
      && GetDiseases(JArr(items)) == Ok(Join(", ", s))
      && StrictlySorted(s)
      && (forall i, j :: 0 <= i < j < |s| ==> s[i] != s[j])
      && (forall n :: n in s <==> exists i :: 0 <= i < |items| && DiseaseName(items[i]) == JStr(n))
  {
    var s := SortedSet(DiseaseNames(items).value);
    forall i, j | 0 <= i < j < |s| ensures s[i] != s[j] {
      LessIrreflexive(s[i]);
    }
  }

  /** With no names at all (in particular for an empty list) the summary is `""`. */
  lemma {:induction false} GetDiseasesEmpty(items: seq<Json>)
    requires forall i :: 0 <= i < |items| ==> DiseaseName(items[i]) == JNull
    ensures GetDiseases(JArr(items)) == Ok("")
  {
    var names := DiseaseNames(items).value;
    HeadIn(names);
    var s := SortedSet(names);
    HeadIn(s);
    assert s == [];
  }

  /** Two evidence lists with the same entries give the same names, as a set. */
  lemma DiseaseNamesSameEntries(a: seq<Json>, b: seq<Json>)
    requires forall e :: e in a <==> e in b
    ensures DiseaseNames(a).Ok? <==> DiseaseNames(b).Ok?
    ensures DiseaseNames(a).Ok? ==> forall n :: n in DiseaseNames(a).value <==> n in DiseaseNames(b).value
  {
    if !DiseaseNames(b).Ok? {
      var j :| 0 <= j < |b| && !NameOk(b[j]);
      assert b[j] in a;
    }
    if !DiseaseNames(a).Ok? {
      var i :| 0 <= i < |a| && !NameOk(a[i]);
      assert a[i] in b;
    }
    if DiseaseNames(a).Ok? {
      forall n ensures n in DiseaseNames(a).value <==> n in DiseaseNames(b).value {
        if n in DiseaseNames(a).value {
          var i :| 0 <= i < |a| && DiseaseName(a[i]) == JStr(n);
          assert a[i] in b;
          var j :| 0 <= j < |b| && b[j] == a[i];
        }
        if n in DiseaseNames(b).value {
          var j :| 0 <= j < |b| && DiseaseName(b[j]) == JStr(n);
          assert b[j] in a;
          var i :| 0 <= i < |a| && a[i] == b[j];
        }
      }
    }
  }

  /** The summary does not depend on the order of the evidence list. */
  lemma GetDiseasesOrderFree(a: seq<Json>, b: seq<Json>)
    requires multiset(a) == multiset(b)
    ensures GetDiseases(JArr(a)) == GetDiseases(JArr(b))
  {
    forall e ensures e in a <==> e in b {
      assert e in a <==> e in multiset(a);
      assert e in b <==> e in multiset(b);
    }
    DiseaseNamesSameEntries(a, b);
    if DiseaseNames(a).Ok? {
      SortedUnique(SortedSet(DiseaseNames(a).value), SortedSet(DiseaseNames(b).value));
    }
  }

  // ---------------------------------------------------------------------------
  // normalize_position

  /** The two spellings of the legacy build that `normalize_position` converts. */
  predicate IsLegacyBuild(referenceBuild: Json)
  {
    referenceBuild == JStr("GRCH37") || referenceBuild == JStr("hg19")
  }

  /** `normalize_position`: only hg19 coordinates are converted, to the first liftover mapping. */
  function NormalizePosition(referenceBuild: Json, chrom: Json, startPos: Json, lift: Lifter): (r: Option<Lifted>)
    ensures !IsLegacyBuild(referenceBuild) ==> r == None
    ensures r.Some? <==>
      IsLegacyBuild(referenceBuild)
      && lift("chr" + Str(chrom), startPos).Some? && |lift("chr" + Str(chrom), startPos).value| > 0
    ensures r.Some? ==>
      var first := lift("chr" + Str(chrom), startPos).value[0];
      r.value == Lifted("hg38", first.chrom, first.pos)
  {
    if !IsLegacyBuild(referenceBuild) then None
    else
      var startCoords := lift("chr" + Str(chrom), startPos);
      if startCoords.Some? && |startCoords.value| > 0 then
        Some(Lifted("hg38", startCoords.value[0].chrom, startCoords.value[0].pos))
      else None
  }

  // ---------------------------------------------------------------------------
  // get_variant_data

  /** `reference_base` after the placeholder rule: `'-'` when absent. */
  function Placeholder(base: Json): (r: Json)
    ensures r != JNull
    ensures base == JNull ==> r == JStr("-")
    ensures base != JNull ==> r == base
  {
    if base == JNull then JStr("-") else base
  }

  /**
   * The rows `get_variant_data` returns a tuple for: a location, at least one
   * base, a successful conversion of the coordinates, and evidence that
   * `get_diseases` can summarise.
   */
  predicate Emits(v: Json, lift: Lifter)
  {
    && DeepGet(v, CoordinatesPath + ["chromosome"]) != JNull
    && DeepGet(v, CoordinatesPath + ["start"]) != JNull
    && !(DeepGet(v, VariantPath + ["referenceBases"]) == JNull && DeepGet(v, VariantPath + ["variantBases"]) == JNull)
    && NormalizePosition(DeepGet(v, VariantPath + ["referenceBuild"]), DeepGet(v, CoordinatesPath + ["chromosome"]),
                         DeepGet(v, CoordinatesPath + ["start"]), lift).Some?
    && GetDiseases(DeepGet(v, ProfilePath + ["evidenceItems", "nodes"])).Ok?
  }

  /**
   * `get_variant_data(variant_snapshot, variant_json)`: `Ok(None)` is a skipped
   * row, `Err` an exception that ends the run. The reference-build test of the
   * source (`build != 'GRCH38' or build != 'hg38'`) holds for every value, so
   * every row goes through `NormalizePosition`.
   */
  function GetVariantData(snapshot: seq<string>, v: Json, lift: Lifter): (r: Result<Option<VariantRow>>)
    requires |snapshot| > 0
    // missing location: skipped, before anything else is looked at
    ensures DeepGet(v, CoordinatesPath + ["chromosome"]) == JNull || DeepGet(v, CoordinatesPath + ["start"]) == JNull
      ==> r == Ok(None)
    // structural variant: skipped
    ensures DeepGet(v, VariantPath + ["referenceBases"]) == JNull && DeepGet(v, VariantPath + ["variantBases"]) == JNull
      ==> r == Ok(None)
    // a row is emitted exactly when it has everything the tuple needs
    ensures r.Ok? && r.value.Some? <==> Emits(v, lift)
    ensures r.Ok? && r.value.Some? ==>
      var row := r.value.value;
      var ref := DeepGet(v, VariantPath + ["referenceBases"]);
      var alt := DeepGet(v, VariantPath + ["variantBases"]);
      && row.id == snapshot[0]
      && row.referenceBuild == "hg38"
      && (ref == JNull ==> row.referenceBase == JStr("-") && row.variantBase == alt)
      && (alt == JNull ==> row.variantBase == JStr("-") && row.referenceBase == ref)
      && (ref != JNull && alt != JNull ==> row.referenceBase == ref && row.variantBase == alt)
      && row.description == DeepGet(v, ProfilePath + ["description"])
      && row.molecularProfileScore == DeepGet(v, ProfilePath + ["molecularProfileScore"])
      && GetDiseases(DeepGet(v, ProfilePath + ["evidenceItems", "nodes"])) == Ok(row.diseases)
  {
    var evidence := DeepGet(v, ProfilePath + ["evidenceItems", "nodes"]);
    var chromosome := DeepGet(v, CoordinatesPath + ["chromosome"]);
    var start := DeepGet(v, CoordinatesPath + ["start"]);
    if chromosome == JNull || start == JNull then Ok(None)
    else
      var referenceBase := DeepGet(v, VariantPath + ["referenceBases"]);
      var variantBase := DeepGet(v, VariantPath + ["variantBases"]);
      if referenceBase == JNull && variantBase == JNull then Ok(None)
      else
        var referenceBuild := DeepGet(v, VariantPath + ["referenceBuild"]);
        match NormalizePosition(referenceBuild, chromosome, start, lift)
        case None => Ok(None)
        case Some(lifted) =>
          var mps := DeepGet(v, ProfilePath + ["molecularProfileScore"]);
          var description := DeepGet(v, ProfilePath + ["description"]);
          match GetDiseases(evidence)
          case Err(e) => Err(e)
          case Ok(diseases) =>
            Ok(Some(VariantRow(snapshot[0], lifted.chrom, lifted.pos, lifted.build,
                               Placeholder(referenceBase), Placeholder(variantBase),
                               description, mps, diseases)))
  }

  /**
   * Coordinates already on hg38 (`GRCH38`, `hg38`), or with no build at all,
   * are dropped: the always-true test sends them to `normalize_position`, which
   * only converts hg19.
   */
  lemma CurrentBuildDropped(snapshot: seq<string>, v: Json, lift: Lifter)
    requires |snapshot| > 0
    requires !IsLegacyBuild(DeepGet(v, VariantPath + ["referenceBuild"]))
    ensures GetVariantData(snapshot, v, lift) == Ok(None)
  {
  }

  /**
   * Every emitted row is an hg19 variant carried to hg38 at the first mapping
   * the liftover returned for `'chr' + chromosome` and the original start.
   */
  lemma EmittedRowIsLifted(snapshot: seq<string>, v: Json, lift: Lifter)
    requires |snapshot| > 0
    requires GetVariantData(snapshot, v, lift).Ok? && GetVariantData(snapshot, v, lift).value.Some?
    ensures var row := GetVariantData(snapshot, v, lift).value.value;
      var hits := lift("chr" + Str(DeepGet(v, CoordinatesPath + ["chromosome"])), DeepGet(v, CoordinatesPath + ["start"]));
      && IsLegacyBuild(DeepGet(v, VariantPath + ["referenceBuild"]))
      && hits.Some? && |hits.value| > 0
      && row.chromosome == hits.value[0].chrom && row.start == hits.value[0].pos
      && row.referenceBase != JNull && row.variantBase != JNull
  {
  }

  /**
   * The run only stops on a row that has a location, a base, and a liftover hit,
   * and whose evidence list cannot be summarised (for instance, no list at all).
   */
  lemma VariantDataFails(snapshot: seq<string>, v: Json, lift: Lifter)
    requires |snapshot| > 0
    ensures GetVariantData(snapshot, v, lift).Err? <==>
      && DeepGet(v, CoordinatesPath + ["chromosome"]) != JNull
      && DeepGet(v, CoordinatesPath + ["start"]) != JNull
      && !(DeepGet(v, VariantPath + ["referenceBases"]) == JNull && DeepGet(v, VariantPath + ["variantBases"]) == JNull)
      && NormalizePosition(DeepGet(v, VariantPath + ["referenceBuild"]), DeepGet(v, CoordinatesPath + ["chromosome"]),
                           DeepGet(v, CoordinatesPath + ["start"]), lift).Some?
      && GetDiseases(DeepGet(v, ProfilePath + ["evidenceItems", "nodes"])).Err?
  {
  }

  // ---------------------------------------------------------------------------
  // get_current_month_variant_file_url

  /** The URL of the current month's variant snapshot, for an injected (year, month). */
  function VariantFileUrl(year: int, month: int): (url: string)
    requires Snapshot.ValidMonth(year, month)
    ensures var n := |BaseDownloadUrl|;
      && |url| == n + 45
      && url[..n + 1] == BaseDownloadUrl + "/"
      && Snapshot.ParseFirstOfMonth(url[n + 1..n + 12]) == Some((year, month))
      && url[n + 12] == '/'
      && url[n + 13..n + 24] == url[n + 1..n + 12]
      && url[n + 24..] == "-VariantSummaries.tsv"
  {
    Snapshot.SnapshotUrl(BaseDownloadUrl, "VariantSummaries", year, month)
  }

  // ---------------------------------------------------------------------------
  // The `civic` table

  /** `CivicDB` over the `civic` table: its rows, and whether `civic_index` exists. */
  class CivicDB {
    var hasTable: bool
    var rows: seq<VariantRow>
    var indexed: bool

    /** Connecting to `civic.sqlite`, which may still hold a previous run's table. */
    constructor (hasTable: bool, rows: seq<VariantRow>, indexed: bool)
      ensures this.hasTable == hasTable && this.rows == rows && this.indexed == indexed
    {
      this.hasTable := hasTable;
      this.rows := rows;
      this.indexed := indexed;
    }

    /** `DROP TABLE IF EXISTS civic` (and its index) and `CREATE TABLE civic`. */
    method CreateVariantTable()
      modifies this
      ensures hasTable && rows == [] && !indexed
    {
      hasTable, rows, indexed := true, [], false;
    }

    /** `INSERT INTO civic(...)`: one row appended, nothing else changed. */
    method InsertVariant(row: VariantRow)
      requires hasTable
      modifies this
      ensures hasTable && indexed == old(indexed)
      ensures rows == old(rows) + [row]
    {
      rows := rows + [row];
    }

    /** `CREATE INDEX civic_index`: the rows are left as they are. */
    method CreateIndex()
      requires hasTable && !indexed
      modifies this
      ensures hasTable && indexed && rows == old(rows)
    {
      indexed := true;
    }
  }

  // ---------------------------------------------------------------------------
  // main

  /**
   * One pass of the row loop of `main`: `variant[id_idx]` selects the id the API
   * is queried with (`fetch` stands for the POST and `json.loads`), then
   * `get_variant_data` decides between a record, a skip and an exception.
   */
  function VariantStep(idIdx: nat, fetch: string -> Json, lift: Lifter): seq<string> -> Result<Option<VariantRow>>
  {
    variant =>
      if idIdx >= |variant| then Err(IndexError)
      else GetVariantData(variant, fetch(variant[idIdx]), lift)
  }

  /** The whole of `main` after the table is created: header scan, then the row loop. */
  function VariantRun(lines: seq<seq<string>>, fetch: string -> Json, lift: Lifter): (h: Harvest<VariantRow>)
    ensures lines == [] ==> h == Harvest([], Some(IndexError))
    ensures lines != [] && "variant_id" !in lines[0] ==> h.inserted == [] && (h.failure == Some(NameError) <==> |lines| > 1)
    ensures |h.inserted| <= if lines == [] then 0 else |lines| - 1
  {
    if lines == [] then Harvest([], Some(IndexError))
    else
      match TsvHeader.LastIndex(lines[0], "variant_id")
      case None => if |lines| > 1 then Harvest([], Some(NameError)) else Harvest([], None)
      case Some(idIdx) => HarvestRows(lines[1..], VariantStep(idIdx, fetch, lift))
  }

  /**
   * Every row a run leaves in the table is what `get_variant_data` made of some
   * data row, carries that row's first field as its id, is on hg38 and has both bases.
   */
  lemma VariantRunSound(lines: seq<seq<string>>, fetch: string -> Json, lift: Lifter, k: nat)
    requires k < |VariantRun(lines, fetch, lift).inserted|
    ensures var row := VariantRun(lines, fetch, lift).inserted[k];
      && (exists i :: 1 <= i < |lines| && |lines[i]| > 0 && row.id == lines[i][0]
            && VariantStep(TsvHeader.LastIndex(lines[0], "variant_id").value, fetch, lift)(lines[i]) == Ok(Some(row)))
      && row.referenceBuild == "hg38" && row.referenceBase != JNull && row.variantBase != JNull
  {
    var idIdx := TsvHeader.LastIndex(lines[0], "variant_id").value;
    var step := VariantStep(idIdx, fetch, lift);
    var data := lines[1..];
    var row := VariantRun(lines, fetch, lift).inserted[k];
    HarvestRowsSound(data, step, k);
    var i :| 0 <= i < |data| && step(data[i]) == Ok(Some(row));
    EmittedRowIsLifted(data[i], fetch(data[i][idIdx]), lift);
    assert data[i] == lines[i + 1];
  }

  /**
   * In a run that raised nothing, every data row was looked up by its
   * `variant_id` column without error, and its record is in the table whenever
   * its response has everything a record needs.
   */
  lemma VariantRunComplete(lines: seq<seq<string>>, fetch: string -> Json, lift: Lifter, i: nat)
    requires VariantRun(lines, fetch, lift).failure.None?
    requires 1 <= i < |lines|
    ensures TsvHeader.LastIndex(lines[0], "variant_id").Some?
    ensures var idIdx := TsvHeader.LastIndex(lines[0], "variant_id").value;
      && idIdx < |lines[i]|
      && var v := fetch(lines[i][idIdx]);
         && GetVariantData(lines[i], v, lift).Ok?
         && (Emits(v, lift) ==> GetVariantData(lines[i], v, lift).value.value in VariantRun(lines, fetch, lift).inserted)
  {
    var idIdx := TsvHeader.LastIndex(lines[0], "variant_id").value;
    var step := VariantStep(idIdx, fetch, lift);
    var data := lines[1..];
    HarvestRowsComplete(data, step, i - 1);
    assert data[i - 1] == lines[i];
  }

  /** `for i, column_name in enumerate(lines[0])`: the last `variant_id` column, if any. */
  method FindIdColumn(header: seq<string>) returns (idIdx: Option<nat>)
    ensures idIdx == TsvHeader.LastIndex(header, "variant_id")
  {
    idIdx := None;
    for i := 0 to |header|
      invariant idIdx == TsvHeader.LastIndex(header[..i], "variant_id")
    {
      assert header[..i + 1][..i] == header[..i];
      if header[i] == "variant_id" {
        idIdx := Some(i);
      }
    }
    assert header[..|header|] == header;
  }

  /**
   * `main` with the snapshot's rows and the API given as inputs: recreate the
   * table, scan the header, insert every non-`None` row in snapshot order while
   * counting them, and build the index once at the end. An exception leaves the
   * rows inserted so far (the connection still commits) and no index.
   */
  method BuildVariantTable(lines: seq<seq<string>>, fetch: string -> Json, lift: Lifter, db: CivicDB)
    returns (outcome: Result<nat>)
    modifies db
    ensures db.hasTable
    ensures db.rows == VariantRun(lines, fetch, lift).inserted
    ensures db.indexed <==> VariantRun(lines, fetch, lift).failure.None?
    ensures outcome == match VariantRun(lines, fetch, lift).failure
      case None => Ok(|db.rows|)
      case Some(e) => Err(e)
  {
    db.CreateVariantTable();
    if lines == [] {
      return Err(IndexError);
    }
    var idIdx := FindIdColumn(lines[0]);
    var data := lines[1..];
    var idx: nat := 0;
    if idIdx.Some? {
      idx := idIdx.value;
    } else if data != [] {
      return Err(NameError);
    }
    var total := 0;
    var i := 0;
    while i < |data|
      invariant 0 <= i <= |data|
      invariant db.hasTable && !db.indexed
      invariant HarvestRows(data[..i], VariantStep(idx, fetch, lift)).failure.None?
      invariant db.rows == HarvestRows(data[..i], VariantStep(idx, fetch, lift)).inserted
      invariant total == |db.rows|
    {
      var variant := data[i];
      HarvestRowsAppend(data[..i], [variant], VariantStep(idx, fetch, lift));
      HarvestRowsAppend(data[..i + 1], data[i + 1..], VariantStep(idx, fetch, lift));
      assert data[..i] + [variant] == data[..i + 1];
      assert data[..i + 1] + data[i + 1..] == data;
      if idx >= |variant| {
        return Err(IndexError);
      }
      var vId := variant[idx];
      var vJson := fetch(vId);
      var variantData := GetVariantData(variant, vJson, lift);
      match variantData {
        case Err(e) =>
          return Err(e);
        case Ok(None) =>
        case Ok(Some(d)) =>
          total := total + 1;
          db.InsertVariant(d);
      }
      i := i + 1;
    }
    assert data[..i] == data;
    db.CreateIndex();
    return Ok(total);
  }
}
