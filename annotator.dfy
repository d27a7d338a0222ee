/**
 * The CRAVAT annotator's point lookup: normalise the input chromosome, select
 * the rows of the `variants` table with that exact (chrom, start, ref, alt),
 * and answer with the first one's profile fields, or `None`.
 */
module MolecularProfileAnnotator {
  import opened Wrappers
  import opened CivicpyData

  /** The keys of `input_data` the lookup reads. */
  datatype InputData = InputData(chrom: string, pos: int, refBase: string, altBase: string)

  /** The dict `annotate` returns. */
  datatype Annotation = Annotation(
    mpId: int,
    variantIds: seq<int>,
    molecularProfileScore: Option<real>,
    numAccEids: int,
    numSubEids: int)

  /** `s.replace("chr", "")`: scan left to right, dropping each non-overlapping `chr`. */
  function StripChr(s: string): (r: string)
    ensures |r| <= |s|
    decreases |s|
  {
    if |s| >= 3 && s[..3] == "chr" then StripChr(s[3..])
    else if s == [] then []
    else [s[0]] + StripChr(s[1..])
  }

  /** No `chr` anywhere in `s`. */
  predicate NoChr(s: string)
    decreases |s|
  {
    |s| < 3 || (s[..3] != "chr" && NoChr(s[1..]))
  }

  /** A chromosome name without `chr` is left as it is. */
  lemma {:induction false} StripChrNoChr(s: string)
    requires NoChr(s)
    ensures StripChr(s) == s
    decreases |s|
  {
    if s != [] {
      StripChrNoChr(s[1..]);
      assert [s[0]] + s[1..] == s;
    }
  }

  /** `chr7` and `7` ask for the same rows. */
  lemma StripChrPrefix(c: string)
    requires NoChr(c)
    ensures StripChr("chr" + c) == c
  {
    assert ("chr" + c)[..3] == "chr" && ("chr" + c)[3..] == c;
    StripChrNoChr(c);
  }

  /**
   * `replace` scans left to right: text without `chr` is kept, each `chr` is
   * dropped, and the scan goes on after it. With `StripChrNoChr` this fixes
   * the result on every input.
   */
  lemma {:induction false} StripChrFirst(a: string, b: string)
    requires NoChr(a)
    ensures StripChr(a + "chr" + b) == a + StripChr(b)
    decreases |a|
  {
    var s := a + "chr" + b;
    if a == [] {
      assert s[..3] == "chr" && s[3..] == b;
    } else {
      if |a| >= 3 {
        assert s[..3] == a[..3];
      } else if |a| == 2 {
        assert s[2] == 'c';
      } else {
        assert s[1] == 'c' && s[2] == 'h';
      }
      assert s[..3] != "chr";
      assert s[1..] == a[1..] + "chr" + b;
      StripChrFirst(a[1..], b);
      assert [a[0]] + a[1..] == a;
    }
  }

  /** `WHERE chrom = ? AND start = ? AND ref = ? AND alt = ?`; a NULL column matches nothing. */
  predicate Matches(row: AnnotatedMp, chrom: string, pos: int, ref: string, alt: string)
  {
    row.chrom == Some(chrom) && row.start == Some(pos) && row.ref == ref && row.alt == alt
  }

  /** `cursor.fetchall()` of the query: the matching rows, in table order. */
  function Select(table: seq<AnnotatedMp>, chrom: string, pos: int, ref: string, alt: string): (rows: seq<AnnotatedMp>)
    ensures forall r :: r in rows ==> Matches(r, chrom, pos, ref, alt) && r in table
    decreases |table|
  {
    if table == [] then []
    else (if Matches(table[0], chrom, pos, ref, alt) then [table[0]] else []) + Select(table[1..], chrom, pos, ref, alt)
  }

  /** The selection is empty exactly when no row of the table matches. */
  lemma {:induction false} SelectEmpty(table: seq<AnnotatedMp>, chrom: string, pos: int, ref: string, alt: string)
    ensures Select(table, chrom, pos, ref, alt) == [] <==> forall i :: 0 <= i < |table| ==> !Matches(table[i], chrom, pos, ref, alt)
    decreases |table|
  {
    if table != [] && !Matches(table[0], chrom, pos, ref, alt) {
      SelectEmpty(table[1..], chrom, pos, ref, alt);
      forall i | 1 <= i < |table| ensures table[i] == table[1..][i - 1] { }
    }
  }

  /** A non-empty selection starts with the first matching row of the table. */
  lemma {:induction false} SelectHead(table: seq<AnnotatedMp>, chrom: string, pos: int, ref: string, alt: string)
    requires Select(table, chrom, pos, ref, alt) != []
    ensures exists i ::
              && 0 <= i < |table| && Matches(table[i], chrom, pos, ref, alt)
              && (forall j :: 0 <= j < i ==> !Matches(table[j], chrom, pos, ref, alt))
              && Select(table, chrom, pos, ref, alt)[0] == table[i]
    decreases |table|
  {
    if Matches(table[0], chrom, pos, ref, alt) {
      assert Select(table, chrom, pos, ref, alt)[0] == table[0];
    } else {
      var rest := table[1..];
      assert Select(table, chrom, pos, ref, alt) == Select(rest, chrom, pos, ref, alt);
      SelectHead(rest, chrom, pos, ref, alt);
      var i :| 0 <= i < |rest| && Matches(rest[i], chrom, pos, ref, alt)
        && (forall j :: 0 <= j < i ==> !Matches(rest[j], chrom, pos, ref, alt))
        && Select(rest, chrom, pos, ref, alt)[0] == rest[i];
      assert table[i + 1] == rest[i];
      forall j | 0 <= j < i + 1 ensures !Matches(table[j], chrom, pos, ref, alt) {
        if j > 0 {
          assert table[j] == rest[j - 1];
        }
      }
    }
  }

  /** The five profile columns of a row. */
  function Project(row: AnnotatedMp): Annotation
  {
    Annotation(row.mpId, row.variantIds, row.molecularProfileScore, row.numAccEids, row.numSubEids)
  }

  /**
   * `annotate(input_data)`: `None` when no row matches the normalised
   * coordinates; otherwise the profile fields of the first matching row only,
   * since the `return` sits inside the loop over the results.
   */
  function Annotate(input: InputData, table: seq<AnnotatedMp>): (r: Option<Annotation>)
    ensures var chrom := StripChr(input.chrom);
      r.None? <==> forall i :: 0 <= i < |table| ==> !Matches(table[i], chrom, input.pos, input.refBase, input.altBase)
    ensures var chrom := StripChr(input.chrom);
      r.Some? ==>
        exists i :: 0 <= i < |table| && Matches(table[i], chrom, input.pos, input.refBase, input.altBase)
          && (forall j :: 0 <= j < i ==> !Matches(table[j], chrom, input.pos, input.refBase, input.altBase))
          && r.value == Project(table[i])
  {
    var chrom := StripChr(input.chrom);
    var results := Select(table, chrom, input.pos, input.refBase, input.altBase);
    SelectEmpty(table, chrom, input.pos, input.refBase, input.altBase);
    if results == [] then None
    else
      SelectHead(table, chrom, input.pos, input.refBase, input.altBase);
      Some(Project(results[0]))
  }

  /**
   * Looking up a stored record by its own coordinates, with or without the
   * `chr` prefix, finds a row with those coordinates at or before it.
   */
  lemma StoredRecordIsFound(table: seq<AnnotatedMp>, k: nat, c: string, p: int)
    requires k < |table| && table[k].chrom == Some(c) && table[k].start == Some(p) && NoChr(c)
    ensures var r := Annotate(InputData("chr" + c, p, table[k].ref, table[k].alt), table);
      r.Some? &&
      exists i :: 0 <= i <= k && Matches(table[i], c, p, table[k].ref, table[k].alt) && r.value == Project(table[i])
  {
    StripChrPrefix(c);
    var r := Annotate(InputData("chr" + c, p, table[k].ref, table[k].alt), table);
    assert Matches(table[k], c, p, table[k].ref, table[k].alt);
    var i :| 0 <= i < |table| && Matches(table[i], c, p, table[k].ref, table[k].alt)
      && (forall j :: 0 <= j < i ==> !Matches(table[j], c, p, table[k].ref, table[k].alt))
      && r.value == Project(table[i]);
  }
}
