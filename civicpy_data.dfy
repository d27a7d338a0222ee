/**
 * The civicpy export script: for each molecular profile, count its accepted and
 * submitted evidence, then emit one flat record per variant that has both a
 * reference and a variant base.
 */
module CivicpyData {
  import opened Wrappers

  datatype Evidence = Evidence(status: string)

  datatype Coordinates = Coordinates(
    chromosome: Option<string>,
    start: Option<int>,
    referenceBases: Option<string>,
    variantBases: Option<string>)

  datatype Variant = Variant(coordinates: Coordinates)

  datatype MolecularProfile = MolecularProfile(
    id: int,
    evidenceItems: seq<Evidence>,
    variants: seq<Variant>,
    variantIds: seq<int>,
    molecularProfileScore: Option<real>)

  /** One element of `annotated_mps`. */
  datatype AnnotatedMp = AnnotatedMp(
    chrom: Option<string>,
    start: Option<int>,
    ref: string,
    alt: string,
    mpId: int,
    variantIds: seq<int>,
    molecularProfileScore: Option<real>,
    numAccEids: nat,
    numSubEids: nat)

  /** The number of evidence items whose status is exactly `status`. */
  function CountStatus(items: seq<Evidence>, status: string): (n: nat)
    ensures n <= |items|
    ensures n == 0 <==> forall i :: 0 <= i < |items| ==> items[i].status != status
    decreases |items|
  {
    if items == [] then 0
    else CountStatus(items[..|items| - 1], status) + (if items[|items| - 1].status == status then 1 else 0)
  }

  /** Statuses other than the two counted ones are ignored, so the counts never exceed the items. */
  lemma {:induction false} CountsBounded(items: seq<Evidence>)
    ensures CountStatus(items, "accepted") + CountStatus(items, "submitted") <= |items|
    decreases |items|
  {
    if items != [] {
      CountsBounded(items[..|items| - 1]);
    }
  }

  /** The `ev_counts` loop: one increment per item whose status is `accepted` or `submitted`. */
  method CountEvidence(items: seq<Evidence>) returns (accepted: nat, submitted: nat)
    ensures accepted == CountStatus(items, "accepted")
    ensures submitted == CountStatus(items, "submitted")
  {
    accepted, submitted := 0, 0;
    for i := 0 to |items|
      invariant accepted == CountStatus(items[..i], "accepted")
      invariant submitted == CountStatus(items[..i], "submitted")
    {
      assert items[..i + 1][..i] == items[..i];
      var ev := items[i];
      if ev.status == "accepted" {
        accepted := accepted + 1;
      } else if ev.status == "submitted" {
        submitted := submitted + 1;
      }
    }
    assert items[..|items|] == items;
  }

  /** Python truthiness of an optional string: not `None` and not empty. */
  predicate Truthy(s: Option<string>)
  {
    s.Some? && s.value != ""
  }

  /** `ref and alt`: the variant is kept. */
  predicate Kept(v: Variant)
  {
    Truthy(v.coordinates.referenceBases) && Truthy(v.coordinates.variantBases)
  }

  /** The record a kept variant yields: its coordinates, and its profile's fields and counts. */
  function Record(mp: MolecularProfile, v: Variant): (r: AnnotatedMp)
    requires Kept(v)
    ensures r.ref != "" && r.alt != ""
    ensures r.numAccEids + r.numSubEids <= |mp.evidenceItems|
  {
    CountsBounded(mp.evidenceItems);
    AnnotatedMp(v.coordinates.chromosome, v.coordinates.start,
                v.coordinates.referenceBases.value, v.coordinates.variantBases.value,
                mp.id, mp.variantIds, mp.molecularProfileScore,
                CountStatus(mp.evidenceItems, "accepted"), CountStatus(mp.evidenceItems, "submitted"))
  }

  /** The records of the kept variants among `vs`, in order. */
  function ProfileRecords(mp: MolecularProfile, vs: seq<Variant>): (r: seq<AnnotatedMp>)
    ensures |r| <= |vs|
    decreases |vs|
  {
    if vs == [] then []
    else
      var v := vs[|vs| - 1];
      ProfileRecords(mp, vs[..|vs| - 1]) + (if Kept(v) then [Record(mp, v)] else [])
  }

  /** `annotated_mps` after the loop over `mps`: profile by profile, variant by variant. */
  function AllRecords(mps: seq<MolecularProfile>): seq<AnnotatedMp>
    decreases |mps|
  {
    if mps == [] then []
    else
      var mp := mps[|mps| - 1];
      AllRecords(mps[..|mps| - 1]) + ProfileRecords(mp, mp.variants)
  }

  /** Every record of a profile comes from one of its kept variants. */
  lemma {:induction false} ProfileRecordsSound(mp: MolecularProfile, vs: seq<Variant>, k: nat)
    requires k < |ProfileRecords(mp, vs)|
    ensures exists j :: 0 <= j < |vs| && Kept(vs[j]) && ProfileRecords(mp, vs)[k] == Record(mp, vs[j])
    decreases |vs|
  {
    var front := vs[..|vs| - 1];
    if k < |ProfileRecords(mp, front)| {
      ProfileRecordsSound(mp, front, k);
      var j :| 0 <= j < |front| && Kept(front[j]) && ProfileRecords(mp, front)[k] == Record(mp, front[j]);
      assert front[j] == vs[j];
    } else {
      assert ProfileRecords(mp, vs)[k] == Record(mp, vs[|vs| - 1]);
    }
  }

  /** Every kept variant of a profile has its record among the profile's records. */
  lemma {:induction false} ProfileRecordsComplete(mp: MolecularProfile, vs: seq<Variant>, j: nat)
    requires j < |vs| && Kept(vs[j])
    ensures Record(mp, vs[j]) in ProfileRecords(mp, vs)
    decreases |vs|
  {
    var front := vs[..|vs| - 1];
    if j < |vs| - 1 {
      ProfileRecordsComplete(mp, front, j);
      assert front[j] == vs[j];
    }
  }

  /**
   * Nothing else is emitted: each record is the record of a kept variant of one
   * of the profiles, with that profile's id, variant ids, score and counts.
   */
  lemma {:induction false} AllRecordsSound(mps: seq<MolecularProfile>, k: nat)
    requires k < |AllRecords(mps)|
    ensures exists i, j ::
              && 0 <= i < |mps| && 0 <= j < |mps[i].variants| && Kept(mps[i].variants[j])
              && AllRecords(mps)[k] == Record(mps[i], mps[i].variants[j])
    decreases |mps|
  {
    var front := mps[..|mps| - 1];
    var mp := mps[|mps| - 1];
    if k < |AllRecords(front)| {
      AllRecordsSound(front, k);
      var i, j :| 0 <= i < |front| && 0 <= j < |front[i].variants| && Kept(front[i].variants[j])
        && AllRecords(front)[k] == Record(front[i], front[i].variants[j]);
      assert front[i] == mps[i];
    } else {
      ProfileRecordsSound(mp, mp.variants, k - |AllRecords(front)|);
    }
  }

  /**
   * No profile is skipped (the AND/OR test never holds): every kept variant of
   * every profile has its record among the output.
   */
  lemma {:induction false} AllRecordsComplete(mps: seq<MolecularProfile>, i: nat, j: nat)
    requires i < |mps| && j < |mps[i].variants| && Kept(mps[i].variants[j])
    ensures Record(mps[i], mps[i].variants[j]) in AllRecords(mps)
    decreases |mps|
  {
    var front := mps[..|mps| - 1];
    if i < |mps| - 1 {
      AllRecordsComplete(front, i, j);
      assert front[i] == mps[i];
    } else {
      ProfileRecordsComplete(mps[i], mps[i].variants, j);
    }
  }

  /** Records appear in profile order: the output for `a + b` is that for `a`, then that for `b`. */
  lemma {:induction false} AllRecordsAppend(a: seq<MolecularProfile>, b: seq<MolecularProfile>)
    ensures AllRecords(a + b) == AllRecords(a) + AllRecords(b)
    decreases |b|
  {
    if b == [] {
      assert a + b == a;
    } else {
      var ab := a + b;
      assert ab[..|ab| - 1] == a + b[..|b| - 1];
      assert ab[|ab| - 1] == b[|b| - 1];
      AllRecordsAppend(a, b[..|b| - 1]);
    }
  }

  /** The number of variants among `vs` that are kept. */
  function KeptCount(vs: seq<Variant>): (n: nat)
    ensures n <= |vs|
    decreases |vs|
  {
    if vs == [] then 0 else KeptCount(vs[..|vs| - 1]) + (if Kept(vs[|vs| - 1]) then 1 else 0)
  }

  /** The number of kept variants over all profiles. */
  function TotalKept(mps: seq<MolecularProfile>): nat
    decreases |mps|
  {
    if mps == [] then 0 else TotalKept(mps[..|mps| - 1]) + KeptCount(mps[|mps| - 1].variants)
  }

  /** Each kept variant yields exactly one record: a profile has as many records as kept variants. */
  lemma {:induction false} ProfileRecordsCount(mp: MolecularProfile, vs: seq<Variant>)
    ensures |ProfileRecords(mp, vs)| == KeptCount(vs)
    decreases |vs|
  {
    if vs != [] {
      ProfileRecordsCount(mp, vs[..|vs| - 1]);
    }
  }

  /** `len(annotated_mps)` is the number of kept variants over all profiles. */
  lemma {:induction false} AllRecordsCount(mps: seq<MolecularProfile>)
    ensures |AllRecords(mps)| == TotalKept(mps)
    decreases |mps|
  {
    if mps != [] {
      AllRecordsCount(mps[..|mps| - 1]);
      ProfileRecordsCount(mps[|mps| - 1], mps[|mps| - 1].variants);
    }
  }

  /** Within a profile, records follow the order of its variants. */
  lemma {:induction false} ProfileRecordsAppend(mp: MolecularProfile, a: seq<Variant>, b: seq<Variant>)
    ensures ProfileRecords(mp, a + b) == ProfileRecords(mp, a) + ProfileRecords(mp, b)
    decreases |b|
  {
    if b == [] {
      assert a + b == a;
    } else {
      var ab := a + b;
      assert ab[..|ab| - 1] == a + b[..|b| - 1];
      assert ab[|ab| - 1] == b[|b| - 1];
      ProfileRecordsAppend(mp, a, b[..|b| - 1]);
    }
  }

  /**
   * The script: `annotated_mps` built over the profiles, then
   * `annotated_mps[0]`, which raises IndexError when no variant was kept.
   */
  method AnnotateProfiles(mps: seq<MolecularProfile>) returns (annotated: seq<AnnotatedMp>, first: Result<AnnotatedMp>)
    ensures annotated == AllRecords(mps)
    ensures first == if annotated == [] then Err(IndexError) else Ok(annotated[0])
  {
    annotated := [];
    for n := 0 to |mps|
      invariant annotated == AllRecords(mps[..n])
    {
      var mp := mps[n];
      var accepted, submitted := CountEvidence(mp.evidenceItems);
      // The parsed_name loop continues before its body and `is_and == 'AND'`
      // compares a bool with a string: neither skips a profile.
      for j := 0 to |mp.variants|
        invariant annotated == AllRecords(mps[..n]) + ProfileRecords(mp, mp.variants[..j])
      {
        assert mp.variants[..j + 1][..j] == mp.variants[..j];
        var coordinates := mp.variants[j].coordinates;
        var chrom, start, ref, alt := coordinates.chromosome, coordinates.start,
                                      coordinates.referenceBases, coordinates.variantBases;
        if !(Truthy(ref) && Truthy(alt)) {
          continue;
        }
        annotated := annotated + [AnnotatedMp(chrom, start, ref.value, alt.value, mp.id, mp.variantIds,
                                              mp.molecularProfileScore, accepted, submitted)];
      }
      assert mp.variants[..|mp.variants|] == mp.variants;
      assert mps[..n + 1][..n] == mps[..n];
    }
    assert mps[..|mps|] == mps;
    if annotated == [] {
      first := Err(IndexError);
    } else {
      first := Ok(annotated[0]);
    }
  }
}
