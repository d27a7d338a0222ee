/**
 * The row loop both builders share: for each data row, compute a record or a
 * skip, append records to the table in order, and stop at the first exception.
 * The per-row work is a parameter, `step`.
 */
module BuildLoop {
  import opened Wrappers

  /** What a run leaves in the table, and the exception that stopped it, if any. */
  datatype Harvest<R> = Harvest(inserted: seq<R>, failure: Option<PyError>)

  function HarvestRows<R>(rows: seq<seq<string>>, step: seq<string> -> Result<Option<R>>): (h: Harvest<R>)
    ensures |h.inserted| <= |rows|
    decreases |rows|
  {
    if rows == [] then Harvest([], None)
    else
      match step(rows[0])
      case Err(e) => Harvest([], Some(e))
      case Ok(None) => HarvestRows(rows[1..], step)
      case Ok(Some(d)) =>
        var rest := HarvestRows(rows[1..], step);
        Harvest([d] + rest.inserted, rest.failure)
  }

  /** Running the loop over `a + b` is running it over `a`, then, if nothing was raised, over `b`. */
  lemma {:induction false} HarvestRowsAppend<R>(a: seq<seq<string>>, b: seq<seq<string>>, step: seq<string> -> Result<Option<R>>)
    ensures var ha := HarvestRows(a, step);
      var hb := HarvestRows(b, step);
      HarvestRows(a + b, step) == if ha.failure.Some? then ha else Harvest(ha.inserted + hb.inserted, hb.failure)
    decreases |a|
  {
    if a == [] {
      assert a + b == b;
    } else {
      assert (a + b)[0] == a[0];
      assert (a + b)[1..] == a[1..] + b;
      HarvestRowsAppend(a[1..], b, step);
    }
  }

  /** The table after `a + b`, when `a` raised nothing, is the table after `a` followed by the table after `b`. */
  lemma HarvestRowsAppendOk<R>(a: seq<seq<string>>, b: seq<seq<string>>, step: seq<string> -> Result<Option<R>>)
    requires HarvestRows(a, step).failure.None?
    ensures HarvestRows(a + b, step).inserted == HarvestRows(a, step).inserted + HarvestRows(b, step).inserted
  {
    HarvestRowsAppend(a, b, step);
  }

  /** Nothing else is inserted: every inserted record is the step's result for some row. */
  lemma {:induction false} HarvestRowsSound<R>(rows: seq<seq<string>>, step: seq<string> -> Result<Option<R>>, k: nat)
    requires k < |HarvestRows(rows, step).inserted|
    ensures exists i :: 0 <= i < |rows| && step(rows[i]) == Ok(Some(HarvestRows(rows, step).inserted[k]))
    decreases |rows|
  {
    match step(rows[0])
    case Ok(None) =>
      HarvestRowsSound(rows[1..], step, k);
      var i :| 0 <= i < |rows[1..]| && step(rows[1..][i]) == Ok(Some(HarvestRows(rows, step).inserted[k]));
      assert rows[1..][i] == rows[i + 1];
    case Ok(Some(d)) =>
      if k > 0 {
        HarvestRowsSound(rows[1..], step, k - 1);
        var i :| 0 <= i < |rows[1..]| && step(rows[1..][i]) == Ok(Some(HarvestRows(rows[1..], step).inserted[k - 1]));
        assert rows[1..][i] == rows[i + 1];
      }
  }

  /** Nothing is left out: when the loop completes, every record a row yields is in the table. */
  lemma {:induction false} HarvestRowsComplete<R>(rows: seq<seq<string>>, step: seq<string> -> Result<Option<R>>, i: nat)
    requires HarvestRows(rows, step).failure.None?
    requires i < |rows|
    ensures step(rows[i]).Ok?
    ensures step(rows[i]).value.Some? ==> step(rows[i]).value.value in HarvestRows(rows, step).inserted
    decreases |rows|
  {
    if i > 0 {
      HarvestRowsComplete(rows[1..], step, i - 1);
      assert rows[1..][i - 1] == rows[i];
    }
  }

  /** A step that never skips inserts one record per row, in row order, when nothing is raised. */
  lemma {:induction false} HarvestRowsNoSkip<R>(rows: seq<seq<string>>, step: seq<string> -> Result<Option<R>>)
    requires forall i :: 0 <= i < |rows| ==> !(step(rows[i]) == Ok(None))
    requires HarvestRows(rows, step).failure.None?
    ensures |HarvestRows(rows, step).inserted| == |rows|
    ensures forall i :: 0 <= i < |rows| ==> step(rows[i]) == Ok(Some(HarvestRows(rows, step).inserted[i]))
    decreases |rows|
  {
    if rows != [] {
      assert forall i :: 0 <= i < |rows[1..]| ==> rows[1..][i] == rows[i + 1];
      HarvestRowsNoSkip(rows[1..], step);
    }
  }
}
