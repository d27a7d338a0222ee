/** Resolving a column of the snapshot's header row by name. */
module TsvHeader {
  import opened Wrappers

  /**
   * The position of the last column called `name`: a loop over
   * `enumerate(header)` that reassigns the index on every match ends with the
   * last match; `None` when no column has that name.
   */
  function LastIndex(header: seq<string>, name: string): (r: Option<nat>)
    ensures r.Some? <==> name in header
    ensures r.Some? ==> r.value < |header| && header[r.value] == name
    ensures r.Some? ==> forall j :: r.value < j < |header| ==> header[j] != name
    decreases |header|
  {
    if header == [] then None
    else if header[|header| - 1] == name then Some(|header| - 1)
    else
      var r := LastIndex(header[..|header| - 1], name);
      assert header == header[..|header| - 1] + [header[|header| - 1]];
      r
  }
}
