/**
 * main as a whole: build the ignore set, survey the tracked packages against it and
 * aggregate their importers into the report map. Any fatal error yields no report.
 */
module Survey {
  import opened Results
  import opened GitHub
  import opened Discovery
  import opened IgnoreSet
  import opened Aggregator

  /** The report main would encode, or the error it would stop with. */
  function Report(h: Hosting, listImporters: ImporterQuery): Result<map<string, Repo>>
  {
    match IgnoreSetOf(h)
    case Err(e) => Err(e)
    case Ok(ignore) =>
      match Discovered(TrackedSuffixes, ignore, listImporters)
      case Err(e) => Err(e)
      case Ok(xs) => Ok(AfterIngestAll(map[], xs, h))
  }

  /** The steps of main (main.go:37-85) up to the JSON encoding of the map. */
  method BuildReport(h: Hosting, listImporters: ImporterQuery) returns (report: Result<map<string, Repo>>)
    ensures report == Report(h, listImporters)
  {
    var ignore;
    ghost var queried;
    ignore, queried := LoadIgnoreSet(h);
    if ignore.Err? {
      return Err(ignore.error);
    }
    var r := new ProjectMap();
    var failure := r.IngestTracked(TrackedSuffixes, ignore.value, listImporters, h);
    if failure.Some? {
      return Err(failure.value);
    }
    return Ok(r.projects);
  }

  /**
   * A report is produced exactly when the ignore set is built and every tracked package's
   * query succeeds, and it then summarises every import discovered.
   */
  lemma ReportSummarizes(h: Hosting, listImporters: ImporterQuery)
    ensures Report(h, listImporters).Ok? <==>
              IgnoreSetOf(h).Ok? &&
              forall i :: 0 <= i < |TrackedSuffixes| ==> Query(TrackedSuffixes[i], IgnoreSetOf(h).value, listImporters).Ok?
    ensures Report(h, listImporters).Ok? ==>
              Discovered(TrackedSuffixes, IgnoreSetOf(h).value, listImporters).Ok? &&
              Summarizes(Report(h, listImporters).value, Discovered(TrackedSuffixes, IgnoreSetOf(h).value, listImporters).value, h)
  {
    if IgnoreSetOf(h).Ok? {
      var ignore := IgnoreSetOf(h).value;
      DiscoveredFailure(TrackedSuffixes, ignore, listImporters);
      if Discovered(TrackedSuffixes, ignore, listImporters).Ok? {
        AggregateSummarizes(Discovered(TrackedSuffixes, ignore, listImporters).value, h);
      }
    }
  }
}
