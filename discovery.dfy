/**
 * The tracked packages and what godoc.ListImporters reports for them. main.go walks the
 * fixed list of package suffixes in order, prefixes each with the host project's path,
 * and asks for its importers; a failed query ends the run.
 */
module Discovery {
  import opened Results
  import opened Util

  const HostPrefix: string := "github.com/hashicorp/terraform/"

  /** The package suffixes whose importers are surveyed, in the order they are surveyed. */
  const TrackedSuffixes: seq<string> := [
    "helper/acctest",
    "helper/customdiff",
    "helper/encryption",
    "helper/hashcode",
    "helper/logging",
    "helper/mutexkv",
    "helper/pathorcontents",
    "helper/resource",
    "helper/schema",
    "helper/structure",
    "helper/validation",
    "httpclient",
    "plugin",
    "terraform"
  ]

  /**
   * godoc.ListImporters(package, ignore set, boolean option); main always passes the
   * literal `true`. Its code (including any deduplication or filtering against the
   * ignore set) is not part of this model.
   */
  type ImporterQuery = (string, set<string>, bool) -> Result<seq<string>>

  /** One importer found for one tracked package: the pair the aggregator ingests. */
  datatype Import = Import(pkg: string, importer: string)

  /** The imports of one package, in the order its importers were listed. */
  function ImportsOf(pkg: string, importers: seq<string>): (xs: seq<Import>)
    ensures |xs| == |importers|
    ensures forall k :: 0 <= k < |xs| ==> xs[k] == Import(pkg, importers[k])
  {
    seq(|importers|, k requires 0 <= k < |importers| => Import(pkg, importers[k]))
  }

  lemma ImportsOfPrefix(pkg: string, importers: seq<string>, j: nat)
    requires j < |importers|
    ensures ImportsOf(pkg, importers[..j + 1]) == ImportsOf(pkg, importers[..j]) + [Import(pkg, importers[j])]
  {
  }

  /** The importers of the tracked package `HostPrefix + suffix`. */
  function Query(suffix: string, ignore: set<string>, listImporters: ImporterQuery): Result<seq<string>>
  {
    listImporters(HostPrefix + suffix, ignore, true)
  }

  /**
   * Every import discovered for `suffixes`, package by package in list order, or the
   * first failed query.
   */
  function Discovered(suffixes: seq<string>, ignore: set<string>, listImporters: ImporterQuery): Result<seq<Import>>
    decreases |suffixes|
  {
    if suffixes == [] then Ok([])
    else
      match Discovered(suffixes[..|suffixes| - 1], ignore, listImporters)
      case Err(e) => Err(e)
      case Ok(earlier) =>
        var suffix := suffixes[|suffixes| - 1];
        match Query(suffix, ignore, listImporters)
        case Err(e) => Err(e)
        case Ok(importers) => Ok(earlier + ImportsOf(HostPrefix + suffix, importers))
  }

  /** One more package extends the survey of a prefix by that package's query. */
  lemma DiscoveredStep(suffixes: seq<string>, i: nat, done: seq<Import>, ignore: set<string>, listImporters: ImporterQuery)
    requires i < |suffixes|
    requires Discovered(suffixes[..i], ignore, listImporters) == Ok(done)
    ensures Discovered(suffixes[..i + 1], ignore, listImporters) ==
              match Query(suffixes[i], ignore, listImporters)
              case Err(e) => Err(e)
              case Ok(importers) => Ok(done + ImportsOf(HostPrefix + suffixes[i], importers))
  {
    assert suffixes[..i + 1][..i] == suffixes[..i];
  }

  /** A failure on a prefix of the list is the failure of the whole survey. */
  lemma {:induction false} DiscoveredFailureSticks(suffixes: seq<string>, n: nat, ignore: set<string>, listImporters: ImporterQuery)
    requires n <= |suffixes|
    requires Discovered(suffixes[..n], ignore, listImporters).Err?
    ensures Discovered(suffixes, ignore, listImporters) == Discovered(suffixes[..n], ignore, listImporters)
    decreases |suffixes| - n
  {
    if n < |suffixes| {
      assert suffixes[..n + 1][..n] == suffixes[..n];
      DiscoveredFailureSticks(suffixes, n + 1, ignore, listImporters);
    } else {
      assert suffixes[..n] == suffixes;
    }
  }

  /**
   * Packages are processed in list order: on success, what was discovered for any prefix
   * of the list is a prefix of what was discovered for the whole list.
   */
  lemma {:induction false} DiscoveredInOrder(suffixes: seq<string>, n: nat, ignore: set<string>, listImporters: ImporterQuery)
    requires n <= |suffixes|
    requires Discovered(suffixes, ignore, listImporters).Ok?
    ensures Discovered(suffixes[..n], ignore, listImporters).Ok?
    ensures Discovered(suffixes[..n], ignore, listImporters).value <= Discovered(suffixes, ignore, listImporters).value
    decreases |suffixes| - n
  {
    if n == |suffixes| {
      assert suffixes[..n] == suffixes;
    } else {
      var init := suffixes[..|suffixes| - 1];
      assert init[..n] == suffixes[..n];
      DiscoveredInOrder(init, n, ignore, listImporters);
    }
  }

  /**
   * On success every discovered import names a tracked package, `HostPrefix` followed by
   * an entry of the list, and every importer listed for a tracked package is discovered.
   */
  lemma {:induction false} DiscoveredImports(suffixes: seq<string>, ignore: set<string>, listImporters: ImporterQuery)
    requires Discovered(suffixes, ignore, listImporters).Ok?
    ensures forall k :: 0 <= k < |Discovered(suffixes, ignore, listImporters).value| ==>
              var x := Discovered(suffixes, ignore, listImporters).value[k];
              HasPrefix(x.pkg, HostPrefix) &&
              exists i :: 0 <= i < |suffixes| && x.pkg == HostPrefix + suffixes[i] &&
                Query(suffixes[i], ignore, listImporters).Ok? && x.importer in Query(suffixes[i], ignore, listImporters).value
    ensures forall i :: 0 <= i < |suffixes| ==> Query(suffixes[i], ignore, listImporters).Ok?
    ensures forall i, imp :: 0 <= i < |suffixes| && imp in Query(suffixes[i], ignore, listImporters).value ==>
              Import(HostPrefix + suffixes[i], imp) in Discovered(suffixes, ignore, listImporters).value
    decreases |suffixes|
  {
    if suffixes != [] {
      var n := |suffixes| - 1;
      var init := suffixes[..n];
      DiscoveredImports(init, ignore, listImporters);
      assert forall i :: 0 <= i < n ==> init[i] == suffixes[i];
      var earlier := Discovered(init, ignore, listImporters).value;
      var pkg := HostPrefix + suffixes[n];
      var importers := Query(suffixes[n], ignore, listImporters).value;
      var all := Discovered(suffixes, ignore, listImporters).value;
      assert all == earlier + ImportsOf(pkg, importers);
      assert HasPrefix(pkg, HostPrefix) by { assert pkg[..|HostPrefix|] == HostPrefix; }
      forall k | 0 <= k < |all|
        ensures HasPrefix(all[k].pkg, HostPrefix) &&
                exists i :: 0 <= i < |suffixes| && all[k].pkg == HostPrefix + suffixes[i] &&
                  Query(suffixes[i], ignore, listImporters).Ok? && all[k].importer in Query(suffixes[i], ignore, listImporters).value
      {
        if k < |earlier| {
          assert all[k] == earlier[k];
        } else {
          assert all[k] == Import(pkg, importers[k - |earlier|]);
          assert all[k].importer in Query(suffixes[n], ignore, listImporters).value;
        }
      }
      forall i, imp | 0 <= i < |suffixes| && imp in Query(suffixes[i], ignore, listImporters).value
        ensures Import(HostPrefix + suffixes[i], imp) in all
      {
        if i < n {
          assert Import(HostPrefix + init[i], imp) in earlier;
        } else {
          var k :| 0 <= k < |importers| && importers[k] == imp;
          assert all[|earlier| + k] == Import(pkg, imp);
        }
      }
    }
  }

  /**
   * The survey fails exactly when some query fails, and then with the error of the first
   * failing query: the remaining packages are not queried.
   */
  lemma {:induction false} DiscoveredFailure(suffixes: seq<string>, ignore: set<string>, listImporters: ImporterQuery)
    ensures Discovered(suffixes, ignore, listImporters).Err? <==>
              exists i :: 0 <= i < |suffixes| && Query(suffixes[i], ignore, listImporters).Err?
    ensures Discovered(suffixes, ignore, listImporters).Err? ==>
              exists i :: 0 <= i < |suffixes| &&
                Query(suffixes[i], ignore, listImporters) == Err(Discovered(suffixes, ignore, listImporters).error) &&
                forall j :: 0 <= j < i ==> Query(suffixes[j], ignore, listImporters).Ok?
    decreases |suffixes|
  {
    if suffixes != [] {
      var n := |suffixes| - 1;
      var init := suffixes[..n];
      DiscoveredFailure(init, ignore, listImporters);
      assert forall i :: 0 <= i < n ==> init[i] == suffixes[i];
      if Discovered(init, ignore, listImporters).Ok? {
        DiscoveredImports(init, ignore, listImporters);
      }
    }
  }
}
