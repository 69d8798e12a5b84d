/**
 * The project aggregator of main: a map from project identifier (github.RepoRoot of the
 * importer) to a record holding the project's star count, fetched once when the project
 * is first seen, and, per importer path, the tracked packages it imports.
 */
module Aggregator {
  import opened Results
  import opened Util
  import opened GitHub
  import opened Discovery

  /** The `repo` struct: a star count and a map from importer path to tracked packages. */
  datatype Repo = Repo(stars: int, packages: map<string, seq<string>>)

  /** Only importers under this prefix have their stars fetched. */
  const GitHubHost: string := "github.com"

  /** The packages recorded under `imp`; a missing key reads as a nil (empty) Go slice. */
  function PackagesAt(rec: Repo, imp: string): seq<string>
  {
    if imp in rec.packages then rec.packages[imp] else []
  }

  /**
   * The star count a newly seen project starts with: GetStars of the importer's
   * owner/repo for a github.com importer, whose error (if any) is only logged; 0 otherwise.
   */
  function FirstSightStars(imp: string, h: Hosting): int
  {
    if HasPrefix(imp, GitHubHost) then
      var (owner, repo) := h.ownerRepo(imp);
      h.getStars(owner, repo).stars
    else 0
  }

  /** The map after ingesting one (tracked package, importer) pair. */
  function AfterIngest(r: map<string, Repo>, pkg: string, imp: string, h: Hosting): (r': map<string, Repo>)
    // only the importer's project can appear or change
    ensures r'.Keys == r.Keys + {h.repoRoot(imp)}
    ensures forall proj :: proj in r && proj != h.repoRoot(imp) ==> r'[proj] == r[proj]
    // first sight: one new record, its package map holding imp alone, its stars those
    // GetStars reports (error or not) for a github.com importer and 0 for any other
    ensures h.repoRoot(imp) !in r ==>
              r'[h.repoRoot(imp)].packages.Keys == {imp} &&
              r'[h.repoRoot(imp)].packages[imp] == [pkg] &&
              r'[h.repoRoot(imp)].stars ==
                if HasPrefix(imp, GitHubHost) then h.getStars(h.ownerRepo(imp).0, h.ownerRepo(imp).1).stars else 0
    // already seen: stars kept, pkg appended under imp, other importers untouched
    ensures h.repoRoot(imp) in r ==>
              var was, now := r[h.repoRoot(imp)], r'[h.repoRoot(imp)];
              now.stars == was.stars &&
              now.packages.Keys == was.packages.Keys + {imp} &&
              now.packages[imp] == PackagesAt(was, imp) + [pkg] &&
              forall other :: other in was.packages && other != imp ==> now.packages[other] == was.packages[other]
  {
    var proj := h.repoRoot(imp);
    if proj !in r then
      r[proj := Repo(FirstSightStars(imp, h), map[imp := [pkg]])]
    else
      var rec := r[proj];
      r[proj := rec.(packages := rec.packages[imp := PackagesAt(rec, imp) + [pkg]])]
  }

  /** The map after ingesting `xs` in order, starting from `r`. */
  function AfterIngestAll(r: map<string, Repo>, xs: seq<Import>, h: Hosting): map<string, Repo>
    decreases |xs|
  {
    if xs == [] then r
    else
      var last := xs[|xs| - 1];
      AfterIngest(AfterIngestAll(r, xs[..|xs| - 1], h), last.pkg, last.importer, h)
  }

  lemma AfterIngestAllSnoc(r: map<string, Repo>, xs: seq<Import>, x: Import, h: Hosting)
    ensures AfterIngestAll(r, xs + [x], h) == AfterIngest(AfterIngestAll(r, xs, h), x.pkg, x.importer, h)
  {
    assert (xs + [x])[..|xs|] == xs;
  }

  /** Ingesting `xs + ys` is ingesting `xs`, then `ys`. */
  lemma {:induction false} AfterIngestAllAppend(r: map<string, Repo>, xs: seq<Import>, ys: seq<Import>, h: Hosting)
    ensures AfterIngestAll(r, xs + ys, h) == AfterIngestAll(AfterIngestAll(r, xs, h), ys, h)
    decreases |ys|
  {
    if ys == [] {
      assert xs + ys == xs;
    } else {
      var init := ys[..|ys| - 1];
      AfterIngestAllAppend(r, xs, init, h);
      assert (xs + ys)[..|xs + ys| - 1] == xs + init;
    }
  }

  /** The project whose stars ingesting `imp` into `r` fetches: an unseen github.com one. */
  function FetchOf(r: map<string, Repo>, imp: string, h: Hosting): seq<string>
  {
    if h.repoRoot(imp) !in r && HasPrefix(imp, GitHubHost) then [h.repoRoot(imp)] else []
  }

  /** The `k`th import's project has no record in `r` and no earlier import in `xs`. */
  predicate NewAt(r: map<string, Repo>, xs: seq<Import>, k: nat, h: Hosting)
    requires k < |xs|
  {
    && h.repoRoot(xs[k].importer) !in r
    && forall j :: 0 <= j < k ==> h.repoRoot(xs[j].importer) != h.repoRoot(xs[k].importer)
  }

  /**
   * The projects whose stars are fetched while ingesting `xs` into `r`, in call order:
   * those of the github.com imports that reach a project not seen before.
   */
  function Fetches(r: map<string, Repo>, xs: seq<Import>, h: Hosting): seq<string>
    decreases |xs|
  {
    if xs == [] then []
    else
      var n := |xs| - 1;
      Fetches(r, xs[..n], h) +
        if NewAt(r, xs, n, h) && HasPrefix(xs[n].importer, GitHubHost) then [h.repoRoot(xs[n].importer)] else []
  }

  /** Ingesting adds exactly the projects of the imports to the keys. */
  lemma {:induction false} KeysAfterIngestAll(r: map<string, Repo>, xs: seq<Import>, h: Hosting)
    ensures AfterIngestAll(r, xs, h).Keys == r.Keys + Projects(xs, h)
    decreases |xs|
  {
    if xs == [] {
      assert Projects(xs, h) == {};
    } else {
      var init, last := xs[..|xs| - 1], xs[|xs| - 1];
      assert init + [last] == xs;
      calc {
        AfterIngestAll(r, xs, h).Keys;
        AfterIngest(AfterIngestAll(r, init, h), last.pkg, last.importer, h).Keys;
        AfterIngestAll(r, init, h).Keys + {h.repoRoot(last.importer)};
        { KeysAfterIngestAll(r, init, h); }
        r.Keys + Projects(init, h) + {h.repoRoot(last.importer)};
        { ProjectsSnoc(init, last, h); }
        r.Keys + Projects(xs, h);
      }
    }
  }

  /** The fetch of one more import is the fetch `Ingest` makes from the map so far. */
  lemma FetchesSnoc(r: map<string, Repo>, xs: seq<Import>, x: Import, h: Hosting)
    ensures Fetches(r, xs + [x], h) == Fetches(r, xs, h) + FetchOf(AfterIngestAll(r, xs, h), x.importer, h)
  {
    var ys := xs + [x];
    assert ys[..|xs|] == xs && ys[|xs|] == x;
    assert forall j :: 0 <= j < |xs| ==> ys[j] == xs[j];
    KeysAfterIngestAll(r, xs, h);
    if h.repoRoot(x.importer) in Projects(xs, h) {
      var j :| 0 <= j < |xs| && h.repoRoot(xs[j].importer) == h.repoRoot(x.importer);
      assert !NewAt(r, ys, |xs|, h);
    }
  }

  /** The fetches of `xs + ys` are those of `xs`, then those of `ys` from where `xs` left off. */
  lemma {:induction false} FetchesAppend(r: map<string, Repo>, xs: seq<Import>, ys: seq<Import>, h: Hosting)
    ensures Fetches(r, xs + ys, h) == Fetches(r, xs, h) + Fetches(AfterIngestAll(r, xs, h), ys, h)
    decreases |ys|
  {
    if ys == [] {
      assert xs + ys == xs;
    } else {
      var init, last := ys[..|ys| - 1], ys[|ys| - 1];
      var mid := AfterIngestAll(r, xs, h);
      assert xs + ys == (xs + init) + [last];
      assert ys == init + [last];
      calc {
        Fetches(r, xs + ys, h);
        { FetchesSnoc(r, xs + init, last, h); }
        Fetches(r, xs + init, h) + FetchOf(AfterIngestAll(r, xs + init, h), last.importer, h);
        { FetchesAppend(r, xs, init, h); AfterIngestAllAppend(r, xs, init, h); }
        Fetches(r, xs, h) + Fetches(mid, init, h) + FetchOf(AfterIngestAll(mid, init, h), last.importer, h);
        { FetchesSnoc(mid, init, last, h); }
        Fetches(r, xs, h) + Fetches(mid, ys, h);
      }
    }
  }

  /** Ingesting never removes a project. */
  lemma {:induction false} KeysGrow(r: map<string, Repo>, xs: seq<Import>, h: Hosting)
    ensures r.Keys <= AfterIngestAll(r, xs, h).Keys
    decreases |xs|
  {
    if xs != [] {
      KeysGrow(r, xs[..|xs| - 1], h);
    }
  }

  /**
   * Stars are fetched at most once per project: the fetched projects are pairwise
   * distinct, none had a record before, and each has one afterwards.
   */
  lemma {:induction false} FetchesOnce(r: map<string, Repo>, xs: seq<Import>, h: Hosting)
    ensures forall k :: 0 <= k < |Fetches(r, xs, h)| ==>
              Fetches(r, xs, h)[k] !in r && Fetches(r, xs, h)[k] in AfterIngestAll(r, xs, h)
    ensures forall j, k :: 0 <= j < k < |Fetches(r, xs, h)| ==> Fetches(r, xs, h)[j] != Fetches(r, xs, h)[k]
    decreases |xs|
  {
    if xs != [] {
      var init, last := xs[..|xs| - 1], xs[|xs| - 1];
      assert init + [last] == xs;
      FetchesOnce(r, init, h);
      KeysGrow(r, init, h);
      var mid := AfterIngestAll(r, init, h);
      var after := AfterIngestAll(r, xs, h).Keys;
      var f0 := Fetches(r, init, h);
      var f := Fetches(r, xs, h);
      FetchesSnoc(r, init, last, h);
      assert f == f0 + FetchOf(mid, last.importer, h);
      assert after == mid.Keys + {h.repoRoot(last.importer)};
      forall k | 0 <= k < |f| ensures f[k] !in r && f[k] in after {
        if k < |f0| {
          assert f[k] == f0[k] && f0[k] in mid.Keys;
        } else {
          assert f[k] == h.repoRoot(last.importer) && f[k] !in mid;
        }
      }
      forall j, k | 0 <= j < k < |f| ensures f[j] != f[k] {
        if k >= |f0| {
          assert f[j] == f0[j] && f0[j] in mid && f[k] !in mid;
        }
      }
    }
  }

  /** One loop step: ingesting `x` after `done` keeps the map and the fetch log in step. */
  lemma IngestStep(base: map<string, Repo>, done: seq<Import>, x: Import, h: Hosting)
    ensures AfterIngest(AfterIngestAll(base, done, h), x.pkg, x.importer, h) == AfterIngestAll(base, done + [x], h)
    ensures Fetches(base, done, h) + FetchOf(AfterIngestAll(base, done, h), x.importer, h) == Fetches(base, done + [x], h)
  {
    AfterIngestAllSnoc(base, done, x, h);
    FetchesSnoc(base, done, x, h);
  }

  /** The fetch log of a run extended by the fetches of one more package's imports. */
  lemma FetchLogStep(log: seq<string>, before: seq<string>, after: seq<string>,
                     base: map<string, Repo>, done: seq<Import>, more: seq<Import>, h: Hosting)
    requires before == log + Fetches(base, done, h)
    requires after == before + Fetches(AfterIngestAll(base, done, h), more, h)
    ensures after == log + Fetches(base, done + more, h)
  {
    AppendAssoc(log, Fetches(base, done, h), Fetches(AfterIngestAll(base, done, h), more, h));
    FetchesAppend(base, done, more, h);
  }

  /**
   * Associativity of sequence concatenation. Dafny proves it unaided; stating it in a
   * context of its own keeps the proof of `FetchLogStep` cheap for the solver.
   */
  lemma AppendAssoc(a: seq<string>, b: seq<string>, c: seq<string>)
    ensures (a + b) + c == a + (b + c)
  {
  }

  /** The projects of the importers in `xs`. */
  function Projects(xs: seq<Import>, h: Hosting): set<string>
  {
    set k | 0 <= k < |xs| :: h.repoRoot(xs[k].importer)
  }

  /** The importers in `xs` that belong to project `proj`. */
  function ImportersOf(xs: seq<Import>, proj: string, h: Hosting): set<string>
  {
    set k | 0 <= k < |xs| && h.repoRoot(xs[k].importer) == proj :: xs[k].importer
  }

  /** The packages paired with importer `imp` in `xs`, in order, repeats included. */
  function PackagesOf(xs: seq<Import>, imp: string): seq<string>
    decreases |xs|
  {
    if xs == [] then []
    else
      var last := xs[|xs| - 1];
      PackagesOf(xs[..|xs| - 1], imp) + if last.importer == imp then [last.pkg] else []
  }

  /** The `k`th import is the first in `xs` whose importer belongs to its project. */
  predicate FirstSight(xs: seq<Import>, k: nat, h: Hosting)
    requires k < |xs|
  {
    forall j :: 0 <= j < k ==> h.repoRoot(xs[j].importer) != h.repoRoot(xs[k].importer)
  }

  /**
   * `r` is what ingesting `xs` into an empty map yields: one record per project seen, the
   * importers of each project as its keys, under each importer every package it was
   * ingested with, in order, and each project's stars decided by its first importer.
   */
  ghost predicate Summarizes(r: map<string, Repo>, xs: seq<Import>, h: Hosting)
  {
    && r.Keys == Projects(xs, h)
    && (forall proj :: proj in r ==> r[proj].packages.Keys == ImportersOf(xs, proj, h))
    && (forall proj, imp :: proj in r && imp in r[proj].packages ==> r[proj].packages[imp] == PackagesOf(xs, imp))
    && (forall k :: 0 <= k < |xs| && FirstSight(xs, k, h) ==>
          h.repoRoot(xs[k].importer) in r && r[h.repoRoot(xs[k].importer)].stars == FirstSightStars(xs[k].importer, h))
  }

  lemma {:induction false} PackagesOfAbsent(xs: seq<Import>, imp: string)
    requires forall k :: 0 <= k < |xs| ==> xs[k].importer != imp
    ensures PackagesOf(xs, imp) == []
    decreases |xs|
  {
    if xs != [] {
      PackagesOfAbsent(xs[..|xs| - 1], imp);
    }
  }

  lemma {:induction false} PackagesOfMember(xs: seq<Import>, k: nat)
    requires k < |xs|
    ensures xs[k].pkg in PackagesOf(xs, xs[k].importer)
    decreases |xs|
  {
    if k < |xs| - 1 {
      PackagesOfMember(xs[..|xs| - 1], k);
    }
  }

  lemma ProjectsSnoc(xs: seq<Import>, x: Import, h: Hosting)
    ensures Projects(xs + [x], h) == Projects(xs, h) + {h.repoRoot(x.importer)}
  {
    var ys := xs + [x];
    forall q | q in Projects(ys, h) ensures q in Projects(xs, h) + {h.repoRoot(x.importer)} {
      var k :| 0 <= k < |ys| && h.repoRoot(ys[k].importer) == q;
      if k < |xs| { assert ys[k] == xs[k]; }
    }
    forall q | q in Projects(xs, h) ensures q in Projects(ys, h) {
      var k :| 0 <= k < |xs| && h.repoRoot(xs[k].importer) == q;
      assert ys[k] == xs[k];
    }
    assert ys[|xs|] == x;
  }

  lemma ImportersOfSnoc(xs: seq<Import>, x: Import, q: string, h: Hosting)
    ensures ImportersOf(xs + [x], q, h) ==
              ImportersOf(xs, q, h) + if h.repoRoot(x.importer) == q then {x.importer} else {}
  {
    var ys := xs + [x];
    forall i | i in ImportersOf(ys, q, h)
      ensures i in ImportersOf(xs, q, h) + if h.repoRoot(x.importer) == q then {x.importer} else {}
    {
      var k :| 0 <= k < |ys| && h.repoRoot(ys[k].importer) == q && ys[k].importer == i;
      if k < |xs| { assert ys[k] == xs[k]; }
    }
    forall i | i in ImportersOf(xs, q, h) ensures i in ImportersOf(ys, q, h) {
      var k :| 0 <= k < |xs| && h.repoRoot(xs[k].importer) == q && xs[k].importer == i;
      assert ys[k] == xs[k];
    }
    assert ys[|xs|] == x;
  }

  lemma PackagesOfSnoc(xs: seq<Import>, x: Import, imp: string)
    ensures PackagesOf(xs + [x], imp) == PackagesOf(xs, imp) + if x.importer == imp then [x.pkg] else []
  {
    assert (xs + [x])[..|xs|] == xs;
  }

  /** An importer not yet among its project's importers has no packages so far. */
  lemma PackagesOfNewImporter(xs: seq<Import>, imp: string, h: Hosting)
    requires imp !in ImportersOf(xs, h.repoRoot(imp), h)
    ensures PackagesOf(xs, imp) == []
  {
    forall k | 0 <= k < |xs| ensures xs[k].importer != imp {
      assert xs[k].importer in ImportersOf(xs, h.repoRoot(xs[k].importer), h);
    }
    PackagesOfAbsent(xs, imp);
  }

  lemma IngestExtendsPackages(r: map<string, Repo>, xs: seq<Import>, x: Import, h: Hosting)
    requires Summarizes(r, xs, h)
    ensures var r' := AfterIngest(r, x.pkg, x.importer, h);
            forall proj, i :: proj in r' && i in r'[proj].packages ==> r'[proj].packages[i] == PackagesOf(xs + [x], i)
  {
    var r' := AfterIngest(r, x.pkg, x.importer, h);
    var imp := x.importer;
    var p := h.repoRoot(imp);
    if imp !in ImportersOf(xs, p, h) {
      PackagesOfNewImporter(xs, imp, h);
    }
    forall proj, i | proj in r' && i in r'[proj].packages
      ensures r'[proj].packages[i] == PackagesOf(xs + [x], i)
    {
      PackagesOfSnoc(xs, x, i);
      if proj != p {
        assert i in ImportersOf(xs, proj, h);
        var k :| 0 <= k < |xs| && h.repoRoot(xs[k].importer) == proj && xs[k].importer == i;
        assert i != imp;
      } else if p in r && i != imp {
        assert i in r[p].packages;
      }
    }
  }

  lemma IngestExtendsStars(r: map<string, Repo>, xs: seq<Import>, x: Import, h: Hosting)
    requires Summarizes(r, xs, h)
    ensures var r', ys := AfterIngest(r, x.pkg, x.importer, h), xs + [x];
            forall k :: 0 <= k < |ys| && FirstSight(ys, k, h) ==>
              h.repoRoot(ys[k].importer) in r' && r'[h.repoRoot(ys[k].importer)].stars == FirstSightStars(ys[k].importer, h)
  {
    var r', ys := AfterIngest(r, x.pkg, x.importer, h), xs + [x];
    var p := h.repoRoot(x.importer);
    if p in r {
      // x is not the first import of its project
      var j :| 0 <= j < |xs| && h.repoRoot(xs[j].importer) == p;
      assert ys[j] == xs[j] && ys[|xs|] == x;
      assert !FirstSight(ys, |xs|, h);
    }
    forall k | 0 <= k < |ys| && FirstSight(ys, k, h)
      ensures h.repoRoot(ys[k].importer) in r' && r'[h.repoRoot(ys[k].importer)].stars == FirstSightStars(ys[k].importer, h)
    {
      if k < |xs| {
        assert forall j :: 0 <= j <= k ==> ys[j] == xs[j];
        assert FirstSight(xs, k, h);
      }
    }
  }

  /** One ingest extends the summary of `xs` to the summary of `xs + [x]`. */
  lemma IngestExtendsSummary(r: map<string, Repo>, xs: seq<Import>, x: Import, h: Hosting)
    requires Summarizes(r, xs, h)
    ensures Summarizes(AfterIngest(r, x.pkg, x.importer, h), xs + [x], h)
  {
    var r' := AfterIngest(r, x.pkg, x.importer, h);
    ProjectsSnoc(xs, x, h);
    forall proj | proj in r' ensures r'[proj].packages.Keys == ImportersOf(xs + [x], proj, h) {
      ImportersOfSnoc(xs, x, proj, h);
      if proj == h.repoRoot(x.importer) && proj !in r {
        assert ImportersOf(xs, proj, h) == {};
      }
    }
    IngestExtendsPackages(r, xs, x, h);
    IngestExtendsStars(r, xs, x, h);
  }

  /** Ingesting `xs` into an empty map yields exactly the summary of `xs`. */
  lemma {:induction false} AggregateSummarizes(xs: seq<Import>, h: Hosting)
    ensures Summarizes(AfterIngestAll(map[], xs, h), xs, h)
    decreases |xs|
  {
    if xs == [] {
      assert Projects(xs, h) == {};
    } else {
      var init, last := xs[..|xs| - 1], xs[|xs| - 1];
      var mid := AfterIngestAll(map[], init, h);
      assert init + [last] == xs;
      assert AfterIngestAll(map[], xs, h) == AfterIngest(mid, last.pkg, last.importer, h);
      AggregateSummarizes(init, h);
      IngestExtendsSummary(mid, init, last, h);
    }
  }

  /** A prefix of `xs` agrees with `xs` on which imports are first sightings. */
  lemma FirstSightPrefix(xs: seq<Import>, n: nat, k: nat, h: Hosting)
    requires k < n <= |xs|
    ensures xs[..n][k] == xs[k] && (FirstSight(xs[..n], k, h) <==> FirstSight(xs, k, h))
  {
    assert forall j :: 0 <= j <= k ==> xs[..n][j] == xs[j];
  }

  /**
   * Over a whole run, stars are fetched exactly for the projects whose first importer is
   * a github.com path.
   */
  lemma {:induction false} FetchesFirstSight(xs: seq<Import>, h: Hosting)
    ensures forall p :: p in Fetches(map[], xs, h) <==>
              exists k :: 0 <= k < |xs| && FirstSight(xs, k, h) &&
                HasPrefix(xs[k].importer, GitHubHost) && h.repoRoot(xs[k].importer) == p
    decreases |xs|
  {
    if xs != [] {
      var n := |xs| - 1;
      var init := xs[..n];
      FetchesFirstSight(init, h);
      assert NewAt(map[], xs, n, h) == FirstSight(xs, n, h);
      forall p | p in Fetches(map[], xs, h)
        ensures exists k :: 0 <= k < |xs| && FirstSight(xs, k, h) &&
                  HasPrefix(xs[k].importer, GitHubHost) && h.repoRoot(xs[k].importer) == p
      {
        if p in Fetches(map[], init, h) {
          var k :| 0 <= k < n && FirstSight(init, k, h) &&
                   HasPrefix(init[k].importer, GitHubHost) && h.repoRoot(init[k].importer) == p;
          FirstSightPrefix(xs, n, k, h);
        }
      }
      forall p, k | 0 <= k < |xs| && FirstSight(xs, k, h) &&
                    HasPrefix(xs[k].importer, GitHubHost) && h.repoRoot(xs[k].importer) == p
        ensures p in Fetches(map[], xs, h)
      {
        if k < n {
          FirstSightPrefix(xs, n, k, h);
          assert p in Fetches(map[], init, h);
        }
      }
    }
  }

  /** After the loop every project key is RepoRoot of some ingested importer, and no other. */
  lemma AggregateKeys(xs: seq<Import>, h: Hosting)
    ensures forall proj :: proj in AfterIngestAll(map[], xs, h) <==>
              exists k :: 0 <= k < |xs| && h.repoRoot(xs[k].importer) == proj
  {
    AggregateSummarizes(xs, h);
  }

  /** After the loop every ingested package is recorded under its importer, in its project. */
  lemma AggregateRecordsEveryImport(xs: seq<Import>, h: Hosting)
    ensures forall k :: 0 <= k < |xs| ==>
              var r := AfterIngestAll(map[], xs, h);
              h.repoRoot(xs[k].importer) in r &&
              xs[k].importer in r[h.repoRoot(xs[k].importer)].packages &&
              xs[k].pkg in r[h.repoRoot(xs[k].importer)].packages[xs[k].importer]
  {
    AggregateSummarizes(xs, h);
    var r := AfterIngestAll(map[], xs, h);
    forall k | 0 <= k < |xs|
      ensures h.repoRoot(xs[k].importer) in r &&
              xs[k].importer in r[h.repoRoot(xs[k].importer)].packages &&
              xs[k].pkg in r[h.repoRoot(xs[k].importer)].packages[xs[k].importer]
    {
      var p := h.repoRoot(xs[k].importer);
      assert p in Projects(xs, h);
      assert xs[k].importer in ImportersOf(xs, p, h);
      PackagesOfMember(xs, k);
    }
  }

  /**
   * The line-81 append keeps repeats: the same pair ingested twice is recorded twice.
   * Deduplication is left to the importer query.
   */
  lemma IngestTwiceRepeats(r: map<string, Repo>, pkg: string, imp: string, h: Hosting)
    ensures var twice := AfterIngest(AfterIngest(r, pkg, imp, h), pkg, imp, h);
            var rec := twice[h.repoRoot(imp)];
            |PackagesAt(rec, imp)| >= 2 &&
            PackagesAt(rec, imp)[|PackagesAt(rec, imp)| - 2..] == [pkg, pkg]
  {
  }

  /**
   * A GetStars error does not matter: two clients whose replies agree on the star count
   * build the same map, whatever errors they report.
   */
  lemma StarsErrorIgnored(r: map<string, Repo>, pkg: string, imp: string, h1: Hosting, h2: Hosting)
    requires h1.repoRoot(imp) == h2.repoRoot(imp) && h1.ownerRepo(imp) == h2.ownerRepo(imp)
    requires forall owner, repo :: h1.getStars(owner, repo).stars == h2.getStars(owner, repo).stars
    ensures AfterIngest(r, pkg, imp, h1) == AfterIngest(r, pkg, imp, h2)
  {
  }

  /**
   * The `r` map of main. `fetched` logs, in call order, the projects whose stars were
   * fetched; the invariant says each was fetched at most once and has a record.
   */
  class ProjectMap {
    var projects: map<string, Repo>
    ghost var fetched: seq<string>

    ghost predicate Valid()
      reads this
    {
      && (forall k :: 0 <= k < |fetched| ==> fetched[k] in projects)
      && (forall j, k :: 0 <= j < k < |fetched| ==> fetched[j] != fetched[k])
    }

    constructor ()
      ensures Valid() && projects == map[] && fetched == []
    {
      projects := map[];
      fetched := [];
    }

    /** The body of the importer loop (main.go:58-83) for one importer. */
    method Ingest(pkg: string, imp: string, h: Hosting)
      requires Valid()
      modifies this
      ensures Valid()
      ensures projects == AfterIngest(old(projects), pkg, imp, h)
      ensures fetched == old(fetched) + FetchOf(old(projects), imp, h)
    {
      var proj := h.repoRoot(imp);
      if proj !in projects {
        var stars := 0;
        if HasPrefix(imp, GitHubHost) {
          var (owner, repo) := h.ownerRepo(imp);
          var reply := h.getStars(owner, repo);
          fetched := fetched + [proj];
          // a failed fetch is only logged; whatever count came back is kept
          stars := reply.stars;
        }
        projects := projects[proj := Repo(stars, map[imp := [pkg]])];
      } else {
        var rec := projects[proj];
        projects := projects[proj := rec.(packages := rec.packages[imp := PackagesAt(rec, imp) + [pkg]])];
      }
    }

    /** The importer loop of main (main.go:58-83) for one tracked package. */
    method IngestImporters(pkg: string, importers: seq<string>, h: Hosting)
      requires Valid()
      modifies this
      ensures Valid()
      ensures projects == AfterIngestAll(old(projects), ImportsOf(pkg, importers), h)
      ensures fetched == old(fetched) + Fetches(old(projects), ImportsOf(pkg, importers), h)
    {
      ghost var base, log := projects, fetched;
      ghost var done: seq<Import> := [];
      var j := 0;
      while j < |importers|
        invariant 0 <= j <= |importers|
        invariant Valid()
        invariant done == ImportsOf(pkg, importers[..j])
        invariant projects == AfterIngestAll(base, done, h)
        invariant fetched == log + Fetches(base, done, h)
      {
        var x := Import(pkg, importers[j]);
        IngestStep(base, done, x, h);
        ImportsOfPrefix(pkg, importers, j);
        Ingest(pkg, importers[j], h);
        done := done + [x];
        j := j + 1;
      }
      assert importers[..j] == importers;
    }

    /**
     * The package loop of main (main.go:48-84): every package of `suffixes` (main passes
     * TrackedSuffixes) in list order, prefixed with HostPrefix, and every importer found
     * for it. A failed query is returned (main stops there).
     */
    method IngestTracked(suffixes: seq<string>, ignore: set<string>, listImporters: ImporterQuery, h: Hosting)
      returns (failure: Option<string>)
      requires Valid()
      modifies this
      ensures Valid()
      ensures match Discovered(suffixes, ignore, listImporters)
              case Ok(xs) =>
                failure == None && projects == AfterIngestAll(old(projects), xs, h) &&
                fetched == old(fetched) + Fetches(old(projects), xs, h)
              case Err(e) => failure == Some(e)
    {
      ghost var base, log := projects, fetched;
      ghost var done: seq<Import> := [];
      var i := 0;
      while i < |suffixes|
        invariant 0 <= i <= |suffixes|
        invariant Valid()
        invariant Discovered(suffixes[..i], ignore, listImporters) == Ok(done)
        invariant projects == AfterIngestAll(base, done, h)
        invariant fetched == log + Fetches(base, done, h)
      {
        var pkg := HostPrefix + suffixes[i];
        var found := listImporters(pkg, ignore, true);
        DiscoveredStep(suffixes, i, done, ignore, listImporters);
        if found.Err? {
          DiscoveredFailureSticks(suffixes, i + 1, ignore, listImporters);
          return Some(found.error);
        }
        var more := ImportsOf(pkg, found.value);
        AfterIngestAllAppend(base, done, more, h);
        ghost var before := fetched;
        IngestImporters(pkg, found.value, h);
        FetchLogStep(log, before, fetched, base, done, more, h);
        done := done + more;
        i := i + 1;
      }
      assert suffixes[..i] == suffixes;
      return None;
    }
  }
}
