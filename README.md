# go-importers: ignore set and project aggregation

This project models the aggregation core of `main.go` in go-importers. The program
surveys which external projects import the Terraform helper packages. It does this in
two pieces:

- **Ignore set** (`loadIgnoreSet`). The seeds are the repositories of the
  `terraform-providers` organisation, plus `github.com/hashicorp/terraform` and
  `github.com/hashicorp/otto`. The forks of each seed are listed, one level deep. The
  result is the set of seeds and forks. Any listing error is fatal.
- **Project aggregation** (the loops of `main`). Each tracked package
  (`github.com/hashicorp/terraform/` + an entry of the fixed list) is queried for its
  importers. Every importer is folded into a map from project id (`github.RepoRoot`) to
  a `repo` record holding:
  - `Stars`, set once, when the project is first seen;
  - `Packages`, a map from importer path to the tracked packages it imports.

Modules:

- `Results`: result and option types.
- `Util`: `strings.HasPrefix` and `util.StringListToSet`.
- `GitHub`: the external calls, gathered in the datatype `Hosting`, one arbitrary total
  function per call.
- `Discovery`: the tracked list, the `godoc.ListImporters` query type, and `Discovered`,
  which is every (package, importer) pair in processing order, or the first failed query.
- `IgnoreSet`: the builder and its specification.
- `Aggregator`: the record type, the ingest specification (`AfterIngest`,
  `AfterIngestAll`), and the class `ProjectMap`, which holds the `r` map of `main` and
  whose methods update it in place.
- `Survey`: `main` as a whole.

The central result is `Aggregator.AggregateSummarizes`. After any sequence of ingests
into an empty map, `Summarizes` holds, which says four things:

- The keys are exactly the projects of the ingested importers.
- Each record's importer keys are exactly that project's ingested importers.
- Under each importer is exactly the list of packages it was ingested with, in order,
  repeats included.
- Each record's stars are decided by the project's first importer.

Three behaviours of `main.go` are worth stating outright, since a reader might expect
otherwise:

- `main.go:81` appends unconditionally, so a pair listed twice is recorded twice
  (`Aggregator.IngestTwiceRepeats`). Repeated pairs are only avoided if the importer
  query never lists an importer twice for one package.
- `main` builds only an unordered map (`main.go:39`); there is no ranked list.
- `loadIgnoreSet` returns only the listing's error (`main.go:107`), not the failing seed.
  The model returns that error too; which seed failed is recorded only in the ghost
  output `queried` of `IgnoreSet.LoadIgnoreSet`.

## Model

| member | source | states |
|---|---|---|
| `Util.HasPrefix` | main.go:66 | the definition of `strings.HasPrefix`: `s` is at least as long as `prefix` and begins with it; this is the test that decides whether GetStars is called |
| `Util.StringListToSet` | main.go:113 | the ignore map holds exactly the entries of the list it is built from |
| `IgnoreSet.ForksOf` | main.go:104-105 | the definition of one fork listing: `ListForks` called with the owner and name that `OwnerRepo` splits from the seed |
| `IgnoreSet.AllForks` | main.go:101-111 | the reference definition of the fork loop: the forks of all seeds concatenated in seed order, or the error of the first failing listing |
| `IgnoreSet.IgnoreSetOf` | main.go:93-113 | the reference definition of `loadIgnoreSet`: the repository listing's error, the fork loop's error, or the set of forks and seeds (the org's repositories plus terraform and otto) |
| `IgnoreSet.LoadIgnoreSet` | main.go:91-114 | the loop returns exactly what the specification `IgnoreSetOf` returns (set or error). Fork listings are requested only for seeds, in seed order, and for every seed on success. No listing is requested when the repository listing fails. When a fork listing fails, the loop stops at that seed: the last seed queried is the one whose error is returned, and every earlier seed's listing succeeded |
| `IgnoreSet.AllForksFailureSticks` | main.go:105-108 | a failed fork listing ends the loop: the error of the prefix is the error of the whole run |
| `IgnoreSet.AllForksSucceeds` | main.go:101-111 | gathering forks succeeds if and only if the fork listing of every seed succeeds |
| `IgnoreSet.AllForksMembers` | main.go:101-111 | on success, the forks gathered are exactly those listed for some seed; forks of forks are never added |
| `IgnoreSet.AllForksFirstFailure` | main.go:102-108 | on failure, the error is that of the first seed whose fork listing failed, and every earlier seed succeeded |
| `IgnoreSet.IgnoreSetMembers` | main.go:99-113 | on success, a path is ignored if and only if it is a seed (org repositories plus terraform and otto) or a fork listed for a seed |
| `IgnoreSet.IgnoreSetFailure` | main.go:93-108 | the set is built if and only if the repository listing and every fork listing succeed; a failed repository listing is returned as is, otherwise the first failing seed's error is returned |
| `Discovery.ImportsOf` | main.go:58 | one pair per importer, in the importers' order, all for the same package |
| `Discovery.ImportsOfPrefix` | main.go:58 | the pairs of the first `j` importers are the first `j` pairs; one more importer adds exactly its pair |
| `Discovery.Query` | main.go:49-52 | the definition of one importer query: `ListImporters` on `github.com/hashicorp/terraform/` followed by the list entry, with the ignore set and the literal `true` as third argument |
| `Discovery.Discovered` | main.go:48-57 | the reference definition of the outer loop: every (package, importer) pair in list order, or the error of the first failing query |
| `Discovery.DiscoveredStep` | main.go:48-57 | after a successful prefix of the list, one more entry either fails with its query's error or adds its pairs |
| `Discovery.DiscoveredFailureSticks` | main.go:52-55 | a failed importer query ends the survey: no later package changes the outcome |
| `Discovery.DiscoveredInOrder` | main.go:48-58 | packages are processed in list order: the pairs of any prefix of the list are a prefix of all the pairs |
| `Discovery.DiscoveredImports` | main.go:48-58 | on success, every pair's package is `github.com/hashicorp/terraform/` followed by a list entry, and its importer was listed for that package; every listed importer of every package appears |
| `Discovery.DiscoveredFailure` | main.go:52-55 | the survey fails if and only if some query fails, and its error is that of the first failing query |
| `Aggregator.AfterIngest` | main.go:63-82 | only the entry of `RepoRoot(imp)` can appear or change. On first sight the new record has packages exactly `{imp: [pkg]}` and stars from GetStars for a `github.com` importer (0 otherwise), whatever error came with them. When the project is already present, stars are kept, `pkg` is appended to `imp`'s list (an absent list counts as empty), and the other importer keys are kept |
| `Aggregator.PackagesAt` | main.go:81 | the definition of reading an importer's list: the recorded list, or the empty list for an importer with no entry, as reading a missing key of a Go map yields a nil slice that `append` extends |
| `Aggregator.FirstSightStars` | main.go:65-73 | the definition of the stars of a new record: GetStars' count for the owner and name of a `github.com` importer, whatever error comes with it, and 0 otherwise |
| `Aggregator.AfterIngestAll` | main.go:58-83 | the reference definition of the inner loop over many pairs: `AfterIngest` applied to each pair in order |
| `Aggregator.AfterIngestAllSnoc` | main.go:58-83 | ingesting one more pair applies one more ingest to the map so far |
| `Aggregator.AfterIngestAllAppend` | main.go:48-84 | ingesting two runs of pairs one after the other is ingesting their concatenation |
| `Aggregator.FetchOf` | main.go:64-69 | the definition of the GetStars call one ingest makes: one call, for the importer's project, exactly when that project is not yet a key and the importer starts with `github.com` |
| `Aggregator.NewAt` | main.go:63-64 | the definition of a first sighting relative to a starting map: the pair's project is neither in the map nor the project of an earlier pair |
| `Aggregator.Fetches` | main.go:58-83 | the reference definition of the GetStars calls of many ingests, in call order: one per pair that is a first sighting with a `github.com` importer |
| `Aggregator.KeysAfterIngestAll` | main.go:63-82 | ingesting adds exactly the projects of the ingested importers to the keys, and removes none |
| `Aggregator.KeysGrow` | main.go:74-81 | ingesting never removes a project |
| `Aggregator.FetchesSnoc` | main.go:63-69 | the calls of one more pair are exactly the one call `FetchOf` makes from the map built so far |
| `Aggregator.FetchesAppend` | main.go:48-84 | the calls of two runs of pairs are those of the first run followed by those of the second, made from the map the first run left |
| `Aggregator.FetchesOnce` | main.go:64-69 | GetStars is called at most once per project: the projects it is called for are pairwise distinct, none had a record beforehand, and each has one afterwards |
| `Aggregator.FirstSightPrefix` | main.go:64 | whether a pair is the first of its project does not depend on the pairs after it |
| `Aggregator.FetchesFirstSight` | main.go:63-73 | over a whole run from an empty map, GetStars is called for a project if and only if the project's first importer starts with `github.com` |
| `Aggregator.IngestStep` | main.go:58-83 | one loop step: one more ingest extends both the map and the log of calls from the pairs done so far to the pairs done plus one |
| `Aggregator.FetchLogStep` | main.go:48-84 | the calls logged before one package's pairs plus the calls they make are the calls of all pairs so far |
| `Aggregator.PackagesOfAbsent` | main.go:81 | an importer that was never ingested has no packages |
| `Aggregator.PackagesOfMember` | main.go:77-81 | every ingested package is among the packages of its importer |
| `Aggregator.ProjectsSnoc` | main.go:63-74 | one more pair adds exactly its project to the projects seen |
| `Aggregator.ImportersOfSnoc` | main.go:76-81 | one more pair adds exactly its importer to the importers of its project |
| `Aggregator.PackagesOfSnoc` | main.go:81 | one more pair appends its package to its importer's list and to no other list |
| `Aggregator.PackagesOfNewImporter` | main.go:81 | an importer new to its project has so far the empty (nil) list |
| `Aggregator.IngestExtendsPackages` | main.go:76-81 | after one more ingest, every importer's list is exactly the packages it was paired with |
| `Aggregator.IngestExtendsStars` | main.go:64-79 | after one more ingest, each project's stars are still those decided by its first importer |
| `Aggregator.IngestExtendsSummary` | main.go:63-82 | one ingest takes the summary of a pair sequence to the summary of that sequence extended by the pair |
| `Aggregator.AggregateSummarizes` | main.go:58-83 | after ingesting any pair sequence into an empty map, the map is exactly its summary: keys, importer keys, package lists in order, and stars from the first importer |
| `Aggregator.AggregateKeys` | main.go:58-83 | after the loop, a project is a key if and only if it is `RepoRoot` of some ingested importer |
| `Aggregator.AggregateRecordsEveryImport` | main.go:58-83 | after the loop, for every ingested pair `(pkg, imp)`, `pkg` is in `r[RepoRoot(imp)].Packages[imp]` |
| `Aggregator.IngestTwiceRepeats` | main.go:81 | the same pair ingested twice is recorded twice: there is no deduplication |
| `Aggregator.StarsErrorIgnored` | main.go:69-79 | a GetStars error is not fatal and changes nothing: clients that agree on star counts build the same map, whatever errors they report |
| `Aggregator.ProjectMap.constructor` | main.go:39 | the map starts empty, and no stars have been fetched |
| `Aggregator.ProjectMap.Ingest` | main.go:63-82 | the map becomes exactly `AfterIngest` of the old map. The log `fetched` of GetStars calls grows by exactly `FetchOf` of the old map: one call for an unseen project with a `github.com` importer, none otherwise. Each project is fetched at most once and every fetched project has a record |
| `Aggregator.ProjectMap.IngestImporters` | main.go:58-83 | the map becomes the old map with the package's importers ingested in order. The log of GetStars calls grows by exactly the first-sight `github.com` projects of those pairs, in call order (`Fetches`) |
| `Aggregator.ProjectMap.IngestTracked` | main.go:48-84 | if every query succeeds, the map becomes the old map with all discovered pairs ingested in order, and the log of GetStars calls grows by exactly `Fetches` of those pairs; otherwise the first failing query's error is returned |
| `Survey.Report` | main.go:37-85 | the reference definition of `main` up to the encoding: the ignore set's error, the first failing query's error, or the map built from an empty one by all discovered pairs |
| `Survey.BuildReport` | main.go:37-85 | the report is exactly `Report`: a failed ignore set or a failed query yields that error; otherwise the map built from an empty one by all discovered pairs |
| `Survey.ReportSummarizes` | main.go:37-85 | a report exists if and only if the ignore set is built and every tracked package's query succeeds, and the report is then the summary of all discovered pairs |

## Left out

- The external calls are arbitrary total functions, the fields of `GitHub.Hosting` and
  `Discovery.ImporterQuery`: `ListRepositories`, `ListForks`, `GetStars`,
  `godoc.ListImporters`, `github.RepoRoot` and `github.OwnerRepo`. Their code is not part
  of this model. Each call returns the same answer every time it is made.
- Whatever deduplication or filtering against the ignore set takes place happens inside
  `godoc.ListImporters`, so the model assumes neither.
- `github.NewClient` and the token that `util.MustEnv` reads are left out: the client
  they build is implicit in `GitHub.Hosting`. All `log` output and `log.Fatalf` stopping
  the process are left out too. A fatal error is an `Err` result, and nothing is emitted after it.
- The JSON encoding of the report to standard output (main.go:86-88) is left out, and so
  is its error path.
- The values of the Go map `r` are `*repo` pointers. The model keeps them as `Repo`
  values, since no pointer is shared or compared.
- Go strings are byte strings; the model uses `string`, a sequence of characters.
  Every literal and prefix in `main.go` is ASCII, so `strings.HasPrefix` and the
  concatenations behave the same on both.
- `IgnoreSet.LoadIgnoreSet` returns a Go `map[string]bool`; the model returns its set of
  keys.
