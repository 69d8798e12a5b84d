/**
 * loadIgnoreSet: the repositories whose importers are not counted. The seeds are the
 * repositories of the providers organisation plus two fixed upstreams; the set is the
 * seeds together with the forks listed for each seed (one level: forks are not asked
 * for their own forks). Any listing failure makes the whole result a failure.
 */
module IgnoreSet {
  import opened Results
  import opened Util
  import opened GitHub

  const ProvidersOrg: string := "terraform-providers"

  /** Appended to the organisation's repositories before forks are listed. */
  const ExtraUpstreams: seq<string> := ["github.com/hashicorp/terraform", "github.com/hashicorp/otto"]

  /** The fork listing for one upstream, addressed by its owner and repository. */
  function ForksOf(upstream: string, h: Hosting): Result<seq<string>>
  {
    var (owner, repo) := h.ownerRepo(upstream);
    h.listForks(owner, repo)
  }

  /** `fork` is one of the forks listed for `upstream`. */
  predicate ListedFork(fork: string, upstream: string, h: Hosting)
  {
    ForksOf(upstream, h).Ok? && fork in ForksOf(upstream, h).value
  }

  /** The forks of `upstreams`, listed in order and concatenated, or the first failure. */
  function AllForks(upstreams: seq<string>, h: Hosting): Result<seq<string>>
    decreases |upstreams|
  {
    if upstreams == [] then Ok([])
    else
      match AllForks(upstreams[..|upstreams| - 1], h)
      case Err(e) => Err(e)
      case Ok(earlier) =>
        match ForksOf(upstreams[|upstreams| - 1], h)
        case Err(e) => Err(e)
        case Ok(forks) => Ok(earlier + forks)
  }

  /** What loadIgnoreSet returns, as a value. */
  function IgnoreSetOf(h: Hosting): Result<set<string>>
  {
    match h.listRepositories(ProvidersOrg)
    case Err(e) => Err(e)
    case Ok(repos) =>
      var upstreams := repos + ExtraUpstreams;
      match AllForks(upstreams, h)
      case Err(e) => Err(e)
      case Ok(forks) => Ok(StringListToSet(forks + upstreams))
  }

  /**
   * The loop of loadIgnoreSet. `queried` records, in order, every upstream whose forks
   * were listed: only seeds are ever queried, and the loop stops at the first failure.
   */
  method LoadIgnoreSet(h: Hosting) returns (result: Result<set<string>>, ghost queried: seq<string>)
    ensures result == IgnoreSetOf(h)
    ensures h.listRepositories(ProvidersOrg).Err? ==> queried == []
    ensures h.listRepositories(ProvidersOrg).Ok? ==>
              var upstreams := h.listRepositories(ProvidersOrg).value + ExtraUpstreams;
              queried <= upstreams && (result.Ok? ==> queried == upstreams)
    // on a failed fork listing, the loop stops at the first failing seed
    ensures result.Err? && h.listRepositories(ProvidersOrg).Ok? ==>
              |queried| > 0 && ForksOf(queried[|queried| - 1], h) == Err(result.error) &&
              forall j :: 0 <= j < |queried| - 1 ==> ForksOf(queried[j], h).Ok?
  {
    queried := [];
    var listed := h.listRepositories(ProvidersOrg);
    if listed.Err? {
      return Err(listed.error), queried;
    }
    var upstreams := listed.value + ExtraUpstreams;
    var ignoredForks: seq<string> := [];
    var i := 0;
    while i < |upstreams|
      invariant 0 <= i <= |upstreams|
      invariant AllForks(upstreams[..i], h) == Ok(ignoredForks)
      invariant queried == upstreams[..i]
      invariant forall j :: 0 <= j < |queried| ==> ForksOf(queried[j], h).Ok?
    {
      var upstream := upstreams[i];
      var (owner, repo) := h.ownerRepo(upstream);
      var forks := h.listForks(owner, repo);
      queried := queried + [upstream];
      assert upstreams[..i + 1][..i] == upstreams[..i];
      if forks.Err? {
        AllForksFailureSticks(upstreams, i + 1, h);
        return Err(forks.error), queried;
      }
      ignoredForks := ignoredForks + forks.value;
      i := i + 1;
    }
    assert upstreams[..i] == upstreams;
    result := Ok(StringListToSet(ignoredForks + upstreams));
  }

  /** A failure while listing the forks of a prefix is the failure of the whole list. */
  lemma {:induction false} AllForksFailureSticks(upstreams: seq<string>, n: nat, h: Hosting)
    requires n <= |upstreams|
    requires AllForks(upstreams[..n], h).Err?
    ensures AllForks(upstreams, h) == AllForks(upstreams[..n], h)
    decreases |upstreams| - n
  {
    if n < |upstreams| {
      var longer := upstreams[..n + 1];
      assert longer[..n] == upstreams[..n];
      AllForksFailureSticks(upstreams, n + 1, h);
    } else {
      assert upstreams[..n] == upstreams;
    }
  }

  /** Listing all forks succeeds exactly when listing the forks of every upstream does. */
  lemma {:induction false} AllForksSucceeds(upstreams: seq<string>, h: Hosting)
    ensures AllForks(upstreams, h).Ok? <==> forall i :: 0 <= i < |upstreams| ==> ForksOf(upstreams[i], h).Ok?
    decreases |upstreams|
  {
    if upstreams != [] {
      var init := upstreams[..|upstreams| - 1];
      AllForksSucceeds(init, h);
      assert forall i :: 0 <= i < |init| ==> init[i] == upstreams[i];
    }
  }

  /** On success, the forks collected are exactly the forks listed for some upstream. */
  lemma {:induction false} AllForksMembers(upstreams: seq<string>, h: Hosting)
    requires AllForks(upstreams, h).Ok?
    ensures forall x :: x in AllForks(upstreams, h).value <==>
              exists i :: 0 <= i < |upstreams| && ListedFork(x, upstreams[i], h)
    decreases |upstreams|
  {
    if upstreams != [] {
      var n := |upstreams| - 1;
      var init := upstreams[..n];
      AllForksMembers(init, h);
      forall x
        ensures x in AllForks(upstreams, h).value <==>
                exists i :: 0 <= i < |upstreams| && ListedFork(x, upstreams[i], h)
      {
        if x in AllForks(upstreams, h).value {
          if x in AllForks(init, h).value {
            var i :| 0 <= i < |init| && ListedFork(x, init[i], h);
            assert init[i] == upstreams[i];
          } else {
            assert ListedFork(x, upstreams[n], h);
          }
        }
        if exists i :: 0 <= i < |upstreams| && ListedFork(x, upstreams[i], h) {
          var i :| 0 <= i < |upstreams| && ListedFork(x, upstreams[i], h);
          if i < n {
            assert init[i] == upstreams[i];
            assert ListedFork(x, init[i], h);
          }
        }
      }
    }
  }

  /** On failure, the error is that of the first upstream whose forks could not be listed. */
  lemma {:induction false} AllForksFirstFailure(upstreams: seq<string>, h: Hosting)
    requires AllForks(upstreams, h).Err?
    ensures exists i :: 0 <= i < |upstreams| && ForksOf(upstreams[i], h) == Err(AllForks(upstreams, h).error)
              && forall j :: 0 <= j < i ==> ForksOf(upstreams[j], h).Ok?
    decreases |upstreams|
  {
    var n := |upstreams| - 1;
    var init := upstreams[..n];
    assert forall j :: 0 <= j < |init| ==> init[j] == upstreams[j];
    if AllForks(init, h).Err? {
      AllForksFirstFailure(init, h);
      var i :| 0 <= i < |init| && ForksOf(init[i], h) == Err(AllForks(init, h).error)
                 && forall j :: 0 <= j < i ==> ForksOf(init[j], h).Ok?;
      assert ForksOf(upstreams[i], h) == Err(AllForks(upstreams, h).error);
    } else {
      AllForksSucceeds(init, h);
      assert ForksOf(upstreams[n], h) == Err(AllForks(upstreams, h).error);
    }
  }

  /**
   * The ignore set, on success, is exactly the seeds (the organisation's repositories
   * and the two fixed upstreams) together with the forks listed for some seed.
   */
  lemma IgnoreSetMembers(h: Hosting)
    requires IgnoreSetOf(h).Ok?
    ensures h.listRepositories(ProvidersOrg).Ok?
    ensures var seeds := h.listRepositories(ProvidersOrg).value + ExtraUpstreams;
            forall x :: x in IgnoreSetOf(h).value <==>
              x in seeds || exists i :: 0 <= i < |seeds| && ListedFork(x, seeds[i], h)
  {
    var seeds := h.listRepositories(ProvidersOrg).value + ExtraUpstreams;
    AllForksMembers(seeds, h);
  }

  /**
   * The ignore set is built exactly when every listing succeeds; otherwise its error is
   * the repository listing's error, or that of the first seed whose forks failed.
   */
  lemma IgnoreSetFailure(h: Hosting)
    ensures IgnoreSetOf(h).Ok? <==>
              h.listRepositories(ProvidersOrg).Ok? &&
              var seeds := h.listRepositories(ProvidersOrg).value + ExtraUpstreams;
              forall i :: 0 <= i < |seeds| ==> ForksOf(seeds[i], h).Ok?
    ensures IgnoreSetOf(h).Err? && h.listRepositories(ProvidersOrg).Ok? ==>
              var seeds := h.listRepositories(ProvidersOrg).value + ExtraUpstreams;
              exists i :: 0 <= i < |seeds| && ForksOf(seeds[i], h) == Err(IgnoreSetOf(h).error)
                && forall j :: 0 <= j < i ==> ForksOf(seeds[j], h).Ok?
    ensures h.listRepositories(ProvidersOrg).Err? ==> IgnoreSetOf(h) == Err(h.listRepositories(ProvidersOrg).error)
  {
    if h.listRepositories(ProvidersOrg).Ok? {
      var seeds := h.listRepositories(ProvidersOrg).value + ExtraUpstreams;
      AllForksSucceeds(seeds, h);
      if AllForks(seeds, h).Err? {
        AllForksFirstFailure(seeds, h);
      }
    }
  }
}
