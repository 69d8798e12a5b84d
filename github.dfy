/**
 * The parts of the github package and of its client that main.go calls. Their code is
 * not part of this model, so each is an arbitrary total function: every lemma of the
 * model holds whatever they return.
 */
module GitHub {
  import opened Results

  /** What GetStars hands back: a star count, and an error that may accompany it. */
  datatype StarsReply = StarsReply(stars: int, err: Option<string>)

  datatype Hosting = Hosting(
    /** github.RepoRoot: the project identifier of an import path. */
    repoRoot: string -> string,
    /** github.OwnerRepo: the owner and repository named by a path. */
    ownerRepo: string -> (string, string),
    /** Client.ListRepositories of an organisation. */
    listRepositories: string -> Result<seq<string>>,
    /** Client.ListForks of owner/repo. */
    listForks: (string, string) -> Result<seq<string>>,
    /** Client.GetStars of owner/repo. */
    getStars: (string, string) -> StarsReply)
}
