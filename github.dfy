/** `sha_for_repo`: the head commit of a branch of a GitHub repository, looked
    up through the API, cut to a short form, with a synthetic fallback. The
    network is an input: `api` gives, for a request path, the `object.sha`
    field of the answer, or None when the request or the parse failed. */
module GitHub {
  import opened Wrappers
  import opened Strings

  /** `"/repos/#{slug}/git/refs/heads/#{branch}"` (a nil branch interpolates as ""). */
  function RefsPath(slug: string, branch: Option<string>): string {
    "/repos/" + slug + "/git/refs/heads/" + branch.GetOr("")
  }

  /** `data["object"]["sha"][0, length]`, or `'f' * length` after any failure. */
  function ShaForRepo(api: string -> Option<string>, slug: string, branch: Option<string>, length: nat): (r: string)
    ensures |r| <= length
    ensures api(RefsPath(slug, branch)).Some? ==> r <= api(RefsPath(slug, branch)).value
    ensures api(RefsPath(slug, branch)).Some? ==>
              |r| == (if |api(RefsPath(slug, branch)).value| < length then |api(RefsPath(slug, branch)).value| else length)
    ensures api(RefsPath(slug, branch)).None? ==> r == Repeat('f', length)
  {
    match api(RefsPath(slug, branch))
    case Some(sha) => Take(sha, length)
    case None => Repeat('f', length)
  }

  /** The result always has the full short length unless the API gave a
      shorter SHA, and a failed lookup is all `f`s. */
  lemma ShaForRepoLength(api: string -> Option<string>, slug: string, branch: Option<string>, length: nat)
    ensures |ShaForRepo(api, slug, branch, length)| == length
        <==> (api(RefsPath(slug, branch)).None? || |api(RefsPath(slug, branch)).value| >= length)
  {
  }
}
