/**
 * The review-app records the pipeline lists, the choice of the one to
 * destroy, and the body of the request that creates a new one.
 */
module ReviewApps {
  import opened Wrappers
  import CustomVars

  /** A review app as listed by `GET /pipelines/{pipeline}/review-apps`. */
  datatype ReviewApp = ReviewApp(prNumber: int, id: int)

  /** The head branch, head commit and number of the triggering pull request. */
  datatype PullRequest = PullRequest(headRef: string, headSha: string, number: int)

  /** Where the platform fetches the source from, and which commit it is. */
  datatype SourceBlob = SourceBlob(url: string, version: string)

  /** The body of `POST /review-apps`. An unset pipeline id stays unset. */
  datatype CreateBody = CreateBody(
    branch: string,
    pipeline: Option<string>,
    sourceBlob: SourceBlob,
    prNumber: int,
    environment: map<string, string>)

  /** `apps[i]` belongs to pull request `prNumber` and no earlier app does. */
  predicate IsFirstMatch(apps: seq<ReviewApp>, prNumber: int, i: int) {
    && 0 <= i < |apps|
    && apps[i].prNumber == prNumber
    && forall j :: 0 <= j < i ==> apps[j].prNumber != prNumber
  }

  /** The position `reviewApps.find` stops at: the first app of the pull request. */
  function FindIndex(apps: seq<ReviewApp>, prNumber: int): (r: Option<nat>)
    ensures r.Some? ==> IsFirstMatch(apps, prNumber, r.value)
    ensures r.None? <==> forall j :: 0 <= j < |apps| ==> apps[j].prNumber != prNumber
  {
    if apps == [] then None
    else if apps[0].prNumber == prNumber then Some(0)
    else match FindIndex(apps[1..], prNumber)
      case Some(i) => Some(i + 1)
      case None => None
  }

  /**
   * The id that `destroyReviewApp` deletes: that of the first listed app of
   * the pull request, or none when the pull request has no app.
   */
  function DeleteTarget(apps: seq<ReviewApp>, prNumber: int): (r: Option<int>)
    ensures r.None? <==> forall j :: 0 <= j < |apps| ==> apps[j].prNumber != prNumber
    ensures forall i :: IsFirstMatch(apps, prNumber, i) ==> r == Some(apps[i].id)
  {
    match FindIndex(apps, prNumber)
    case Some(i) =>
      FirstMatchUnique(apps, prNumber, i);
      Some(apps[i].id)
    case None => None
  }

  /** There is only one first match. */
  lemma FirstMatchUnique(apps: seq<ReviewApp>, prNumber: int, i: int)
    requires IsFirstMatch(apps, prNumber, i)
    ensures forall j :: IsFirstMatch(apps, prNumber, j) ==> j == i
  {
  }

  /**
   * The body that `createReviewApp` posts: the pull request's head branch,
   * the configured pipeline, the archive URL with the head commit as its
   * version, the pull request number and the parsed custom variables.
   */
  function CreateRequestBody(
    pr: PullRequest, pipeline: Option<string>, url: string, customEnvVars: string): CreateBody
  {
    CreateBody(pr.headRef, pipeline, SourceBlob(url, pr.headSha), pr.number,
      CustomVars.Parse(customEnvVars))
  }

  /** A listing where two apps belong to different pull requests: only the second is chosen for PR 7. */
  lemma DeleteTargetExample()
    ensures DeleteTarget([ReviewApp(5, 1), ReviewApp(7, 2)], 7) == Some(2)
    ensures DeleteTarget([ReviewApp(5, 1), ReviewApp(7, 2)], 6) == None
  {
    assert IsFirstMatch([ReviewApp(5, 1), ReviewApp(7, 2)], 7, 1);
  }
}
