/**
 * One run of the action: the guard on the platform client, the switch on
 * the `action` input, and the remote requests each operation issues.
 * The remote platform and the source-control service are not modelled;
 * what they answer is a parameter (`Remote`), and a run is described by
 * the requests it sends and how it ends.
 */
module Action {
  import opened Wrappers
  import opened ReviewApps
  import CustomVars

  /** The operation the `switch (action)` selects. */
  datatype Operation = Create | Destroy | NoOperation

  /** The values the run reads from the event, its inputs and its environment. */
  datatype Inputs = Inputs(
    pr: PullRequest,
    owner: string,
    repo: string,
    action: string,
    pipeline: Option<string>,
    customEnvVars: string,
    githubToken: Option<string>)

  /**
   * What the collaborators do: whether the two clients could be
   * constructed, what the archive request and the listing return (`None`
   * when the call fails), and whether the delete and the post succeed.
   */
  datatype Remote = Remote(
    herokuClient: bool,
    octokitClient: bool,
    tarballUrl: Option<string>,
    reviewApps: Option<seq<ReviewApp>>,
    deleteOk: bool,
    postOk: bool)

  /** A remote request the run sends. */
  datatype Request =
    | ListReviewApps(pipeline: Option<string>)            // GET /pipelines/{pipeline}/review-apps
    | DeleteReviewApp(id: int)                            // DELETE /review-apps/{id}
    | DownloadTarball(owner: string, repo: string, gitRef: string)  // HEAD of the archive
    | PostReviewApp(body: CreateBody)                     // POST /review-apps

  /** Why nothing, or less than a full operation, was done. */
  datatype Skip = NoHerokuClient | UnknownAction | NoGithubToken | NoOctokitClient

  /**
   * How the run ends: normally, having done nothing for a logged reason,
   * with an error the operation catches and logs, or with an error that
   * escapes the operation (the failed archive request).
   */
  datatype Outcome = Finished | Skipped(reason: Skip) | ErrorLogged | ErrorEscaped

  datatype Run = Run(requests: seq<Request>, outcome: Outcome)

  /**
   * The guard on the client followed by the switch: only an existing
   * client and one of the two known actions select an operation.
   */
  function Dispatch(herokuClient: bool, action: string): (op: Operation)
    ensures op == Destroy <==> herokuClient && action == "destroy"
    ensures op == Create <==> herokuClient && action == "create"
    ensures op == NoOperation <==> !herokuClient || (action != "create" && action != "destroy")
  {
    if !herokuClient then NoOperation
    else if action == "destroy" then Destroy
    else if action == "create" then Create
    else NoOperation
  }

  /** The truthiness test on `GITHUB_TOKEN`: set and non-empty. */
  predicate TokenSet(token: Option<string>) {
    token.Some? && token.value != ""
  }

  /** `destroyReviewApp`: list the apps, then delete the first of the pull request, if any. */
  function DestroyReviewApp(pipeline: Option<string>, prNumber: int, remote: Remote): Run
  {
    var list := ListReviewApps(pipeline);
    match remote.reviewApps
    case None => Run([list], ErrorLogged)
    case Some(apps) =>
      match DeleteTarget(apps, prNumber)
      case None => Run([list], Finished)
      case Some(id) => Run([list, DeleteReviewApp(id)], if remote.deleteOk then Finished else ErrorLogged)
  }

  /**
   * `createReviewApp`: check the token, ask for the archive URL of the head
   * branch, then post the new review app. The archive request is made
   * outside the operation's error handler, so its failure escapes.
   */
  function CreateReviewApp(inputs: Inputs, remote: Remote): Run
  {
    if !TokenSet(inputs.githubToken) then Run([], Skipped(NoGithubToken))
    else if !remote.octokitClient then Run([], Skipped(NoOctokitClient))
    else
      var tarball := DownloadTarball(inputs.owner, inputs.repo, inputs.pr.headRef);
      match remote.tarballUrl
      case None => Run([tarball], ErrorEscaped)
      case Some(url) =>
        var body := CreateRequestBody(inputs.pr, inputs.pipeline, url, inputs.customEnvVars);
        Run([tarball, PostReviewApp(body)], if remote.postOk then Finished else ErrorLogged)
  }

  /** The whole run after the inputs are read. */
  function RunAction(inputs: Inputs, remote: Remote): Run
  {
    match Dispatch(remote.herokuClient, inputs.action)
    case Destroy => DestroyReviewApp(inputs.pipeline, inputs.pr.number, remote)
    case Create => CreateReviewApp(inputs, remote)
    case NoOperation =>
      Run([], Skipped(if !remote.herokuClient then NoHerokuClient else UnknownAction))
  }

  /** The ids of the delete requests among `requests`, in order. */
  function Deletes(requests: seq<Request>): seq<int>
  {
    if requests == [] then []
    else (if requests[0].DeleteReviewApp? then [requests[0].id] else []) + Deletes(requests[1..])
  }

  /** The bodies of the create requests among `requests`, in order. */
  function Posts(requests: seq<Request>): seq<CreateBody>
  {
    if requests == [] then []
    else (if requests[0].PostReviewApp? then [requests[0].body] else []) + Posts(requests[1..])
  }

  /** Without a platform client the run sends nothing. */
  lemma NoClientNoRequests(inputs: Inputs, remote: Remote)
    requires !remote.herokuClient
    ensures RunAction(inputs, remote) == Run([], Skipped(NoHerokuClient))
  {
  }

  /** An action other than "create" and "destroy" sends nothing. */
  lemma UnknownActionNoRequests(inputs: Inputs, remote: Remote)
    requires inputs.action != "create" && inputs.action != "destroy"
    ensures RunAction(inputs, remote).requests == []
    ensures RunAction(inputs, remote).outcome.Skipped?
  {
  }

  /**
   * "destroy" lists the pipeline's review apps and then deletes the first
   * app of the pull request, and nothing when it has none or the listing
   * fails; it never creates an app.
   */
  lemma DestroyRequests(inputs: Inputs, remote: Remote)
    requires remote.herokuClient && inputs.action == "destroy"
    ensures var r := RunAction(inputs, remote);
      && r.requests != [] && r.requests[0] == ListReviewApps(inputs.pipeline)
      && Posts(r.requests) == []
    ensures var r := RunAction(inputs, remote);
      remote.reviewApps.None? ==> r == Run([ListReviewApps(inputs.pipeline)], ErrorLogged)
    ensures var r := RunAction(inputs, remote);
      remote.reviewApps.Some? ==>
        var apps := remote.reviewApps.value;
        && ((forall j :: 0 <= j < |apps| ==> apps[j].prNumber != inputs.pr.number) ==>
              r == Run([ListReviewApps(inputs.pipeline)], Finished))
        && (forall i :: IsFirstMatch(apps, inputs.pr.number, i) ==>
              r.requests == [ListReviewApps(inputs.pipeline), DeleteReviewApp(apps[i].id)])
  {
    var r := RunAction(inputs, remote);
    var list := ListReviewApps(inputs.pipeline);
    if r.requests == [list] {
      assert Posts(r.requests) == Posts([list][1..]);
    } else if |r.requests| == 2 {
      assert Posts(r.requests) == Posts(r.requests[1..]);
      assert Posts(r.requests[1..]) == Posts(r.requests[2..]);
    }
  }

  /**
   * A run deletes at most one review app, and it deletes one exactly when
   * the action is "destroy", the client exists, the listing succeeds and
   * the pull request has an app in it.
   */
  lemma AtMostOneDelete(inputs: Inputs, remote: Remote)
    ensures |Deletes(RunAction(inputs, remote).requests)| <= 1
    ensures |Deletes(RunAction(inputs, remote).requests)| == 1 <==>
      && remote.herokuClient && inputs.action == "destroy"
      && remote.reviewApps.Some?
      && exists i :: 0 <= i < |remote.reviewApps.value| &&
           remote.reviewApps.value[i].prNumber == inputs.pr.number
  {
    var rs := RunAction(inputs, remote).requests;
    var list := ListReviewApps(inputs.pipeline);
    match Dispatch(remote.herokuClient, inputs.action)
    case Destroy =>
      if remote.reviewApps.Some? {
        match DeleteTarget(remote.reviewApps.value, inputs.pr.number)
        case Some(id) =>
          assert rs == [list, DeleteReviewApp(id)];
          assert rs[1..] == [DeleteReviewApp(id)] && rs[1..][1..] == [];
          assert Deletes(rs[1..]) == [id];
        case None =>
          assert rs == [list] && rs[1..] == [];
      } else {
        assert rs == [list] && rs[1..] == [];
      }
    case Create =>
      if |rs| == 2 {
        assert rs[1..] == [rs[1]] && rs[1..][1..] == [];
        assert Deletes(rs[1..]) == [];
      } else if |rs| == 1 {
        assert rs[1..] == [];
      }
    case NoOperation =>
  }

  /**
   * "create" with a token sends the archive request for the head branch
   * and, when it answers, exactly one create request whose body carries the
   * head branch, the head commit, the pull request number, the pipeline
   * and the parsed custom variables; it never deletes an app.
   */
  lemma CreateRequests(inputs: Inputs, remote: Remote)
    requires remote.herokuClient && inputs.action == "create"
    ensures var r := RunAction(inputs, remote);
      !TokenSet(inputs.githubToken) ==> r == Run([], Skipped(NoGithubToken))
    ensures var r := RunAction(inputs, remote);
      TokenSet(inputs.githubToken) && !remote.octokitClient ==> r == Run([], Skipped(NoOctokitClient))
    ensures var r := RunAction(inputs, remote);
      TokenSet(inputs.githubToken) && remote.octokitClient ==>
        && r.requests[0] == DownloadTarball(inputs.owner, inputs.repo, inputs.pr.headRef)
        && Deletes(r.requests) == []
        && (remote.tarballUrl.None? ==> r.requests == [r.requests[0]] && r.outcome == ErrorEscaped)
        && (remote.tarballUrl.Some? ==>
              && |r.requests| == 2 && |Posts(r.requests)| == 1
              && var body := Posts(r.requests)[0];
              && body.branch == inputs.pr.headRef
              && body.sourceBlob == SourceBlob(remote.tarballUrl.value, inputs.pr.headSha)
              && body.prNumber == inputs.pr.number
              && body.pipeline == inputs.pipeline
              && body.environment == CustomVars.Parse(inputs.customEnvVars)
              && (r.outcome == Finished <==> remote.postOk))
  {
    var r := RunAction(inputs, remote);
    if TokenSet(inputs.githubToken) && remote.octokitClient {
      var rs := r.requests;
      assert Deletes(rs) == Deletes(rs[1..]);
      assert Posts(rs) == Posts(rs[1..]);
      if |rs| == 2 {
        assert Deletes(rs[1..]) == Deletes(rs[2..]);
        assert Posts(rs[1..]) == [rs[1].body] + Posts(rs[2..]);
      }
    }
  }

  /** The listing `[{id 1, PR 5}, {id 2, PR 7}]` with PR 7 deletes app 2 only. */
  lemma DestroyExample(inputs: Inputs, remote: Remote)
    requires remote.herokuClient && inputs.action == "destroy" && inputs.pr.number == 7
    requires remote.reviewApps == Some([ReviewApp(5, 1), ReviewApp(7, 2)])
    ensures RunAction(inputs, remote).requests == [ListReviewApps(inputs.pipeline), DeleteReviewApp(2)]
  {
    DeleteTargetExample();
  }
}
