/** The deployment panel (components/DeploymentPanel.tsx) as a state machine: the
    initial state read off the version's last build, the polling rule, one poll
    step, and the deploy-button transition. The five-second timer is not modelled:
    a tick is one poll that the rule allows. */
module DeploymentPanel {
  import opened Values
  import opened Records

  datatype Panel = Panel(isDeploying: bool, buildId: Option<string>, status: string, serviceUrl: Option<string>)

  const Idle: string := "IDLE"
  const Working: string := "WORKING"
  const Queued: string := "QUEUED"
  const Success: string := "SUCCESS"
  const Failure: string := "FAILURE"

  /** `x || null` on an optional string: an empty string counts as missing. */
  function OrNull(x: Option<string>): (r: Option<string>)
    ensures Present(x) ==> r == x
    ensures !Present(x) ==> r == None
  {
    if Present(x) then x else None
  }

  /** The state a panel starts in for a version: the last build's id, status and URL,
      with `IDLE` and no id or URL when the version has never been deployed. */
  function InitialPanel(lastBuild: Option<BuildInfo>): (r: Panel)
    ensures !r.isDeploying
    ensures r.status != ""
    ensures r.buildId.Some? ==> r.buildId.value != ""
    ensures r.serviceUrl.Some? ==> r.serviceUrl.value != ""
    ensures lastBuild.None? ==> r == Panel(false, None, Idle, None)
    ensures lastBuild.Some? ==>
      && (lastBuild.value.id != "" ==> r.buildId == Some(lastBuild.value.id))
      && (lastBuild.value.id == "" ==> r.buildId == None)
      && (lastBuild.value.status != "" ==> r.status == lastBuild.value.status)
      && (lastBuild.value.status == "" ==> r.status == Idle)
      && (Present(lastBuild.value.serviceUrl) ==> r.serviceUrl == lastBuild.value.serviceUrl)
      && (!Present(lastBuild.value.serviceUrl) ==> r.serviceUrl == None)
  {
    match lastBuild
    case None => Panel(false, None, Idle, None)
    case Some(b) =>
      Panel(false, OrNull(Some(b.id)), if b.status != "" then b.status else Idle, OrNull(b.serviceUrl))
  }

  /** The effect's condition: a build id is known and the build is still running. */
  predicate Polling(p: Panel) {
    Present(p.buildId) && (p.status == Working || p.status == Queued)
  }

  /** What one status request brings back: nothing usable (the request or its JSON
      failed), or a status with an optional service URL. */
  datatype PollReply = PollFailed | Polled(status: string, serviceUrl: Option<string>)

  /** One interval tick. A tick only happens while polling; a failed request changes
      nothing; otherwise the status is replaced and the URL only when one came back. */
  function Tick(p: Panel, reply: PollReply): (r: Panel)
    ensures r.isDeploying == p.isDeploying && r.buildId == p.buildId
    ensures Present(p.serviceUrl) ==> Present(r.serviceUrl)
    ensures r.status == p.status || (Polling(p) && reply.Polled? && r.status == reply.status)
    ensures !Polling(p) || reply.PollFailed? ==> r == p
    ensures Polling(p) && reply.Polled? ==>
      && r.status == reply.status
      && r.serviceUrl == (if Present(reply.serviceUrl) then reply.serviceUrl else p.serviceUrl)
  {
    if !Polling(p) then p
    else
      match reply
      case PollFailed => p
      case Polled(status, url) => p.(status := status, serviceUrl := if Present(url) then url else p.serviceUrl)
  }

  /** Ticks in a row, one per reply. */
  function Run(p: Panel, replies: seq<PollReply>): (r: Panel)
    ensures r.isDeploying == p.isDeploying && r.buildId == p.buildId
    decreases |replies|
  {
    if |replies| == 0 then p else Run(Tick(p, replies[0]), replies[1..])
  }

  /** A poll answering SUCCESS or FAILURE stops polling; an answer still WORKING or
      QUEUED keeps it going, and any other status stops it as well. */
  lemma PollingContinuesIffRunning(p: Panel, status: string, url: Option<string>)
    requires Polling(p)
    ensures Polling(Tick(p, Polled(status, url))) <==> status == Working || status == Queued
    ensures status == Success || status == Failure ==> !Polling(Tick(p, Polled(status, url)))
  {
  }

  /** A failed status request leaves the panel as it was, so polling goes on. */
  lemma PollFailureChangesNothing(p: Panel)
    ensures Tick(p, PollFailed) == p
  {
  }

  /** The status route answers with a status only, so polling never sets a URL the
      panel did not already have. */
  lemma StatusRouteKeepsUrl(p: Panel, status: string)
    ensures Tick(p, Polled(status, None)).serviceUrl == p.serviceUrl
  {
  }

  /** Once polling has stopped, no later reply changes the panel: a terminal status
      sticks on the client side until the next deploy. */
  lemma {:induction false} StoppedPanelIsFixed(p: Panel, replies: seq<PollReply>)
    requires !Polling(p)
    ensures Run(p, replies) == p
    decreases |replies|
  {
    if |replies| > 0 {
      assert Tick(p, replies[0]) == p;
      StoppedPanelIsFixed(p, replies[1..]);
    }
  }

  /** Once a run of ticks has reached SUCCESS or FAILURE, polling is over for good:
      further replies change nothing. */
  lemma {:induction false} TerminalRunStops(p: Panel, replies: seq<PollReply>, more: seq<PollReply>)
    requires var q := Run(p, replies); q.status == Success || q.status == Failure
    ensures Run(p, replies + more) == Run(p, replies)
    decreases |replies|
  {
    if |replies| == 0 {
      assert replies + more == more;
      StoppedPanelIsFixed(p, more);
    } else {
      assert (replies + more)[0] == replies[0];
      assert (replies + more)[1..] == replies[1..] + more;
      TerminalRunStops(Tick(p, replies[0]), replies[1..], more);
    }
  }

  /** The answer to a deploy request: it failed (an error status or an unparsable
      body), or it started a build whose id may be missing. */
  datatype DeployReply = DeployFailed | DeployStarted(buildId: Option<string>)

  /** The panel while the deploy request is in flight. */
  function Deploying(p: Panel): (r: Panel)
    ensures r.isDeploying && DeployButtonDisabled(r)
    ensures r.(isDeploying := p.isDeploying) == p
  {
    p.(isDeploying := true)
  }

  /** `handleDeploy` once the request has settled: a started build is tracked as
      WORKING; a failure only re-enables the button. */
  function HandleDeploy(p: Panel, reply: DeployReply): (r: Panel)
    ensures !r.isDeploying
    ensures reply.DeployFailed? ==> r == p.(isDeploying := false)
    ensures reply.DeployStarted? ==> r.buildId == reply.buildId && r.status == Working && r.serviceUrl == p.serviceUrl
  {
    match reply
    case DeployFailed => p.(isDeploying := false)
    case DeployStarted(id) => p.(isDeploying := false, buildId := id, status := Working)
  }

  /** The deploy button is disabled while a request is in flight or a build is WORKING. */
  predicate DeployButtonDisabled(p: Panel) {
    p.isDeploying || p.status == Working
  }

  /** After a deploy that returned an id, the panel polls and the button stays disabled
      until a poll brings a status other than WORKING. */
  lemma StartedDeployPolls(p: Panel, id: string)
    requires id != ""
    ensures var q := HandleDeploy(Deploying(p), DeployStarted(Some(id)));
      Polling(q) && DeployButtonDisabled(q)
  {
  }

  /** A version whose last build the server recorded as WORKING resumes polling when
      its panel opens; a never-deployed version starts idle with the button enabled. */
  lemma InitialPolling(b: BuildInfo)
    ensures b.id != "" && b.status == Working ==> Polling(InitialPanel(Some(b)))
    ensures !Polling(InitialPanel(None)) && !DeployButtonDisabled(InitialPanel(None))
  {
  }
}
