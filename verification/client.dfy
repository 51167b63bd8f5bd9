/** The browser-side driver of App.tsx: the bounded log buffer `addLog`, the default
    workspace selection of `loadWorkspaces`, the stage loop of `runPipeline` with its
    persistence gate, and the guards of `startNewProject`. Every server call is a
    parameter that says how the call went; the React state is one immutable record
    read at the start of a handler and written at its end. */
module Client {
  import opened Values
  import opened Stages
  import opened Records

  function Min(a: int, b: int): int {
    if a < b then a else b
  }

  /** The last `n` elements of `s`, or all of `s` when it is shorter. */
  function Last<T>(s: seq<T>, n: nat): (r: seq<T>)
    ensures |r| == Min(n, |s|)
  {
    s[|s| - Min(n, |s|)..]
  }

  /** A suffix at least as long as the last `n` elements has the same last `n` elements. */
  lemma LastOfSuffix<T>(s: seq<T>, k: nat, n: nat)
    requires k <= |s| && |s| - k >= Min(n, |s|)
    ensures Last(s[k..], n) == Last(s, n)
  {
    var m := Min(n, |s|);
    var t := s[k..];
    assert Min(n, |t|) == m;
    assert Last(t, n) == t[|t| - m..];
    assert |t| - m + k == |s| - m;
    assert t[|t| - m..] == s[|s| - m..];
  }

  /** The log holds at most this many entries. */
  const LogCapacity: nat := 16

  /** `addLog`: keep the last fifteen entries (`slice(-15)`) and append the new one.
      The timestamp prefix of each entry is not modelled. */
  function AddLog(logs: seq<string>, m: string): (r: seq<string>)
    ensures |r| == Min(|logs| + 1, LogCapacity) && |r| <= LogCapacity
    ensures r[|r| - 1] == m
    ensures r == Last(logs + [m], LogCapacity)
    ensures |logs| < LogCapacity ==> r == logs + [m]
  {
    var r := Last(logs, LogCapacity - 1) + [m];
    assert r == (logs + [m])[|logs| - Min(LogCapacity - 1, |logs|)..];
    r
  }

  /** Several `addLog` calls in a row. */
  function AddLogs(logs: seq<string>, ms: seq<string>): seq<string>
    decreases |ms|
  {
    if |ms| == 0 then logs else AddLogs(AddLog(logs, ms[0]), ms[1..])
  }

  /** However many messages are logged, the buffer ends up holding exactly the sixteen
      most recent ones. */
  lemma {:induction false} AddLogsKeepsNewest(logs: seq<string>, ms: seq<string>)
    requires |ms| > 0
    ensures AddLogs(logs, ms) == Last(logs + ms, LogCapacity)
    decreases |ms|
  {
    var first := AddLog(logs, ms[0]);
    var x := logs + [ms[0]];
    var rest := ms[1..];
    assert first == Last(x, LogCapacity);
    HeadThenRest(logs, ms);
    if |rest| > 0 {
      AddLogsKeepsNewest(first, rest);
      var k := |x| - Min(LogCapacity, |x|);
      SliceThenAppend(x, rest, k);
      LastOfSuffix(x + rest, k, LogCapacity);
    } else {
      assert AddLogs(first, rest) == first;
    }
  }

  lemma HeadThenRest<T>(a: seq<T>, b: seq<T>)
    requires |b| > 0
    ensures a + [b[0]] + b[1..] == a + b
  {
    assert [b[0]] + b[1..] == b;
  }

  lemma SliceThenAppend<T>(x: seq<T>, y: seq<T>, k: nat)
    requires k <= |x|
    ensures x[k..] + y == (x + y)[k..]
  {
  }

  /** The buffer never exceeds its capacity and its newest entry is the last message. */
  lemma AddLogsNewestLast(logs: seq<string>, ms: seq<string>)
    requires |ms| > 0
    ensures 0 < |AddLogs(logs, ms)| <= LogCapacity
    ensures AddLogs(logs, ms)[|AddLogs(logs, ms)| - 1] == ms[|ms| - 1]
  {
    AddLogsKeepsNewest(logs, ms);
    var all := logs + ms;
    assert all[|all| - 1] == ms[|ms| - 1];
  }

  /** The slice of App state the handlers read and write. */
  datatype ClientState = ClientState(
    workspaces: seq<Workspace>,
    activeWorkspaceId: Option<string>,
    projects: seq<Business>,
    activeProjectId: Option<string>,
    activeVersion: Option<Version>,
    isGenerating: bool,
    logs: seq<string>)

  /** `loadWorkspaces`: store the list, and select its first workspace only when none
      is selected yet. A failed request yields the empty list. */
  function LoadWorkspaces(st: ClientState, ws: seq<Workspace>): (r: ClientState)
    ensures r.workspaces == ws
    ensures Present(st.activeWorkspaceId) || |ws| == 0 ==> r.activeWorkspaceId == st.activeWorkspaceId
    ensures !Present(st.activeWorkspaceId) && |ws| > 0 ==> r.activeWorkspaceId == Some(ws[0].id)
    ensures r.(workspaces := st.workspaces, activeWorkspaceId := st.activeWorkspaceId) == st
  {
    var r := st.(workspaces := ws);
    if |ws| > 0 && !Present(st.activeWorkspaceId) then r.(activeWorkspaceId := Some(ws[0].id)) else r
  }

  /** Loading the same list again changes nothing. */
  lemma LoadWorkspacesIdempotent(st: ClientState, ws: seq<Workspace>)
    ensures LoadWorkspaces(LoadWorkspaces(st, ws), ws) == LoadWorkspaces(st, ws)
  {
  }

  /** One `generateStage` request as the browser sends it. */
  datatype Request = Request(businessId: string, versionId: string, stage: Stage, context: Object)

  /** How one stage went: `generateStage` threw (an error status), or it answered and
      the following `getVersion` threw, or both answered. */
  datatype StageReply = GenerateFailed | FetchFailed(result: Object) | Replied(result: Object, fetched: Version)

  /** `!result.isValid` read the other way round. */
  predicate IsValid(result: Object) {
    Truthy(Field(result, "isValid"))
  }

  function Initiating(s: Stage): string {
    "Initiating " + Name(s) + "..."
  }

  const ValidationFailed: string := "Validation failed. Stopping pipeline."
  const Architecting: string := "Architecting source code..."
  const Finalized: string := "Genesis build finalized."
  const FailedToInitiate: string := "Genesis failed to initiate."
  const NoWorkspace: string := "Error: Create a workspace first."

  /** The context sent with the stage after `results`: the idea, then each earlier
      result under its stage's name. */
  function ContextOf(idea: string, results: seq<Object>): Object
    requires |results| <= |Pipeline|
  {
    if |results| == 0 then map["idea" := JStr(idea)]
    else ContextOf(idea, results[..|results| - 1])[Name(Pipeline[|results| - 1]) := JObj(results[|results| - 1])]
  }

  lemma PipelineNamesDistinct(i: nat, j: nat)
    requires i < |Pipeline| && j < |Pipeline|
    ensures Name(Pipeline[i]) == Name(Pipeline[j]) <==> i == j
    ensures Name(Pipeline[i]) != "idea"
  {
    ParseName(Pipeline[i]);
    ParseName(Pipeline[j]);
  }

  /** The context holds the idea and every earlier result under its stage's name, and
      nothing else: later results never overwrite earlier ones. */
  lemma ContextContents(idea: string, results: seq<Object>)
    requires |results| <= |Pipeline|
    ensures ContextOf(idea, results).Keys == {"idea"} + (set j | 0 <= j < |results| :: Name(Pipeline[j]))
    ensures ContextOf(idea, results)["idea"] == JStr(idea)
    ensures forall j :: 0 <= j < |results| ==> ContextOf(idea, results)[Name(Pipeline[j])] == JObj(results[j])
  {
    ContextKeys(idea, results);
    ContextValues(idea, results);
  }

  lemma {:induction false} ContextKeys(idea: string, results: seq<Object>)
    requires |results| <= |Pipeline|
    ensures ContextOf(idea, results).Keys == {"idea"} + (set j | 0 <= j < |results| :: Name(Pipeline[j]))
    decreases |results|
  {
    if |results| > 0 {
      var n := |results| - 1;
      ContextKeys(idea, results[..n]);
      assert ContextOf(idea, results).Keys == ContextOf(idea, results[..n]).Keys + {Name(Pipeline[n])};
      NamesUpTo(n);
    }
  }

  /** The names of the first `n + 1` stages are those of the first `n` and stage `n`'s. */
  lemma NamesUpTo(n: nat)
    requires n < |Pipeline|
    ensures (set j | 0 <= j < n + 1 :: Name(Pipeline[j])) == (set j | 0 <= j < n :: Name(Pipeline[j])) + {Name(Pipeline[n])}
  {
  }

  lemma {:induction false} ContextValues(idea: string, results: seq<Object>)
    requires |results| <= |Pipeline|
    ensures "idea" in ContextOf(idea, results) && ContextOf(idea, results)["idea"] == JStr(idea)
    ensures forall j :: 0 <= j < |results| ==>
      Name(Pipeline[j]) in ContextOf(idea, results) && ContextOf(idea, results)[Name(Pipeline[j])] == JObj(results[j])
    decreases |results|
  {
    if |results| > 0 {
      var n := |results| - 1;
      var prev := results[..n];
      ContextValues(idea, prev);
      PipelineNamesDistinct(n, n);
      forall j | 0 <= j < |results|
        ensures Name(Pipeline[j]) in ContextOf(idea, results)
        ensures ContextOf(idea, results)[Name(Pipeline[j])] == JObj(results[j])
      {
        PipelineNamesDistinct(j, n);
        if j < n {
          assert prev[j] == results[j];
        }
      }
    }
  }

  /** The stage loop's outcome so far: requests sent, results received, the version
      last fetched, whether a call threw, and whether a failed validation stopped it. */
  datatype Loop = Loop(
    requests: seq<Request>,
    results: seq<Object>,
    active: Option<Version>,
    threw: bool,
    stopped: bool)

  /** The messages the loop logged: each stage's start, in order, then the stop notice. */
  function LoopMessages(l: Loop): (r: seq<string>)
    ensures |r| == |l.requests| + (if l.stopped then 1 else 0)
    ensures forall i :: 0 <= i < |l.requests| ==> r[i] == Initiating(l.requests[i].stage)
  {
    seq(|l.requests|, i requires 0 <= i < |l.requests| => Initiating(l.requests[i].stage))
      + (if l.stopped then [ValidationFailed] else [])
  }

  /** Request `i` is stage `i` of the pipeline, sent with the context of the results before it. */
  predicate Sent(requests: seq<Request>, results: seq<Object>, i: nat, idea: string, bizId: string, vId: string)
    requires i < |requests| && i <= |results| && i < |Pipeline|
  {
    requests[i] == Request(bizId, vId, Pipeline[i], ContextOf(idea, results[..i]))
  }

  /** The loop has sent `k` requests, got `k` results, and neither threw nor stopped. */
  predicate Fresh(l: Loop, k: nat) {
    k <= |Pipeline| && !l.threw && !l.stopped && |l.requests| == k && |l.results| == k
  }

  /** The loop has run the first `k` stages and every call so far answered. */
  predicate Ran(l: Loop, k: nat, idea: string, bizId: string, vId: string, reply: Request -> StageReply) {
    && Fresh(l, k)
    && (forall i :: 0 <= i < k ==>
          && Sent(l.requests, l.results, i, idea, bizId, vId)
          && reply(l.requests[i]).Replied?
          && l.results[i] == reply(l.requests[i]).result
          && (Pipeline[i] == Validate ==> IsValid(l.results[i])))
    && (k > 0 ==> l.active == Some(reply(l.requests[k - 1]).fetched))
  }

  /** Appending a request and possibly a result keeps the earlier requests' record. */
  lemma SentExtend(l: Loop, k: nat, req: Request, extra: seq<Object>, idea: string, bizId: string, vId: string,
                   reply: Request -> StageReply)
    requires Ran(l, k, idea, bizId, vId, reply) && k < |Pipeline| && |extra| <= 1
    requires req == Request(bizId, vId, Pipeline[k], ContextOf(idea, l.results))
    ensures forall i :: 0 <= i <= k ==> Sent(l.requests + [req], l.results + extra, i, idea, bizId, vId)
  {
    forall i | 0 <= i <= k
      ensures Sent(l.requests + [req], l.results + extra, i, idea, bizId, vId)
    {
      assert (l.results + extra)[..i] == l.results[..i];
      if i == k {
        assert l.results[..k] == l.results;
      }
    }
  }

  /** Stages `k` onwards of the `for` loop: each sends the accumulated context, folds
      the result in under the stage's name, fetches the version, and the loop stops
      after `Build + Validate` when the result is not valid. A throw ends it at once. */
  function RunStages(k: nat, l: Loop, idea: string, bizId: string, vId: string, reply: Request -> StageReply): (r: Loop)
    requires Fresh(l, k)
    ensures k <= |r.requests| <= |Pipeline| && (k < |Pipeline| ==> k < |r.requests|)
    ensures |r.results| <= |r.requests| <= |r.results| + 1
    ensures !r.threw ==> |r.requests| == |Pipeline| == |r.results|
    ensures r.threw ==> |r.requests| > k && !r.stopped
    ensures l.active.Some? ==> r.active.Some?
    decreases |Pipeline| - k
  {
    if k == |Pipeline| then l
    else
      var req := Request(bizId, vId, Pipeline[k], ContextOf(idea, l.results));
      match reply(req)
      case GenerateFailed => Loop(l.requests + [req], l.results, l.active, true, false)
      case FetchFailed(result) => Loop(l.requests + [req], l.results + [result], l.active, true, false)
      case Replied(result, fetched) =>
        var next := Loop(l.requests + [req], l.results + [result], Some(fetched), false, false);
        if Pipeline[k] == Validate && !IsValid(result) then next.(stopped := true)
        else RunStages(k + 1, next, idea, bizId, vId, reply)
  }

  /** The loop state after stage `k` answered (and did not stop the loop) has run `k + 1` stages. */
  lemma RanStep(l: Loop, k: nat, idea: string, bizId: string, vId: string, reply: Request -> StageReply)
    requires Ran(l, k, idea, bizId, vId, reply) && k < |Pipeline|
    requires var req := Request(bizId, vId, Pipeline[k], ContextOf(idea, l.results));
      reply(req).Replied? && (Pipeline[k] == Validate ==> IsValid(reply(req).result))
    ensures var req := Request(bizId, vId, Pipeline[k], ContextOf(idea, l.results));
      Ran(Loop(l.requests + [req], l.results + [reply(req).result], Some(reply(req).fetched), false, false),
          k + 1, idea, bizId, vId, reply)
  {
    var req := Request(bizId, vId, Pipeline[k], ContextOf(idea, l.results));
    SentExtend(l, k, req, [reply(req).result], idea, bizId, vId, reply);
    var n := Loop(l.requests + [req], l.results + [reply(req).result], Some(reply(req).fetched), false, false);
    forall i | 0 <= i < k + 1
      ensures reply(n.requests[i]).Replied? && n.results[i] == reply(n.requests[i]).result
      ensures Pipeline[i] == Validate ==> IsValid(n.results[i])
    {
      if i < k {
        assert n.requests[i] == l.requests[i] && n.results[i] == l.results[i];
      }
    }
  }

  /** The facts the loop keeps about what it sent and what came back. */
  predicate Recorded(r: Loop, idea: string, bizId: string, vId: string, reply: Request -> StageReply)
    requires |r.results| <= |r.requests| <= |r.results| + 1 && |r.requests| <= |Pipeline|
  {
    && (forall i :: 0 <= i < |r.requests| ==> Sent(r.requests, r.results, i, idea, bizId, vId))
    && (forall i :: 0 <= i < |r.results| ==> !reply(r.requests[i]).GenerateFailed? && r.results[i] == reply(r.requests[i]).result)
    && (forall i :: 0 <= i < |r.requests| - 1 ==> reply(r.requests[i]).Replied?)
  }

  /** Ending the loop at stage `k`, with or without that stage's result, keeps the record. */
  lemma RecordedLast(l: Loop, k: nat, req: Request, extra: seq<Object>, active: Option<Version>, threw: bool, stopped: bool,
                     idea: string, bizId: string, vId: string, reply: Request -> StageReply)
    requires Ran(l, k, idea, bizId, vId, reply) && k < |Pipeline|
    requires req == Request(bizId, vId, Pipeline[k], ContextOf(idea, l.results))
    requires extra == [] || (!reply(req).GenerateFailed? && extra == [reply(req).result])
    ensures Recorded(Loop(l.requests + [req], l.results + extra, active, threw, stopped), idea, bizId, vId, reply)
  {
    SentExtend(l, k, req, extra, idea, bizId, vId, reply);
    var r := Loop(l.requests + [req], l.results + extra, active, threw, stopped);
    forall i | 0 <= i < |r.results|
      ensures !reply(r.requests[i]).GenerateFailed? && r.results[i] == reply(r.requests[i]).result
    {
      if i < k {
        assert r.requests[i] == l.requests[i] && r.results[i] == l.results[i];
      }
    }
    forall i | 0 <= i < |r.requests| - 1
      ensures reply(r.requests[i]).Replied?
    {
      assert r.requests[i] == l.requests[i];
    }
  }

  /** Every request the loop sent is the next pipeline stage with the context of the
      results before it, and every result is what the reply to its request carried. */
  lemma {:induction false} RunStagesSent(k: nat, l: Loop, idea: string, bizId: string, vId: string, reply: Request -> StageReply)
    requires Ran(l, k, idea, bizId, vId, reply)
    ensures Recorded(RunStages(k, l, idea, bizId, vId, reply), idea, bizId, vId, reply)
    decreases |Pipeline| - k
  {
    if k == |Pipeline| {
      assert RunStages(k, l, idea, bizId, vId, reply) == l;
    } else {
      var req := Request(bizId, vId, Pipeline[k], ContextOf(idea, l.results));
      var a := reply(req);
      if a.Replied? && !(Pipeline[k] == Validate && !IsValid(a.result)) {
        var next := Loop(l.requests + [req], l.results + [a.result], Some(a.fetched), false, false);
        RanStep(l, k, idea, bizId, vId, reply);
        RunStagesSent(k + 1, next, idea, bizId, vId, reply);
        StepContinues(k, l, idea, bizId, vId, reply);
      } else {
        SentTerminal(k, l, idea, bizId, vId, reply);
      }
    }
  }

  /** When stage `k` answers and does not stop the loop, the loop goes on from the next state. */
  lemma StepContinues(k: nat, l: Loop, idea: string, bizId: string, vId: string, reply: Request -> StageReply)
    requires Fresh(l, k) && k < |Pipeline|
    requires var a := reply(Request(bizId, vId, Pipeline[k], ContextOf(idea, l.results)));
      a.Replied? && !(Pipeline[k] == Validate && !IsValid(a.result))
    ensures var req := Request(bizId, vId, Pipeline[k], ContextOf(idea, l.results));
      var a := reply(req);
      RunStages(k, l, idea, bizId, vId, reply)
        == RunStages(k + 1, Loop(l.requests + [req], l.results + [a.result], Some(a.fetched), false, false), idea, bizId, vId, reply)
  {
  }

  /** The loop's record when stage `k` ends it. */
  lemma SentTerminal(k: nat, l: Loop, idea: string, bizId: string, vId: string, reply: Request -> StageReply)
    requires Ran(l, k, idea, bizId, vId, reply) && k < |Pipeline|
    requires var a := reply(Request(bizId, vId, Pipeline[k], ContextOf(idea, l.results)));
      !a.Replied? || (Pipeline[k] == Validate && !IsValid(a.result))
    ensures Recorded(RunStages(k, l, idea, bizId, vId, reply), idea, bizId, vId, reply)
  {
    var req := Request(bizId, vId, Pipeline[k], ContextOf(idea, l.results));
    match reply(req)
    case GenerateFailed =>
      RecordedLast(l, k, req, [], l.active, true, false, idea, bizId, vId, reply);
      assert l.results + [] == l.results;
    case FetchFailed(result) =>
      RecordedLast(l, k, req, [result], l.active, true, false, idea, bizId, vId, reply);
    case Replied(result, fetched) =>
      RecordedLast(l, k, req, [result], Some(fetched), false, true, idea, bizId, vId, reply);
  }

  /** How a loop ended: without a throw, the last stage answered, its version is the
      active one, and the loop stopped exactly when the validation result was not valid;
      with a throw, the last request is the one whose reply failed. */
  predicate Ended(r: Loop, reply: Request -> StageReply)
    requires 0 < |r.requests| <= |Pipeline|
    requires !r.threw ==> |r.requests| == |Pipeline| == |r.results|
  {
    && (!r.threw ==>
          && reply(r.requests[|Pipeline| - 1]).Replied?
          && r.results[|Pipeline| - 1] == reply(r.requests[|Pipeline| - 1]).result
          && r.active == Some(reply(r.requests[|Pipeline| - 1]).fetched)
          && (r.stopped <==> !IsValid(r.results[|Pipeline| - 1])))
    && (r.threw ==> !reply(r.requests[|r.requests| - 1]).Replied?)
  }

  lemma {:induction false} RunStagesOutcome(k: nat, l: Loop, idea: string, bizId: string, vId: string, reply: Request -> StageReply)
    requires Fresh(l, k) && k < |Pipeline|
    ensures Ended(RunStages(k, l, idea, bizId, vId, reply), reply)
    decreases |Pipeline| - k
  {
    var req := Request(bizId, vId, Pipeline[k], ContextOf(idea, l.results));
    match reply(req)
    case GenerateFailed =>
      assert RunStages(k, l, idea, bizId, vId, reply) == Loop(l.requests + [req], l.results, l.active, true, false);
    case FetchFailed(result) =>
      assert RunStages(k, l, idea, bizId, vId, reply) == Loop(l.requests + [req], l.results + [result], l.active, true, false);
    case Replied(result, fetched) =>
      var next := Loop(l.requests + [req], l.results + [result], Some(fetched), false, false);
      if Pipeline[k] == Validate && !IsValid(result) {
        assert RunStages(k, l, idea, bizId, vId, reply) == next.(stopped := true);
      } else {
        if k + 1 < |Pipeline| {
          RunStagesOutcome(k + 1, next, idea, bizId, vId, reply);
        } else {
          assert RunStages(k, l, idea, bizId, vId, reply) == next;
        }
      }
  }

  /** The loop from the start: nothing sent yet, so the first context is the idea alone. */
  function StageLoop(initial: Option<Version>, idea: string, bizId: string, vId: string, reply: Request -> StageReply): (r: Loop)
    ensures 1 <= |r.requests| <= |Pipeline|
    ensures forall i :: 0 <= i < |r.requests| ==> r.requests[i].stage == Pipeline[i]
    ensures !r.threw ==> |r.requests| == |Pipeline| == |r.results| && r.active.Some?
    ensures initial.Some? ==> r.active.Some?
    ensures |r.results| <= |r.requests| <= |r.results| + 1
    ensures Recorded(r, idea, bizId, vId, reply) && Ended(r, reply)
  {
    var start := Loop([], [], initial, false, false);
    RunStagesSent(0, start, idea, bizId, vId, reply);
    RunStagesOutcome(0, start, idea, bizId, vId, reply);
    var r := RunStages(0, start, idea, bizId, vId, reply);
    assert forall i :: 0 <= i < |r.requests| ==> r.requests[i].stage == Pipeline[i] by {
      forall i | 0 <= i < |r.requests|
        ensures r.requests[i].stage == Pipeline[i]
      {
        assert Sent(r.requests, r.results, i, idea, bizId, vId);
      }
    }
    r
  }

  /** The persistence step's replies: `persistFiles` threw, or it answered and the
      final `getVersion` threw, or both answered. */
  datatype FinishReply = PersistFailed | RefetchFailed | Finished(fetched: Version)

  /** One `runPipeline` call: the requests sent, the messages logged in order, the
      version it leaves active, whether `persistFiles` was called, and whether a
      call threw out of it. */
  datatype PipelineRun = PipelineRun(
    requests: seq<Request>,
    results: seq<Object>,
    messages: seq<string>,
    active: Option<Version>,
    persistCalled: bool,
    threw: bool)

  /** The end of `runPipeline` once the loop is over, persisting when `gate` holds. */
  function Persist(l: Loop, gate: bool, finish: FinishReply): (r: PipelineRun)
    requires !l.threw
    ensures r.requests == l.requests && r.results == l.results
    ensures r.persistCalled <==> gate
    ensures !gate ==> r == PipelineRun(l.requests, l.results, LoopMessages(l), l.active, false, false)
    ensures gate ==> |r.messages| > |LoopMessages(l)| && r.messages[..|LoopMessages(l)| + 1] == LoopMessages(l) + [Architecting]
    ensures gate && finish.Finished? ==>
      !r.threw && r.active == Some(finish.fetched) && r.messages == LoopMessages(l) + [Architecting, Finalized]
    ensures |r.messages| <= |LoopMessages(l)| + 2
    ensures |LoopMessages(l)| <= |r.messages| && r.messages[..|LoopMessages(l)|] == LoopMessages(l)
    ensures l.active.Some? ==> r.active.Some?
  {
    var messages := LoopMessages(l);
    if !gate then PipelineRun(l.requests, l.results, messages, l.active, false, false)
    else
      match finish
      case PersistFailed => PipelineRun(l.requests, l.results, messages + [Architecting], l.active, true, true)
      case RefetchFailed => PipelineRun(l.requests, l.results, messages + [Architecting, Finalized], l.active, true, true)
      case Finished(v) => PipelineRun(l.requests, l.results, messages + [Architecting, Finalized], Some(v), true, false)
  }

  /** The loop's outcome when a call threw: the throw ends `runPipeline`. */
  function Thrown(l: Loop): (r: PipelineRun)
    ensures r.threw && !r.persistCalled && r.requests == l.requests && r.messages == LoopMessages(l)
  {
    PipelineRun(l.requests, l.results, LoopMessages(l), l.active, false, true)
  }

  /** `runPipeline` as written: the persistence gate reads `activeVersion` as the
      handler's closure captured it when `startNewProject` began, before any stage
      ran, not the version the loop just fetched. The loop itself starts from
      `initial`, the version `startNewProject` has just made active. */
  function RunPipelineAsWritten(
    captured: Option<Version>, initial: Option<Version>, idea: string, bizId: string, vId: string,
    reply: Request -> StageReply, finish: FinishReply): (r: PipelineRun)
    ensures 1 <= |r.requests| <= |Pipeline|
    ensures !r.threw ==> |r.requests| == |Pipeline|
    ensures !r.threw ==> (r.persistCalled <==> captured.Some? && captured.value.isValidated)
    ensures r.persistCalled ==> captured.Some? && captured.value.isValidated
    ensures |r.messages| <= |Pipeline| + 3
    ensures |r.messages| > 0 && r.messages[0] == Initiating(Strategy)
    ensures initial.Some? ==> r.active.Some?
  {
    var l := StageLoop(initial, idea, bizId, vId, reply);
    FirstMessage(l);
    if l.threw then Thrown(l)
    else
      var r := Persist(l, captured.Some? && captured.value.isValidated, finish);
      assert r.messages[0] == r.messages[..|LoopMessages(l)|][0];
      r
  }

  /** `runPipeline` with the gate on the version fetched after the last stage, the
      version the run produced. */
  function RunPipeline(
    initial: Option<Version>, idea: string, bizId: string, vId: string,
    reply: Request -> StageReply, finish: FinishReply): (r: PipelineRun)
    ensures 1 <= |r.requests| <= |Pipeline|
    ensures !r.threw ==> |r.requests| == |Pipeline|
    ensures !r.threw ==>
      (r.persistCalled <==> reply(r.requests[|Pipeline| - 1]).Replied? && reply(r.requests[|Pipeline| - 1]).fetched.isValidated)
    ensures |r.messages| <= |Pipeline| + 3
    ensures |r.messages| > 0 && r.messages[0] == Initiating(Strategy)
    ensures initial.Some? ==> r.active.Some?
  {
    var l := StageLoop(initial, idea, bizId, vId, reply);
    FirstMessage(l);
    if l.threw then Thrown(l)
    else
      var r := Persist(l, l.active.value.isValidated, finish);
      assert r.messages[0] == r.messages[..|LoopMessages(l)|][0];
      r
  }

  /** The stages are requested strictly in pipeline order, each with the context built
      from every earlier result (whose contents `ContextContents` spells out), and
      `Complete` is never requested. */
  lemma RequestsFollowPipeline(
    initial: Option<Version>, idea: string, bizId: string, vId: string,
    reply: Request -> StageReply, finish: FinishReply, i: nat)
    requires i < |RunPipeline(initial, idea, bizId, vId, reply, finish).requests|
    ensures var r := RunPipeline(initial, idea, bizId, vId, reply, finish);
      && i <= |r.results|
      && r.requests[i] == Request(bizId, vId, Pipeline[i], ContextOf(idea, r.results[..i]))
      && r.requests[i].stage != Complete
  {
    var loop := StageLoop(initial, idea, bizId, vId, reply);
    var r := RunPipeline(initial, idea, bizId, vId, reply, finish);
    assert r.requests == loop.requests && r.results == loop.results;
    assert Sent(loop.requests, loop.results, i, idea, bizId, vId);
    assert Pipeline[i] != Complete by {
      assert Pipeline[i] in Pipeline;
    }
  }

  /** A run that did not throw requested all six stages, so the early stop after a
      failed validation never skips a stage; the start of every stage is logged in
      order, and a failed validation is logged right after and stops persistence. */
  lemma NoThrowRunsEveryStage(
    initial: Option<Version>, idea: string, bizId: string, vId: string,
    reply: Request -> StageReply, finish: FinishReply)
    ensures var r := RunPipeline(initial, idea, bizId, vId, reply, finish);
      !r.threw ==>
        && |r.requests| == |Pipeline| && |r.results| == |Pipeline|
        && |r.messages| >= |Pipeline|
        && (forall i :: 0 <= i < |Pipeline| ==> r.messages[i] == Initiating(Pipeline[i]))
        && (!IsValid(r.results[|Pipeline| - 1]) ==> |r.messages| > |Pipeline| && r.messages[|Pipeline|] == ValidationFailed)
  {
    var l := StageLoop(initial, idea, bizId, vId, reply);
    var r := RunPipeline(initial, idea, bizId, vId, reply, finish);
    if !l.threw {
      var lm := LoopMessages(l);
      assert |r.messages| >= |lm| && r.messages[..|lm|] == lm by {
        if l.active.value.isValidated {
          assert r.messages[..|lm| + 1][..|lm|] == r.messages[..|lm|];
          assert (lm + [Architecting])[..|lm|] == lm;
        }
      }
      forall i | 0 <= i < |Pipeline|
        ensures r.messages[i] == Initiating(Pipeline[i])
      {
        assert r.messages[i] == r.messages[..|lm|][i];
      }
      if !IsValid(r.results[|Pipeline| - 1]) {
        assert l.stopped;
        assert r.messages[|Pipeline|] == r.messages[..|lm|][|Pipeline|];
      }
    }
  }

  /** The server answers a validation honestly when the version it hands back says
      `isValidated` exactly when the answer said `isValid`. */
  ghost predicate HonestValidation(reply: Request -> StageReply) {
    forall q: Request :: q.stage == Validate && reply(q).Replied? ==> reply(q).fetched.isValidated == IsValid(reply(q).result)
  }

  /** Against an honest server, the corrected run persists files exactly when the
      validation it just ran passed. */
  lemma PersistsIffValidationPassed(
    initial: Option<Version>, idea: string, bizId: string, vId: string,
    reply: Request -> StageReply, finish: FinishReply)
    requires HonestValidation(reply)
    ensures var r := RunPipeline(initial, idea, bizId, vId, reply, finish);
      !r.threw ==> (r.persistCalled <==> IsValid(r.results[|Pipeline| - 1]))
  {
    var loop := StageLoop(initial, idea, bizId, vId, reply);
    if !loop.threw {
      assert loop.requests[|Pipeline| - 1].stage == Validate;
      assert loop.results[|Pipeline| - 1] == reply(loop.requests[|Pipeline| - 1]).result;
    }
  }

  /** A reply function under which every stage succeeds and the fetched version says
      `isValidated` exactly as the validation did. */
  function AllReplied(result: Object, fetched: Version): Request -> StageReply {
    q => Replied(result, fetched)
  }

  /** The gate as written disagrees with the run it follows: in a fresh session (no
      version active before) a fully validated run never persists its files, and with a
      validated version active from before, a run whose validation fails persists
      anyway. The corrected gate does neither. */
  lemma StaleGateCounterexample(
    idea: string, bizId: string, vId: string, initial: Option<Version>, prior: Version, v: Version, finish: FinishReply)
    requires v.isValidated && prior.isValidated
    ensures var passing := AllReplied(map["isValid" := JBool(true)], v);
      && !RunPipelineAsWritten(None, initial, idea, bizId, vId, passing, finish).persistCalled
      && RunPipeline(initial, idea, bizId, vId, passing, finish).persistCalled
    ensures var failing := AllReplied(map["isValid" := JBool(false)], v.(isValidated := false));
      && RunPipelineAsWritten(Some(prior), initial, idea, bizId, vId, failing, finish).persistCalled
      && !RunPipeline(initial, idea, bizId, vId, failing, finish).persistCalled
  {
    var passing := AllReplied(map["isValid" := JBool(true)], v);
    var failing := AllReplied(map["isValid" := JBool(false)], v.(isValidated := false));
    var l1 := StageLoop(initial, idea, bizId, vId, passing);
    var l2 := StageLoop(initial, idea, bizId, vId, failing);
    assert !l1.threw;
    assert !l2.threw;
  }

  /** The reply to `createBusiness`. */
  datatype CreateReply = CreateFailed | Created(business: Business, version: Version)

  /** What `startNewProject` leaves in the freshly cleared log: the run's messages,
      then the catch's notice when the run threw. */
  function Transcript(run: PipelineRun): seq<string> {
    run.messages + (if run.threw then [FailedToInitiate] else [])
  }

  /** The state after `createBusiness` threw: only the catch's notice is in the
      cleared log. */
  function CreateFailedState(st: ClientState): (r: ClientState)
    ensures r == st.(logs := [FailedToInitiate])
  {
    AddLogsFresh([FailedToInitiate]);
    st.(logs := AddLogs([], [FailedToInitiate]))
  }

  /** The state after the project was created and its run ended: the project is
      prepended and selected, the log is rebuilt from the cleared buffer, and the last
      version the run made active stays active. */
  function Launched(st: ClientState, biz: Business, run: PipelineRun): (r: ClientState)
    requires |run.messages| <= |Pipeline| + 3
    ensures LaunchedWith(r, st, biz, run)
    ensures |r.logs| <= LogCapacity
    ensures run.active.Some? ==> r.activeVersion.Some?
    ensures |run.messages| > 0 ==> r.logs[0] == run.messages[0]
  {
    AddLogsFresh(Transcript(run));
    st.(projects := [biz] + st.projects, activeProjectId := Some(biz.id),
        activeVersion := run.active, isGenerating := false, logs := AddLogs([], Transcript(run)))
  }

  /** The state after the project was created and its run ended. */
  ghost predicate LaunchedWith(r: ClientState, st: ClientState, biz: Business, run: PipelineRun) {
    && r.projects == [biz] + st.projects
    && r.activeProjectId == Some(biz.id)
    && r.workspaces == st.workspaces && r.activeWorkspaceId == st.activeWorkspaceId
    && r.activeVersion == run.active
    && !r.isGenerating
    && r.logs == Transcript(run)
  }

  /** `startNewProject` as written: without an active workspace it only logs an error;
      while a generation runs it does nothing; otherwise it clears the log, creates the
      project, makes its first version active and runs the pipeline from it, the run's
      persistence gate reading the `activeVersion` captured when the handler began. The
      log then holds exactly the run's messages (at most ten, so nothing is dropped),
      and `isGenerating` is cleared whatever happened. */
  function StartNewProject(
    st: ClientState, idea: string, create: CreateReply,
    reply: Request -> StageReply, finish: FinishReply): (r: ClientState)
    ensures !Present(st.activeWorkspaceId) ==> r == st.(logs := AddLog(st.logs, NoWorkspace))
    ensures Present(st.activeWorkspaceId) && st.isGenerating ==> r == st
    ensures Present(st.activeWorkspaceId) && !st.isGenerating ==> !r.isGenerating && |r.logs| <= LogCapacity
    ensures Present(st.activeWorkspaceId) && !st.isGenerating && create.CreateFailed? ==>
      r == st.(logs := [FailedToInitiate])
    ensures Present(st.activeWorkspaceId) && !st.isGenerating && create.Created? ==>
      var run := RunPipelineAsWritten(st.activeVersion, Some(create.version), idea,
                                      create.business.id, create.version.id, reply, finish);
      && LaunchedWith(r, st, create.business, run)
      && r.activeVersion.Some?
      && r.logs[0] == Initiating(Strategy)
  {
    if !Present(st.activeWorkspaceId) then st.(logs := AddLog(st.logs, NoWorkspace))
    else if st.isGenerating then st
    else
      match create
      case CreateFailed => CreateFailedState(st)
      case Created(biz, ver) =>
        Launched(st, biz, RunPipelineAsWritten(st.activeVersion, Some(ver), idea, biz.id, ver.id, reply, finish))
  }

  /** `startNewProject` with the corrected gate of `RunPipeline`: the same steps, but
      persistence depends on the version the run fetched after validation. */
  function StartNewProjectCorrected(
    st: ClientState, idea: string, create: CreateReply,
    reply: Request -> StageReply, finish: FinishReply): (r: ClientState)
    ensures !Present(st.activeWorkspaceId) ==> r == st.(logs := AddLog(st.logs, NoWorkspace))
    ensures Present(st.activeWorkspaceId) && st.isGenerating ==> r == st
    ensures Present(st.activeWorkspaceId) && !st.isGenerating ==> !r.isGenerating && |r.logs| <= LogCapacity
    ensures Present(st.activeWorkspaceId) && !st.isGenerating && create.CreateFailed? ==>
      r == st.(logs := [FailedToInitiate])
    ensures Present(st.activeWorkspaceId) && !st.isGenerating && create.Created? ==>
      var run := RunPipeline(Some(create.version), idea, create.business.id, create.version.id, reply, finish);
      && LaunchedWith(r, st, create.business, run)
      && r.activeVersion.Some?
      && r.logs[0] == Initiating(Strategy)
  {
    if !Present(st.activeWorkspaceId) then st.(logs := AddLog(st.logs, NoWorkspace))
    else if st.isGenerating then st
    else
      match create
      case CreateFailed => CreateFailedState(st)
      case Created(biz, ver) =>
        Launched(st, biz, RunPipeline(Some(ver), idea, biz.id, ver.id, reply, finish))
  }

  /** A run's messages begin with the first loop message, the start of the first stage. */
  lemma FirstMessage(l: Loop)
    requires 1 <= |l.requests| && l.requests[0].stage == Strategy
    ensures LoopMessages(l)[0] == Initiating(Strategy)
  {
  }

  /** Logging into an empty buffer at most as many messages as it holds keeps them all. */
  lemma {:induction false} AddLogsFresh(ms: seq<string>)
    requires |ms| <= LogCapacity
    ensures AddLogs([], ms) == ms
  {
    if |ms| > 0 {
      AddLogsKeepsNewest([], ms);
      var all: seq<string> := [] + ms;
      assert all == ms;
      assert Min(LogCapacity, |all|) == |all|;
      assert Last(all, LogCapacity) == all[0..];
    }
  }

  /** Whether the deployment panel is offered: with no version active nothing is shown,
      and an active version needs both its validation flag and its stored files. */
  predicate ShowDeployPanel(active: Option<Version>): (r: bool)
    ensures active.None? ==> !r
    ensures active.Some? ==> (r <==> active.value.isValidated && active.value.filesStored)
  {
    active.Some? && active.value.isValidated && active.value.filesStored
  }

  /** After a run that persisted its files, against a server whose final fetch returns the
      validated version now marked as stored, the deployment panel is offered. */
  lemma ValidatedRunOffersDeploy(
    st: ClientState, idea: string, biz: Business, ver: Version,
    reply: Request -> StageReply, v: Version)
    requires Present(st.activeWorkspaceId) && !st.isGenerating
    requires v.isValidated && v.filesStored
    ensures var run := RunPipelineAsWritten(st.activeVersion, Some(ver), idea, biz.id, ver.id, reply, Finished(v));
      run.persistCalled && !run.threw ==>
        ShowDeployPanel(StartNewProject(st, idea, Created(biz, ver), reply, Finished(v)).activeVersion)
  {
  }

  /** In a fresh session, with no version active before, `startNewProject` as written
      never stores the files of the run it starts, whatever the run's validation says:
      the log never reaches "Architecting source code...", and the version left active
      is the last one the stages fetched. */
  lemma FreshSessionNeverPersists(
    st: ClientState, idea: string, biz: Business, ver: Version,
    reply: Request -> StageReply, finish: FinishReply)
    requires Present(st.activeWorkspaceId) && !st.isGenerating && st.activeVersion.None?
    ensures var r := StartNewProject(st, idea, Created(biz, ver), reply, finish);
      var l := StageLoop(Some(ver), idea, biz.id, ver.id, reply);
      && Architecting !in r.logs
      && r.activeVersion == l.active
  {
    var l := StageLoop(Some(ver), idea, biz.id, ver.id, reply);
    var run := RunPipelineAsWritten(None, Some(ver), idea, biz.id, ver.id, reply, finish);
    assert run.messages == LoopMessages(l);
    NoArchitecting(l);
  }

  /** The loop never logs the persistence step's first message. */
  lemma NoArchitecting(l: Loop)
    ensures Architecting !in LoopMessages(l) + [FailedToInitiate]
  {
    var m := LoopMessages(l) + [FailedToInitiate];
    forall i | 0 <= i < |m|
      ensures m[i] != Architecting
    {
      if i < |l.requests| {
        assert m[i] == Initiating(l.requests[i].stage);
        assert m[i][0] == 'I';
      }
    }
  }

  /** With the corrected gate and an honest server, a run whose validation passes and
      whose final fetch answers ends with the files stored: the log shows the
      persistence step and the refetched version is active. */
  lemma CorrectedRunPersists(
    st: ClientState, idea: string, biz: Business, ver: Version,
    reply: Request -> StageReply, w: Version)
    requires Present(st.activeWorkspaceId) && !st.isGenerating && HonestValidation(reply)
    ensures var run := RunPipeline(Some(ver), idea, biz.id, ver.id, reply, Finished(w));
      var r := StartNewProjectCorrected(st, idea, Created(biz, ver), reply, Finished(w));
      !run.threw && IsValid(run.results[|Pipeline| - 1]) ==>
        && Architecting in r.logs
        && r.activeVersion == Some(w)
  {
    var run := RunPipeline(Some(ver), idea, biz.id, ver.id, reply, Finished(w));
    if !run.threw && IsValid(run.results[|Pipeline| - 1]) {
      PersistsIffValidationPassed(Some(ver), idea, biz.id, ver.id, reply, Finished(w));
      var l := StageLoop(Some(ver), idea, biz.id, ver.id, reply);
      assert run.messages == LoopMessages(l) + [Architecting, Finalized];
      assert Transcript(run)[|LoopMessages(l)|] == Architecting;
    }
  }
}
