/** The version routes of the server (server.ts:196-220, 229-343) as functions from
    the store before a request to the answer and the store after it. The caller is
    the user `authenticate` let through; document ids, clocks, the generative
    provider, the build service and the settings document are parameters. */
module Server {
  import opened Values
  import opened Strings
  import opened Stages
  import opened Records
  import opened Ownership
  import opened Retry
  import opened StageRules
  import opened Ledger
  import opened Storage

  /** The environment variables the routes read; an empty string is an unset variable. */
  datatype Config = Config(apiKey: string, projectId: string, bucketName: string)

  /** A route's answer and the store it leaves behind. */
  datatype Reply<T> = Reply(response: Response<T>, store: Store)

  /** The body of `POST /api/businesses`: the business with its first version. */
  datatype NewBusiness = NewBusiness(business: Business, version: Version)

  /** `verifyOwner(req, 'versions', id)`. */
  function CheckVersion(s: Store, caller: string, id: string): Checked<Version> {
    VerifyOwner(s.versions, VersionOwner, caller, id)
  }

  /** The caller may use version `id`: it exists and carries the caller's id. */
  predicate OwnsVersion(s: Store, caller: string, id: string) {
    id in s.versions && s.versions[id].userId == caller
  }

  /** `POST /api/businesses`: after the workspace check, one business and its first
      version are written together, both carrying the caller's id. */
  function CreateBusiness(
    s: Store, caller: string, idea: string, workspaceId: string,
    bizId: string, verId: string, now: int): (r: Reply<NewBusiness>)
    ensures r.response.Ok? <==> workspaceId in s.workspaces && s.workspaces[workspaceId].userId == caller
    ensures r.response.Error? ==>
      && r.store == s
      && (r.response.status == 404 <==> workspaceId !in s.workspaces)
      && (r.response.status == 403 <==> workspaceId in s.workspaces)
    ensures r.response.Ok? ==>
      var b := r.response.body.business;
      var v := r.response.body.version;
      && b.id == bizId && b.userId == caller && b.workspaceId == workspaceId && b.idea == idea
      && b.currentVersionId == verId && v.id == verId
      && v.businessId == bizId && v.userId == caller
      && v.stage == Name(Strategy) && !v.isValidated && !v.filesStored
      && v.results == map[] && v.lastBuild.None?
      && r.store == s.(businesses := s.businesses[bizId := b], versions := s.versions[verId := v])
  {
    match VerifyOwner(s.workspaces, WorkspaceOwner, caller, workspaceId)
    case Denied(status, message) => Reply(Error(status, message), s)
    case Found(_) =>
      var b := Business(bizId, caller, workspaceId, idea, verId, now);
      var v := Version(verId, bizId, caller, Name(Strategy), map[], false, false, now, None);
      Reply(Ok(NewBusiness(b, v)), s.(businesses := s.businesses[bizId := b], versions := s.versions[verId := v]))
  }

  /** The generation step goes ahead: the key is set, the caller owns the version and
      the retry loop produced an object. Only then is anything written. */
  predicate Generates(cfg: Config, s: Store, caller: string, versionId: string, provider: nat -> Attempt) {
    cfg.apiKey != "" && OwnsVersion(s, caller, versionId)
    && GenerateWithRetry(provider, DefaultRetries).result.Generated?
  }

  /** `POST /api/generateStage`. On success the version gets the stage's payload and
      the ledger one entry; when the caller's user document is missing the counter
      update throws after both writes, and the route answers 500. */
  function GenerateStage(
    cfg: Config, s: Store, caller: string, businessId: string, versionId: string, stage: string,
    stored: Option<Settings>, provider: nat -> Attempt, now: int): (r: Reply<Object>)
    ensures cfg.apiKey == "" ==> r == Reply(Error(500, "API_KEY not configured."), s)
    ensures cfg.apiKey != "" && !OwnsVersion(s, caller, versionId) ==>
      r == Reply(Error(if versionId in s.versions then 403 else 404,
                       if versionId in s.versions then "Forbidden" else "Not found"), s)
    ensures !Generates(cfg, s, caller, versionId, provider) ==> r.store == s && r.response.Error?
    ensures cfg.apiKey != "" && OwnsVersion(s, caller, versionId)
            && GenerateWithRetry(provider, DefaultRetries).result.Exhausted? ==>
      r == Reply(Error(500, "AI Pipeline Failure"), s)
    ensures Generates(cfg, s, caller, versionId, provider) ==>
      var data := ValidatedPayload(stage, GenerateWithRetry(provider, DefaultRetries).result.data);
      var model := ModelFor(EffectiveSettings(stored), stage);
      var w := LogLedgerEntry(s.ledger, s.users, caller, businessId, model,
                              InputTokens(stage), OutputTokens(stage), now);
      && r.store == s.(versions := s.versions[versionId := StageUpdate(s.versions[versionId], stage, data)],
                       ledger := w.ledger, users := w.users)
      && (r.response.Ok? <==> caller in s.users)
      && (r.response.Ok? ==> r.response.body == data)
      && (r.response.Error? ==> r.response == Error(500, "AI Pipeline Failure"))
  {
    if cfg.apiKey == "" then Reply(Error(500, "API_KEY not configured."), s)
    else
      match CheckVersion(s, caller, versionId)
      case Denied(status, message) => Reply(Error(status, message), s)
      case Found(v) =>
        var settings := EffectiveSettings(stored);
        var model := ModelFor(settings, stage);
        var run := GenerateWithRetry(provider, DefaultRetries);
        match run.result
        case Exhausted(_) => Reply(Error(500, "AI Pipeline Failure"), s)
        case Generated(raw) =>
          var data := ValidatedPayload(stage, raw);
          var s1 := s.(versions := s.versions[versionId := StageUpdate(v, stage, data)]);
          var w := LogLedgerEntry(s1.ledger, s1.users, caller, businessId, model,
                                  InputTokens(stage), OutputTokens(stage), now);
          var s2 := s1.(ledger := w.ledger, users := w.users);
          if w.countersUpdated then Reply(Ok(data), s2)
          else Reply(Error(500, "AI Pipeline Failure"), s2)
  }

  const Region: string := "us-central1"

  /** The Cloud Run service a version deploys to: "biz-" and the first ten characters
      of the version id. */
  function ServiceName(verId: string): (r: string)
    ensures IsPrefix("biz-", r)
    ensures r[4..] == Take(verId, 10)
    ensures |r| == 4 + (if |verId| < 10 then |verId| else 10)
  {
    "biz-" + Take(verId, 10)
  }

  /** Two versions share a service exactly when their ids agree on the first ten
      characters, so long ids that differ only further on collide. */
  lemma ServiceNameCollision(a: string, b: string)
    ensures ServiceName(a) == ServiceName(b) <==> Take(a, 10) == Take(b, 10)
    ensures |a| >= 10 && |b| >= 10 && a[..10] == b[..10] ==> ServiceName(a) == ServiceName(b)
  {
    if ServiceName(a) == ServiceName(b) {
      assert ServiceName(a)[4..] == ServiceName(b)[4..];
    }
  }

  /** What the build service did with the submission: it threw, or it started a build
      whose id may be missing from the operation metadata. */
  datatype BuildSubmission = SubmitFailed | Submitted(buildId: Option<string>)

  /** The build record a deploy writes, with its initial status WORKING. */
  function NewBuild(id: string, verId: string, now: int): (b: BuildInfo)
    ensures b.id == id && b.status == "WORKING" && b.serviceUrl.None?
    ensures b.serviceName == ServiceName(verId) && b.region == Region && b.createdAt == now
  {
    BuildInfo(id, "WORKING", ServiceName(verId), Region, now, None)
  }

  /** `POST /api/deploy/:versionId`. A build without an id fails the first write
      (the store refuses an undefined field), so nothing is recorded. The version's
      validation and stored files are not consulted. */
  function Deploy(cfg: Config, s: Store, caller: string, verId: string, build: BuildSubmission, now: int): (r: Reply<string>)
    ensures cfg.projectId == "" || cfg.bucketName == "" ==> r == Reply(Error(500, "Cloud configuration missing"), s)
    ensures r.response.Error? ==> r.store == s
    ensures cfg.projectId != "" && cfg.bucketName != "" && !OwnsVersion(s, caller, verId) ==>
      r.response.Error? && r.response.status == (if verId in s.versions then 403 else 404)
    ensures r.response.Ok? <==>
      cfg.projectId != "" && cfg.bucketName != "" && OwnsVersion(s, caller, verId)
      && build.Submitted? && build.buildId.Some?
    ensures r.response.Ok? ==>
      var info := NewBuild(r.response.body, verId, now);
      && build == Submitted(Some(r.response.body))
      && r.store == s.(versions := s.versions[verId := s.versions[verId].(lastBuild := Some(info))],
                       deployments := s.deployments[verId := DeployRecord(info, verId, caller, verId)])
    ensures r.response.Error? && cfg.projectId != "" && cfg.bucketName != "" && OwnsVersion(s, caller, verId) ==>
      r.response == Error(500, "Build failed")
  {
    if cfg.projectId == "" || cfg.bucketName == "" then Reply(Error(500, "Cloud configuration missing"), s)
    else
      match CheckVersion(s, caller, verId)
      case Denied(status, message) => Reply(Error(status, message), s)
      case Found(v) =>
        match build
        case SubmitFailed => Reply(Error(500, "Build failed"), s)
        case Submitted(None) => Reply(Error(500, "Build failed"), s)
        case Submitted(Some(id)) =>
          var info := NewBuild(id, verId, now);
          Reply(Ok(id), s.(versions := s.versions[verId := v.(lastBuild := Some(info))],
                           deployments := s.deployments[verId := DeployRecord(info, verId, caller, verId)]))
  }

  /** Some deployment record of the caller carries this build id. */
  ghost predicate OwnsBuild(s: Store, caller: string, buildId: string) {
    exists k :: k in s.deployments && s.deployments[k].userId == caller && s.deployments[k].info.id == buildId
  }

  /** `GET /api/deploy/status/:buildId`: the build service's status, forwarded as is,
      for a build the caller has a record of. No URL is forwarded and nothing is
      written, so the stored record stays WORKING. */
  function DeployStatus(s: Store, caller: string, buildId: string, providerStatus: string -> string): (r: Response<string>)
    ensures r.Ok? <==> OwnsBuild(s, caller, buildId)
    ensures r.Ok? ==> r.body == providerStatus(buildId)
    ensures r.Error? ==> r == Error(404, "Not found")
  {
    if exists k | k in s.deployments :: s.deployments[k].userId == caller && s.deployments[k].info.id == buildId
    then Ok(providerStatus(buildId))
    else Error(404, "Not found")
  }

  /** A build just started can be polled by the caller who started it. */
  lemma DeployThenStatus(cfg: Config, s: Store, caller: string, verId: string, build: BuildSubmission, now: int,
                         providerStatus: string -> string)
    ensures var r := Deploy(cfg, s, caller, verId, build, now);
      r.response.Ok? ==> DeployStatus(r.store, caller, r.response.body, providerStatus) == Ok(providerStatus(r.response.body))
  {
    var r := Deploy(cfg, s, caller, verId, build, now);
    if r.response.Ok? {
      assert r.store.deployments[verId].userId == caller;
    }
  }

  /** Deployment records are keyed by version: redeploying a version replaces its record,
      so the earlier build id, recorded nowhere else, is no longer found. */
  lemma RedeployForgetsOldBuild(cfg: Config, s: Store, caller: string, verId: string, newId: string, now: int,
                                oldId: string, providerStatus: string -> string)
    requires cfg.projectId != "" && cfg.bucketName != "" && OwnsVersion(s, caller, verId)
    requires verId in s.deployments && s.deployments[verId].info.id == oldId && oldId != newId
    requires forall k :: k in s.deployments && k != verId ==> s.deployments[k].info.id != oldId
    ensures var r := Deploy(cfg, s, caller, verId, Submitted(Some(newId)), now);
      r.response == Ok(newId) && DeployStatus(r.store, caller, oldId, providerStatus) == Error(404, "Not found")
  {
    var r := Deploy(cfg, s, caller, verId, Submitted(Some(newId)), now);
    assert r.store.deployments[verId].info.id == newId;
  }

  /** Deploying needs neither a validated version nor stored files. */
  lemma DeployIgnoresValidation(cfg: Config, s: Store, caller: string, verId: string, id: string, now: int)
    requires cfg.projectId != "" && cfg.bucketName != "" && OwnsVersion(s, caller, verId)
    requires !s.versions[verId].isValidated && !s.versions[verId].filesStored
    ensures Deploy(cfg, s, caller, verId, Submitted(Some(id)), now).response == Ok(id)
  {
  }

  function SourcePrefix(versionId: string): string { "versions/" + versionId + "/source" }
  function DistPrefix(versionId: string): string { "versions/" + versionId + "/dist" }

  /** A file tree in the request body: `tree?.files`, present or not. */
  function FilesOf(tree: Option<seq<FileEntry>>): seq<FileEntry> {
    if tree.Some? then tree.value else []
  }

  /** The answer, the store afterwards, and the uploads issued. */
  datatype Persisted = Persisted(response: Response<bool>, store: Store, uploads: seq<Upload>)

  /** `POST /api/versions/:versionId/files`: upload the source tree, then the dist tree,
      then mark the version as having stored files. */
  function PersistFiles(
    cfg: Config, s: Store, caller: string, versionId: string,
    source: Option<seq<FileEntry>>, dist: Option<seq<FileEntry>>): (r: Persisted)
    ensures cfg.bucketName == "" ==> r == Persisted(Error(500, "GCS_BUCKET_NAME not configured."), s, [])
    ensures r.response.Ok? <==> cfg.bucketName != "" && OwnsVersion(s, caller, versionId)
    ensures r.response.Error? ==> r.store == s && r.uploads == []
    ensures cfg.bucketName != "" && !OwnsVersion(s, caller, versionId) ==>
      r.response.status == (if versionId in s.versions then 403 else 404)
    ensures r.response.Ok? ==>
      && r.response.body
      && r.store == s.(versions := s.versions[versionId := s.versions[versionId].(filesStored := true)])
      && |r.uploads| == |FilesOf(source)| + |FilesOf(dist)|
      && r.uploads[..|FilesOf(source)|] == UploadPlan(SourcePrefix(versionId), FilesOf(source))
      && r.uploads[|FilesOf(source)|..] == UploadPlan(DistPrefix(versionId), FilesOf(dist))
    ensures forall i :: 0 <= i < |r.uploads| ==> NoDoubleSlash(r.uploads[i].destination)
  {
    if cfg.bucketName == "" then Persisted(Error(500, "GCS_BUCKET_NAME not configured."), s, [])
    else
      match CheckVersion(s, caller, versionId)
      case Denied(status, message) => Persisted(Error(status, message), s, [])
      case Found(v) =>
        var src := UploadPlan(SourcePrefix(versionId), FilesOf(source));
        var dst := UploadPlan(DistPrefix(versionId), FilesOf(dist));
        var ups := src + dst;
        assert ups[..|src|] == src && ups[|src|..] == dst;
        Persisted(Ok(true), s.(versions := s.versions[versionId := v.(filesStored := true)]), ups)
  }

  /** With a version id and file paths free of stray slashes, each file lands at
      `versions/<id>/source/<path>` (or `dist`), exactly the plain join. */
  lemma PlainUploadPaths(versionId: string, path: string)
    requires versionId != "" && '/' !in versionId
    requires NoDoubleSlash(path) && (|path| > 0 ==> path[0] != '/')
    ensures Destination(SourcePrefix(versionId), path) == SourcePrefix(versionId) + "/" + path
    ensures Destination(DistPrefix(versionId), path) == DistPrefix(versionId) + "/" + path
  {
    PrefixClean(versionId, "/source");
    PrefixClean(versionId, "/dist");
    DestinationPlainJoin(SourcePrefix(versionId), path);
    DestinationPlainJoin(DistPrefix(versionId), path);
  }

  lemma PrefixClean(versionId: string, tail: string)
    requires versionId != "" && '/' !in versionId
    requires tail == "/source" || tail == "/dist"
    ensures NoDoubleSlash("versions/" + versionId + tail)
    ensures ("versions/" + versionId + tail)[|"versions/" + versionId + tail| - 1] != '/'
  {
    var a := "versions/" + versionId;
    assert forall i :: 0 <= i < |versionId| ==> a[9 + i] == versionId[i];
    AppendNoDoubleSlash("versions/", versionId);
    assert a[|a| - 1] == versionId[|versionId| - 1];
    AppendNoDoubleSlash(a, tail);
  }

  /** `GET /api/versions/:id`: the version, to its owner only. */
  function GetVersion(s: Store, caller: string, id: string): (r: Response<Version>)
    ensures r.Ok? <==> OwnsVersion(s, caller, id)
    ensures r.Ok? ==> r.body == s.versions[id]
    ensures r.Error? ==> r.status == (if id in s.versions then 403 else 404)
  {
    match CheckVersion(s, caller, id)
    case Denied(status, message) => Error(status, message)
    case Found(v) => Ok(v)
  }

  /** No version route lets a caller read or change a version that is not theirs:
      each answers with an error and leaves the store as it was. */
  lemma NonOwnerGetsNothing(
    cfg: Config, s: Store, caller: string, versionId: string,
    businessId: string, stage: string, stored: Option<Settings>, provider: nat -> Attempt,
    build: BuildSubmission, source: Option<seq<FileEntry>>, dist: Option<seq<FileEntry>>, now: int)
    requires !OwnsVersion(s, caller, versionId)
    ensures GenerateStage(cfg, s, caller, businessId, versionId, stage, stored, provider, now).store == s
    ensures GenerateStage(cfg, s, caller, businessId, versionId, stage, stored, provider, now).response.Error?
    ensures Deploy(cfg, s, caller, versionId, build, now).store == s
    ensures Deploy(cfg, s, caller, versionId, build, now).response.Error?
    ensures PersistFiles(cfg, s, caller, versionId, source, dist).store == s
    ensures PersistFiles(cfg, s, caller, versionId, source, dist).uploads == []
    ensures GetVersion(s, caller, versionId).Error?
  {
  }

  /** `isValidated` is true exactly when the stored validation result is an object
      whose score reaches 0.7. */
  predicate ValidationConsistent(v: Version) {
    v.isValidated <==>
      ("validation" in v.results && v.results["validation"].JObj?
       && ScoreAtLeast(v.results["validation"].fields, ValidThreshold))
  }

  predicate StoreConsistent(s: Store) {
    forall id :: id in s.versions ==> ValidationConsistent(s.versions[id])
  }

  /** Only `Build + Validate` writes the `validation` field. */
  lemma ValidationSlotIsValidateOnly(stage: string)
    ensures FieldKey(stage) == "validation" <==> stage == Name(Validate)
  {
  }

  /** One stage update keeps a version consistent. */
  lemma StageUpdateConsistent(v: Version, stage: string, raw: Object)
    requires ValidationConsistent(v)
    ensures ValidationConsistent(StageUpdate(v, stage, ValidatedPayload(stage, raw)))
  {
    var data := ValidatedPayload(stage, raw);
    var u := StageUpdate(v, stage, data);
    ValidationSlotIsValidateOnly(stage);
    if stage == Name(Validate) {
      assert u.results["validation"] == JObj(data);
      if "score" in raw {
        assert data["score"] == raw["score"];
      }
      assert ScoreAtLeast(data, ValidThreshold) == ScoreAtLeast(raw, ValidThreshold);
    } else {
      assert u.results.Keys == v.results.Keys + {FieldKey(stage)};
      assert "validation" in u.results <==> "validation" in v.results;
      if "validation" in v.results {
        assert u.results["validation"] == v.results["validation"];
      }
    }
  }

  /** Every route keeps every stored version consistent, so no route can mark a version
      validated without a passing validation result. */
  lemma CreateKeepsConsistency(s: Store, caller: string, idea: string, workspaceId: string,
                               bizId: string, verId: string, now: int)
    requires StoreConsistent(s)
    ensures StoreConsistent(CreateBusiness(s, caller, idea, workspaceId, bizId, verId, now).store)
  {
  }

  lemma GenerateKeepsConsistency(
    cfg: Config, s: Store, caller: string, businessId: string, versionId: string, stage: string,
    stored: Option<Settings>, provider: nat -> Attempt, now: int)
    requires StoreConsistent(s)
    ensures StoreConsistent(GenerateStage(cfg, s, caller, businessId, versionId, stage, stored, provider, now).store)
  {
    if Generates(cfg, s, caller, versionId, provider) {
      StageUpdateConsistent(s.versions[versionId], stage, GenerateWithRetry(provider, DefaultRetries).result.data);
    }
  }

  lemma DeployKeepsConsistency(cfg: Config, s: Store, caller: string, verId: string, build: BuildSubmission, now: int)
    requires StoreConsistent(s)
    ensures StoreConsistent(Deploy(cfg, s, caller, verId, build, now).store)
  {
  }

  lemma PersistKeepsConsistency(
    cfg: Config, s: Store, caller: string, versionId: string,
    source: Option<seq<FileEntry>>, dist: Option<seq<FileEntry>>)
    requires StoreConsistent(s)
    ensures StoreConsistent(PersistFiles(cfg, s, caller, versionId, source, dist).store)
  {
  }

  /** The `isValid` the client reads from a validation answer is the `isValidated` now
      stored on the version, and both say whether the score reached 0.7. */
  lemma ValidateReplyMatchesVersion(
    cfg: Config, s: Store, caller: string, businessId: string, versionId: string,
    stored: Option<Settings>, provider: nat -> Attempt, now: int)
    ensures var r := GenerateStage(cfg, s, caller, businessId, versionId, Name(Validate), stored, provider, now);
      r.response.Ok? ==>
        && versionId in r.store.versions
        && r.store.versions[versionId].isValidated == Truthy(Field(r.response.body, "isValid"))
        && r.response.body["isValid"] == JBool(ScoreAtLeast(r.response.body, ValidThreshold))
  {
    var r := GenerateStage(cfg, s, caller, businessId, versionId, Name(Validate), stored, provider, now);
    if r.response.Ok? {
      RewriteKeepsScore(GenerateWithRetry(provider, DefaultRetries).result.data);
    }
  }

  /** A generation step charges the caller exactly what it logs, so the counters keep
      agreeing with the ledger. */
  lemma GenerateStageKeepsCounters(
    cfg: Config, s: Store, caller: string, businessId: string, versionId: string, stage: string,
    stored: Option<Settings>, provider: nat -> Attempt, now: int, base: map<string, int>)
    requires CountersMatchLedger(s.users, s.ledger, base)
    ensures var r := GenerateStage(cfg, s, caller, businessId, versionId, stage, stored, provider, now);
      CountersMatchLedger(r.store.users, r.store.ledger, base)
  {
    if Generates(cfg, s, caller, versionId, provider) {
      var model := ModelFor(EffectiveSettings(stored), stage);
      LedgerWriteKeepsCounters(s.ledger, s.users, base, caller, businessId, model,
                               InputTokens(stage), OutputTokens(stage), now);
    }
  }

  /** Stage results only accumulate: a generation step never drops a version or a field. */
  lemma ResultsOnlyGrow(
    cfg: Config, s: Store, caller: string, businessId: string, versionId: string, stage: string,
    stored: Option<Settings>, provider: nat -> Attempt, now: int, id: string)
    requires id in s.versions
    ensures var r := GenerateStage(cfg, s, caller, businessId, versionId, stage, stored, provider, now);
      id in r.store.versions && s.versions[id].results.Keys <= r.store.versions[id].results.Keys
  {
    var r := GenerateStage(cfg, s, caller, businessId, versionId, stage, stored, provider, now);
    if !Generates(cfg, s, caller, versionId, provider) {
      assert r.store == s;
    } else {
      var data := ValidatedPayload(stage, GenerateWithRetry(provider, DefaultRetries).result.data);
      var u := StageUpdate(s.versions[versionId], stage, data);
      assert r.store.versions == s.versions[versionId := u];
      if id == versionId {
        assert r.store.versions[id].results.Keys == s.versions[id].results.Keys + {FieldKey(stage)};
      } else {
        assert r.store.versions[id] == s.versions[id];
      }
    }
  }

  /** The server does not enforce the response schema: an empty answer to the strategy
      stage is stored and returned although it lacks every required field. */
  lemma NonConformingPayloadStored(cfg: Config, s: Store, caller: string, businessId: string, versionId: string,
                                   stored: Option<Settings>, provider: nat -> Attempt, now: int)
    requires cfg.apiKey != "" && OwnsVersion(s, caller, versionId) && caller in s.users
    requires provider(0) == EmptyText
    ensures var r := GenerateStage(cfg, s, caller, businessId, versionId, Name(Strategy), stored, provider, now);
      && r.response == Ok(map[])
      && !ConformsToSchema(Name(Strategy), r.response.body)
      && "blueprint" in r.store.versions[versionId].results
      && r.store.versions[versionId].results["blueprint"] == JObj(map[])
  {
    assert "niche" in RequiredFields(Name(Strategy));
    var run := GenerateWithRetry(provider, DefaultRetries);
    assert run.result == Generated(map[]);
    assert ValidatedPayload(Name(Strategy), map[]) == map[];
    assert FieldKey(Name(Strategy)) == "blueprint";
  }

  /** A stage name outside the field table, and not a name every object inherits, is
      written under the key "undefined", and becomes the version's stage as it is. */
  lemma UnknownStageWritesUndefinedSlot(cfg: Config, s: Store, caller: string, businessId: string, versionId: string,
                                        stage: string, stored: Option<Settings>, provider: nat -> Attempt, now: int)
    requires Parse(stage).None? || stage == Name(Complete)
    requires !Inherited(stage)
    requires Generates(cfg, s, caller, versionId, provider)
    ensures var r := GenerateStage(cfg, s, caller, businessId, versionId, stage, stored, provider, now);
      "undefined" in r.store.versions[versionId].results && r.store.versions[versionId].stage == stage
  {
    assert stage !in FieldMap;
  }

  /** A stage named after a member every object inherits is written under that
      member's string form (see `InheritedKeys`) and becomes the version's stage. */
  lemma InheritedStageWritesMemberSlot(cfg: Config, s: Store, caller: string, businessId: string, versionId: string,
                                       stage: string, stored: Option<Settings>, provider: nat -> Attempt, now: int)
    requires Inherited(stage)
    requires Generates(cfg, s, caller, versionId, provider)
    ensures var r := GenerateStage(cfg, s, caller, businessId, versionId, stage, stored, provider, now);
      && FieldKey(stage) in r.store.versions[versionId].results
      && FieldKey(stage) != "undefined"
      && r.store.versions[versionId].stage == stage
  {
    InheritedKeys(stage);
  }

  /** When the caller's user document is missing, the route answers 500 although the
      version update and the ledger entry were both written. */
  lemma LedgerFailureStillWrites(cfg: Config, s: Store, caller: string, businessId: string, versionId: string,
                                 stage: string, stored: Option<Settings>, provider: nat -> Attempt, now: int)
    requires Generates(cfg, s, caller, versionId, provider) && caller !in s.users
    ensures var r := GenerateStage(cfg, s, caller, businessId, versionId, stage, stored, provider, now);
      && r.response == Error(500, "AI Pipeline Failure")
      && |r.store.ledger| == |s.ledger| + 1
      && r.store.versions[versionId].stage == stage
      && r.store.users == s.users
  {
  }
}
