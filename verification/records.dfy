/** The documents the server keeps in its store (types.ts and the records built in
    server.ts), and the store itself as one map per collection. Timestamps are
    integers handed in by the caller; document ids are handed in as well, since the
    store draws them at random. */
module Records {
  import opened Values

  datatype Role = Admin | Member

  datatype AccountStatus = Active | Disabled

  datatype User = User(
    id: string,
    email: string,
    name: string,
    picture: string,
    role: Role,
    plan: string,
    tokensRemaining: int,
    tokensUsed: int,
    status: AccountStatus,
    createdAt: int,
    lastLogin: int)

  datatype Workspace = Workspace(id: string, userId: string, name: string, timestamp: int)

  /** A project: one idea inside a workspace, pointing at its current version. */
  datatype Business = Business(
    id: string,
    userId: string,
    workspaceId: string,
    idea: string,
    currentVersionId: string,
    timestamp: int)

  /** The denormalised copy of the last build kept on a version. */
  datatype BuildInfo = BuildInfo(
    id: string,
    status: string,
    serviceName: string,
    region: string,
    createdAt: int,
    serviceUrl: Option<string>)

  /** One run of the pipeline for a business. `stage` is the stored stage name and
      `results` holds the stage payloads under their field names (`blueprint`,
      `brand`, `structure`, `assets`, `agent`, `validation`). */
  datatype Version = Version(
    id: string,
    businessId: string,
    userId: string,
    stage: string,
    results: map<string, Json>,
    isValidated: bool,
    filesStored: bool,
    timestamp: int,
    lastBuild: Option<BuildInfo>)

  datatype DeployRecord = DeployRecord(
    info: BuildInfo,
    projectId: string,
    userId: string,
    versionId: string)

  datatype LedgerEntry = LedgerEntry(
    userId: string,
    projectId: string,
    modelId: string,
    inputTokens: nat,
    outputTokens: nat,
    totalTokens: nat,
    providerCostUSD: real,
    chargedTokens: nat,
    timestamp: int)

  datatype Store = Store(
    users: map<string, User>,
    workspaces: map<string, Workspace>,
    businesses: map<string, Business>,
    versions: map<string, Version>,
    deployments: map<string, DeployRecord>,
    ledger: seq<LedgerEntry>)

  /** An HTTP answer: a JSON body, or a status code with a plain-text message. */
  datatype Response<T> = Ok(body: T) | Error(status: int, message: string)

  function WorkspaceOwner(w: Workspace): string { w.userId }
  function VersionOwner(v: Version): string { v.userId }
}
