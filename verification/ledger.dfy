/** Token-ledger accounting `logLedgerEntry` (server.ts:55-81): every billed generation
    call appends one immutable entry and moves its total from the caller's remaining
    tokens to the used tokens. The two writes happen one after the other; the counter
    update fails when the user document does not exist, after the entry is written. */
module Ledger {
  import opened Strings
  import opened Records

  /** USD per million tokens: 3.5 for a model id containing "pro", else 0.075. */
  function RatePerMillion(modelId: string): real {
    if Contains(modelId, "pro") then 3.5 else 0.075
  }

  /** `(totalTokens / 1e6) * rate`, written per rate so that it stays linear. */
  function CostUSD(modelId: string, totalTokens: nat): (r: real)
    ensures r >= 0.0
    ensures Contains(modelId, "pro") ==> r == totalTokens as real * 3.5 / 1000000.0
    ensures !Contains(modelId, "pro") ==> r == totalTokens as real * 0.075 / 1000000.0
  {
    if Contains(modelId, "pro") then totalTokens as real * 3.5 / 1000000.0
    else totalTokens as real * 0.075 / 1000000.0
  }

  /** The cost is the token count in millions times the model's rate. */
  lemma CostIsRateTimesMillions(modelId: string, totalTokens: nat)
    ensures CostUSD(modelId, totalTokens) == (totalTokens as real / 1000000.0) * RatePerMillion(modelId)
  {
  }

  /** The store state the two writes leave behind, and whether the counter update went through. */
  datatype LedgerWrite = LedgerWrite(ledger: seq<LedgerEntry>, users: map<string, User>, countersUpdated: bool)

  function LogLedgerEntry(
    ledger: seq<LedgerEntry>, users: map<string, User>,
    userId: string, projectId: string, modelId: string,
    inputTokens: nat, outputTokens: nat, now: int): (r: LedgerWrite)
    ensures |r.ledger| == |ledger| + 1 && r.ledger[..|ledger|] == ledger
    ensures var e := r.ledger[|ledger|];
      && e.userId == userId && e.projectId == projectId && e.modelId == modelId
      && e.inputTokens == inputTokens && e.outputTokens == outputTokens
      && e.totalTokens == inputTokens + outputTokens
      && e.chargedTokens == e.totalTokens
      && e.providerCostUSD == CostUSD(modelId, e.totalTokens)
      && e.timestamp == now
    ensures r.countersUpdated <==> userId in users
    ensures r.users.Keys == users.Keys
    ensures r.countersUpdated ==>
      && r.users[userId].tokensUsed == users[userId].tokensUsed + inputTokens + outputTokens
      && r.users[userId].tokensRemaining == users[userId].tokensRemaining - (inputTokens + outputTokens)
      && r.users[userId].(tokensUsed := users[userId].tokensUsed, tokensRemaining := users[userId].tokensRemaining) == users[userId]
    ensures forall u :: u in users && u != userId ==> r.users[u] == users[u]
    ensures !r.countersUpdated ==> r.users == users
  {
    var totalTokens := inputTokens + outputTokens;
    var entry := LedgerEntry(userId, projectId, modelId, inputTokens, outputTokens, totalTokens,
                             CostUSD(modelId, totalTokens), totalTokens, now);
    if userId in users then
      var u := users[userId];
      LedgerWrite(ledger + [entry],
                  users[userId := u.(tokensUsed := u.tokensUsed + totalTokens,
                                     tokensRemaining := u.tokensRemaining - totalTokens)],
                  true)
    else
      LedgerWrite(ledger + [entry], users, false)
  }

  /** The tokens the ledger has charged to one user. */
  function UserTotal(ledger: seq<LedgerEntry>, userId: string): nat {
    if |ledger| == 0 then 0
    else
      var last := ledger[|ledger| - 1];
      UserTotal(ledger[..|ledger| - 1], userId) + (if last.userId == userId then last.chargedTokens else 0)
  }

  /** Every user's used-token counter equals what the ledger charged them, counted from `base`. */
  ghost predicate CountersMatchLedger(users: map<string, User>, ledger: seq<LedgerEntry>, base: map<string, int>) {
    forall u :: u in users ==> u in base && users[u].tokensUsed == base[u] + UserTotal(ledger, u)
  }

  /** A ledger write keeps the counters in step with the ledger: the used counter moves
      by exactly the charged total, and when the user document is missing nobody's
      counter moves. */
  lemma LedgerWriteKeepsCounters(
    ledger: seq<LedgerEntry>, users: map<string, User>, base: map<string, int>,
    userId: string, projectId: string, modelId: string,
    inputTokens: nat, outputTokens: nat, now: int)
    requires CountersMatchLedger(users, ledger, base)
    ensures var r := LogLedgerEntry(ledger, users, userId, projectId, modelId, inputTokens, outputTokens, now);
      CountersMatchLedger(r.users, r.ledger, base)
  {
    var r := LogLedgerEntry(ledger, users, userId, projectId, modelId, inputTokens, outputTokens, now);
    assert r.ledger[..|r.ledger| - 1] == ledger;
  }

  /** Used plus remaining tokens is the same before and after any ledger write. */
  lemma TokensConserved(
    ledger: seq<LedgerEntry>, users: map<string, User>,
    userId: string, projectId: string, modelId: string,
    inputTokens: nat, outputTokens: nat, now: int)
    requires userId in users
    ensures var r := LogLedgerEntry(ledger, users, userId, projectId, modelId, inputTokens, outputTokens, now);
      r.users[userId].tokensUsed + r.users[userId].tokensRemaining
        == users[userId].tokensUsed + users[userId].tokensRemaining
  {
  }

  /** One reasoning-tier call on the default reasoning model: 1800 tokens at 3.5 USD per million. */
  lemma ReasoningCallCost()
    ensures Contains("gemini-3-pro-preview", "pro")
    ensures CostUSD("gemini-3-pro-preview", 600 + 1200) == 0.0063
  {
    assert OccursAt("gemini-3-pro-preview", "pro", 9);
  }
}
