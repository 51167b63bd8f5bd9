/** The fixed tables and rules of `/api/generateStage` (server.ts:235-266) and the
    per-stage response contracts of `getSchemaForStage` (server.ts:444-455). Stage
    names arrive from the request body as strings. */
module StageRules {
  import opened Values
  import opened Stages
  import opened Records

  /** The `systemSettings/global` document, or the built-in default when it is absent. */
  datatype Settings = Settings(defaultModel: string, reasoningModel: string)

  const DefaultSettings: Settings := Settings("gemini-3-flash-preview", "gemini-3-pro-preview")

  function EffectiveSettings(stored: Option<Settings>): (r: Settings)
    ensures stored.Some? ==> r == stored.value
    ensures stored.None? ==> r == DefaultSettings
  {
    match stored
    case Some(s) => s
    case None => DefaultSettings
  }

  const HighReasoningStages: seq<string> :=
    [Name(Strategy), Name(Brand), Name(Structure), Name(Validate)]

  predicate IsHighReasoning(stage: string) {
    stage in HighReasoningStages
  }

  /** `stage` names one of the four synthesis stages, the reasoning tier. */
  predicate NamesReasoningStage(stage: string) {
    Parse(stage).Some? && Parse(stage).value in {Strategy, Brand, Structure, Validate}
  }

  /** Membership in the literal list is the same as naming a reasoning-tier stage. */
  lemma HighReasoningNames(stage: string)
    ensures IsHighReasoning(stage) <==> NamesReasoningStage(stage)
  {
    if Parse(stage).Some? {
      ParseName(Parse(stage).value);
    }
  }

  /** The model a call uses: the reasoning model for the four synthesis stages, the
      default model for every other stage name, known or not. */
  function ModelFor(settings: Settings, stage: string): (r: string)
    ensures NamesReasoningStage(stage) ==> r == settings.reasoningModel
    ensures !NamesReasoningStage(stage) ==> r == settings.defaultModel
  {
    HighReasoningNames(stage);
    if IsHighReasoning(stage) then settings.reasoningModel else settings.defaultModel
  }

  /** Tokens charged per call: 600 in / 1200 out on the reasoning tier, 300 / 400 otherwise. */
  function InputTokens(stage: string): (r: nat)
    ensures NamesReasoningStage(stage) ==> r == 600
    ensures !NamesReasoningStage(stage) ==> r == 300
  {
    HighReasoningNames(stage);
    if IsHighReasoning(stage) then 600 else 300
  }

  function OutputTokens(stage: string): (r: nat)
    ensures NamesReasoningStage(stage) ==> r == 1200
    ensures !NamesReasoningStage(stage) ==> r == 400
  {
    HighReasoningNames(stage);
    if IsHighReasoning(stage) then 1200 else 400
  }

  /** The tier table over the stage enumeration: the four synthesis stages go to the
      reasoning model and cost 600 / 1200 tokens; asset generation, the agent profile
      and any other stage name go to the default model and cost 300 / 400. */
  lemma TierTable(settings: Settings, s: Stage)
    ensures s in {Strategy, Brand, Structure, Validate} ==>
      ModelFor(settings, Name(s)) == settings.reasoningModel
      && InputTokens(Name(s)) == 600 && OutputTokens(Name(s)) == 1200
    ensures s !in {Strategy, Brand, Structure, Validate} ==>
      ModelFor(settings, Name(s)) == settings.defaultModel
      && InputTokens(Name(s)) == 300 && OutputTokens(Name(s)) == 400
  {
    forall t | t in {Strategy, Brand, Structure, Validate}
      ensures Name(t) in HighReasoningStages
    {
    }
    if s !in {Strategy, Brand, Structure, Validate} {
      forall t | t in {Strategy, Brand, Structure, Validate}
        ensures Name(s) != Name(t)
      {
        ParseName(s);
        ParseName(t);
      }
      assert Name(s) !in HighReasoningStages;
    }
  }

  /** `fieldMap`: the version field each stage's payload is written to. */
  const FieldMap: map<string, string> := map[
    Name(Strategy) := "blueprint",
    Name(Brand) := "brand",
    Name(Structure) := "structure",
    Name(Assets) := "assets",
    Name(Agent) := "agent",
    Name(Validate) := "validation"]

  /** The methods an object literal inherits from `Object.prototype`, other than
      `constructor`; reading one of them off `fieldMap` gives the built-in function. */
  const InheritedMethods: set<string> := {
    "__defineGetter__", "__defineSetter__", "hasOwnProperty", "__lookupGetter__",
    "__lookupSetter__", "isPrototypeOf", "propertyIsEnumerable", "toString", "valueOf",
    "toLocaleString"}

  /** `fieldMap[stage]` used as a computed key. A stage in the map gives its slot. A name
      the literal inherits gives the inherited value's string form: a built-in method
      prints as its native source, `constructor` is `Object`, and `__proto__` is
      `Object.prototype`, which prints as "[object Object]". Any other name reads
      `undefined`, which becomes the key "undefined". */
  function FieldKey(stage: string): (r: string)
    ensures r in FieldMap.Values <==> stage in FieldMap
    ensures stage in FieldMap ==> r == FieldMap[stage]
    ensures stage !in FieldMap ==> (r == "undefined" <==> !Inherited(stage))
  {
    if stage in FieldMap then FieldMap[stage] else MissingKey(stage)
  }

  /** `stage` is a member every object literal inherits from `Object.prototype`. */
  predicate Inherited(stage: string) {
    stage in InheritedMethods || stage == "constructor" || stage == "__proto__"
  }

  /** The key `fieldMap[stage]` gives for a name the table does not list: never one of
      the table's slots, and "undefined" exactly when the name is not inherited. */
  function MissingKey(stage: string): (r: string)
    ensures r !in FieldMap.Values
    ensures r == "undefined" <==> !Inherited(stage)
  {
    var r := if stage in InheritedMethods then NativeSource(stage)
      else if stage == "constructor" then NativeSource("Object")
      else if stage == "__proto__" then "[object Object]"
      else "undefined";
    assert Inherited(stage) ==> r[0] == 'f' || r[0] == '[';
    assert !Inherited(stage) ==> r[0] == 'u';
    OutsideTable(r);
    r
  }

  /** A key starting like a printed function, a printed object or "undefined" is none
      of the table's slots. */
  lemma OutsideTable(k: string)
    requires |k| > 0 && (k[0] == 'f' || k[0] == '[' || k[0] == 'u')
    ensures k !in FieldMap.Values
  {
    SlotInitials();
  }

  /** How a built-in function named `name` converts to a string. */
  function NativeSource(name: string): (r: string)
    ensures |r| > 0 && r[0] == 'f'
  {
    "function " + name + "() { [native code] }"
  }

  /** A name the literal inherits yields a key that is neither a slot of the table nor
      "undefined". */
  lemma InheritedKeys(stage: string)
    requires Inherited(stage)
    ensures FieldKey(stage) != "undefined" && FieldKey(stage) !in FieldMap.Values
  {
    assert stage !in FieldMap;
  }

  /** `fieldMap["toString"]` prints as the built-in's native source. */
  lemma ToStringKey()
    ensures FieldKey("toString") == "function toString() { [native code] }"
  {
    assert "toString" in InheritedMethods;
    assert "toString" !in FieldMap;
  }

  /** No slot of the table starts the way a printed function or object does. */
  lemma SlotInitials()
    ensures forall x :: x in FieldMap.Values ==> |x| > 0 && x[0] != 'f' && x[0] != '[' && x[0] != 'u'
  {
  }

  /** Distinct generating stages write distinct fields, and only `Build + Validate`
      writes the `validation` field. */
  lemma FieldKeysDistinct(i: nat, j: nat)
    requires i < |Pipeline| && j < |Pipeline|
    ensures FieldKey(Name(Pipeline[i])) == FieldKey(Name(Pipeline[j])) <==> i == j
    ensures FieldKey(Name(Pipeline[i])) == "validation" <==> Pipeline[i] == Validate
  {
  }

  /** `data.score >= threshold` for a numeric score; a missing score is `undefined`,
      which compares false. */
  predicate ScoreAtLeast(data: Object, threshold: real) {
    "score" in data && data["score"].JNum? && data["score"].n >= threshold
  }

  const ValidThreshold: real := 0.7
  const BuildTestThreshold: real := 0.8

  /** The rewrite of the `Build + Validate` result: `buildTestPassed` and `isValid` are
      recomputed from the score, replacing whatever the provider said. Other stages
      keep their result as is. */
  function ValidatedPayload(stage: string, data: Object): (r: Object)
    ensures stage != Name(Validate) ==> r == data
    ensures stage == Name(Validate) ==>
      && r.Keys == data.Keys + {"isValid", "buildTestPassed"}
      && r["isValid"] == JBool(ScoreAtLeast(data, ValidThreshold))
      && r["buildTestPassed"] == JBool(ScoreAtLeast(data, BuildTestThreshold))
      && (forall k :: k in data && k != "isValid" && k != "buildTestPassed" ==> r[k] == data[k])
  {
    if stage == Name(Validate) then
      data["buildTestPassed" := JBool(ScoreAtLeast(data, BuildTestThreshold))]
          ["isValid" := JBool(ScoreAtLeast(data, ValidThreshold))]
    else data
  }

  /** The two thresholds are inclusive and independent: 0.65 fails both, 0.75 passes
      validation only, 0.85 passes both, and 0.7 and 0.8 sit on the passing side. */
  lemma ValidationThresholds()
    ensures var r := ValidatedPayload(Name(Validate), map["score" := JNum(0.65)]);
      r["isValid"] == JBool(false) && r["buildTestPassed"] == JBool(false)
    ensures var r := ValidatedPayload(Name(Validate), map["score" := JNum(0.75)]);
      r["isValid"] == JBool(true) && r["buildTestPassed"] == JBool(false)
    ensures var r := ValidatedPayload(Name(Validate), map["score" := JNum(0.85)]);
      r["isValid"] == JBool(true) && r["buildTestPassed"] == JBool(true)
    ensures ValidatedPayload(Name(Validate), map["score" := JNum(0.7)])["isValid"] == JBool(true)
    ensures ValidatedPayload(Name(Validate), map["score" := JNum(0.8)])["buildTestPassed"] == JBool(true)
  {
  }

  /** Passing the build test implies passing validation; without a numeric score both fail,
      whatever `isValid` the provider sent. */
  lemma BuildTestImpliesValid(data: Object)
    ensures var r := ValidatedPayload(Name(Validate), data);
      (r["buildTestPassed"] == JBool(true) ==> r["isValid"] == JBool(true))
      && (!("score" in data && data["score"].JNum?) ==> r["isValid"] == JBool(false) && r["buildTestPassed"] == JBool(false))
  {
  }

  /** The rewrite keeps the score, so the verdict it writes is the verdict of its own
      output, and rewriting twice is rewriting once. */
  lemma RewriteKeepsScore(data: Object)
    ensures var r := ValidatedPayload(Name(Validate), data);
      && ScoreAtLeast(r, ValidThreshold) == ScoreAtLeast(data, ValidThreshold)
      && ScoreAtLeast(r, BuildTestThreshold) == ScoreAtLeast(data, BuildTestThreshold)
      && Truthy(Field(r, "isValid")) == ScoreAtLeast(r, ValidThreshold)
      && ValidatedPayload(Name(Validate), r) == r
  {
    var r := ValidatedPayload(Name(Validate), data);
    if "score" in data {
      assert r["score"] == data["score"];
    }
    assert "score" in r <==> "score" in data;
    var rr := ValidatedPayload(Name(Validate), r);
    assert rr.Keys == r.Keys;
  }

  /** The version after a stage: the stage's field holds the payload, `stage` is the
      stage just run (not the next one), `isValidated` follows the payload's `isValid`
      on `Build + Validate` only, and nothing else changes. */
  function StageUpdate(v: Version, stage: string, payload: Object): (r: Version)
    ensures r.stage == stage
    ensures r.results.Keys == v.results.Keys + {FieldKey(stage)}
    ensures r.results[FieldKey(stage)] == JObj(payload)
    ensures forall k :: k in v.results && k != FieldKey(stage) ==> r.results[k] == v.results[k]
    ensures stage == Name(Validate) ==> r.isValidated == Truthy(Field(payload, "isValid"))
    ensures stage != Name(Validate) ==> r.isValidated == v.isValidated
    ensures r.(results := v.results, stage := v.stage, isValidated := v.isValidated) == v
  {
    var update := v.(results := v.results[FieldKey(stage) := JObj(payload)], stage := stage);
    if stage == Name(Validate) then update.(isValidated := Truthy(Field(payload, "isValid")))
    else update
  }

  /** The fields `getSchemaForStage` marks as required in the provider's response
      schema; stages without their own schema require nothing. */
  function RequiredFields(stage: string): set<string> {
    if stage == Name(Strategy) then {"niche", "icp", "offer", "valueProp"}
    else if stage == Name(Brand) then {"name", "colors", "fonts"}
    else if stage == Name(Validate) then {"isValid", "score"}
    else {}
  }

  predicate ConformsToSchema(stage: string, data: Object) {
    RequiredFields(stage) <= data.Keys
  }
}
