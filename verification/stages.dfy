/** The pipeline stage enumeration (`PipelineStage` in types.ts) and the fixed
    order in which the six generating stages run. On the wire and in stored
    versions a stage is its display name, a string. */
module Stages {
  import opened Values

  datatype Stage = Strategy | Brand | Structure | Assets | Agent | Validate | Complete

  function Name(s: Stage): string {
    match s
    case Strategy => "Strategy blueprint"
    case Brand => "Brand kit"
    case Structure => "Structure schema"
    case Assets => "Asset generation"
    case Agent => "AI Agent profile"
    case Validate => "Build + Validate"
    case Complete => "Complete"
  }

  /** Reads a stage back from its name; any other string is not a stage. */
  function Parse(n: string): (r: Option<Stage>)
    ensures r.Some? ==> Name(r.value) == n
    ensures r.None? ==> forall s: Stage :: Name(s) != n
  {
    if n == "Strategy blueprint" then Some(Strategy)
    else if n == "Brand kit" then Some(Brand)
    else if n == "Structure schema" then Some(Structure)
    else if n == "Asset generation" then Some(Assets)
    else if n == "AI Agent profile" then Some(Agent)
    else if n == "Build + Validate" then Some(Validate)
    else if n == "Complete" then Some(Complete)
    else None
  }

  /** Names identify stages: parsing a stage's name gives that stage back. */
  lemma ParseName(s: Stage)
    ensures Parse(Name(s)) == Some(s)
  {
  }

  /** The six generating stages in the order they run; `Complete` is not among them. */
  const Pipeline: seq<Stage> := [Strategy, Brand, Structure, Assets, Agent, Validate]

  /** How far along the pipeline a stage is: a generating stage's position in `Pipeline`,
      and `Complete` after all six. */
  function Rank(s: Stage): (r: nat)
    ensures s != Complete ==> r < |Pipeline| && Pipeline[r] == s
    ensures s == Complete ==> r == |Pipeline|
  {
    match s
    case Strategy => 0
    case Brand => 1
    case Structure => 2
    case Assets => 3
    case Agent => 4
    case Validate => 5
    case Complete => 6
  }

  /** The names of the six generating stages, the list the progress strip searches. */
  const PipelineNames: seq<string> :=
    [Name(Strategy), Name(Brand), Name(Structure), Name(Assets), Name(Agent), Name(Validate)]

  /** `xs.indexOf(x)`: the first position holding `x`, or -1. */
  function IndexOf(xs: seq<string>, x: string): (r: int)
    ensures -1 <= r < |xs|
    ensures r == -1 <==> x !in xs
    ensures r >= 0 ==> xs[r] == x && forall j :: 0 <= j < r ==> xs[j] != x
  {
    if |xs| == 0 then -1
    else if xs[0] == x then 0
    else
      var k := IndexOf(xs[1..], x);
      if k == -1 then -1 else k + 1
  }

  /** The position of a generating stage in the pipeline is its index in `Pipeline`. */
  lemma IndexOfPipelineName(k: nat)
    requires k < |Pipeline|
    ensures IndexOf(PipelineNames, Name(Pipeline[k])) == k
  {
    var x := Name(Pipeline[k]);
    forall j | 0 <= j < k
      ensures PipelineNames[j] != x
    {
      assert PipelineNames[j] == Name(Pipeline[j]);
      ParseName(Pipeline[j]);
      ParseName(Pipeline[k]);
    }
    assert PipelineNames[k] == x;
  }

  lemma CompleteNotInPipeline()
    ensures Name(Complete) !in PipelineNames
  {
    forall j | 0 <= j < |Pipeline|
      ensures PipelineNames[j] != Name(Complete)
    {
      ParseName(Pipeline[j]);
    }
  }

  /** `indexOf` on the strip's list finds a generating stage's name at its rank, and
      finds neither `Complete` nor a string naming no stage. */
  lemma IndexOfName(n: string)
    ensures IndexOf(PipelineNames, n) ==
      if Parse(n).Some? && Parse(n).value != Complete then Rank(Parse(n).value) else -1
  {
    if Parse(n).Some? && Parse(n).value != Complete {
      IndexOfPipelineName(Rank(Parse(n).value));
    } else {
      forall j | 0 <= j < |Pipeline|
        ensures PipelineNames[j] != n
      {
        assert PipelineNames[j] == Name(Pipeline[j]);
        ParseName(Pipeline[j]);
      }
    }
  }
}
