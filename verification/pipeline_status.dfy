/** The progress strip of the pipeline view (components/PipelineStatus.tsx): each of
    the six generating stages is shown complete, active or pending relative to the
    stage stored on the version. The stored stage is a string, so it may name no
    stage at all. */
module PipelineStatus {
  import opened Values
  import opened Stages

  datatype Status = Completed | Active | Pending

  /** `getStatus(stage)` for the version whose stored stage is `current`. For a
      generating stage: active exactly when `current` names it, complete exactly when
      `current` names a stage further along (`Complete` included), pending otherwise. */
  function GetStatus(current: string, stage: Stage): (r: Status)
    ensures stage != Complete ==> (r == Active <==> Parse(current) == Some(stage))
    ensures stage != Complete ==>
      (r == Completed <==> Parse(current).Some? && Rank(Parse(current).value) > Rank(stage))
    ensures stage == Complete ==> r != Pending
  {
    IndexOfName(current);
    IndexOfName(Name(stage));
    ParseName(stage);
    if current == Name(Complete) then Completed
    else if IndexOf(PipelineNames, current) > IndexOf(PipelineNames, Name(stage)) then Completed
    else if IndexOf(PipelineNames, current) == IndexOf(PipelineNames, Name(stage)) then Active
    else Pending
  }

  /** The statuses displayed, one per generating stage, in pipeline order: stage `i` is
      active exactly when `current` names it, and complete exactly when `current` names
      a stage of higher rank. */
  function Row(current: string): (r: seq<Status>)
    ensures |r| == |Pipeline|
    ensures forall i :: 0 <= i < |r| ==> (r[i] == Active <==> Parse(current) == Some(Pipeline[i]))
    ensures forall i :: 0 <= i < |r| ==>
      (r[i] == Completed <==> Parse(current).Some? && Rank(Parse(current).value) > i)
  {
    var r := seq(|Pipeline|, i requires 0 <= i < |Pipeline| => GetStatus(current, Pipeline[i]));
    RanksOfPipeline();
    assert forall i :: 0 <= i < |r| ==> r[i] == GetStatus(current, Pipeline[i]);
    r
  }

  /** Each generating stage sits at its own rank. */
  lemma RanksOfPipeline()
    ensures forall i :: 0 <= i < |Pipeline| ==> Pipeline[i] != Complete && Rank(Pipeline[i]) == i
  {
  }

  /** Once the version is `Complete`, every stage shows complete. */
  lemma CompleteShowsAllComplete()
    ensures forall j :: 0 <= j < |Pipeline| ==> Row(Name(Complete))[j] == Completed
  {
  }

  /** While stage `k` is current: earlier stages are complete, stage `k` is active and
      later stages are pending. */
  lemma CurrentStageRule(k: nat)
    requires k < |Pipeline|
    ensures forall j :: 0 <= j < |Pipeline| ==>
      Row(Name(Pipeline[k]))[j] == (if j < k then Completed else if j == k then Active else Pending)
  {
    var current := Name(Pipeline[k]);
    IndexOfPipelineName(k);
    assert current != Name(Complete) by {
      CompleteNotInPipeline();
      assert PipelineNames[k] == current;
    }
    forall j | 0 <= j < |Pipeline|
      ensures Row(current)[j] == (if j < k then Completed else if j == k then Active else Pending)
    {
      StatusAt(current, j);
    }
  }

  /** While a generating stage is current, exactly one stage is active. */
  lemma ExactlyOneActive(k: nat)
    requires k < |Pipeline|
    ensures Row(Name(Pipeline[k]))[k] == Active
    ensures forall j :: 0 <= j < |Pipeline| && Row(Name(Pipeline[k]))[j] == Active ==> j == k
  {
    CurrentStageRule(k);
  }

  /** A stored stage that is neither a generating stage nor `Complete` (index -1)
      leaves every stage pending. */
  lemma UnknownStageAllPending(current: string)
    requires current !in PipelineNames && current != Name(Complete)
    ensures forall j :: 0 <= j < |Pipeline| ==> Row(current)[j] == Pending
  {
    forall j | 0 <= j < |Pipeline|
      ensures Row(current)[j] == Pending
    {
      IndexOfPipelineName(j);
    }
  }

  /** Status only falls along the pipeline: nothing after a pending stage is complete or
      active, and nothing before a complete stage is active or pending. */
  lemma StatusMonotone(current: string, i: nat, j: nat)
    requires i < j < |Pipeline|
    ensures Row(current)[i] == Pending ==> Row(current)[j] == Pending
    ensures Row(current)[j] == Completed ==> Row(current)[i] == Completed
  {
    StatusAt(current, i);
    StatusAt(current, j);
  }

  /** The status of stage `k` compares the current stage's index with `k`. */
  lemma StatusAt(current: string, k: nat)
    requires k < |Pipeline|
    ensures Row(current)[k] ==
      (if current == Name(Complete) then Completed
       else if IndexOf(PipelineNames, current) > k then Completed
       else if IndexOf(PipelineNames, current) == k then Active
       else Pending)
  {
    IndexOfPipelineName(k);
  }
}
