/** Code repair (`repair_code`): the broken code and the error text go to the
    model; its reply is cleaned exactly like a generated one, and any
    failure hands the broken code back untouched. */
module Repairer {
  import opened Wrappers
  import opened Text
  import opened Parser
  import opened Fences
  import opened FencesLemmas
  import opened Generator

  /** What the repair prompt is built from. */
  datatype RepairRequest = RepairRequest(brokenCode: string, errorMessage: string)

  /** `repair_code`: the cleaned reply, or `brokenCode` itself when the call
      (or reading its reply) raised. */
  function RepairCode(brokenCode: string, errorMessage: string,
                      llm: RepairRequest -> Result<string, CallError>): (code: string)
    ensures llm(RepairRequest(brokenCode, errorMessage)).Failure? ==> code == brokenCode
    ensures llm(RepairRequest(brokenCode, errorMessage)).Success? ==>
              var reply := llm(RepairRequest(brokenCode, errorMessage)).value;
              Trimmed(code) && IsSlice(code, reply) && |code| <= |reply|
  {
    match llm(RepairRequest(brokenCode, errorMessage))
    case Failure(_) => brokenCode
    case Success(reply) => StripFences(reply)
  }

  /** Repair and generation clean the same reply into the same code. */
  lemma {:induction false} RepairCleansLikeGeneration(
    scene: SceneData, gen: GenerationRequest -> Result<string, CallError>,
    brokenCode: string, errorMessage: string, fix: RepairRequest -> Result<string, CallError>)
    requires HasPromptFields(scene) && gen(PromptOf(scene)).Success?
    requires fix(RepairRequest(brokenCode, errorMessage)) == gen(PromptOf(scene))
    ensures GenerateSceneCode(scene, gen) == Success(RepairCode(brokenCode, errorMessage, fix))
  {
  }

  /** A failed repair leaves the code byte for byte as it was, even when it
      is not trimmed. */
  lemma {:induction false} FailedRepairKeepsCode(
    brokenCode: string, errorMessage: string, fix: RepairRequest -> Result<string, CallError>)
    requires fix(RepairRequest(brokenCode, errorMessage)).Failure?
    ensures RepairCode(brokenCode, errorMessage, fix) == brokenCode
    ensures !Trimmed(brokenCode) ==> !Trimmed(RepairCode(brokenCode, errorMessage, fix))
  {
  }

  /** A reply that wraps trimmed code in a "```python" or a bare "```" fence
      is repaired into exactly that code. */
  lemma {:induction false} FencedRepairGivesCode(
    brokenCode: string, errorMessage: string, fix: RepairRequest -> Result<string, CallError>, c: string)
    requires Trimmed(c)
    requires fix(RepairRequest(brokenCode, errorMessage)) == Success(PythonFence + "\n" + c + "\n" + Fence)
             || fix(RepairRequest(brokenCode, errorMessage)) == Success(Fence + "\n" + c + "\n" + Fence)
    ensures RepairCode(brokenCode, errorMessage, fix) == c
  {
    if fix(RepairRequest(brokenCode, errorMessage)) == Success(PythonFence + "\n" + c + "\n" + Fence) {
      PythonFenceRoundTrip(c);
    } else {
      BareFenceRoundTrip(c);
    }
  }

  /** A reply that is already trimmed and carries no fence is the repaired
      code verbatim. */
  lemma {:induction false} CleanRepairKept(
    brokenCode: string, errorMessage: string, fix: RepairRequest -> Result<string, CallError>)
    requires fix(RepairRequest(brokenCode, errorMessage)).Success?
    requires var reply := fix(RepairRequest(brokenCode, errorMessage)).value;
             Trimmed(reply) && !StartsWith(reply, Fence) && !EndsWith(reply, Fence)
    ensures RepairCode(brokenCode, errorMessage, fix) == fix(RepairRequest(brokenCode, errorMessage)).value
  {
    StripOfTrimmed(fix(RepairRequest(brokenCode, errorMessage)).value);
  }
}
