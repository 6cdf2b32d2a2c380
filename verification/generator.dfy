/** Scene code generation (`generate_scene_code`): the reading-time estimate
    that goes into the prompt, the lookups of the scene dict, and the
    post-processing of the model's reply. The chat-completion service is a
    function parameter from the request to its reply or its error. */
module Generator {
  import opened Wrappers
  import opened Text
  import opened Parser
  import opened Fences
  import opened FencesLemmas

  /** Whatever the remote call raised (network, authentication, quota, ...). */
  datatype CallError = CallError(message: string)

  /** What the prompt is built from: the three scene fields and the
      estimated duration in seconds. */
  datatype GenerationRequest = GenerationRequest(
    sceneName: string, narrative: string, visual: string, duration: real)

  /** `KeyError` on a missing scene field, or the call's own exception. */
  datatype GenerationError = MissingKey(key: string) | CallFailed(cause: CallError)

  /** `max(2.0, word_count / 2.5)`: reading time at 2.5 words a second, at
      least two seconds. */
  function EstimatedDuration(wordCount: nat): (d: real)
    ensures d >= 2.0
    ensures d >= wordCount as real / 2.5
    ensures d == 2.0 || d == wordCount as real / 2.5
  {
    var perWords := wordCount as real / 2.5;
    if 2.0 >= perWords then 2.0 else perWords
  }

  /** The estimate for a scene dict; a missing narrative reads as `""`. */
  function NarrativeDuration(scene: SceneData): (d: real)
    ensures d >= 2.0
  {
    var narrative := if "narrative" in scene then scene["narrative"] else "";
    EstimatedDuration(|Words(narrative)|)
  }

  /** The scene dict holds the three fields the prompt reads. */
  predicate HasPromptFields(scene: SceneData) {
    "scene_name" in scene && "narrative" in scene && "visual_instruction" in scene
  }

  /** The request the prompt is built from. */
  function PromptOf(scene: SceneData): (req: GenerationRequest)
    requires HasPromptFields(scene)
    ensures req.sceneName == scene["scene_name"] && req.narrative == scene["narrative"]
    ensures req.visual == scene["visual_instruction"]
    ensures req.duration >= 2.0
  {
    GenerationRequest(scene["scene_name"], scene["narrative"], scene["visual_instruction"],
                      NarrativeDuration(scene))
  }

  /** `generate_scene_code`: a missing field raises `KeyError` (fields are read
      in the order name, narrative, visual instruction) before anything is
      sent; a failing call propagates; a reply is cleaned of fences. */
  function GenerateSceneCode(scene: SceneData, llm: GenerationRequest -> Result<string, CallError>)
    : (r: Result<string, GenerationError>)
    ensures "scene_name" !in scene ==> r == Failure(MissingKey("scene_name"))
    ensures "scene_name" in scene && "narrative" !in scene ==> r == Failure(MissingKey("narrative"))
    ensures ("scene_name" in scene && "narrative" in scene && "visual_instruction" !in scene)
              ==> r == Failure(MissingKey("visual_instruction"))
    ensures (HasPromptFields(scene) && llm(PromptOf(scene)).Failure?)
              ==> r == Failure(CallFailed(llm(PromptOf(scene)).error))
    ensures r.Success? ==> HasPromptFields(scene) && llm(PromptOf(scene)).Success?
    ensures r.Success? ==> Trimmed(r.value) && |r.value| <= |llm(PromptOf(scene)).value|
  {
    if "scene_name" !in scene then Failure(MissingKey("scene_name"))
    else if "narrative" !in scene then Failure(MissingKey("narrative"))
    else if "visual_instruction" !in scene then Failure(MissingKey("visual_instruction"))
    else
      match llm(PromptOf(scene))
      case Failure(e) => Failure(CallFailed(e))
      case Success(reply) => Success(StripFences(reply))
  }

  /** Past five words the estimate is the reading time itself. */
  lemma {:induction false} DurationOfLongNarrative(wordCount: nat)
    requires wordCount >= 5
    ensures EstimatedDuration(wordCount) == wordCount as real / 2.5
  {
  }

  /** Up to five words the estimate is the two-second floor. */
  lemma {:induction false} DurationOfShortNarrative(wordCount: nat)
    requires wordCount <= 5
    ensures EstimatedDuration(wordCount) == 2.0
  {
  }

  /** More words never shorten the estimate. */
  lemma {:induction false} DurationMonotone(a: nat, b: nat)
    requires a <= b
    ensures EstimatedDuration(a) <= EstimatedDuration(b)
  {
  }

  /** A narrative of whitespace only, and in particular an empty one, counts
      no words. */
  lemma {:induction false} BlankHasNoWords(s: string)
    requires AllSpace(s)
    ensures Words(s) == []
  {
    LStripOfSpacePrefix(s, []);
    assert s + [] == s;
  }

  /** A missing, empty or blank narrative gets exactly two seconds. */
  lemma {:induction false} BlankNarrativeDuration(scene: SceneData)
    requires "narrative" in scene ==> AllSpace(scene["narrative"])
    ensures NarrativeDuration(scene) == 2.0
  {
    var narrative := if "narrative" in scene then scene["narrative"] else "";
    BlankHasNoWords(narrative);
  }

  /** A well-formed scene and a reply that is already clean code: the code is
      the reply, unchanged. */
  lemma {:induction false} CleanReplyKept(scene: SceneData, llm: GenerationRequest -> Result<string, CallError>)
    requires HasPromptFields(scene) && llm(PromptOf(scene)).Success?
    requires Trimmed(llm(PromptOf(scene)).value)
    requires !StartsWith(llm(PromptOf(scene)).value, Fence) && !EndsWith(llm(PromptOf(scene)).value, Fence)
    ensures GenerateSceneCode(scene, llm) == Success(llm(PromptOf(scene)).value)
  {
    StripOfTrimmed(llm(PromptOf(scene)).value);
  }

  /** A reply that wraps trimmed code in a "```python" or a bare "```" fence
      gives back exactly that code. */
  lemma {:induction false} FencedReplyGivesCode(scene: SceneData, llm: GenerationRequest -> Result<string, CallError>,
                                                c: string)
    requires HasPromptFields(scene) && Trimmed(c)
    requires llm(PromptOf(scene)) == Success(PythonFence + "\n" + c + "\n" + Fence)
             || llm(PromptOf(scene)) == Success(Fence + "\n" + c + "\n" + Fence)
    ensures GenerateSceneCode(scene, llm) == Success(c)
  {
    if llm(PromptOf(scene)) == Success(PythonFence + "\n" + c + "\n" + Fence) {
      PythonFenceRoundTrip(c);
    } else {
      BareFenceRoundTrip(c);
    }
  }

  /** The code of a parsed scene: every field is there, so only the call can
      fail. */
  lemma {:induction false} ParsedSceneReachesCall(sc: Scene, llm: GenerationRequest -> Result<string, CallError>)
    ensures HasPromptFields(AsDict(sc))
    ensures PromptOf(AsDict(sc)) == GenerationRequest(sc.name, sc.narrative, sc.visual,
                                                      EstimatedDuration(|Words(sc.narrative)|))
    ensures GenerateSceneCode(AsDict(sc), llm).Failure? ==> llm(PromptOf(AsDict(sc))).Failure?
  {
  }
}
