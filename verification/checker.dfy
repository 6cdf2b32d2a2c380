/** Code review (`check_code`): the visual instruction and the code go to a
    critic model asked for a JSON object `{"passed", "feedback"}`. The call
    and `json.loads` are one parameter returning the decoded value or the
    exception; the interpretation of that value is modelled exactly. */
module Checker {
  import opened Wrappers
  import opened Parser
  import opened Generator

  /** A decoded JSON value; objects are dicts from keys to values. */
  datatype JsonValue =
    | JNull
    | JBool(b: bool)
    | JNumber(n: real)
    | JString(s: string)
    | JArray(items: seq<JsonValue>)
    | JObject(fields: map<string, JsonValue>)

  /** What the critic's prompt is built from. */
  datatype CheckRequest = CheckRequest(visual: string, code: string)

  /** The pair `(passed, feedback)` as returned: whatever the reply held under
      those keys, which need not be a boolean and a string. */
  datatype Verdict = Verdict(passed: JsonValue, feedback: JsonValue)

  /** `KeyError` raised by the prompt's own lookup, outside the `try`. */
  datatype CheckError = MissingVisual

  /** The result of any exception inside the `try`: assume the code passes. */
  const FailOpen: Verdict := Verdict(JBool(true), JString(""))

  /** `dict.get(key, default)`. */
  function Get(fields: map<string, JsonValue>, key: string, default: JsonValue): (v: JsonValue)
    ensures key in fields ==> v == fields[key]
    ensures key !in fields ==> v == default
  {
    if key in fields then fields[key] else default
  }

  /** `check_code`: without a visual instruction the lookup raises before the
      call; a failed call or decode, or a decoded value without `.get` (any
      non-object), gives `FailOpen`; an object gives its two entries, with
      `False` and `""` standing in for absent ones. */
  function CheckCode(code: string, scene: SceneData, judge: CheckRequest -> Result<JsonValue, CallError>)
    : (r: Result<Verdict, CheckError>)
    ensures "visual_instruction" !in scene <==> r == Failure(MissingVisual)
    ensures ("visual_instruction" in scene && !judge(CheckRequest(scene["visual_instruction"], code)).Success?)
              ==> r == Success(FailOpen)
    ensures ("visual_instruction" in scene && judge(CheckRequest(scene["visual_instruction"], code)).Success?
             && !judge(CheckRequest(scene["visual_instruction"], code)).value.JObject?)
              ==> r == Success(FailOpen)
    ensures r.Success? && r.value != FailOpen ==>
              judge(CheckRequest(scene["visual_instruction"], code)).Success? &&
              judge(CheckRequest(scene["visual_instruction"], code)).value.JObject?
  {
    if "visual_instruction" !in scene then Failure(MissingVisual)
    else
      match judge(CheckRequest(scene["visual_instruction"], code))
      case Failure(_) => Success(FailOpen)
      case Success(reply) =>
        if reply.JObject? then
          Success(Verdict(Get(reply.fields, "passed", JBool(false)), Get(reply.fields, "feedback", JString(""))))
        else Success(FailOpen)
  }

  /** The verdict a reply decodes to, given a visual instruction. */
  function VerdictOf(scene: SceneData, code: string, judge: CheckRequest -> Result<JsonValue, CallError>)
    : (v: Verdict)
    requires "visual_instruction" in scene
    ensures CheckCode(code, scene, judge) == Success(v)
  {
    CheckCode(code, scene, judge).value
  }

  /** A reply that answers as asked is passed through unchanged. */
  lemma {:induction false} WellFormedReplyKept(code: string, scene: SceneData,
                                               judge: CheckRequest -> Result<JsonValue, CallError>,
                                               passed: bool, feedback: string)
    requires "visual_instruction" in scene
    requires judge(CheckRequest(scene["visual_instruction"], code))
             == Success(JObject(map["passed" := JBool(passed), "feedback" := JString(feedback)]))
    ensures CheckCode(code, scene, judge) == Success(Verdict(JBool(passed), JString(feedback)))
  {
  }

  /** An object without `"passed"` never passes the code; one without
      `"feedback"` gives empty feedback; other keys are ignored. */
  lemma {:induction false} AbsentKeysDefault(code: string, scene: SceneData,
                                             judge: CheckRequest -> Result<JsonValue, CallError>,
                                             fields: map<string, JsonValue>)
    requires "visual_instruction" in scene
    requires judge(CheckRequest(scene["visual_instruction"], code)) == Success(JObject(fields))
    ensures "passed" !in fields ==> VerdictOf(scene, code, judge).passed == JBool(false)
    ensures "feedback" !in fields ==> VerdictOf(scene, code, judge).feedback == JString("")
    ensures "passed" in fields ==> VerdictOf(scene, code, judge).passed == fields["passed"]
    ensures "feedback" in fields ==> VerdictOf(scene, code, judge).feedback == fields["feedback"]
  {
  }

  /** Code is rejected only by a decoded object that says so: a verdict whose
      `passed` is not `True` comes from an object reply. */
  lemma {:induction false} RejectionNeedsObject(code: string, scene: SceneData,
                                                judge: CheckRequest -> Result<JsonValue, CallError>)
    requires "visual_instruction" in scene
    requires VerdictOf(scene, code, judge).passed != JBool(true)
    ensures judge(CheckRequest(scene["visual_instruction"], code)).Success?
    ensures judge(CheckRequest(scene["visual_instruction"], code)).value.JObject?
  {
  }

  /** The lookup outside the `try` is the only way a parsed scene could fail
      the review, and a parsed scene always has the field. */
  lemma {:induction false} ParsedSceneIsReviewed(sc: Scene, code: string, judge: CheckRequest -> Result<JsonValue, CallError>)
    ensures CheckCode(code, AsDict(sc), judge).Success?
    ensures judge(CheckRequest(sc.visual, code)).Failure? ==> CheckCode(code, AsDict(sc), judge) == Success(FailOpen)
  {
  }
}
