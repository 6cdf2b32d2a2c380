/** Clean-up of a code reply from the language model: a Markdown code fence
    that the model added despite being told not to is removed. Both the
    generator and the repairer apply exactly this function. */
module Fences {
  import opened Text

  const PythonFence: string := "```python"
  const Fence: string := "```"

  lemma {:induction false} PythonFenceIsFence(s: string)
    ensures StartsWith(s, PythonFence) ==> StartsWith(s, Fence)
  {
    if StartsWith(s, PythonFence) {
      assert s[..3] == s[..9][..3];
    }
  }

  /** Drop one leading "```python", then one leading "```", then one trailing "```". */
  function Unfence(c0: string): (c3: string)
    ensures IsSlice(c3, c0)
    ensures !StartsWith(c0, Fence) && !EndsWith(c0, Fence) ==> c3 == c0
  {
    var c1 := if StartsWith(c0, PythonFence) then c0[9..] else c0;
    var c2 := if StartsWith(c1, Fence) then c1[3..] else c1;
    var c3 := if EndsWith(c2, Fence) then c2[..|c2| - 3] else c2;
    assert c3 == c0[|c0| - |c2|..|c0| - |c2| + |c3|];
    PythonFenceIsFence(c0);
    c3
  }

  /** Trim; drop one leading "```python"; then drop one leading "```"; then
      drop one trailing "```"; trim again. */
  function StripFences(reply: string): (code: string)
    ensures Trimmed(code)
    ensures IsSlice(code, reply)
    ensures !StartsWith(Strip(reply), Fence) && !EndsWith(Strip(reply), Fence) ==> code == Strip(reply)
  {
    var c0 := Strip(reply);
    var c3 := Unfence(c0);
    SliceTrans(c3, c0, reply);
    SliceTrans(Strip(c3), c3, reply);
    StripOfTrimmed(c0);
    Strip(c3)
  }
}
