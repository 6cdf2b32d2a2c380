/** Properties of fence stripping: it undoes the fences a model typically
    wraps around code, leaves unfenced code alone, and removes at most one
    fence at each end. */
module FencesLemmas {
  import opened Text
  import opened Fences

  lemma {:induction false} NewlinePaddingStripped(c: string)
    requires Trimmed(c)
    ensures Strip("\n" + c + "\n") == c
  {
    assert IsSpace("\n"[0]);
    StripOfPadded("\n", c, "\n");
  }

  lemma {:induction false} BacktickEndsTrimmed(s: string)
    requires s != [] && s[0] == '`' && s[|s| - 1] == '`'
    ensures Strip(s) == s
  {
    StripOfTrimmed(s);
  }

  lemma {:induction false} StripFencesSteps(reply: string)
    ensures StripFences(reply) == Strip(Unfence(Strip(reply)))
  {
  }

  /** Code wrapped in a "```python" fence comes back unchanged. */
  lemma {:induction false} PythonFenceRoundTrip(c: string)
    requires Trimmed(c)
    ensures StripFences(PythonFence + "\n" + c + "\n" + Fence) == c
  {
    var reply := PythonFence + "\n" + c + "\n" + Fence;
    StripFencesSteps(reply);
    BacktickEndsTrimmed(reply);
    UnfencePython(c);
    NewlinePaddingStripped(c);
  }

  lemma {:induction false} UnfencePython(c: string)
    ensures Unfence(PythonFence + "\n" + c + "\n" + Fence) == "\n" + c + "\n"
  {
    var reply := PythonFence + "\n" + c + "\n" + Fence;
    assert reply == PythonFence + ("\n" + c + "\n" + Fence);
    assert StartsWith(reply, PythonFence);
    var c1 := reply[9..];
    assert c1 == "\n" + c + "\n" + Fence;
    assert !StartsWith(c1, Fence) by { assert c1[0] == '\n'; }
    assert c1 == ("\n" + c + "\n") + Fence;
    assert EndsWith(c1, Fence);
  }

  /** Code wrapped in a bare "```" fence comes back unchanged. */
  lemma {:induction false} BareFenceRoundTrip(c: string)
    requires Trimmed(c)
    ensures StripFences(Fence + "\n" + c + "\n" + Fence) == c
  {
    var reply := Fence + "\n" + c + "\n" + Fence;
    StripFencesSteps(reply);
    BareReplyEnds(c);
    BacktickEndsTrimmed(reply);
    UnfenceBare(c);
    NewlinePaddingStripped(c);
  }

  lemma {:induction false} BareReplyEnds(c: string)
    ensures var reply := Fence + "\n" + c + "\n" + Fence;
            reply != [] && reply[0] == '`' && reply[|reply| - 1] == '`'
  {
    var reply := Fence + "\n" + c + "\n" + Fence;
    assert reply == Fence + ("\n" + c + "\n" + Fence);
    assert reply == (Fence + "\n" + c + "\n") + Fence;
  }

  lemma {:induction false} UnfenceBare(c: string)
    ensures Unfence(Fence + "\n" + c + "\n" + Fence) == "\n" + c + "\n"
  {
    var reply := Fence + "\n" + c + "\n" + Fence;
    assert reply == Fence + ("\n" + c + "\n" + Fence);
    assert !StartsWith(reply, PythonFence) by { assert reply[3] == '\n'; }
    assert StartsWith(reply, Fence);
    var c2 := reply[3..];
    assert c2 == ("\n" + c + "\n") + Fence;
    assert EndsWith(c2, Fence);
  }

  /** A reply without fences is only trimmed. */
  lemma {:induction false} UnfencedReplyIsTrimmed(a: string, c: string, b: string)
    requires AllSpace(a) && AllSpace(b) && Trimmed(c)
    requires !StartsWith(c, Fence) && !EndsWith(c, Fence)
    ensures StripFences(a + c + b) == c
  {
    StripOfPadded(a, c, b);
  }

  lemma {:induction false} TrimmedWithTail(p: string, c: string)
    requires p != [] && !IsSpace(p[0]) && c != [] && Trimmed(c)
    ensures Strip(p + c) == p + c
  {
    assert (p + c)[|p + c| - 1] == c[|c| - 1];
    StripOfTrimmed(p + c);
  }

  lemma {:induction false} UnfenceDoubled(c: string)
    requires c != [] && c[|c| - 1] != '`'
    ensures Unfence(Fence + Fence + c) == Fence + c
  {
    var r := Fence + Fence + c;
    assert !StartsWith(r, PythonFence) by { assert r[3] != PythonFence[3]; }
    assert r[3..] == Fence + c;
    assert !EndsWith(Fence + c, Fence) by { assert (Fence + c)[|Fence + c| - 1] == c[|c| - 1]; }
  }

  /** Only one leading fence is removed: a doubled fence leaves one behind. */
  lemma {:induction false} DoubledFenceKeepsOne(c: string)
    requires c != [] && Trimmed(c) && c[|c| - 1] != '`'
    ensures StripFences(Fence + Fence + c) == Fence + c
  {
    StripFencesSteps(Fence + Fence + c);
    TrimmedWithTail(Fence + Fence, c);
    assert Fence + Fence + c == (Fence + Fence) + c;
    UnfenceDoubled(c);
    TrimmedWithTail(Fence, c);
  }

  lemma {:induction false} UnfencePythonTwice(c: string)
    requires c != [] && c[|c| - 1] != '`'
    ensures Unfence(PythonFence + PythonFence + c) == "python" + c
  {
    var r := PythonFence + (PythonFence + c);
    assert r == PythonFence + PythonFence + c;
    var c1 := PythonFence + c;
    assert r[..9] == PythonFence && r[9..] == c1;
    assert c1 == Fence + ("python" + c);
    assert c1[..3] == Fence && c1[3..] == "python" + c;
    var c2 := "python" + c;
    assert !EndsWith(c2, Fence) by { assert c2[|c2| - 1] == c[|c| - 1]; }
  }

  /** "```python" is tried before "```": a second "```python" loses only its backticks. */
  lemma {:induction false} PythonFenceTriedFirst(c: string)
    requires c != [] && Trimmed(c) && c[|c| - 1] != '`'
    ensures StripFences(PythonFence + PythonFence + c) == "python" + c
  {
    StripFencesSteps(PythonFence + PythonFence + c);
    TrimmedWithTail(PythonFence + PythonFence, c);
    UnfencePythonTwice(c);
    TrimmedWithTail("python", c);
  }
}
