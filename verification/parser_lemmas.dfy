/** Properties of the scene-document parser. */
module ParserLemmas {
  import opened Wrappers
  import opened Text
  import opened Parser

  // ---------------------------------------------------------------------------
  // headers and chunks

  lemma {:induction false} NoHashNoHeader(t: string)
    requires t != [] && t[0] != '#'
    ensures MatchHeader(t).None?
  {
    assert !At(t, 0, SceneMarker) by {
      if 9 <= |t| { assert t[..9][0] == t[0]; }
    }
  }

  /** No `## Scene:` begins within the first `n` characters of `s`. */
  predicate NoMarkerBefore(s: string, n: nat) {
    forall i :: 0 <= i < n ==> !At(s, i, SceneMarker)
  }

  lemma {:induction false} AtOfTail(s: string, i: nat, p: string)
    requires s != []
    ensures At(s[1..], i, p) <==> At(s, i + 1, p)
  {
    if i + 1 + |p| <= |s| {
      assert s[1..][i..i + |p|] == s[i + 1..i + 1 + |p|];
    }
  }

  /** A marker begins with `"# "` preceded by `'#'`. */
  lemma {:induction false} MarkerStart(s: string, i: nat)
    ensures At(s, i, SceneMarker) ==> i + 2 < |s| && s[i] == '#' && s[i + 1] == '#' && s[i + 2] == ' '
  {
    if At(s, i, SceneMarker) {
      var m := s[i..i + 9];
      assert m[0] == s[i] && m[1] == s[i + 1] && m[2] == s[i + 2];
    }
  }

  /** Text in which no marker begins adds no scene before what follows. */
  lemma {:induction false} SplitSkipsMarkerFree(pre: string, t: string)
    requires NoMarkerBefore(pre + t, |pre|)
    ensures Split(pre + t) == Split(t)
  {
    if pre == [] {
      assert pre + t == t;
    } else {
      var s := pre + t;
      ConsParts(pre, t);
      assert !At(s, 0, SceneMarker);
      forall i | 0 <= i < |pre[1..]| ensures !At(pre[1..] + t, i, SceneMarker) {
        AtOfTail(s, i, SceneMarker);
        assert !At(s, i + 1, SceneMarker);
      }
      SplitSkipsMarkerFree(pre[1..], t);
    }
  }

  /** A marker starts with `'#'`, so hash-free text holds none. */
  lemma {:induction false} HashFreeNoMarker(pre: string, t: string)
    requires '#' !in pre
    ensures NoMarkerBefore(pre + t, |pre|)
  {
    forall i | 0 <= i < |pre| ensures !At(pre + t, i, SceneMarker) {
      MarkerStart(pre + t, i);
      assert (pre + t)[i] == pre[i];
    }
  }

  lemma {:induction false} SplitSkipsHashFree(pre: string, t: string)
    requires '#' !in pre
    ensures Split(pre + t) == Split(t)
  {
    HashFreeNoMarker(pre, t);
    SplitSkipsMarkerFree(pre, t);
  }

  /** Whatever comes before the first marker, `# Title` lines included,
      contributes no scene. */
  lemma {:induction false} PreambleIgnored(pre: string, doc: string)
    requires NoMarkerBefore(pre + doc, |pre|)
    ensures ParseContent(pre + doc) == ParseContent(doc)
  {
    SplitSkipsMarkerFree(pre, doc);
  }

  /** A Markdown title line before the scenes is discarded. */
  lemma {:induction false} TitleIgnored(title: string, doc: string)
    requires '#' !in title
    ensures ParseContent("# " + title + "\n" + doc) == ParseContent(doc)
  {
    var pre := "# " + title + "\n";
    assert pre + doc == "# " + title + "\n" + doc;
    forall i | 0 <= i < |pre| ensures !At(pre + doc, i, SceneMarker) {
      MarkerStart(pre + doc, i);
      if i <= 1 {
        assert (pre + doc)[1] == ' ';
      } else if i < |pre| - 1 {
        assert (pre + doc)[i] == pre[i] == title[i - 2];
      } else {
        assert (pre + doc)[i] == '\n';
      }
    }
    PreambleIgnored(pre, doc);
  }

  /** The preamble stops at the first offset where a header matches: none
      matches before it, and one matches there unless the text ran out. */
  lemma {:induction false} PreambleStopsAtHeader(t: string)
    ensures forall i :: 0 <= i < |Preamble(t)| ==> MatchHeader(t[i..]).None?
    ensures |Preamble(t)| < |t| ==> MatchHeader(t[|Preamble(t)|..]).Some?
    decreases |t|
  {
    if t != [] && MatchHeader(t).None? {
      var p := Preamble(t);
      PreambleStopsAtHeader(t[1..]);
      assert p == [t[0]] + Preamble(t[1..]);
      forall i | 0 <= i < |p| ensures MatchHeader(t[i..]).None? {
        if i > 0 {
          assert t[1..][i - 1..] == t[i..];
        } else {
          assert t[0..] == t;
        }
      }
      if |p| < |t| {
        assert t[1..][|p| - 1..] == t[|p|..];
      }
    } else if t != [] {
      assert t[0..] == t;
    }
  }

  /** A chunk runs up to the next header. */
  lemma {:induction false} PreambleUpToHeader(body: string, rest: string)
    requires '#' !in body
    requires rest == [] || MatchHeader(rest).Some?
    ensures Preamble(body + rest) == body
  {
    if body == [] {
      assert body + rest == rest;
    } else {
      var s := body + rest;
      ConsParts(body, rest);
      NoHashNoHeader(s);
      PreambleUpToHeader(body[1..], rest);
    }
  }

  lemma {:induction false} ConsParts(a: string, b: string)
    requires a != []
    ensures (a + b)[0] == a[0] && (a + b)[1..] == a[1..] + b && a == [a[0]] + a[1..]
  {
  }

  lemma {:induction false} LineEndAt(s: string, i: nat, j: nat)
    requires i <= j < |s| && s[j] == '\n'
    requires forall q :: i <= q < j ==> s[q] != '\n'
    ensures LineEnd(s, i) == j
    decreases j - i
  {
    if i < j {
      LineEndAt(s, i + 1, j);
    }
  }

  lemma {:induction false} LineEndSkipsNonNewline(s: string, i: nat, k: nat)
    requires i <= k <= |s|
    requires forall q :: i <= q < k ==> s[q] != '\n'
    ensures LineEnd(s, i) == LineEnd(s, k)
    decreases k - i
  {
    if i < k {
      LineEndSkipsNonNewline(s, i + 1, k);
    }
  }

  /** When the header's own line has text after the marker, the scene name is
      that rest of the line, stripped. */
  lemma {:induction false} HeaderNameIsRestOfLine(t: string)
    requires At(t, 0, SceneMarker)
    requires SkipSpace(t, 9) < LineEnd(t, 9)
    ensures MatchHeader(t) == Some(Header(SkipSpace(t, 9), LineEnd(t, 9)))
    ensures Strip(t[SkipSpace(t, 9)..LineEnd(t, 9)]) == Strip(t[9..LineEnd(t, 9)])
  {
    var k, e := SkipSpace(t, 9), LineEnd(t, 9);
    assert forall q :: 9 <= q < k ==> t[q] != '\n' by {
      assert forall q :: 9 <= q < e ==> t[q] == t[9..e][q - 9];
    }
    LineEndSkipsNonNewline(t, 9, k);
    assert t[9..e] == t[9..k] + t[k..e];
    StripIgnoresLeadingSpace(t[9..k], t[k..e]);
  }

  /** A header line with nothing after the marker takes its name from the next
      line that has text: `\s*` crosses newlines. */
  lemma {:induction false} HeaderNameOnNextLine(name: string, rest: string)
    requires name != [] && !IsSpace(name[0]) && '\n' !in name
    requires rest == [] || rest[0] == '\n'
    ensures MatchHeader(SceneMarker + "\n" + name + rest) == Some(Header(10, 10 + |name|))
  {
    var t := SceneMarker + "\n" + name + rest;
    assert t[..9] == SceneMarker;
    assert t[9] == '\n' && t[10] == name[0];
    assert SkipSpace(t, 9) == 10;
    if rest == [] {
      assert |t| == 10 + |name|;
      LineEndSkipsNonNewline(t, 10, 10 + |name|);
    } else {
      LineEndAt(t, 10, 10 + |name|);
    }
  }

  /** Without any `## Scene:` occurrence there are no scenes. */
  lemma {:induction false} NoMarkerNoScenes(t: string)
    requires forall i :: 0 <= i <= |t| ==> !At(t, i, SceneMarker)
    ensures Split(t) == []
  {
    if t != [] {
      assert !At(t, 0, SceneMarker);
      forall i | 0 <= i <= |t[1..]| ensures !At(t[1..], i, SceneMarker) {
        assert !At(t, i + 1, SceneMarker);
        if i + 9 <= |t[1..]| {
          assert t[1..][i..i + 9] == t[i + 1..i + 1 + 9];
        }
      }
      NoMarkerNoScenes(t[1..]);
    }
  }

  /** Header matching is case sensitive: a document with no capital `S`
      (so `## scene:` headers at most) has no scenes. */
  lemma {:induction false} HeaderIsCaseSensitive(t: string)
    requires 'S' !in t
    ensures ParseContent(t) == []
  {
    forall i | 0 <= i <= |t| ensures !At(t, i, SceneMarker) {
      if i + 9 <= |t| {
        assert t[i..i + 9][3] == t[i + 3] != SceneMarker[3];
      }
    }
    NoMarkerNoScenes(t);
  }

  // ---------------------------------------------------------------------------
  // fields

  lemma {:induction false} FindCISkipsSpace(s: string, i: nat, k: nat, p: string)
    requires i <= k <= |s| && AllSpace(s[i..k])
    requires p != [] && p[0] == '*'
    ensures FindCI(s, i, p) == FindCI(s, k, p)
    decreases k - i
  {
    if i < k {
      assert s[i..k][0] == s[i];
      assert !AtCI(s, i, p) by { assert LowerChar(s[i + 0]) != p[0]; }
      assert s[i + 1..k] == s[i..k][1..];
      FindCISkipsSpace(s, i + 1, k, p);
    }
  }

  /** The narrative is the text from its label up to the first `**Visual`
      (any case, possibly the start of a longer word) or the end of the
      chunk, stripped. */
  lemma {:induction false} NarrativeIsTextBeforeVisual(chunk: string, e: nat)
    requires FieldStart(chunk, "narrative") == Some(e)
    ensures e <= FindCI(chunk, e, "**visual")
    ensures Narrative(chunk) == Strip(chunk[e..FindCI(chunk, e, "**visual")])
  {
    var k := SkipSpace(chunk, e);
    FindCISkipsSpace(chunk, e, k, "**visual");
    StripOfSliceAfterSpace(chunk, e, k, FindCI(chunk, k, "**visual"));
  }

  lemma {:induction false} VisualEndLeavesSpace(chunk: string, k: nat)
    requires k <= |chunk|
    ensures AllSpace(chunk[VisualEnd(chunk, k)..])
  {
    var f := VisualEnd(chunk, k);
    if f < |chunk| {
      assert chunk[f..] == [chunk[f]];
    }
  }

  /** The visual instruction is everything after its label, stripped. */
  lemma {:induction false} VisualIsRestOfChunk(chunk: string, e: nat)
    requires FieldStart(chunk, "visual") == Some(e)
    ensures Visual(chunk) == Strip(chunk[e..])
  {
    var k := SkipSpace(chunk, e);
    var f := VisualEnd(chunk, k);
    VisualEndLeavesSpace(chunk, k);
    StripOfPaddedTail(chunk, e, k, f);
  }

  lemma {:induction false} NoStarNoLabel(s: string, word: string)
    requires '*' !in s
    ensures FindLabel(s, 0, word).None?
  {
    forall q | 0 <= q <= |s| ensures LabelEnd(s, q, word).None? {
      if q < |s| {
        assert LowerChar(s[q + 0]) != ("**" + word)[0];
      }
    }
  }

  /** A field whose label is missing is `""`, whether or not the other
      field's label is there. */
  lemma {:induction false} MissingFieldsAreEmpty(chunk: string)
    ensures (forall q :: 0 <= q <= |chunk| ==> LabelEnd(chunk, q, "narrative").None?) ==> Narrative(chunk) == ""
    ensures (forall q :: 0 <= q <= |chunk| ==> LabelEnd(chunk, q, "visual").None?) ==> Visual(chunk) == ""
  {
    NoLabelNoField(chunk, "narrative");
    NoLabelNoField(chunk, "visual");
  }

  lemma {:induction false} NoLabelNoField(chunk: string, word: string)
    ensures (forall q :: 0 <= q <= |chunk| ==> LabelEnd(chunk, q, word).None?) ==> FieldStart(chunk, word).None?
  {
  }

  /** A chunk without any `*` gets `""` for both fields. */
  lemma {:induction false} StarFreeChunkIsEmpty(chunk: string)
    requires '*' !in chunk
    ensures Narrative(chunk) == "" && Visual(chunk) == ""
  {
    NoStarNoLabel(chunk, "narrative");
    NoStarNoLabel(chunk, "visual");
  }

  // ---------------------------------------------------------------------------
  // round trip: a document written in the expected layout parses back

  const NarrativeLabel: string := "**Narrative"
  const VisualLabel: string := "**Visual"
  const LabelClose: string := ":**"

  /** `"\n**Narrative:** "`: the line holding the narrative starts with its label. */
  const NarrativeHead: string := "\n" + NarrativeLabel + LabelClose + " "

  /** `"\n**Visual:** "`. */
  const VisualHead: string := "\n" + VisualLabel + LabelClose + " "

  /** The text of one scene after its header line. */
  function Body(sc: Scene): string {
    NarrativeHead + sc.narrative + VisualHead + sc.visual + "\n"
  }

  function SceneText(sc: Scene): string {
    SceneMarker + " " + sc.name + Body(sc)
  }

  /** A document listing `scenes` in order. */
  function Document(scenes: seq<Scene>): string
  {
    if scenes == [] then [] else SceneText(scenes[0]) + Document(scenes[1..])
  }

  /** A scene that survives being written out and parsed back. */
  predicate Writable(sc: Scene) {
    && sc.name != [] && '\n' !in sc.name && Trimmed(sc.name)
    && Trimmed(sc.narrative) && '*' !in sc.narrative && '#' !in sc.narrative
    && Trimmed(sc.visual) && '#' !in sc.visual
  }

  lemma {:induction false} FindCIAt(s: string, i: nat, j: nat, p: string)
    requires i <= j < |s| && AtCI(s, j, p)
    requires forall q :: i <= q < j ==> !AtCI(s, q, p)
    ensures FindCI(s, i, p) == j
    decreases j - i
  {
    if i < j {
      FindCIAt(s, i + 1, j, p);
    }
  }

  lemma {:induction false} FindLabelAt(s: string, i: nat, j: nat, word: string)
    requires i <= j <= |s| && LabelEnd(s, j, word).Some?
    requires forall q :: i <= q < j ==> LabelEnd(s, q, word).None?
    ensures FindLabel(s, i, word) == Some(j)
    decreases j - i
  {
    if i < j {
      assert LabelEnd(s, i, word).None?;
      FindLabelAt(s, i + 1, j, word);
      assert FindLabel(s, i, word) == FindLabel(s, i + 1, word);
    }
  }

  lemma {:induction false} NoVisualMarkInNarrativeHead(s: string)
    requires At(s, 0, NarrativeHead)
    ensures forall q :: 0 <= q < |NarrativeHead| ==> !AtCI(s, q, "**visual")
  {
    var p := "**visual";
    assert forall j :: 0 <= j < 16 ==> s[j] == NarrativeHead[j] by {
      assert s[..16] == NarrativeHead;
    }
    forall q | 0 <= q < 16 ensures !AtCI(s, q, p) {
      assert q + 8 > |s| || LowerChar(s[q + 0]) != p[0] || LowerChar(s[q + 1]) != p[1]
        || LowerChar(s[q + 2]) != p[2];
    }
  }

  lemma {:induction false} NotAtCIHere(s: string, q: nat, p: string)
    requires q < |s| && p != [] && s[q] != p[0] && (p[0] == '*' || p[0] == '\n')
    ensures !AtCI(s, q, p)
  {
    assert LowerChar(s[q + 0]) != p[0];
  }

  /** Where the parts of a scene body sit. */
  predicate Layout(b: string, n: string, v: string) {
    && |b| == 30 + |n| + |v|
    && At(b, 0, NarrativeHead)
    && b[16..16 + |n|] == n
    && At(b, 16 + |n|, VisualHead)
    && b[29 + |n|..] == v + "\n"
  }

  lemma {:induction false} BodyLayout(sc: Scene)
    ensures Layout(Body(sc), sc.narrative, sc.visual)
  {
    var b, n, v := Body(sc), sc.narrative, sc.visual;
    assert b == NarrativeHead + (n + (VisualHead + (v + "\n")));
    assert b[..16] == NarrativeHead;
    assert b[16..] == n + (VisualHead + (v + "\n"));
    assert b[16 + |n|..] == VisualHead + (v + "\n");
  }

  /** `q` is `p` in lower case. */
  predicate FoldsTo(p: string, q: string) {
    |p| == |q| && forall j :: 0 <= j < |p| ==> LowerChar(p[j]) == q[j]
  }

  lemma NarrativeLabelFolds()
    ensures FoldsTo(NarrativeLabel, "**" + "narrative")
  {
  }

  lemma VisualLabelFolds()
    ensures FoldsTo(VisualLabel, "**" + "visual") && "**" + "visual" == "**visual"
  {
  }

  lemma {:induction false} AtCIOfFold(s: string, i: nat, p: string, q: string)
    requires At(s, i, p) && FoldsTo(p, q)
    ensures AtCI(s, i, q)
  {
    forall j | 0 <= j < |q|
      ensures LowerChar(s[i + j]) == q[j]
    {
      assert s[i + j] == s[i..i + |p|][j];
    }
  }

  lemma {:induction false} AtParts(s: string, i: nat, a: string, b: string)
    requires At(s, i, a + b)
    ensures At(s, i, a) && At(s, i + |a|, b)
  {
    assert s[i..i + |a|] == s[i..i + |a + b|][..|a|];
    assert s[i + |a|..i + |a| + |b|] == s[i..i + |a + b|][|a|..];
  }

  lemma {:induction false} HeadParts(s: string, i: nat, tag: string)
    requires At(s, i, "\n" + tag + LabelClose + " ")
    ensures s[i] == '\n' && At(s, i + 1, tag) && At(s, i + 1 + |tag|, LabelClose)
  {
    AtParts(s, i, "\n" + tag + LabelClose, " ");
    AtParts(s, i, "\n" + tag, LabelClose);
    AtParts(s, i, "\n", tag);
    assert s[i] == s[i..i + 1][0];
  }

  lemma {:induction false} NarrativeLabelAtHead(b: string)
    requires At(b, 0, NarrativeHead)
    ensures FieldStart(b, "narrative") == Some(15)
  {
    NarrativeLabelEnds(b);
    FindLabelAt(b, 0, 1, "narrative");
  }

  lemma {:induction false} NarrativeLabelEnds(b: string)
    requires At(b, 0, NarrativeHead)
    ensures LabelEnd(b, 0, "narrative").None? && LabelEnd(b, 1, "narrative") == Some(15)
  {
    HeadParts(b, 0, NarrativeLabel);
    NarrativeLabelFolds();
    LabelEndOfTag(b, 1, NarrativeLabel, "narrative");
    NotAtCIHere(b, 0, "**" + "narrative");
  }

  /** A label written as `tag` followed by `:**` ends after the colon and stars. */
  lemma {:induction false} LabelEndOfTag(s: string, i: nat, tag: string, word: string)
    requires At(s, i, tag) && FoldsTo(tag, "**" + word) && At(s, i + |tag|, LabelClose)
    ensures AtCI(s, i, "**" + word)
    ensures LabelEnd(s, i, word) == Some(i + |tag| + 3)
  {
    AtCIOfFold(s, i, tag, "**" + word);
  }

  lemma {:induction false} VisualLabelAt(b: string, i: nat)
    requires At(b, i, VisualHead)
    ensures AtCI(b, i + 1, "**visual")
    ensures LabelEnd(b, i + 1, "visual") == Some(i + 12)
  {
    HeadParts(b, i, VisualLabel);
    VisualLabelFolds();
    LabelEndOfTag(b, i + 1, VisualLabel, "visual");
  }

  lemma {:induction false} NoStarsNoMark(b: string, lo: nat, hi: nat, p: string)
    requires lo <= hi <= |b| && p != [] && p[0] == '*'
    requires '*' !in b[lo..hi]
    ensures forall q :: lo <= q < hi ==> !AtCI(b, q, p)
  {
    forall q | lo <= q < hi ensures !AtCI(b, q, p) {
      assert b[q] == b[lo..hi][q - lo];
      NotAtCIHere(b, q, p);
    }
  }

  /** In a scene body the narrative runs from its label to the newline
      before the visual label. */
  lemma {:induction false} NarrativeEnd(b: string, n: string, v: string)
    requires Layout(b, n, v) && '*' !in n
    ensures 17 + |n| <= |b| && b[15..17 + |n|] == " " + n + "\n"
    ensures FindCI(b, 15, "**visual") == 17 + |n|
  {
    var m := |n|;
    VisualLabelAt(b, 16 + m);
    NarrativeSlice(b, n, v);
    NoStarsNoMark(b, 15, 17 + m, "**visual");
    FindCIAt(b, 15, 17 + m, "**visual");
  }

  lemma {:induction false} NarrativeSlice(b: string, n: string, v: string)
    requires Layout(b, n, v)
    ensures 17 + |n| <= |b| && b[15..17 + |n|] == " " + n + "\n"
  {
    var m := |n|;
    assert b[15] == b[..16][15];
    assert b[16 + m] == b[16 + m..29 + m][0];
  }

  lemma {:induction false} NarrativeOfLayout(b: string, n: string, v: string)
    requires Layout(b, n, v) && Trimmed(n) && '*' !in n
    ensures Narrative(b) == n
  {
    NarrativeLabelAtHead(b);
    NarrativeEnd(b, n, v);
    NarrativeBetween(b, n);
  }

  /** A narrative label ending at 15 and a visual label after ` n\n`. */
  lemma {:induction false} NarrativeBetween(b: string, n: string)
    requires FieldStart(b, "narrative") == Some(15) && Trimmed(n)
    requires 17 + |n| <= |b| && b[15..17 + |n|] == " " + n + "\n"
    requires FindCI(b, 15, "**visual") == 17 + |n|
    ensures Narrative(b) == n
  {
    NarrativeIsTextBeforeVisual(b, 15);
    StripOfSpaced(n);
  }

  lemma {:induction false} VisualLabelFound(b: string, n: string, v: string)
    requires Layout(b, n, v) && '*' !in n
    ensures FieldStart(b, "visual") == Some(28 + |n|)
  {
    var m := |n|;
    VisualLabelAt(b, 16 + m);
    NoVisualMarkInNarrativeHead(b);
    assert b[16..17 + m] == n + "\n" by {
      assert b[16 + m] == b[16 + m..29 + m][0];
    }
    NoStarsNoMark(b, 16, 17 + m, "**visual");
    forall q | 0 <= q < 17 + m ensures LabelEnd(b, q, "visual").None? {
      assert "**" + "visual" == "**visual";
    }
    FindLabelAt(b, 0, 17 + m, "visual");
  }

  lemma {:induction false} VisualTail(b: string, n: string, v: string)
    requires Layout(b, n, v)
    ensures b[28 + |n|..] == " " + v + "\n"
  {
    var m := |n|;
    assert b[28 + m] == b[16 + m..29 + m][12];
    assert b[28 + m..] == [b[28 + m]] + b[29 + m..];
  }

  lemma {:induction false} VisualOfLayout(b: string, n: string, v: string)
    requires Layout(b, n, v) && Trimmed(v) && '*' !in n
    ensures Visual(b) == v
  {
    VisualLabelFound(b, n, v);
    VisualTail(b, n, v);
    VisualIsRestOfChunk(b, 28 + |n|);
    StripOfSpaced(v);
  }

  lemma {:induction false} BodyHasNoHash(sc: Scene)
    requires Writable(sc)
    ensures '#' !in Body(sc)
  {
  }

  lemma {:induction false} HeaderOfSceneText(sc: Scene, rest: string)
    requires Writable(sc)
    ensures MatchHeader(SceneText(sc) + rest) == Some(Header(10, 10 + |sc.name|))
    ensures (SceneText(sc) + rest)[10..10 + |sc.name|] == sc.name
    ensures (SceneText(sc) + rest)[10 + |sc.name|..] == Body(sc) + rest
  {
    SceneTextParts(sc, rest);
    HeaderOfNamedLine(sc.name, Body(sc) + rest);
  }

  lemma {:induction false} SceneTextParts(sc: Scene, rest: string)
    ensures SceneText(sc) + rest == SceneMarker + " " + sc.name + (Body(sc) + rest)
    ensures (Body(sc) + rest)[0] == '\n'
  {
    assert Body(sc)[0] == NarrativeHead[0] == '\n';
  }

  /** A header line `## Scene: <name>` followed by a newline. */
  lemma {:induction false} HeaderOfNamedLine(name: string, tail: string)
    requires name != [] && !IsSpace(name[0]) && '\n' !in name
    requires tail != [] && tail[0] == '\n'
    ensures var t := SceneMarker + " " + name + tail;
            MatchHeader(t) == Some(Header(10, 10 + |name|)) &&
            t[10..10 + |name|] == name && t[10 + |name|..] == tail
  {
    var t := SceneMarker + " " + name + tail;
    var m := |name|;
    NamedLineParts(name, tail);
    assert SkipSpace(t, 9) == 10 by {
      assert SkipSpace(t, 9) == SkipSpace(t, 10);
    }
    forall q | 10 <= q < 10 + m ensures t[q] != '\n' {
      assert t[q] == t[10..10 + m][q - 10];
    }
    LineEndAt(t, 10, 10 + m);
  }

  lemma {:induction false} NamedLineParts(name: string, tail: string)
    requires name != [] && tail != []
    ensures var t := SceneMarker + " " + name + tail;
            At(t, 0, SceneMarker) && t[9] == ' ' && t[10] == name[0] &&
            t[10..10 + |name|] == name && t[10 + |name|..] == tail && t[10 + |name|] == tail[0]
  {
    var t := SceneMarker + " " + name + tail;
    assert t[..9] == SceneMarker;
    assert t[10..10 + |name|] == name;
    assert t[10 + |name|..] == tail;
  }

  lemma {:induction false} SplitSceneText(sc: Scene, rest: string)
    requires Writable(sc)
    requires rest == [] || MatchHeader(rest).Some?
    ensures Split(SceneText(sc) + rest) == [Chunk(sc.name, Body(sc))] + Split(rest)
  {
    HeaderOfSceneText(sc, rest);
    BodyHasNoHash(sc);
    PreambleUpToHeader(Body(sc), rest);
    SplitSkipsHashFree(Body(sc), rest);
  }

  /** The chunks `cs` are those of `scenes`, in order. */
  predicate ChunksOf(cs: seq<Chunk>, scenes: seq<Scene>) {
    |cs| == |scenes| && forall k :: 0 <= k < |scenes| ==> cs[k] == Chunk(scenes[k].name, Body(scenes[k]))
  }

  lemma {:induction false} SplitDocument(scenes: seq<Scene>)
    requires forall k :: 0 <= k < |scenes| ==> Writable(scenes[k])
    ensures ChunksOf(Split(Document(scenes)), scenes)
  {
    if scenes != [] {
      var rest := Document(scenes[1..]);
      WritableTail(scenes);
      if scenes[1..] != [] {
        DocumentStartsWithHeader(scenes[1..]);
      }
      SplitSceneText(scenes[0], rest);
      SplitDocument(scenes[1..]);
      ChunksCons(scenes, Split(rest));
    }
  }

  lemma {:induction false} WritableTail(scenes: seq<Scene>)
    requires scenes != [] && forall k :: 0 <= k < |scenes| ==> Writable(scenes[k])
    ensures Writable(scenes[0]) && forall k :: 0 <= k < |scenes[1..]| ==> Writable(scenes[1..][k])
  {
    forall k | 0 <= k < |scenes[1..]| ensures Writable(scenes[1..][k]) {
      assert scenes[1..][k] == scenes[k + 1];
    }
  }

  lemma {:induction false} DocumentStartsWithHeader(scenes: seq<Scene>)
    requires scenes != [] && Writable(scenes[0])
    ensures MatchHeader(Document(scenes)).Some?
  {
    HeaderOfSceneText(scenes[0], Document(scenes[1..]));
  }

  lemma {:induction false} ChunksCons(scenes: seq<Scene>, cs: seq<Chunk>)
    requires scenes != [] && ChunksOf(cs, scenes[1..])
    ensures ChunksOf([Chunk(scenes[0].name, Body(scenes[0]))] + cs, scenes)
  {
    var all := [Chunk(scenes[0].name, Body(scenes[0]))] + cs;
    forall k | 0 <= k < |scenes| ensures all[k] == Chunk(scenes[k].name, Body(scenes[k])) {
      if k > 0 {
        assert all[k] == cs[k - 1];
        assert scenes[1..][k - 1] == scenes[k];
      }
    }
  }

  lemma {:induction false} ParseContentOfChunks(t: string, scenes: seq<Scene>)
    requires |Split(t)| == |scenes|
    requires forall k :: 0 <= k < |scenes| ==> ParseChunk(Split(t)[k]) == scenes[k]
    ensures ParseContent(t) == scenes
  {
  }

  lemma {:induction false} ChunksOfDocument(scenes: seq<Scene>, d: string)
    requires forall k :: 0 <= k < |scenes| ==> Writable(scenes[k])
    requires d == Document(scenes)
    ensures |Split(d)| == |scenes|
    ensures forall k :: 0 <= k < |scenes| ==> ParseChunk(Split(d)[k]) == scenes[k]
  {
    SplitDocument(scenes);
    var cs := Split(d);
    forall k | 0 <= k < |scenes| ensures ParseChunk(cs[k]) == scenes[k] {
      ParseSceneChunk(scenes[k]);
    }
  }

  lemma {:induction false} ParseSceneChunk(sc: Scene)
    requires Writable(sc)
    ensures ParseChunk(Chunk(sc.name, Body(sc))) == sc
  {
    BodyLayout(sc);
    NarrativeOfLayout(Body(sc), sc.narrative, sc.visual);
    VisualOfLayout(Body(sc), sc.narrative, sc.visual);
    StripOfTrimmed(sc.name);
  }

  /** Writing scenes out in the expected layout and parsing the result gives
      back the same scenes, in the same order, whatever preamble without a
      marker comes first. */
  lemma {:induction false} ParseDocument(pre: string, scenes: seq<Scene>)
    requires NoMarkerBefore(pre + Document(scenes), |pre|)
    requires forall k :: 0 <= k < |scenes| ==> Writable(scenes[k])
    ensures ParseContent(pre + Document(scenes)) == scenes
  {
    var d := Document(scenes);
    PreambleIgnored(pre, d);
    ChunksOfDocument(scenes, d);
    ParseContentOfChunks(d, scenes);
  }
}
