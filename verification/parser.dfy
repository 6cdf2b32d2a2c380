/** The scene-document parser (`parse_markdown`): a document is cut at every
    `## Scene:` header; each scene's text yields a `**Narrative**` and a
    `**Visual**` field. The regular expressions of `parse_markdown` are written out
    as scanning functions whose contracts state the matching semantics
    (greedy and lazy quantifiers, lookaheads, case folding). */
module Parser {
  import opened Wrappers
  import opened Text

  /** A parsed scene: the dict `{'scene_name', 'narrative', 'visual_instruction'}`. */
  datatype Scene = Scene(name: string, narrative: string, visual: string)

  /** A scene dict as the other modules receive it. */
  type SceneData = map<string, string>

  function AsDict(sc: Scene): (d: SceneData)
    ensures d.Keys == {"scene_name", "narrative", "visual_instruction"}
    ensures d["scene_name"] == sc.name && d["narrative"] == sc.narrative
    ensures d["visual_instruction"] == sc.visual
  {
    map["scene_name" := sc.name, "narrative" := sc.narrative, "visual_instruction" := sc.visual]
  }

  const SceneMarker: string := "## Scene:"

  /** `s` holds the literal `p` at offset `i`. */
  predicate At(s: string, i: nat, p: string) {
    i + |p| <= |s| && s[i..i + |p|] == p
  }

  /** `s` holds `p` at offset `i` ignoring (ASCII) case; `p` is lower case. */
  predicate AtCI(s: string, i: nat, p: string) {
    i + |p| <= |s| && forall j :: 0 <= j < |p| ==> LowerChar(s[i + j]) == p[j]
  }

  /** First index from `i` on that is not whitespace (`\s*`, greedy). */
  function SkipSpace(s: string, i: nat): (k: nat)
    requires i <= |s|
    ensures i <= k <= |s| && AllSpace(s[i..k])
    ensures k < |s| ==> !IsSpace(s[k])
    decreases |s| - i
  {
    if i < |s| && IsSpace(s[i]) then SkipSpace(s, i + 1) else i
  }

  /** First newline at or after `i`, or the end of `s` (`.+` without DOTALL, greedy). */
  function LineEnd(s: string, i: nat): (e: nat)
    requires i <= |s|
    ensures i <= e <= |s| && '\n' !in s[i..e]
    ensures e < |s| ==> s[e] == '\n'
    decreases |s| - i
  {
    if i < |s| && s[i] != '\n' then LineEnd(s, i + 1) else i
  }

  /** Greatest index in `[lo, hi)` holding something other than a newline. */
  function LastNonNewline(s: string, lo: nat, hi: nat): (r: Option<nat>)
    requires lo <= hi <= |s|
    ensures r.Some? ==> lo <= r.value < hi && s[r.value] != '\n'
    ensures r.Some? ==> forall j :: r.value < j < hi ==> s[j] == '\n'
    ensures r.None? ==> forall j :: lo <= j < hi ==> s[j] == '\n'
    decreases hi - lo
  {
    if lo == hi then None
    else if s[hi - 1] != '\n' then Some(hi - 1)
    else LastNonNewline(s, lo, hi - 1)
  }

  /** Where the name group `(.+)` of a header match lies. */
  datatype Header = Header(nameStart: nat, nameEnd: nat)

  /** `## Scene:\s*(.+)` matched at the start of `t`. `\s*` may cross newlines;
      when the whitespace runs to the end of the text, the regex backtracks
      and the name is the last non-newline whitespace character. */
  function MatchHeader(t: string): (m: Option<Header>)
    ensures m.Some? ==> At(t, 0, SceneMarker)
    ensures m.Some? ==> 9 <= m.value.nameStart < m.value.nameEnd <= |t|
    // `\s*` matched whitespace only, and as much as could still leave a name:
    ensures m.Some? ==> AllSpace(t[9..m.value.nameStart])
    ensures m.Some? ==> forall q :: m.value.nameStart < q < |t| && AllSpace(t[9..q]) ==> t[q] == '\n'
    // `.+` took the rest of the line:
    ensures m.Some? ==> '\n' !in t[m.value.nameStart..m.value.nameEnd]
    ensures m.Some? ==> m.value.nameEnd == |t| || t[m.value.nameEnd] == '\n'
    // the match fails exactly when no name can follow the marker:
    ensures m.None? && At(t, 0, SceneMarker) ==>
      forall q :: 9 <= q < |t| && AllSpace(t[9..q]) ==> t[q] == '\n'
  {
    if !At(t, 0, SceneMarker) then None
    else
      var k := SkipSpace(t, 9);
      if k < |t| then
        assert forall q :: k < q < |t| ==> !AllSpace(t[9..q]) by {
          forall q | k < q < |t| ensures !AllSpace(t[9..q]) {
            assert t[9..q][k - 9] == t[k];
          }
        }
        Some(Header(k, LineEnd(t, k)))
      else
        match LastNonNewline(t, 9, |t|)
        case None => None
        case Some(j) =>
          AllSpaceWithin(t, 9, j, k);
          Some(Header(j, LineEnd(t, j)))
  }

  /** The text before the first header match: `re.split`'s element 0 for the
      whole document, and a scene's chunk for the text after its header. */
  function Preamble(t: string): (p: string)
    ensures |p| <= |t| && p == t[..|p|]
    ensures '#' !in t ==> p == t
    decreases |t|
  {
    if t == [] then []
    else if MatchHeader(t).Some? then
      assert t[0] == t[..9][0] == '#';
      []
    else [t[0]] + Preamble(t[1..])
  }

  /** A header's raw name group and the chunk that follows it. */
  datatype Chunk = Chunk(rawName: string, body: string)

  /** `re.split(r'## Scene:\s*(.+)', t)[1:]`, paired up: every header match,
      scanning left to right, with the text up to the next match. */
  function Split(t: string): (cs: seq<Chunk>)
    ensures forall k :: 0 <= k < |cs| ==> cs[k].rawName != [] && '\n' !in cs[k].rawName
    decreases |t|
  {
    if t == [] then []
    else
      match MatchHeader(t)
      case Some(h) =>
        var after := t[h.nameEnd..];
        [Chunk(t[h.nameStart..h.nameEnd], Preamble(after))] + Split(after)
      case None => Split(t[1..])
  }

  // ---------------------------------------------------------------------------
  // fields

  /** `\*\*<word>:?\*\*` (case-insensitive) at `i`: the offset just after it. */
  function LabelEnd(s: string, i: nat, word: string): (e: Option<nat>)
    ensures e.Some? ==> i < e.value <= |s|
  {
    var j := i + 2 + |word|;
    if !AtCI(s, i, "**" + word) then None
    else if At(s, j, ":**") then Some(j + 3)
    else if At(s, j, "**") then Some(j + 2)
    else None
  }

  /** `re.search` for a field label: the offset of the first label at or after `i`. */
  function FindLabel(s: string, i: nat, word: string): (r: Option<nat>)
    requires i <= |s|
    ensures r.Some? ==> i <= r.value <= |s| && LabelEnd(s, r.value, word).Some?
    ensures r.Some? ==> forall q :: i <= q < r.value ==> LabelEnd(s, q, word).None?
    ensures r.None? ==> forall q :: i <= q <= |s| ==> LabelEnd(s, q, word).None?
    decreases |s| - i
  {
    if LabelEnd(s, i, word).Some? then Some(i)
    else if i == |s| then None
    else FindLabel(s, i + 1, word)
  }

  /** The end of the first `**<word>**` label in `s`, if there is one. */
  function FieldStart(s: string, word: string): (r: Option<nat>)
    ensures r.Some? ==> r.value <= |s|
  {
    match FindLabel(s, 0, word)
    case None => None
    case Some(q) => LabelEnd(s, q, word)
  }

  /** First offset at or after `i` where `p` occurs ignoring case, else `|s|`. */
  function FindCI(s: string, i: nat, p: string): (j: nat)
    requires i <= |s|
    ensures i <= j <= |s|
    ensures j < |s| ==> AtCI(s, j, p)
    ensures forall q :: i <= q < j ==> !AtCI(s, q, p)
    decreases |s| - i
  {
    if i == |s| || AtCI(s, i, p) then i else FindCI(s, i + 1, p)
  }

  /** `**Narrative:?**\s*(.*?)(?=\*\*Visual|\Z)`, stripped; `""` without a label.
      The lazy group ends at the first `**Visual` prefix, in any case and even
      inside a longer word, or at the end of the chunk. */
  function Narrative(chunk: string): string
  {
    match FieldStart(chunk, "narrative")
    case None => ""
    case Some(e) =>
      var k := SkipSpace(chunk, e);
      Strip(chunk[k..FindCI(chunk, k, "**visual")])
  }

  /** `$` without MULTILINE: at the end, or just before a final newline. */
  predicate DollarAt(s: string, i: nat) {
    i == |s| || (i + 1 == |s| && s[i] == '\n')
  }

  /** Where `(.*?)(?=$)` stops when started at `k`: the lazy group ends at the
      first offset from `k` on where `$` holds. */
  function VisualEnd(chunk: string, k: nat): (e: nat)
    requires k <= |chunk|
    ensures k <= e <= |chunk| && DollarAt(chunk, e)
    ensures forall q :: k <= q < e ==> !DollarAt(chunk, q)
  {
    if k < |chunk| && chunk[|chunk| - 1] == '\n' then |chunk| - 1 else |chunk|
  }

  /** `**Visual:?**\s*(.*?)(?=$)`, stripped; `""` without a label. */
  function Visual(chunk: string): string
  {
    match FieldStart(chunk, "visual")
    case None => ""
    case Some(e) =>
      var k := SkipSpace(chunk, e);
      Strip(chunk[k..VisualEnd(chunk, k)])
  }

  function ParseChunk(c: Chunk): Scene
  {
    Scene(Strip(c.rawName), Narrative(c.body), Visual(c.body))
  }

  /** `parse_markdown` applied to the file's content. */
  function ParseContent(content: string): (scenes: seq<Scene>)
    ensures |scenes| == |Split(content)|
    ensures forall k :: 0 <= k < |scenes| ==> '\n' !in scenes[k].name && Trimmed(scenes[k].name)
    ensures forall k :: 0 <= k < |scenes| ==>
      Trimmed(scenes[k].narrative) && Trimmed(scenes[k].visual)
  {
    var cs := Split(content);
    seq(|cs|, k requires 0 <= k < |cs| => ParseChunk(cs[k]))
  }
}
