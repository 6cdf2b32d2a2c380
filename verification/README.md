# video_gen core, modelled in Dafny

video_gen turns a Markdown script into narrated Manim animations. Each stage
below is modelled as pure functions over `seq<char>`, with contracts and
lemmas.

- **Parsing.** `parse_markdown` cuts the document at every `## Scene:` header
  with `re.split`. Each chunk yields a `**Narrative**` and a `**Visual**`
  field through two case-insensitive `re.search` patterns, and every value is
  stripped. The regular expressions are written out as scanning functions:
  - `MatchHeader`, `Split` and `Preamble` for the header split;
  - `FindLabel`, `FindCI` and `VisualEnd` for the two field patterns.
  Their contracts state the greedy, lazy, lookahead and case-folding
  behaviour of the patterns. The main property is a round trip:
  `ParserLemmas.ParseDocument`.
- **Generation.** `generate_scene_code` computes a reading-time estimate,
  `max(2.0, words / 2.5)`, over exact reals. It reads the scene dict's three
  fields, in the order the prompt reads them, where a missing one raises
  `KeyError`. It then sends one chat-completion request and cleans the reply.
- **Fence cleaning.** The generator and the repairer share the same cleanup:
  1. strip;
  2. drop one leading "```python";
  3. then drop one leading "```";
  4. then drop one trailing "```";
  5. strip again.
  In the model this is `Fences.StripFences`, used by both modules.
- **Repair.** `repair_code` cleans the reply exactly as generation does. Any
  exception, or a failure reading the reply, hands back the broken code
  unchanged.
- **Review.** `check_code` first reads `scene_data['visual_instruction']`.
  That read is outside the `try`, so a missing field raises. After it:
  - a failed call or a failed JSON decode gives `(True, "")`;
  - so does a decoded value that is not an object and therefore has no
    `.get`;
  - an object gives its `passed` and `feedback` entries, with `False` and
    `""` for absent keys. The values are returned as they are, whatever their
    JSON type.
- **Rendering.** `render_code` has these modelled parts:
  - the code is indented by eight spaces into the scene template;
  - the temp script name and the output file name are built from the scene
    name;
  - the Manim command is built;
  - the path Manim reports with `File ready at '…'` is searched for in stdout
    first, then in stderr;
  - otherwise the guessed path `output_dir/videos/<module>/480p15/<file>` is
    returned, but only when the file exists;
  - a non-zero exit (`CalledProcessError`) gives `None`.

Effects become function parameters:
- the chat-completion calls, including the JSON decode for the review, are
  `Request -> Result<Reply, CallError>`;
- running Manim is `RenderJob -> Process`;
- `os.path.exists` is `string -> bool`.

These parameters are total functions, so each model is a deterministic
function of its inputs and of the oracles' answers.

`main.py` is command-line plumbing that calls parse, generate and render
once per scene; it is not part of this model.

Files:
- `wrappers.dfy`: `Option` and `Result`.
- `text.dfy`: the Python `str` operations that are used, with their laws.
- `parser.dfy` and `parser_lemmas.dfy`: parsing.
- `fences.dfy` and `fences_lemmas.dfy`: fence cleaning.
- `generator.dfy`, `repairer.dfy` and `checker.dfy`: the three model calls.
- `renderer.dfy` and `renderer_lemmas.dfy`: rendering.

## Model

| member | source | states |
|---|---|---|
| Parser.MatchHeader | src/parser.py:18 | `## Scene:\s*(.+)` at the start of a text. The match needs the marker. `\s*` takes whitespace only, and as much as can still leave a name; when the whitespace runs to the end, the name is the last non-newline whitespace character. The name runs to the end of its line. The match fails exactly when no non-newline character follows the whitespace. |
| ParserLemmas.PreambleStopsAtHeader | src/parser.py:18 | `re.split`'s first piece ends at the leftmost header match: no header matches at any earlier offset, and one matches where it ends unless the text ran out. |
| Parser.Split | src/parser.py:18-25 | The `re.split` pieces after element 0, paired as (name, chunk). Every raw name is non-empty and holds no newline. |
| Parser.FindLabel | src/parser.py:31-32 | The leftmost offset where `**<word>:?**` matches case-insensitively. No earlier offset matches, and `None` means no offset matches. |
| Parser.FindCI | src/parser.py:31 | The lazy group's end: the first offset holding `**visual` in any case, or the end of the chunk when there is none. |
| Parser.VisualEnd | src/parser.py:32 | `(?=$)` after a lazy group: the group ends at the first offset from its start where `$` (without MULTILINE) holds, that is just before a final newline if one lies ahead, else at the end of the chunk. |
| Parser.ParseContent | src/parser.py:18-43 | One scene per header match. Names are single-line and trimmed; narrative and visual are trimmed. |
| ParserLemmas.ParseDocument | src/parser.py:18-43 | Scenes written as `## Scene: name` / `**Narrative:** n` / `**Visual:** v` lines parse back to the same scenes in the same order, after any preamble in which no `## Scene:` begins. |
| ParserLemmas.PreambleIgnored | src/parser.py:18 | Any text in which no `## Scene:` begins contributes no scene when put before a document. |
| ParserLemmas.TitleIgnored | src/parser.py:18 | A `# Title` line (a title without `#`) before the scenes is discarded. |
| ParserLemmas.HeaderNameIsRestOfLine | src/parser.py:18-24 | When text follows the marker on its line, the name is the rest of that line, stripped. |
| ParserLemmas.HeaderNameOnNextLine | src/parser.py:18 | A header with nothing after the marker takes the next line as its name, because `\s*` crosses newlines. |
| ParserLemmas.NoMarkerNoScenes | src/parser.py:18 | Without a `## Scene:` occurrence there are no scenes. |
| ParserLemmas.HeaderIsCaseSensitive | src/parser.py:18 | The header pattern is case sensitive: a text without a capital `S` has no scenes. |
| ParserLemmas.NarrativeIsTextBeforeVisual | src/parser.py:31-34 | The narrative is the stripped text from its label up to the first `**Visual` in any case, even inside a longer word, or up to the end of the chunk. |
| ParserLemmas.VisualIsRestOfChunk | src/parser.py:32-35 | The visual instruction is everything after its label, stripped. |
| ParserLemmas.MissingFieldsAreEmpty | src/parser.py:34-35 | Each field is `""` when its own label matches nowhere in the chunk, whatever the other field's label does. |
| ParserLemmas.StarFreeChunkIsEmpty | src/parser.py:31-35 | A chunk without any `*` gets `""` for both fields. |
| Text.WordCountIsWordStarts | src/generator.py:57 | `len(s.split())` equals the number of non-whitespace characters at the start of the text or right after whitespace. |
| Text.StripIgnoresPadding | src/generator.py:81 | Whitespace around a text never changes `strip`. |
| Text.JoinOfSplitLines | src/renderer.py:26 | Joining `splitlines()` with `"\n"` gives the text back, apart from a final newline, when `'\n'` is its only line boundary. |
| Text.SplitLinesOfJoin | src/renderer.py:26 | `splitlines` undoes a `"\n"`-join of lines without boundaries. |
| Fences.Unfence | src/generator.py:84-89 | The three fence cuts give a slice of their input. Text with no fence at either end is unchanged. |
| Fences.StripFences | src/generator.py:81-91 | The cleaned code is trimmed and is a slice of the reply. A stripped reply with no fence at either end is returned as is. |
| FencesLemmas.PythonFenceRoundTrip | src/generator.py:81-91 | Trimmed code wrapped as "```python\n" … "\n```" comes back exactly. |
| FencesLemmas.BareFenceRoundTrip | src/generator.py:81-91 | Trimmed code wrapped as "```\n" … "\n```" comes back exactly. |
| FencesLemmas.UnfencedReplyIsTrimmed | src/generator.py:81-91 | A reply without fences is only stripped. |
| FencesLemmas.DoubledFenceKeepsOne | src/generator.py:86-87 | Only one leading fence is removed: "``````" + code leaves "```" + code. |
| FencesLemmas.PythonFenceTriedFirst | src/generator.py:84-87 | "```python" is cut before "```": a doubled "```python" leaves "python" + code. |
| Generator.EstimatedDuration | src/generator.py:58 | The estimate is at least 2 and at least words / 2.5, and it equals one of the two. |
| Generator.NarrativeDuration | src/generator.py:56-58 | A missing narrative counts as `""`; the estimate is at least two seconds. |
| Generator.DurationOfLongNarrative | src/generator.py:58 | From five words on, the estimate is words / 2.5. |
| Generator.DurationOfShortNarrative | src/generator.py:58 | Up to five words, the estimate is 2.0. |
| Generator.DurationMonotone | src/generator.py:58 | More words never give a shorter estimate. |
| Generator.BlankNarrativeDuration | src/generator.py:56-58 | A missing, empty or all-whitespace narrative gets exactly 2.0 seconds. |
| Generator.PromptOf | src/generator.py:60-64 | The prompt carries the scene's name, narrative and visual instruction, and an estimate of at least two seconds. |
| Generator.GenerateSceneCode | src/generator.py:56-91 | A missing `scene_name`, `narrative` or `visual_instruction` raises `KeyError` for the first one missing, in that order, before any call. A failing call propagates its error. A reply becomes trimmed code no longer than the reply. |
| Generator.CleanReplyKept | src/generator.py:81-91 | A trimmed reply without fences is the code itself. |
| Generator.FencedReplyGivesCode | src/generator.py:72-91 | A reply wrapping trimmed code in a "```python" or bare "```" fence yields exactly that code. |
| Generator.ParsedSceneReachesCall | src/generator.py:56-64 | A parsed scene has every field, so only the call can fail. The prompt's estimate comes from the narrative's word count. |
| Repairer.RepairCode | src/repairer.py:58-82 | A failing call returns the broken code unchanged. A reply becomes trimmed code that is a slice of the reply. |
| Repairer.RepairCleansLikeGeneration | src/repairer.py:68-78 | Repair and generation turn the same reply into the same code. |
| Repairer.FailedRepairKeepsCode | src/repairer.py:80-82 | A failed repair gives back the code byte for byte, even when it is not trimmed. |
| Repairer.CleanRepairKept | src/repairer.py:68-78 | A trimmed, fence-free reply is the repaired code verbatim. |
| Repairer.FencedRepairGivesCode | src/repairer.py:68-78 | A reply wrapping trimmed code in a "```python" or bare "```" fence is repaired into exactly that code. |
| Checker.CheckCode | src/checker.py:43-76 | The check fails (`KeyError`) exactly when `visual_instruction` is missing. A failed call or decode gives `(True, "")`, and so does a non-object reply. A verdict other than `(True, "")` comes from an object reply. |
| Checker.WellFormedReplyKept | src/checker.py:71-72 | A reply `{"passed": b, "feedback": f}` gives `(b, f)`. |
| Checker.AbsentKeysDefault | src/checker.py:72 | A missing `passed` gives `False` and a missing `feedback` gives `""`. Entries that are present are passed through. |
| Checker.RejectionNeedsObject | src/checker.py:71-76 | A verdict whose `passed` is not `True` comes from a decoded JSON object: the check fails open otherwise. |
| Checker.ParsedSceneIsReviewed | src/checker.py:43-76 | A parsed scene never raises `KeyError`. A failed call then passes the code. |
| Renderer.AssembleScript | src/renderer.py:8-27 | The script starts with the template up to `{code}` and ends with its final newline. |
| Renderer.Slug | src/renderer.py:38 | Spaces become underscores, position by position; nothing else changes. |
| Renderer.TempFileName | src/renderer.py:29 | `temp_` + the name lower-cased with spaces as `_` + `.py`, position by position. |
| Renderer.OutputFileName | src/renderer.py:38 | The name with spaces as `_` (case kept) + `.mp4`. |
| Renderer.ModuleName | src/renderer.py:79 | Removing `.py` never makes the name longer. |
| Renderer.JoinStep | src/renderer.py:81 | An absolute part replaces the path. Otherwise the result starts with the path and ends with the part. |
| RendererLemmas.JoinStepRelative | src/renderer.py:81 | A relative part joined onto a non-empty path not ending in `/` is put after exactly one `/`. |
| Renderer.FallbackPath | src/renderer.py:81 | The guessed path ends with the output file name unless that name is absolute. |
| Renderer.QuoteEnd | src/renderer.py:68 | The lazy `(.+?)'` ends at the first quote. A newline before any quote fails it. |
| Renderer.ReadyAt | src/renderer.py:68 | A match at an offset reads `File ready at '` + group + `'`. The group is non-empty, single-line, and quote-free after its first character. |
| Renderer.ReadySearch | src/renderer.py:68 | `re.search` finds the leftmost match: nothing matches before it. |
| Renderer.FindReady | src/renderer.py:68 | The group of the leftmost match: non-empty and single-line. |
| Renderer.ResolveOutputPath | src/renderer.py:71-86 | The stdout report wins if there is one; otherwise the stderr report wins over the guessed path; the guessed path is taken only if it exists. It is `None` exactly when all three are absent. |
| Renderer.RenderCode | src/renderer.py:51-91 | A process that cannot start raises. A non-zero exit gives `None`. A returned path comes from a clean exit and was reported by Manim or exists. |
| RendererLemmas.ScriptLines | src/renderer.py:8-27 | The script's lines are the template's five lines, then each code line behind eight spaces, in order. Empty code leaves one line of bare indentation. |
| RendererLemmas.TrailingNewlineIgnored | src/renderer.py:26 | For code that is empty or does not already end in a line break, appending one `"\n"` does not change the script. |
| RendererLemmas.TempStemIsLowerOutputStem | src/renderer.py:29-38 | The temp file's stem is the output file's stem lower-cased. |
| RendererLemmas.ModuleNameOfTemp | src/renderer.py:79 | For a dot-free name, the module is the temp file name without `.py`. |
| RendererLemmas.ModuleNameShape | src/renderer.py:79 | The module starts with `temp_` and holds a `/` only if the scene name does. |
| RendererLemmas.JobRendersItsScript | src/renderer.py:26-47 | `manim -ql --media_dir <dir> -o <name>.mp4 <temp>.py GeneratedScene`. The job writes `AssembleScript(code)` to `TempFileName(sceneName)`, `-o` names exactly `OutputFileName(sceneName)`, and the command renders the file the script is written to and names the class the template defines. |
| RendererLemmas.FallbackLayout | src/renderer.py:81 | Under a directory not ending in `/`, the guess is `dir/videos/<module>/480p15/<file>`. |
| RendererLemmas.SceneFallbackPath | src/renderer.py:79-81 | The same layout for a scene name without `/`. |
| RendererLemmas.AbsoluteNameWins | src/renderer.py:81 | A scene name starting with `/` makes the guess the bare output file name. |
| RendererLemmas.ReadyLineFound | src/renderer.py:68 | The reported path is exactly the text between `File ready at '` and the next quote, when no `F` comes before the message. |
| RendererLemmas.StdoutReportWins | src/renderer.py:68-72 | A report on stdout with no `F` before the message is returned, whatever stderr says and whether or not the guessed file exists. |
| RendererLemmas.StderrReportUsed | src/renderer.py:69-74 | With no report on stdout, a stderr report with no `F` before the message is returned, whether or not the guessed file exists. |
| RendererLemmas.FallbackOnlyIfPresent | src/renderer.py:75-86 | With no report, the guessed path is returned exactly when the file exists; otherwise the result is `None`. |

## Left out

- File reading in `parse_markdown`: the model starts from the file's content. Encoding errors and a missing file are not modelled.
- Unicode details of `re` and `str`:
  - whitespace (`\s`, `strip`, `split`) and case folding are the ASCII subsets;
  - `re.IGNORECASE` also equates a few non-ASCII letters with `i`, `s` and `k` (U+0130, U+0131, U+017F, U+212A);
  - non-ASCII whitespace is not modelled.
  `splitlines` boundaries are complete.
- Floating point: the duration estimate is an exact real. The `.1f` formatting in the prompt text is not modelled.
- Prompt texts, model names, temperatures and the OpenRouter client: they are the content of the oracle calls, not logic.
- JSON decoding: `json.loads` is part of the review oracle, which returns a decoded value or an error.
- Console output (`print`, `rich`) and the captured stderr printed on a render error.
- Writing the temp script: the job carries the file name and its text. A failing write, and the file being left behind, are not modelled.
- `main.py`: command-line plumbing that calls parse, generate and render once per scene.
- ParserLemmas.ParseDocument: states the round trip for scenes satisfying `Writable`. `Writable` is a sufficient condition, not a characterisation of every scene that survives a round trip.
- RendererLemmas.ModuleNameOfTemp: requires a dot-free name. `.replace(".py", "")` also removes a `.py` inside the scene name, which only `Renderer.ModuleName`'s definition covers.
- Renderer.JoinStep: POSIX `os.path.join` only.
- Renderer.ModuleName: its contract states only the length bound; its content is stated by `RendererLemmas.ModuleNameOfTemp` and `RendererLemmas.ModuleNameShape`.
