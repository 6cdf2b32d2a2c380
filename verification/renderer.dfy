/** Rendering (`render_code`): the generated body is indented into a fixed
    Manim scene template and written to a temp script; Manim is run on it
    and the video's path is read from Manim's output, or guessed from Manim's
    directory layout. Running the process and asking whether a file exists
    are function parameters. */
module Renderer {
  import opened Wrappers
  import opened Text

  // ---------------------------------------------------------------------------
  // The script

  /** The eight spaces that put a line inside `construct(self)`. */
  const Indent: string := "        "

  /** The lines of `TEMPLATE` before the line holding its `{code}` slot. */
  const TemplateLines: seq<string> :=
    ["", "from manim import *", "", "class GeneratedScene(Scene):", "    def construct(self):"]

  /** `TEMPLATE` up to its `{code}` slot, which sits after eight spaces. */
  const TemplateHead: string := Join(TemplateLines, "\n") + "\n" + Indent

  /** `TEMPLATE` after its `{code}` slot. */
  const TemplateTail: string := "\n"

  /** The name of the scene class Manim is told to render. */
  const SceneClass: string := "GeneratedScene"

  /** Every line, indented. */
  function IndentLines(ls: seq<string>): (r: seq<string>)
    ensures |r| == |ls|
    ensures forall k :: 0 <= k < |ls| ==> r[k] == Indent + ls[k]
  {
    seq(|ls|, k requires 0 <= k < |ls| => Indent + ls[k])
  }

  /** `TEMPLATE.format(code="\n        ".join(code.splitlines()))`. */
  function AssembleScript(code: string): (script: string)
    ensures StartsWith(script, TemplateHead) && EndsWith(script, TemplateTail)
  {
    var body := Join(SplitLines(code), "\n" + Indent);
    assert (TemplateHead + body + TemplateTail)[..|TemplateHead|] == TemplateHead;
    TemplateHead + body + TemplateTail
  }

  // ---------------------------------------------------------------------------
  // File names

  /** `name.replace(' ', '_')`. */
  function Slug(name: string): (r: string)
    ensures |r| == |name| && ' ' !in r
    ensures forall i :: 0 <= i < |name| ==> r[i] == (if name[i] == ' ' then '_' else name[i])
  {
    ReplaceChar(name, ' ', '_')
  }

  /** `f"temp_{name.lower().replace(' ', '_')}.py"`. */
  function TempFileName(name: string): (r: string)
    ensures |r| == |name| + 8 && StartsWith(r, "temp_") && EndsWith(r, ".py")
    ensures forall i :: 0 <= i < |name| ==>
              r[5 + i] == (if name[i] == ' ' then '_' else LowerChar(name[i]))
  {
    var t := "temp_" + ReplaceChar(Lower(name), ' ', '_') + ".py";
    assert t[..5] == "temp_";
    assert t[|t| - 3..] == ".py";
    t
  }

  /** `f"{name.replace(' ', '_')}.mp4"`: the case of the name is kept. */
  function OutputFileName(name: string): (r: string)
    ensures |r| == |name| + 4 && EndsWith(r, ".mp4")
    ensures forall i :: 0 <= i < |name| ==> r[i] == (if name[i] == ' ' then '_' else name[i])
  {
    var o := Slug(name) + ".mp4";
    assert o[|o| - 4..] == ".mp4";
    o
  }

  /** `temp_file.replace(".py", "")`: Manim's folder for the script. */
  function ModuleName(tempFile: string): (r: string)
    ensures |r| <= |tempFile|
  {
    RemoveAll(tempFile, ".py")
  }

  // ---------------------------------------------------------------------------
  // os.path.join (POSIX)

  /** One step of `posixpath.join`: an absolute part restarts the path; a
      separator is added unless the path is empty or already ends in one. */
  function JoinStep(path: string, part: string): (r: string)
    ensures StartsWith(part, "/") ==> r == part
    ensures !StartsWith(part, "/") ==> EndsWith(r, part) && StartsWith(r, path)
  {
    var r := if StartsWith(part, "/") then part
             else if path == [] || EndsWith(path, "/") then path + part
             else path + "/" + part;
    assert !StartsWith(part, "/") ==> r[|r| - |part|..] == part && r[..|path|] == path;
    r
  }

  /** `os.path.join(path, *parts)`: the parts are joined on from left to
      right. */
  function PathJoin(path: string, parts: seq<string>): (r: string)
    ensures parts != [] && !StartsWith(parts[|parts| - 1], "/") ==> EndsWith(r, parts[|parts| - 1])
    decreases |parts|
  {
    if parts == [] then path
    else PathJoin(JoinStep(path, parts[0]), parts[1..])
  }

  /** Where Manim puts a low-quality (480p, 15 fps) render:
      `output_dir/videos/<module>/480p15/<output file>`. */
  function FallbackPath(outputDir: string, tempFile: string, outputFile: string): (r: string)
    ensures !StartsWith(outputFile, "/") ==> EndsWith(r, outputFile)
  {
    PathJoin(outputDir, ["videos", ModuleName(tempFile), "480p15", outputFile])
  }

  // ---------------------------------------------------------------------------
  // re.search(r"File ready at '(.+?)'", text)

  const ReadyPrefix: string := "File ready at '"

  /** Scanning the group from `k`: the first quote ends it, a newline or the
      end of the text fails the match. */
  function QuoteEnd(s: string, k: nat): (e: Option<nat>)
    requires k <= |s|
    ensures e.Some? ==> k <= e.value < |s| && s[e.value] == '\''
    ensures e.Some? ==> forall j :: k <= j < e.value ==> s[j] != '\'' && s[j] != '\n'
    ensures e.None? ==> forall j :: k <= j < |s| && s[j] == '\'' ==> exists m :: k <= m < j && s[m] == '\n'
    decreases |s| - k
  {
    if k == |s| || s[k] == '\n' then None
    else if s[k] == '\'' then Some(k)
    else QuoteEnd(s, k + 1)
  }

  /** The group of a match starting at `i`: at least one non-newline
      character (a quote allowed first), then as few more as reach a quote. */
  function ReadyAt(s: string, i: nat): (g: Option<string>)
    ensures g.Some? ==> g.value != [] && '\n' !in g.value && '\'' !in g.value[1..]
    ensures g.Some? ==> i + |ReadyPrefix| + |g.value| < |s|
    ensures g.Some? ==> s[i..i + |ReadyPrefix| + |g.value| + 1] == ReadyPrefix + g.value + "'"
  {
    var j := i + |ReadyPrefix|;
    if j < |s| && s[i..j] == ReadyPrefix && s[j] != '\n' then
      match QuoteEnd(s, j + 1)
      case None => None
      case Some(e) =>
        var g := s[j..e];
        assert g[1..] == s[j + 1..e];
        assert s[i..e + 1] == s[i..j] + g + [s[e]];
        Some(g)
    else None
  }

  /** The leftmost position from `i` on where the pattern matches. */
  function ReadySearch(s: string, i: nat): (m: Option<nat>)
    requires i <= |s|
    ensures m.Some? ==> i <= m.value < |s| && ReadyAt(s, m.value).Some?
    ensures forall j :: i <= j < (if m.Some? then m.value else |s|) ==> ReadyAt(s, j).None?
    decreases |s| - i
  {
    if i == |s| then None
    else if ReadyAt(s, i).Some? then Some(i)
    else ReadySearch(s, i + 1)
  }

  /** `match.group(1)` of the search, if it matched. */
  function FindReady(s: string): (p: Option<string>)
    ensures p.Some? ==> p.value != [] && '\n' !in p.value
    ensures p.None? <==> ReadySearch(s, 0).None?
  {
    match ReadySearch(s, 0)
    case None => None
    case Some(i) => ReadyAt(s, i)
  }

  // ---------------------------------------------------------------------------
  // Running Manim

  /** What running the command gave: its exit status and captured text, or
      the exception raised before it could run (for example, no `manim` on
      the path). */
  datatype Process = Exited(status: int, stdout: string, stderr: string) | NotStarted(reason: string)

  /** The script to write and the command that renders it. */
  datatype RenderJob = RenderJob(scriptFile: string, script: string, command: seq<string>)

  /** An exception that `render_code` does not catch. */
  datatype RenderError = LaunchFailed(reason: string)

  /** The job for a scene: `manim -ql --media_dir <dir> -o <out> <temp> GeneratedScene`. */
  function JobFor(code: string, sceneName: string, outputDir: string): (job: RenderJob)
  {
    var temp := TempFileName(sceneName);
    RenderJob(temp, AssembleScript(code),
              ["manim", "-ql", "--media_dir", outputDir, "-o", OutputFileName(sceneName), temp, SceneClass])
  }

  /** After a clean exit: the path Manim printed on stdout, else the one it
      printed on stderr, else the guessed layout if that file exists. */
  function ResolveOutputPath(stdout: string, stderr: string, fallback: string, fileExists: string -> bool)
    : (p: Option<string>)
    ensures p.Some? ==> FindReady(stdout) == p || FindReady(stderr) == p || (p.value == fallback && fileExists(fallback))
    ensures FindReady(stdout).Some? ==> p == FindReady(stdout)
    ensures FindReady(stdout).None? && FindReady(stderr).Some? ==> p == FindReady(stderr)
    ensures p.None? <==> FindReady(stdout).None? && FindReady(stderr).None? && !fileExists(fallback)
  {
    if FindReady(stdout).Some? then FindReady(stdout)
    else if FindReady(stderr).Some? then FindReady(stderr)
    else if fileExists(fallback) then Some(fallback)
    else None
  }

  /** `render_code`: a non-zero exit (`CalledProcessError`) gives `None`;
      a process that never started raises. */
  function RenderCode(code: string, sceneName: string, outputDir: string,
                      run: RenderJob -> Process, fileExists: string -> bool)
    : (r: Result<Option<string>, RenderError>)
    ensures run(JobFor(code, sceneName, outputDir)).NotStarted? <==> r.Failure?
    ensures (run(JobFor(code, sceneName, outputDir)).Exited? && run(JobFor(code, sceneName, outputDir)).status != 0)
              ==> r == Success(None)
    ensures r.Success? && r.value.Some? ==>
              var proc := run(JobFor(code, sceneName, outputDir));
              proc.Exited? && proc.status == 0 &&
              (FindReady(proc.stdout) == r.value || FindReady(proc.stderr) == r.value ||
               fileExists(r.value.value))
  {
    var job := JobFor(code, sceneName, outputDir);
    match run(job)
    case NotStarted(reason) => Failure(LaunchFailed(reason))
    case Exited(status, out, err) =>
      if status != 0 then Success(None)
      else
        var fallback := FallbackPath(outputDir, job.scriptFile, OutputFileName(sceneName));
        Success(ResolveOutputPath(out, err, fallback, fileExists))
  }
}
