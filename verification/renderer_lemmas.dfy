/** What the renderer promises: the layout of the assembled script, how the
    file names relate to the scene name and to each other, where the guessed
    video path points, and which printed path is taken. */
module RendererLemmas {
  import opened Wrappers
  import opened Text
  import opened Renderer

  // ---------------------------------------------------------------------------
  // The script

  /** Indenting the first line and every line after a separator is indenting
      every line. */
  lemma {:induction false} JoinIndented(ls: seq<string>)
    requires ls != []
    ensures Indent + Join(ls, "\n" + Indent) == Join(IndentLines(ls), "\n")
  {
    if |ls| > 1 {
      JoinIndented(ls[1..]);
      assert IndentLines(ls)[1..] == IndentLines(ls[1..]);
      assert Indent + Join(ls, "\n" + Indent)
          == (Indent + ls[0]) + "\n" + (Indent + Join(ls[1..], "\n" + Indent));
    }
  }

  lemma {:induction false} TemplateLinesUnbroken()
    ensures forall k :: 0 <= k < |TemplateLines| ==> NoLineBreak(TemplateLines[k])
  {
    ImportLineUnbroken();
    ClassLineUnbroken();
    ConstructLineUnbroken();
    forall k | 0 <= k < |TemplateLines|
      ensures NoLineBreak(TemplateLines[k])
    {
    }
  }

  lemma {:induction false} ImportLineUnbroken()
    ensures NoLineBreak("from manim import *")
  {
  }

  lemma {:induction false} ClassLineUnbroken()
    ensures NoLineBreak("class GeneratedScene(Scene):")
  {
  }

  lemma {:induction false} ConstructLineUnbroken()
    ensures NoLineBreak("    def construct(self):")
  {
  }

  lemma {:induction false} IndentedHaveNoBreak(ls: seq<string>)
    requires forall k :: 0 <= k < |ls| ==> NoLineBreak(ls[k])
    ensures forall k :: 0 <= k < |ls| ==> NoLineBreak(IndentLines(ls)[k])
  {
    forall k | 0 <= k < |ls|
      ensures NoLineBreak(IndentLines(ls)[k])
    {
      assert IndentLines(ls)[k] == Indent + ls[k];
    }
  }

  /** The lines the script is joined from: the template's, then the code's,
      each indented; code without lines contributes one empty line. */
  function ScriptBody(code: string): seq<string> {
    if code == [] then [""] else SplitLines(code)
  }

  /** The script's lines are the template's five lines, then every line of
      the code behind eight spaces, in order; code with no lines leaves one
      line of bare indentation. */
  lemma {:induction false} ScriptLines(code: string)
    ensures code != [] ==> SplitLines(AssembleScript(code)) == TemplateLines + IndentLines(SplitLines(code))
    ensures code == [] ==> SplitLines(AssembleScript(code)) == TemplateLines + [Indent]
  {
    var lines := TemplateLines + IndentLines(ScriptBody(code));
    ScriptIsJoin(code);
    ScriptLinesUnbroken(code);
    SplitLinesOfJoin(lines);
    assert IndentLines([""])[0] == Indent + "" == Indent;
  }

  lemma {:induction false} ScriptIsJoin(code: string)
    ensures AssembleScript(code) == Join(TemplateLines + IndentLines(ScriptBody(code)), "\n") + "\n"
  {
    var body := ScriptBody(code);
    assert Join(body, "\n" + Indent) == Join(SplitLines(code), "\n" + Indent);
    JoinIndented(body);
    JoinAppend(TemplateLines, IndentLines(body), "\n");
    assert Join(TemplateLines, "\n") + "\n" + Indent + Join(body, "\n" + Indent)
        == Join(TemplateLines, "\n") + "\n" + (Indent + Join(body, "\n" + Indent));
  }

  lemma {:induction false} ScriptLinesUnbroken(code: string)
    ensures var lines := TemplateLines + IndentLines(ScriptBody(code));
            forall k :: 0 <= k < |lines| ==> NoLineBreak(lines[k])
  {
    var body := ScriptBody(code);
    var lines := TemplateLines + IndentLines(body);
    TemplateLinesUnbroken();
    assert NoLineBreak("");
    IndentedHaveNoBreak(body);
    forall k | 0 <= k < |lines|
      ensures NoLineBreak(lines[k])
    {
      if k >= |TemplateLines| {
        assert lines[k] == IndentLines(body)[k - |TemplateLines|];
      } else {
        assert lines[k] == TemplateLines[k];
      }
    }
  }

  /** A trailing newline after the code changes nothing in the script. */
  lemma {:induction false} TrailingNewlineIgnored(code: string)
    requires code == [] || !IsLineBreak(code[|code| - 1])
    ensures AssembleScript(code + "\n") == AssembleScript(code)
  {
    if code == [] {
      assert code + "\n" == "\n";
      assert LineLength("\n") == 0;
      assert SplitLines("\n") == [""];
    } else {
      SplitLinesDropsFinalNewline(code);
    }
  }

  // ---------------------------------------------------------------------------
  // File names

  /** The temp file's stem is the output file's stem in lower case. */
  lemma {:induction false} TempStemIsLowerOutputStem(name: string)
    ensures TempFileName(name)[5..|name| + 5] == Lower(OutputFileName(name)[..|name|])
  {
    var t := TempFileName(name)[5..|name| + 5];
    var o := Lower(OutputFileName(name)[..|name|]);
    assert |t| == |o|;
    forall i | 0 <= i < |name|
      ensures t[i] == o[i]
    {
      assert TempFileName(name)[5 + i] == t[i];
    }
  }

  lemma {:induction false} LowerKeepsDot(c: char)
    ensures LowerChar(c) == '.' <==> c == '.'
  {
  }

  /** For a name without a dot, the script's folder is the temp file name
      without its `.py`. */
  lemma {:induction false} ModuleNameOfTemp(name: string)
    requires '.' !in name
    ensures ModuleName(TempFileName(name)) == TempFileName(name)[..|name| + 5]
  {
    var t := TempFileName(name);
    var stem := t[..|name| + 5];
    assert t == stem + ".py";
    forall i | 0 <= i < |stem|
      ensures stem[i] != '.'
    {
      if i >= 5 {
        assert stem[i] == t[5 + (i - 5)];
        LowerKeepsDot(name[i - 5]);
      }
    }
    RemoveAllSuffix(stem, ".py");
  }

  /** The script's folder keeps the `temp_` prefix, and has a `/` only if
      the scene name has one. */
  lemma {:induction false} ModuleNameShape(name: string)
    ensures StartsWith(ModuleName(TempFileName(name)), "temp_")
    ensures '/' !in name ==> '/' !in ModuleName(TempFileName(name))
  {
    ModuleNameStartsTemp(name);
    if '/' !in name {
      TempFileHasNoSlash(name);
      RemoveAllLacks(TempFileName(name), ".py", '/');
    }
  }

  lemma {:induction false} ModuleNameStartsTemp(name: string)
    ensures StartsWith(ModuleName(TempFileName(name)), "temp_")
  {
    var t := TempFileName(name);
    assert t == "temp_" + t[5..];
    RemoveAllKeepsPrefix("temp_", t[5..], ".py");
    var m := ModuleName(t);
    assert m[..5] == "temp_";
  }

  lemma {:induction false} TempFileHasNoSlash(name: string)
    requires '/' !in name
    ensures '/' !in TempFileName(name)
  {
    var t := TempFileName(name);
    forall i | 0 <= i < |t|
      ensures t[i] != '/'
    {
      if i < 5 {
        assert t[i] == t[..5][i];
      } else if i < |name| + 5 {
        assert t[5 + (i - 5)] == (if name[i - 5] == ' ' then '_' else LowerChar(name[i - 5]));
      } else {
        assert t[i] == t[|t| - 3..][i - |name| - 5];
      }
    }
  }

  // ---------------------------------------------------------------------------
  // The command

  /** The job writes the assembled script to the scene's temp file, and the
      command renders that file, in low quality, into the output directory,
      naming the class the template defines and the `.mp4` file for the
      scene. */
  lemma {:induction false} JobRendersItsScript(code: string, sceneName: string, outputDir: string)
    ensures var job := JobFor(code, sceneName, outputDir);
            |job.command| == 8 && job.command[0] == "manim" && job.command[1] == "-ql"
            && job.command[6] == job.scriptFile && StartsWith(job.scriptFile, "temp_")
            && EndsWith(job.scriptFile, ".py")
            && TemplateLines[3] == "class " + job.command[7] + "(Scene):"
            && job.command[2] == "--media_dir" && job.command[3] == outputDir
            && job.command[4] == "-o" && EndsWith(job.command[5], ".mp4")
            && job.command[5][..|sceneName|] == Slug(sceneName)
    ensures var job := JobFor(code, sceneName, outputDir);
            job.script == AssembleScript(code) && job.scriptFile == TempFileName(sceneName)
            && job.command[5] == OutputFileName(sceneName)
  {
    OutputStemIsSlug(sceneName);
    TemplateDefinesSceneClass();
  }

  lemma {:induction false} OutputStemIsSlug(name: string)
    ensures OutputFileName(name)[..|name|] == Slug(name)
  {
  }

  lemma {:induction false} TemplateDefinesSceneClass()
    ensures TemplateLines[3] == "class " + SceneClass + "(Scene):"
  {
  }

  // ---------------------------------------------------------------------------
  // The guessed path

  lemma {:induction false} JoinStepRelative(path: string, part: string)
    requires path != [] && !EndsWith(path, "/") && !StartsWith(part, "/")
    ensures JoinStep(path, part) == path + "/" + part
  {
  }

  /** Joining a relative part that does not end in `/` onto a path that does
      not either leaves a path that does not. */
  lemma {:induction false} JoinStepKeepsShape(path: string, part: string)
    requires path != [] && !EndsWith(path, "/")
    requires part != [] && !StartsWith(part, "/") && !EndsWith(part, "/")
    ensures JoinStep(path, part) == path + "/" + part
    ensures JoinStep(path, part) != [] && !EndsWith(JoinStep(path, part), "/")
  {
    var r := path + "/" + part;
    assert r[|r| - 1] == part[|part| - 1];
    assert !EndsWith(part, "/") ==> part[|part| - 1] != '/' by {
      assert part[|part| - 1..] == [part[|part| - 1]];
    }
  }

  /** `os.path.join` of four parts is four join steps. */
  lemma {:induction false} PathJoinFour(path: string, a: string, b: string, c: string, d: string)
    ensures PathJoin(path, [a, b, c, d]) == JoinStep(JoinStep(JoinStep(JoinStep(path, a), b), c), d)
  {
    var p1 := JoinStep(path, a);
    var p2 := JoinStep(p1, b);
    var p3 := JoinStep(p2, c);
    PathJoinCons(path, a, [b, c, d]);
    PathJoinCons(p1, b, [c, d]);
    PathJoinCons(p2, c, [d]);
    PathJoinCons(p3, d, []);
  }

  lemma {:induction false} PathJoinCons(path: string, a: string, rest: seq<string>)
    ensures PathJoin(path, [a] + rest) == PathJoin(JoinStep(path, a), rest)
  {
    assert ([a] + rest)[1..] == rest;
  }

  lemma {:induction false} LayoutSlashes(dir: string, m: string, o: string)
    ensures dir + "/" + "videos" + "/" + m + "/" + "480p15" + "/" + o
         == dir + "/videos/" + m + "/480p15/" + o
  {
    assert "/" + "videos" + "/" == "/videos/";
    assert "/" + "480p15" + "/" == "/480p15/";
  }

  lemma {:induction false} LiteralPartsRelative()
    ensures !StartsWith("videos", "/") && !EndsWith("videos", "/")
    ensures !StartsWith("480p15", "/") && !EndsWith("480p15", "/")
  {
    assert "videos"[0] == 'v' && "videos"[5..] == "s";
    assert "480p15"[0] == '4' && "480p15"[5..] == "5";
  }

  /** Under a directory that does not end in `/`, the guessed path is the
      folders of Manim's layout separated by `/`. */
  lemma {:induction false} FallbackLayout(outputDir: string, tempFile: string, outputFile: string)
    requires outputDir != [] && !EndsWith(outputDir, "/")
    requires var m := ModuleName(tempFile); m != [] && !StartsWith(m, "/") && !EndsWith(m, "/")
    requires !StartsWith(outputFile, "/")
    ensures FallbackPath(outputDir, tempFile, outputFile)
         == outputDir + "/videos/" + ModuleName(tempFile) + "/480p15/" + outputFile
  {
    var m := ModuleName(tempFile);
    PathJoinFour(outputDir, "videos", m, "480p15", outputFile);
    LiteralPartsRelative();
    JoinStepKeepsShape(outputDir, "videos");
    var p1 := outputDir + "/" + "videos";
    JoinStepKeepsShape(p1, m);
    var p2 := p1 + "/" + m;
    JoinStepKeepsShape(p2, "480p15");
    var p3 := p2 + "/" + "480p15";
    JoinStepRelative(p3, outputFile);
    LayoutSlashes(outputDir, m, outputFile);
  }

  /** The guessed path for a scene under `output_dir`. */
  lemma {:induction false} SceneFallbackPath(name: string, outputDir: string)
    requires outputDir != [] && !EndsWith(outputDir, "/")
    requires '/' !in name
    ensures FallbackPath(outputDir, TempFileName(name), OutputFileName(name))
         == outputDir + "/videos/" + ModuleName(TempFileName(name)) + "/480p15/" + OutputFileName(name)
  {
    ModuleNameShape(name);
    var m := ModuleName(TempFileName(name));
    assert m[0] == 't';
    assert m[|m| - 1] in m;
    var o := OutputFileName(name);
    assert !StartsWith(o, "/") by {
      if name != [] { assert o[0] != '/'; } else { assert o[0] == o[|o| - 4..][0]; }
    }
    FallbackLayout(outputDir, TempFileName(name), o);
  }

  /** A scene name starting with `/` makes the guessed path the bare output
      file name: an absolute part restarts `os.path.join`. */
  lemma {:induction false} AbsoluteNameWins(name: string, outputDir: string)
    requires StartsWith(name, "/")
    ensures FallbackPath(outputDir, TempFileName(name), OutputFileName(name)) == OutputFileName(name)
  {
    var o := OutputFileName(name);
    assert o[0] == name[0];
    assert StartsWith(o, "/");
    var parts := ["videos", ModuleName(TempFileName(name)), "480p15", o];
    AbsoluteLastPart(outputDir, parts);
  }

  /** An absolute last part is the whole joined path. */
  lemma {:induction false} AbsoluteLastPart(path: string, parts: seq<string>)
    requires parts != [] && StartsWith(parts[|parts| - 1], "/")
    ensures PathJoin(path, parts) == parts[|parts| - 1]
    decreases |parts|
  {
    if |parts| > 1 {
      AbsoluteLastPart(JoinStep(path, parts[0]), parts[1..]);
    }
  }

  // ---------------------------------------------------------------------------
  // The printed path

  lemma {:induction false} QuoteEndFinds(s: string, k: nat, e: nat)
    requires k <= e < |s| && s[e] == '\''
    requires forall m :: k <= m < e ==> s[m] != '\'' && s[m] != '\n'
    ensures QuoteEnd(s, k) == Some(e)
    decreases e - k
  {
    if k < e {
      QuoteEndFinds(s, k + 1, e);
    }
  }

  /** No match starts in `[i, k)`. */
  predicate NoReadyBetween(s: string, i: nat, k: nat)
    decreases k - i
  {
    i >= k || (ReadyAt(s, i).None? && NoReadyBetween(s, i + 1, k))
  }

  lemma {:induction false} NoReadyBetweenOf(s: string, i: nat, k: nat)
    requires forall j :: i <= j < k ==> ReadyAt(s, j).None?
    ensures NoReadyBetween(s, i, k)
    decreases k - i
  {
    if i < k {
      NoReadyBetweenOf(s, i + 1, k);
    }
  }

  /** The search steps over offsets where nothing matches. */
  lemma {:induction false} ReadySearchSkips(s: string, i: nat, k: nat)
    requires i <= k <= |s| && NoReadyBetween(s, i, k)
    ensures ReadySearch(s, i) == ReadySearch(s, k)
    decreases k - i
  {
    if i < k {
      ReadySearchSkips(s, i + 1, k);
    }
  }

  /** No match can start inside a prefix of the text without an `F`. */
  lemma {:induction false} NoReadyBefore(s: string, pre: string)
    requires |pre| <= |s| && s[..|pre|] == pre && 'F' !in pre
    ensures forall i :: 0 <= i < |pre| ==> ReadyAt(s, i).None?
  {
    forall i | 0 <= i < |pre|
      ensures ReadyAt(s, i).None?
    {
      assert s[i] == pre[i];
    }
  }

  /** A match at `i` whose group is `p`. */
  lemma {:induction false} ReadyAtMessage(s: string, i: nat, p: string)
    requires p != [] && '\n' !in p && '\'' !in p[1..]
    requires i + |ReadyPrefix| + |p| < |s|
    requires s[i..i + |ReadyPrefix|] == ReadyPrefix
    requires s[i + |ReadyPrefix|..i + |ReadyPrefix| + |p|] == p
    requires s[i + |ReadyPrefix| + |p|] == '\''
    ensures ReadyAt(s, i) == Some(p)
  {
    var j := i + |ReadyPrefix|;
    var e := j + |p|;
    assert s[j] == p[0];
    forall m | j + 1 <= m < e
      ensures s[m] != '\'' && s[m] != '\n'
    {
      assert s[m] == p[m - j];
      assert p[m - j] == p[1..][m - j - 1];
    }
    QuoteEndFinds(s, j + 1, e);
  }

  /** Where the pieces of a message line sit in the text. */
  lemma {:induction false} MessagePieces(pre: string, p: string, post: string)
    ensures var s := pre + ReadyPrefix + p + "'" + post;
            var j := |pre| + |ReadyPrefix|;
            j + |p| < |s| && s[..|pre|] == pre && s[|pre|..j] == ReadyPrefix
            && s[j..j + |p|] == p && s[j + |p|] == '\''
  {
    var tail := p + "'" + post;
    var s := pre + (ReadyPrefix + tail);
    assert s == pre + ReadyPrefix + p + "'" + post;
    var i := |pre|;
    assert s[..i] == pre;
    assert s[i..] == ReadyPrefix + tail;
    assert s[i..i + |ReadyPrefix|] == ReadyPrefix;
    assert s[i + |ReadyPrefix|..] == tail;
    assert tail[..|p|] == p && tail[|p|] == '\'';
  }

  /** The search finds the first position with a match. */
  lemma {:induction false} FindReadyAt(s: string, i: nat, p: string)
    requires i < |s| && ReadyAt(s, i) == Some(p)
    requires forall j :: 0 <= j < i ==> ReadyAt(s, j).None?
    ensures FindReady(s) == Some(p)
  {
    NoReadyBetweenOf(s, 0, i);
    ReadySearchSkips(s, 0, i);
  }

  /** The group is exactly what sits between `File ready at '` and the next
      quote, when no `F` comes before the message. */
  lemma {:induction false} ReadyLineFound(pre: string, p: string, post: string)
    requires 'F' !in pre
    requires p != [] && '\n' !in p && '\'' !in p[1..]
    ensures FindReady(pre + ReadyPrefix + p + "'" + post) == Some(p)
  {
    var s := pre + ReadyPrefix + p + "'" + post;
    MessagePieces(pre, p, post);
    NoReadyBefore(s, pre);
    ReadyAtMessage(s, |pre|, p);
    FindReadyAt(s, |pre|, p);
  }

  // ---------------------------------------------------------------------------
  // Resolution

  /** Manim's own report on stdout is taken, whatever stderr says and whether
      or not the guessed file exists. */
  lemma {:induction false} StdoutReportWins(code: string, sceneName: string, outputDir: string,
                                           run: RenderJob -> Process, fileExists: string -> bool,
                                           pre: string, p: string, post: string)
    requires 'F' !in pre && p != [] && '\n' !in p && '\'' !in p[1..]
    requires run(JobFor(code, sceneName, outputDir)).Exited?
    requires run(JobFor(code, sceneName, outputDir)).status == 0
    requires run(JobFor(code, sceneName, outputDir)).stdout == pre + ReadyPrefix + p + "'" + post
    ensures RenderCode(code, sceneName, outputDir, run, fileExists) == Success(Some(p))
  {
    ReadyLineFound(pre, p, post);
  }

  /** With no report on stdout, the report on stderr is taken, whether or
      not the guessed file exists. */
  lemma {:induction false} StderrReportUsed(code: string, sceneName: string, outputDir: string,
                                           run: RenderJob -> Process, fileExists: string -> bool,
                                           pre: string, p: string, post: string)
    requires 'F' !in pre && p != [] && '\n' !in p && '\'' !in p[1..]
    requires run(JobFor(code, sceneName, outputDir)).Exited?
    requires run(JobFor(code, sceneName, outputDir)).status == 0
    requires FindReady(run(JobFor(code, sceneName, outputDir)).stdout).None?
    requires run(JobFor(code, sceneName, outputDir)).stderr == pre + ReadyPrefix + p + "'" + post
    ensures RenderCode(code, sceneName, outputDir, run, fileExists) == Success(Some(p))
  {
    ReadyLineFound(pre, p, post);
  }

  /** Without a report the guessed path is returned exactly when the file is
      there; otherwise the render yields nothing. */
  lemma {:induction false} FallbackOnlyIfPresent(code: string, sceneName: string, outputDir: string,
                                                run: RenderJob -> Process, fileExists: string -> bool)
    requires run(JobFor(code, sceneName, outputDir)).Exited?
    requires run(JobFor(code, sceneName, outputDir)).status == 0
    requires FindReady(run(JobFor(code, sceneName, outputDir)).stdout).None?
    requires FindReady(run(JobFor(code, sceneName, outputDir)).stderr).None?
    ensures var guess := FallbackPath(outputDir, TempFileName(sceneName), OutputFileName(sceneName));
            RenderCode(code, sceneName, outputDir, run, fileExists)
            == Success(if fileExists(guess) then Some(guess) else None)
  {
  }
}
