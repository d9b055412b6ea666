/**
  One Jenkinsfile converted end to end (`_convert_jenkinsfile`,
  jenkins-to-gha-converter.py:123-151): the pipeline is read from the file's
  text and the files beside it, the workflow is built and written as YAML text
  under a name taken from the directory.

  The file system is not modelled: the text of the Jenkinsfile, the names of
  the files in its directory and its directory's path relative to the input
  root are parameters, and the result is the file name and text that would be
  written. The command extractor `_extract_stage_commands` is the parameter
  `commandsOf`.
 */
module Converter {
  import opened Options
  import opened Text
  import opened Document
  import opened Stages
  import opened Project
  import opened Workflow
  import opened Yaml
  import opened JobSet

  /** A workflow file to write: its name and its text. */
  datatype Output = Output(fileName: string, text: string)

  /** `_parse_jenkinsfile`: stages from the text, type and working directory from the directory. */
  function ReadPipeline(content: string, files: set<string>, rel: seq<string>,
                        commandsOf: (string, string) -> seq<string>): (p: Pipeline)
    ensures |p.stages| == |Scan(content)|
    ensures forall i :: 0 <= i < |p.stages| ==>
      p.stages[i].name == Scan(content)[i] && p.stages[i].kind == Classify(Lower(Scan(content)[i]))
    ensures p.kind == Maven <==> "pom.xml" in files
    ensures p.workingDirectory.Some? <==> p.kind != Generic
  {
    var d := Detect(files, rel);
    Pipeline(ParseStages(content, commandsOf), d.kind, d.workingDirectory)
  }

  /** `'\n'.join(dict_to_yaml(workflow)) + '\n'`. */
  function YamlText(doc: Value): (text: string)
    ensures |text| > 0 && text[|text| - 1] == '\n'
  {
    Join(Render(doc, 0), "\n") + "\n"
  }

  /** `_convert_jenkinsfile` without its reads and writes. The only error the
      converter can meet is indexing an empty list of Java versions for a Maven
      project; the catch-all reports it and writes no file. */
  function ConvertFile(cfg: Config, content: string, files: set<string>, rel: seq<string>,
                       commandsOf: (string, string) -> seq<string>): (r: Result<Output>)
    ensures r.Failure? <==> "pom.xml" in files && |cfg.javaVersions| == 0
    ensures r.Success? ==> StartsWith(r.value.fileName, "ci") && EndsWith(r.value.fileName, ".yml")
  {
    var p := ReadPipeline(content, files, rel, commandsOf);
    var doc :- BuildWorkflow(cfg, p);
    Success(Output(FileName(rel), YamlText(doc)))
  }

  /** The file a Jenkinsfile's workflow is written to, under `.github/workflows`. */
  function FileName(rel: seq<string>): (name: string)
    ensures StartsWith(name, "ci") && EndsWith(name, ".yml")
  {
    var name := WorkflowName(rel) + ".yml";
    assert name[..2] == "ci";
    assert name[|name| - 4..] == ".yml";
    name
  }

  // ---------------------------------------------------------------------------
  // The layout of every generated file

  const PushLines: seq<string> := ["  push:", "    branches:", "    - main", "    - develop"]
  const PullRequestLines: seq<string> := ["  pull_request:", "    branches:", "    - main"]

  /** The lines before the jobs, the same in every workflow file. */
  const HeaderLines: seq<string> := ["name: CI/CD Pipeline", "on:"] + PushLines + PullRequestLines + ["jobs:"]

  lemma ItemOfString(a: string, n: nat)
    ensures ItemsLines([Str(a)], n) == [Indent(n) + "- " + a]
  {
    assert [Str(a)][1..] == [];
    assert ItemLines(Str(a), n) == [Indent(n) + "- " + a];
    assert ItemsLines([Str(a)], n) == ItemLines(Str(a), n) + ItemsLines([], n);
  }

  lemma ItemsOfStrings(a: string, b: string, n: nat)
    ensures ItemsLines([Str(a), Str(b)], n) == [Indent(n) + "- " + a, Indent(n) + "- " + b]
  {
    assert [Str(a), Str(b)][1..] == [Str(b)];
    ItemOfString(b, n);
    assert ItemLines(Str(a), n) == [Indent(n) + "- " + a];
    assert ItemsLines([Str(a), Str(b)], n) == ItemLines(Str(a), n) + ItemsLines([Str(b)], n);
  }

  /** A trigger entry: its key, then its `branches` list one level deeper. */
  lemma BranchesEntry(key: string, items: seq<Value>, n: nat)
    ensures EntryLines(key, Map([("branches", List(items))]), n)
      == [Indent(n) + key + ":", Indent(n + 1) + "branches:"] + ItemsLines(items, n + 1)
  {
    var fs := [("branches", List(items))];
    RenderFirstEntry(fs, n + 1);
    assert fs[1..] == [];
    assert EntryLines("branches", List(items), n + 1)
      == [Indent(n + 1) + "branches" + ":"] + ItemsLines(items, n + 1);
    assert Indent(n + 1) + "branches" + ":" == Indent(n + 1) + "branches:";
    assert Render(Map(fs), n + 1) == [Indent(n + 1) + "branches:"] + ItemsLines(items, n + 1);
  }

  lemma TwoIndents()
    ensures Indent(1) == "  " && Indent(2) == "    "
    ensures Indent(1 + 1) + "branches:" == "    branches:"
  {
    assert Indent(1) == Indent(0) + "  ";
    assert Indent(0) == "";
    assert Indent(2) == Indent(1) + "  ";
  }

  lemma PushEntry()
    ensures EntryLines("push", PushTrigger, 1) == PushLines
  {
    TwoIndents();
    BranchEntry("push", "main", "develop", "  push:", "    - main", "    - develop");
  }

  lemma PullRequestEntry()
    ensures EntryLines("pull_request", PullRequestTrigger, 1) == PullRequestLines
  {
    TwoIndents();
    BranchEntry1("pull_request", "main", "  pull_request:", "    - main");
  }

  /** A trigger with two branches, at level one. */
  lemma BranchEntry(key: string, a: string, b: string, keyLine: string, aLine: string, bLine: string)
    requires Indent(1) == "  " && Indent(2) == "    "
    requires keyLine == "  " + key + ":" && aLine == "    - " + a && bLine == "    - " + b
    ensures EntryLines(key, Map([("branches", List([Str(a), Str(b)]))]), 1)
      == [keyLine, "    branches:", aLine, bLine]
  {
    BranchesEntry(key, [Str(a), Str(b)], 1);
    ItemsOfStrings(a, b, 2);
    assert Indent(1 + 1) + "branches:" == "    branches:";
    assert "    " + "- " + a == aLine;
    assert "    " + "- " + b == bLine;
  }

  /** A trigger with one branch, at level one. */
  lemma BranchEntry1(key: string, a: string, keyLine: string, aLine: string)
    requires Indent(1) == "  " && Indent(2) == "    "
    requires keyLine == "  " + key + ":" && aLine == "    - " + a
    ensures EntryLines(key, Map([("branches", List([Str(a)]))]), 1)
      == [keyLine, "    branches:", aLine]
  {
    BranchesEntry(key, [Str(a)], 1);
    ItemOfString(a, 2);
    assert Indent(1 + 1) + "branches:" == "    branches:";
    assert "    " + "- " + a == aLine;
  }

  lemma TriggerEntry()
    ensures EntryLines("on", Triggers, 0) == ["on:"] + PushLines + PullRequestLines
  {
    var es := Triggers.entries;
    PushEntry();
    PullRequestEntry();
    RenderFirstEntry(es, 1);
    assert es[1..] == [("pull_request", PullRequestTrigger)];
    RenderFirstEntry(es[1..], 1);
    assert es[1..][1..] == [];
    assert Render(Triggers, 1) == PushLines + PullRequestLines;
    assert EntryLines("on", Triggers, 0) == ["" + "on" + ":"] + Render(Triggers, 1);
    assert "" + "on" + ":" == "on:";
  }

  lemma NameEntry()
    ensures EntryLines("name", Str("CI/CD Pipeline"), 0) == ["name: CI/CD Pipeline"]
  {
    assert Indent(0) == "";
    assert '\n' !in "CI/CD Pipeline";
    assert "" + "name" + ": " + "CI/CD Pipeline" == "name: CI/CD Pipeline";
  }

  lemma JobsEntry(jobs: seq<(string, Value)>)
    ensures EntryLines("jobs", Map(jobs), 0) == ["jobs:"] + RenderEntries(jobs, 1)
  {
    assert Indent(0) == "";
    assert "" + "jobs" + ":" == "jobs:";
  }

  /** Every workflow file opens with the same ten lines, the last of them `jobs:`;
      the jobs follow one level deeper, in order. */
  lemma WorkflowLayout(jobs: seq<(string, Value)>)
    ensures Render(WorkflowDocument(jobs), 0) == HeaderLines + RenderEntries(jobs, 1)
  {
    NameEntry();
    TriggerEntry();
    var name := ["name: CI/CD Pipeline"];
    var on := ["on:"] + PushLines + PullRequestLines;
    ThreeLayout(Str("CI/CD Pipeline"), Triggers, jobs, name, on);
    assert HeaderLines == name + on + ["jobs:"];
  }

  /** The top-level mapping of a workflow, with its name and trigger entries
      already rendered. */
  lemma ThreeLayout(a: Value, b: Value, jobs: seq<(string, Value)>, nameLines: seq<string>, onLines: seq<string>)
    requires EntryLines("name", a, 0) == nameLines && EntryLines("on", b, 0) == onLines
    ensures Render(Map([("name", a), ("on", b), ("jobs", Map(jobs))]), 0)
      == nameLines + onLines + ["jobs:"] + RenderEntries(jobs, 1)
  {
    var es := [("name", a), ("on", b), ("jobs", Map(jobs))];
    ThreeEntries(es, 0);
    JobsEntry(jobs);
  }

  lemma ThreeEntries(es: seq<(string, Value)>, n: nat)
    requires |es| == 3
    ensures Render(Map(es), n)
      == EntryLines(es[0].0, es[0].1, n) + EntryLines(es[1].0, es[1].1, n) + EntryLines(es[2].0, es[2].1, n)
  {
    assert es[1..][1..][1..] == [];
    assert RenderEntries(es[1..][1..], n) == EntryLines(es[2].0, es[2].1, n);
    assert RenderEntries(es[1..], n) == EntryLines(es[1].0, es[1].1, n) + RenderEntries(es[1..][1..], n);
  }

  /** The text of every workflow document begins with the header, each line
      ended by a line feed. */
  lemma HeaderText(jobs: seq<(string, Value)>)
    ensures StartsWith(YamlText(WorkflowDocument(jobs)), Join(HeaderLines, "\n") + "\n")
  {
    WorkflowLayout(jobs);
    var body := RenderEntries(jobs, 1);
    var head := Join(HeaderLines, "\n") + "\n";
    if body == [] {
      assert HeaderLines + body == HeaderLines;
    } else {
      JoinAppend(HeaderLines, body, "\n");
      assert YamlText(WorkflowDocument(jobs)) == head + (Join(body, "\n") + "\n");
    }
  }

  /** A converted file begins with the header. */
  lemma ConvertedHeader(cfg: Config, content: string, files: set<string>, rel: seq<string>,
                        commandsOf: (string, string) -> seq<string>)
    requires "pom.xml" !in files || |cfg.javaVersions| > 0
    ensures var r := ConvertFile(cfg, content, files, rel, commandsOf);
      && r.Success?
      && r.value.fileName == FileName(rel)
      && StartsWith(r.value.text, Join(HeaderLines, "\n") + "\n")
  {
    var p := ReadPipeline(content, files, rel, commandsOf);
    var jobs := if p.kind == Maven then MavenJobs(cfg, p) else GenericJobs(cfg, p);
    assert BuildWorkflow(cfg, p).value == WorkflowDocument(jobs);
    HeaderText(jobs);
  }

  /** The lines that open the top-level jobs name them in order. */
  lemma JobLinesInOrder(jobs: seq<(string, Value)>)
    requires forall i :: 0 <= i < |jobs| ==> PlainKey(jobs[i].0)
    ensures var lines := Render(WorkflowDocument(jobs), 0);
      && |lines| >= |HeaderLines| && lines[..|HeaderLines|] == HeaderLines
      && var keyLines := KeyLines(lines[|HeaderLines|..], 1);
      && |keyLines| == |jobs|
      && forall i :: 0 <= i < |jobs| ==> StartsWith(keyLines[i], "  " + jobs[i].0)
  {
    WorkflowLayout(jobs);
    var lines := Render(WorkflowDocument(jobs), 0);
    assert lines[|HeaderLines|..] == RenderEntries(jobs, 1);
    assert Indent(1) == "  " by { TwoIndents(); }
    KeysInOrder(jobs, 1);
  }

  /** Two Jenkinsfiles in directories of the same name, however deep, are
      written to the same file. */
  lemma SameDirectoryNameSameFile(cfg: Config, c1: string, c2: string, f1: set<string>, f2: set<string>,
                                  outer1: seq<string>, outer2: seq<string>, dir: string,
                                  commandsOf: (string, string) -> seq<string>)
    requires "pom.xml" !in f1 || |cfg.javaVersions| > 0
    requires "pom.xml" !in f2 || |cfg.javaVersions| > 0
    ensures ConvertFile(cfg, c1, f1, outer1 + [dir], commandsOf).value.fileName
         == ConvertFile(cfg, c2, f2, outer2 + [dir], commandsOf).value.fileName
  {
    ConvertedHeader(cfg, c1, f1, outer1 + [dir], commandsOf);
    ConvertedHeader(cfg, c2, f2, outer2 + [dir], commandsOf);
    WorkflowNameLastSegment(outer1, dir);
    WorkflowNameLastSegment(outer2, dir);
  }
}
