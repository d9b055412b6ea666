/**
  What the converter learns from the directory holding a Jenkinsfile: the kind
  of build (jenkins-to-gha-converter.py:164-173), the working directory the
  Maven steps run in (:296-300) and the name of the workflow file (:226-231).

  A directory is given by the set of names of the files it holds and by its
  path relative to the input root, as a sequence of path segments (empty for
  the root itself).
 */
module Project {
  import opened Options
  import opened Text

  datatype ProjectType = Maven | Gradle | Node | Generic

  /** A path segment as `pathlib` produces it: non-empty, free of the separator,
      and neither `.` nor `..`. */
  predicate ValidSegment(seg: string) {
    |seg| > 0 && '/' !in seg && seg != "." && seg != ".."
  }

  predicate ValidPath(rel: seq<string>) {
    forall i :: 0 <= i < |rel| ==> ValidSegment(rel[i])
  }

  /** `str(project_dir.relative_to(input_path))`: `.` for the root, otherwise the
      segments joined with `/`. */
  function PathText(rel: seq<string>): (r: string)
  {
    if |rel| == 0 then "." else Join(rel, "/")
  }

  /** The project type and the raw working directory recorded for it. */
  datatype Detection = Detection(kind: ProjectType, workingDirectory: Option<string>)

  /** The build-file test of `_parse_jenkinsfile`: the first of `pom.xml`,
      `build.gradle` or `build.gradle.kts`, `package.json` present decides;
      only a recognised project records its directory. */
  function Detect(files: set<string>, rel: seq<string>): (d: Detection)
    ensures d.kind == Maven <==> "pom.xml" in files
    ensures d.kind == Gradle <==>
      "pom.xml" !in files && ("build.gradle" in files || "build.gradle.kts" in files)
    ensures d.kind == Node <==>
      "pom.xml" !in files && "build.gradle" !in files && "build.gradle.kts" !in files
      && "package.json" in files
    ensures d.workingDirectory.Some? <==> d.kind != Generic
    ensures d.workingDirectory.Some? ==> d.workingDirectory.value == PathText(rel)
  {
    var here := Some(PathText(rel));
    if "pom.xml" in files then Detection(Maven, here)
    else if "build.gradle" in files || "build.gradle.kts" in files then Detection(Gradle, here)
    else if "package.json" in files then Detection(Node, here)
    else Detection(Generic, None)
  }

  /** A build file of a lower priority never changes the outcome once a higher
      one is present: adding files to a Maven directory keeps it Maven. */
  lemma MavenWins(files: set<string>, extra: set<string>, rel: seq<string>)
    requires "pom.xml" in files
    ensures Detect(files + extra, rel) == Detect(files, rel)
    ensures Detect(files, rel) == Detection(Maven, Some(PathText(rel)))
  {
  }

  /** Without a Maven build file, a Gradle build file wins over `package.json`. */
  lemma GradleBeatsNode(files: set<string>, rel: seq<string>)
    requires "pom.xml" !in files && "build.gradle.kts" in files && "package.json" in files
    ensures Detect(files, rel).kind == Gradle
  {
  }

  /** `working_directory` for the Maven steps: a missing value and the root `.`
      both mean "no working directory"; anything else becomes `./<path>`. */
  function NormalizeWorkingDirectory(wd: Option<string>): (r: Option<string>)
    ensures r.Some? <==> wd.Some? && wd.value != "" && wd.value != "."
    ensures r.Some? ==> r.value == "./" + wd.value && |r.value| > 2
  {
    if wd.Some? && wd.value != "" && wd.value != "." then Some("./" + wd.value) else None
  }

  lemma {:induction false} JoinLength(parts: seq<string>, sep: string)
    requires |parts| > 0
    ensures |Join(parts, sep)| >= |parts[0]| + (|parts| - 1) * |sep|
    decreases |parts|
  {
    if |parts| > 1 {
      JoinLength(parts[1..], sep);
    }
  }

  /** The text of a path below the root is never empty and never `.`. */
  lemma NestedPathText(rel: seq<string>)
    requires ValidPath(rel) && |rel| > 0
    ensures PathText(rel) != "" && PathText(rel) != "."
  {
    assert ValidSegment(rel[0]);
    JoinLength(rel, "/");
    if |rel| == 1 {
      assert PathText(rel) == rel[0];
    }
  }

  /** The Maven steps get a working directory exactly when the project is
      recognised and lies below the root; it is then `./` and the joined path. */
  lemma WorkingDirectoryPresence(files: set<string>, rel: seq<string>)
    requires ValidPath(rel)
    ensures var r := NormalizeWorkingDirectory(Detect(files, rel).workingDirectory);
      && (r.Some? <==> Detect(files, rel).kind != Generic && |rel| > 0)
      && (r.Some? ==> r.value == "./" + Join(rel, "/"))
  {
    if |rel| > 0 {
      NestedPathText(rel);
    }
  }

  /** A project at the root of the input never has a working directory. */
  lemma RootHasNoWorkingDirectory(files: set<string>)
    ensures NormalizeWorkingDirectory(Detect(files, []).workingDirectory) == None
  {
  }

  /** `proj/sub` with a `pom.xml` runs its Maven steps in `./proj/sub`. */
  lemma NestedMavenDirectory()
    ensures NormalizeWorkingDirectory(Detect({"pom.xml"}, ["proj", "sub"]).workingDirectory)
      == Some("./proj/sub")
  {
    assert Join(["sub"], "/") == "sub";
    assert Join(["proj", "sub"], "/") == "proj" + "/" + Join(["sub"], "/");
    assert "proj" + "/" + "sub" == "proj/sub";
    assert PathText(["proj", "sub"]) == "proj/sub";
    assert "./" + "proj/sub" == "./proj/sub";
  }

  /** `_generate_workflow_name`: `ci` for a Jenkinsfile at the root, otherwise
      `ci-` and the name of the directory holding it, lower-cased, spaces
      turned into dashes. */
  function WorkflowName(rel: seq<string>): (r: string)
  {
    if |rel| > 0 && rel[|rel| - 1] != "" && rel[|rel| - 1] != "." then
      "ci-" + ReplaceChar(Lower(rel[|rel| - 1]), ' ', '-')
    else "ci"
  }

  /** The name is `ci` exactly at the root; below it, it is `ci-` followed by the
      last segment, character by character, with upper case folded and spaces
      replaced, so it holds neither spaces nor upper-case letters. */
  lemma WorkflowNameShape(rel: seq<string>)
    requires ValidPath(rel)
    ensures var r := WorkflowName(rel);
      && (r == "ci" <==> |rel| == 0)
      && (|rel| > 0 ==>
            var last := rel[|rel| - 1];
            && StartsWith(r, "ci-") && |r| == 3 + |last|
            && forall i :: 0 <= i < |last| ==>
                 r[3 + i] == (if last[i] == ' ' then '-' else LowerChar(last[i])))
      && (forall i :: 0 <= i < |r| ==> r[i] != ' ' && !IsUpper(r[i]))
  {
    if |rel| > 0 {
      assert ValidSegment(rel[|rel| - 1]);
      var r := WorkflowName(rel);
      assert |r| > 3;
    }
  }

  /** Only the innermost directory matters: `a/sub` and `b/c/sub` share a name. */
  lemma WorkflowNameLastSegment(outer: seq<string>, dir: string)
    ensures WorkflowName(outer + [dir]) == WorkflowName([dir])
  {
  }

  /** A directory whose name folds, character by character, to `expected`
      gives the workflow `ci-` and `expected`. */
  lemma NameOfDirectory(rel: seq<string>, dir: string, expected: string)
    requires |rel| > 0 && rel[|rel| - 1] == dir && dir != "" && dir != "."
    requires |expected| == |dir|
    requires forall i :: 0 <= i < |dir| ==>
      expected[i] == (if dir[i] == ' ' then '-' else LowerChar(dir[i]))
    ensures WorkflowName(rel) == "ci-" + expected
  {
    var low := Lower(dir);
    assert ReplaceChar(low, ' ', '-') == expected;
  }

  /** Directories whose names differ only in case, or in a space where the
      other has a dash, share a workflow name: `My App` and `my-app` both give
      `ci-my-app`. */
  lemma NamesCollide(a: string, b: string)
    requires a != "" && a != "." && b != "" && b != "."
    requires |a| == |b|
    requires forall i :: 0 <= i < |a| ==>
      (if a[i] == ' ' then '-' else LowerChar(a[i])) == (if b[i] == ' ' then '-' else LowerChar(b[i]))
    ensures WorkflowName([a]) == WorkflowName([b])
  {
    var expected := ReplaceChar(Lower(a), ' ', '-');
    NameOfDirectory([a], a, expected);
    NameOfDirectory([b], b, expected);
  }
}
