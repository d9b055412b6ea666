/**
  Where the converter looks for pipelines and what it copies beside them.

  `_find_jenkinsfiles` (jenkins-to-gha-converter.py:106-122) walks the input
  directory top-down, never entering a directory whose name starts with `.git`,
  and keeps every file whose name is one of three pipeline file names.
  `_copy_source_code` (:491-531) decides for each entry at the top of the input
  whether to copy it; the decision is a pure function of the entry's name, its
  kind and whether the destination already exists.

  A directory is a `Tree`: the names of its files and its subdirectories with
  their names, in the order the file system lists them.
 */
module Discovery {
  import opened Text

  // ---------------------------------------------------------------------------
  // Finding pipeline files

  const PipelineFileNames: seq<string> := ["Jenkinsfile", "jenkinsfile", "Jenkinsfile.groovy"]

  /** `file in jenkinsfile_names`: exact, case-sensitive membership. */
  predicate IsPipelineFileName(name: string) {
    name in PipelineFileNames
  }

  /** `dirs[:] = [d for d in dirs if not d.startswith('.git')]`. */
  predicate Entered(dir: string) {
    !StartsWith(dir, ".git")
  }

  datatype Tree = Tree(files: seq<string>, dirs: seq<(string, Tree)>)

  /** `path` names a file of `t`: directory names from the top, then the file name. */
  predicate HasFile(t: Tree, path: seq<string>)
    decreases |path|
  {
    if |path| == 0 then false
    else if |path| == 1 then path[0] in t.files
    else exists i :: 0 <= i < |t.dirs| && t.dirs[i].0 == path[0] && HasFile(t.dirs[i].1, path[1..])
  }

  /** Every directory on the way to the file is one the walk enters. */
  predicate Unpruned(path: seq<string>) {
    forall j :: 0 <= j < |path| - 1 ==> Entered(path[j])
  }

  /** What the walk may report: a file of the tree, in an entered directory,
      with a pipeline file name. */
  predicate Reportable(t: Tree, path: seq<string>) {
    |path| > 0 && HasFile(t, path) && Unpruned(path) && IsPipelineFileName(path[|path| - 1])
  }

  /** Every path of `paths` below the directory `name`. */
  function Under(name: string, paths: seq<seq<string>>): (r: seq<seq<string>>)
    ensures |r| == |paths|
    ensures forall i :: 0 <= i < |r| ==> r[i] == [name] + paths[i]
  {
    if |paths| == 0 then [] else [[name] + paths[0]] + Under(name, paths[1..])
  }

  /** The files of one directory that the walk reports, in listing order. */
  function PipelineFiles(files: seq<string>): (r: seq<seq<string>>)
    ensures forall i :: 0 <= i < |r| ==> |r[i]| == 1 && r[i][0] in files && IsPipelineFileName(r[i][0])
    ensures forall f :: f in files && IsPipelineFileName(f) ==> [f] in r
  {
    if |files| == 0 then []
    else (if IsPipelineFileName(files[0]) then [[files[0]]] else []) + PipelineFiles(files[1..])
  }

  /** The paths `os.walk` leads the converter to, relative to `t`: the pipeline
      files of `t` itself first, then those below each entered subdirectory. */
  function Walk(t: Tree): (r: seq<seq<string>>)
    decreases t, 1
  {
    PipelineFiles(t.files) + WalkDirs(t.dirs)
  }

  function WalkDirs(ds: seq<(string, Tree)>): (r: seq<seq<string>>)
    decreases ds, 0
  {
    if |ds| == 0 then []
    else
      assert ds[0].1 < ds[0];
      (if Entered(ds[0].0) then Under(ds[0].0, Walk(ds[0].1)) else []) + WalkDirs(ds[1..])
  }

  /** The walk reports nothing it should not: every path it yields is a
      pipeline file of the tree, reached without entering a `.git…` directory. */
  lemma {:induction false} WalkSound(t: Tree)
    ensures forall k :: 0 <= k < |Walk(t)| ==> Reportable(t, Walk(t)[k])
    decreases t, 1
  {
    var own := PipelineFiles(t.files);
    WalkDirsSound(t.dirs);
    forall k | 0 <= k < |Walk(t)| ensures Reportable(t, Walk(t)[k]) {
      if k < |own| {
        assert Walk(t)[k] == own[k];
      } else {
        var p := Walk(t)[k];
        assert p == WalkDirs(t.dirs)[k - |own|];
        var i :| 0 <= i < |t.dirs| && t.dirs[i].0 == p[0] && Entered(p[0])
          && Reportable(t.dirs[i].1, p[1..]);
        assert HasFile(t, p);
      }
    }
  }

  lemma {:induction false} WalkDirsSound(ds: seq<(string, Tree)>)
    ensures forall k :: 0 <= k < |WalkDirs(ds)| ==>
      var p := WalkDirs(ds)[k];
      |p| > 1 && Entered(p[0]) &&
      exists i :: 0 <= i < |ds| && ds[i].0 == p[0] && Reportable(ds[i].1, p[1..])
    decreases ds, 0
  {
    if |ds| > 0 {
      assert ds[0].1 < ds[0];
      var head := if Entered(ds[0].0) then Under(ds[0].0, Walk(ds[0].1)) else [];
      WalkSound(ds[0].1);
      WalkDirsSound(ds[1..]);
      forall k | 0 <= k < |WalkDirs(ds)|
        ensures var p := WalkDirs(ds)[k];
          |p| > 1 && Entered(p[0]) &&
          exists i :: 0 <= i < |ds| && ds[i].0 == p[0] && Reportable(ds[i].1, p[1..])
      {
        var p := WalkDirs(ds)[k];
        if k < |head| {
          assert p == [ds[0].0] + Walk(ds[0].1)[k];
          assert p[1..] == Walk(ds[0].1)[k];
          assert Reportable(ds[0].1, p[1..]);
        } else {
          assert p == WalkDirs(ds[1..])[k - |head|];
          var i :| 0 <= i < |ds[1..]| && ds[1..][i].0 == p[0] && Reportable(ds[1..][i].1, p[1..]);
          assert ds[i + 1] == ds[1..][i];
        }
      }
    }
  }

  /** The walk misses nothing: every pipeline file reached without entering a
      `.git…` directory is reported. */
  lemma {:induction false} WalkComplete(t: Tree, p: seq<string>)
    requires Reportable(t, p)
    ensures p in Walk(t)
    decreases |p|, 1, 0
  {
    if |p| == 1 {
      assert [p[0]] == p;
    } else {
      var i :| 0 <= i < |t.dirs| && t.dirs[i].0 == p[0] && HasFile(t.dirs[i].1, p[1..]);
      assert Reportable(t.dirs[i].1, p[1..]) by {
        assert p[1..][|p[1..]| - 1] == p[|p| - 1];
        forall j | 0 <= j < |p[1..]| - 1 ensures Entered(p[1..][j]) {
          assert p[1..][j] == p[j + 1];
        }
      }
      assert Entered(t.dirs[i].0) by { assert 0 < |p| - 1; }
      WalkDirsComplete(t.dirs, i, p[1..]);
      assert [p[0]] + p[1..] == p;
    }
  }

  lemma {:induction false} WalkDirsComplete(ds: seq<(string, Tree)>, i: nat, q: seq<string>)
    requires i < |ds| && Entered(ds[i].0) && Reportable(ds[i].1, q)
    ensures [ds[i].0] + q in WalkDirs(ds)
    decreases |q| + 1, 0, |ds|
  {
    assert ds[0].1 < ds[0];
    if i == 0 {
      WalkComplete(ds[0].1, q);
      var k :| 0 <= k < |Walk(ds[0].1)| && Walk(ds[0].1)[k] == q;
      assert Under(ds[0].0, Walk(ds[0].1))[k] == [ds[0].0] + q;
    } else {
      assert ds[1..][i - 1] == ds[i];
      WalkDirsComplete(ds[1..], i - 1, q);
    }
  }

  /** A pipeline file under `.github` is never found: the pruning test is a
      prefix test, so it catches `.github` as well as `.git`. */
  lemma GithubPruned(dir: string)
    requires dir == ".github"
    ensures Walk(Tree([], [(dir, Tree(["Jenkinsfile"], []))])) == []
  {
    var ds := [(dir, Tree(["Jenkinsfile"], []))];
    assert !Entered(dir) by { assert dir[..4] == ".git"; }
    assert ds[1..] == [];
    assert WalkDirs(ds) == [] + WalkDirs(ds[1..]);
  }

  /** The same file under an ordinary directory is found, its path starting
      with the directory. */
  lemma OrdinaryDirectoryWalked(dir: string)
    requires dir == "app"
    ensures Walk(Tree([], [(dir, Tree(["Jenkinsfile"], []))])) == [[dir, "Jenkinsfile"]]
  {
    assert IsPipelineFileName("Jenkinsfile");
    assert Entered(dir) by { assert |dir| < |".git"|; }
    var app := Tree(["Jenkinsfile"], []);
    var ds := [(dir, app)];
    assert Walk(app) == [["Jenkinsfile"]];
    assert ds[1..] == [];
    assert WalkDirs(ds) == Under(dir, Walk(app)) + WalkDirs(ds[1..]);
    assert Under(dir, [["Jenkinsfile"]])[0] == [dir, "Jenkinsfile"];
  }

  /** The three names are the whole test: case matters, so `JENKINSFILE` and
      `Jenkinsfile.txt` are not pipeline files. */
  lemma PipelineFileNameCases(name: string)
    ensures IsPipelineFileName(name) <==>
      name == "Jenkinsfile" || name == "jenkinsfile" || name == "Jenkinsfile.groovy"
    ensures !IsPipelineFileName("JENKINSFILE") && !IsPipelineFileName("Jenkinsfile.txt")
  {
  }

  // ---------------------------------------------------------------------------
  // Copying the rest of the input

  /** `exclude_patterns` of `_copy_source_code`, in order. */
  const ExcludePatterns: seq<string> :=
    ["Jenkinsfile*", "jenkins/", ".git/", "__pycache__/", "*.pyc", ".DS_Store", "Thumbs.db"]

  /** What `iterdir` reports an entry to be: `is_file()`, `is_dir()` or neither. */
  datatype EntryKind = File | Directory | Other

  /** What happens to one top-level entry. `Excluded` is an entry the `.git`
      prefix or a pattern skips; `Kept` one the loop reaches but leaves alone,
      because its destination exists or it is neither a file nor a directory. */
  datatype CopyAction = Excluded | Kept | CopyFile | CopyTree

  /** `s.replace(c, '')` for one character. */
  function RemoveChar(s: string, c: char): (r: string)
    ensures c !in r && |r| <= |s|
  {
    if |s| == 0 then "" else (if s[0] == c then "" else [s[0]]) + RemoveChar(s[1..], c)
  }

  lemma {:induction false} RemoveCharAppend(a: string, b: string, c: char)
    ensures RemoveChar(a + b, c) == RemoveChar(a, c) + RemoveChar(b, c)
    decreases |a|
  {
    if |a| == 0 {
      assert a + b == b;
    } else {
      assert (a + b)[1..] == a[1..] + b;
      RemoveCharAppend(a[1..], b, c);
    }
  }

  /** Removing a character the text does not hold changes nothing. */
  lemma {:induction false} RemoveAbsent(a: string, c: char)
    requires c !in a
    ensures RemoveChar(a, c) == a
    decreases |a|
  {
    if |a| > 0 {
      RemoveAbsent(a[1..], c);
      assert [a[0]] + a[1..] == a;
    }
  }

  lemma RemoveLast(a: string, c: char)
    requires c !in a
    ensures RemoveChar(a + [c], c) == a
  {
    RemoveCharAppend(a, [c], c);
    RemoveAbsent(a, c);
    assert [c][1..] == [];
  }

  lemma RemoveFirst(a: string, c: char)
    requires c !in a
    ensures RemoveChar([c] + a, c) == a
  {
    RemoveCharAppend([c], a, c);
    RemoveAbsent(a, c);
    assert [c][1..] == [];
  }

  /** The file test of the source reads the patterns in two passes: those
      without `*` are tested for containment as they stand (removing `*` from
      them changes nothing), and the two with `*` lose it and become prefix
      tests for `Jenkinsfile` and `.pyc`. */
  lemma StarPatterns()
    ensures forall i :: 0 <= i < |ExcludePatterns| ==> ('*' in ExcludePatterns[i] <==> i == 0 || i == 4)
    ensures RemoveChar(ExcludePatterns[0], '*') == "Jenkinsfile"
    ensures RemoveChar(ExcludePatterns[4], '*') == ".pyc"
    ensures forall i :: 0 <= i < |ExcludePatterns| && i != 0 && i != 4 ==>
      RemoveChar(ExcludePatterns[i], '*') == ExcludePatterns[i]
  {
    StarIndices();
    JenkinsfilePattern();
    PycPattern();
    PlainPatterns();
  }

  lemma StarIndices()
    ensures forall i :: 0 <= i < |ExcludePatterns| ==> ('*' in ExcludePatterns[i] <==> i == 0 || i == 4)
  {
    assert ExcludePatterns[0][11] == '*';
    assert ExcludePatterns[4][0] == '*';
  }

  lemma JenkinsfilePattern()
    ensures RemoveChar(ExcludePatterns[0], '*') == "Jenkinsfile"
  {
    assert ExcludePatterns[0] == "Jenkinsfile" + "*";
    RemoveLast("Jenkinsfile", '*');
  }

  lemma PycPattern()
    ensures RemoveChar(ExcludePatterns[4], '*') == ".pyc"
  {
    assert ExcludePatterns[4] == "*" + ".pyc";
    RemoveFirst(".pyc", '*');
  }

  lemma PlainPatterns()
    ensures forall i :: 0 <= i < |ExcludePatterns| && i != 0 && i != 4 ==>
      RemoveChar(ExcludePatterns[i], '*') == ExcludePatterns[i]
  {
    forall i | 0 <= i < |ExcludePatterns| && i != 0 && i != 4
      ensures RemoveChar(ExcludePatterns[i], '*') == ExcludePatterns[i]
    {
      assert '*' !in ExcludePatterns[i];
      RemoveAbsent(ExcludePatterns[i], '*');
    }
  }

  /** The directory test reads the three patterns with `/`, which name, once
      the `/` is removed, `jenkins`, `.git` and `__pycache__`. */
  lemma SlashPatterns()
    ensures forall i :: 0 <= i < |ExcludePatterns| ==> ('/' in ExcludePatterns[i] <==> 1 <= i <= 3)
    ensures RemoveChar(ExcludePatterns[1], '/') == "jenkins"
    ensures RemoveChar(ExcludePatterns[2], '/') == ".git"
    ensures RemoveChar(ExcludePatterns[3], '/') == "__pycache__"
  {
    SlashIndices();
    JenkinsDirPattern();
    GitDirPattern();
    CacheDirPattern();
  }

  lemma SlashIndices()
    ensures forall i :: 0 <= i < |ExcludePatterns| ==> ('/' in ExcludePatterns[i] <==> 1 <= i <= 3)
  {
    assert ExcludePatterns[1][7] == '/';
    assert ExcludePatterns[2][4] == '/';
    assert ExcludePatterns[3][11] == '/';
  }

  lemma JenkinsDirPattern()
    ensures RemoveChar(ExcludePatterns[1], '/') == "jenkins"
  {
    assert ExcludePatterns[1] == "jenkins" + "/";
    RemoveLast("jenkins", '/');
  }

  lemma GitDirPattern()
    ensures RemoveChar(ExcludePatterns[2], '/') == ".git"
  {
    assert ExcludePatterns[2] == ".git" + "/";
    RemoveLast(".git", '/');
  }

  lemma CacheDirPattern()
    ensures RemoveChar(ExcludePatterns[3], '/') == "__pycache__"
  {
    assert ExcludePatterns[3] == "__pycache__" + "/";
    RemoveLast("__pycache__", '/');
  }

  /** The file test as the source evaluates it, pattern by pattern (see
      `StarPatterns`): containment of the five plain patterns, or a prefix of
      `Jenkinsfile` or `.pyc`. */
  predicate ExcludedFileAsWritten(name: string) {
    Contains(name, "jenkins/") || Contains(name, ".git/") || Contains(name, "__pycache__/")
    || Contains(name, ".DS_Store") || Contains(name, "Thumbs.db")
    || StartsWith(name, "Jenkinsfile") || StartsWith(name, ".pyc")
  }

  /** The file test with `*.pyc` read as the glob it is written as: a name
      matches it when it ends in `.pyc`. */
  predicate ExcludedFile(name: string) {
    Contains(name, "jenkins/") || Contains(name, ".git/") || Contains(name, "__pycache__/")
    || Contains(name, ".DS_Store") || Contains(name, "Thumbs.db")
    || StartsWith(name, "Jenkinsfile") || EndsWith(name, ".pyc")
  }

  /** The directory test (see `SlashPatterns`). */
  predicate ExcludedDirectory(name: string) {
    name == "jenkins" || name == ".git" || name == "__pycache__"
  }

  /** The loop body of `_copy_source_code` for one entry, given the outcome of
      the file test. */
  function Decide(name: string, kind: EntryKind, destExists: bool, fileExcluded: bool): (a: CopyAction)
    ensures a == CopyFile <==>
      kind == File && !StartsWith(name, ".git") && !fileExcluded && !destExists
    ensures a == CopyTree <==>
      kind == Directory && !StartsWith(name, ".git") && !ExcludedDirectory(name) && !destExists
    ensures a == Excluded <==>
      StartsWith(name, ".git")
      || (kind == File && fileExcluded)
      || (kind == Directory && ExcludedDirectory(name))
  {
    if StartsWith(name, ".git") then Excluded
    else match kind
      case File => if fileExcluded then Excluded else if destExists then Kept else CopyFile
      case Directory => if ExcludedDirectory(name) then Excluded else if destExists then Kept else CopyTree
      case Other => Kept
  }

  /** The decision with the file test as written. */
  function CopyDecisionAsWritten(name: string, kind: EntryKind, destExists: bool): (a: CopyAction)
    ensures kind == File && !destExists && !StartsWith(name, ".git") ==>
      (a == CopyFile <==> !ExcludedFileAsWritten(name))
  {
    Decide(name, kind, destExists, ExcludedFileAsWritten(name))
  }

  /** The decision with `*.pyc` matched as a glob. */
  function CopyDecision(name: string, kind: EntryKind, destExists: bool): (a: CopyAction)
    ensures kind == File && !destExists && !StartsWith(name, ".git") ==>
      (a == CopyFile <==> !ExcludedFile(name))
  {
    Decide(name, kind, destExists, ExcludedFile(name))
  }

  /** Nothing whose name starts with `.git` is copied, whatever its kind:
      `.git`, `.github` and `.gitignore` alike. */
  lemma GitPrefixExcluded(name: string, kind: EntryKind, destExists: bool)
    requires StartsWith(name, ".git")
    ensures CopyDecision(name, kind, destExists) == Excluded
    ensures CopyDecisionAsWritten(name, kind, destExists) == Excluded
  {
  }

  /** An existing destination is never overwritten. */
  lemma NeverOverwrites(name: string, kind: EntryKind)
    ensures CopyDecision(name, kind, true) != CopyFile && CopyDecision(name, kind, true) != CopyTree
    ensures CopyDecisionAsWritten(name, kind, true) != CopyFile
    ensures CopyDecisionAsWritten(name, kind, true) != CopyTree
  {
  }

  /** A directory is copied as a tree exactly when it is new, does not start
      with `.git` and is neither `jenkins` nor `__pycache__`. */
  lemma DirectoryCopied(name: string)
    ensures CopyDecision(name, Directory, false) == CopyTree <==>
      !StartsWith(name, ".git") && name != "jenkins" && name != "__pycache__"
  {
  }

  /** With `*.pyc` read as a glob, every compiled Python file is excluded. */
  lemma PycFileExcluded(name: string, destExists: bool)
    requires EndsWith(name, ".pyc")
    ensures CopyDecision(name, File, destExists) == Excluded
  {
  }

  /** The correction changes nothing but the `.pyc` test: for every other name
      the two decisions agree. */
  lemma CorrectionOnlyTouchesPyc(name: string, kind: EntryKind, destExists: bool)
    requires !StartsWith(name, ".pyc") && !EndsWith(name, ".pyc")
    ensures CopyDecision(name, kind, destExists) == CopyDecisionAsWritten(name, kind, destExists)
  {
  }

  /** A compiled Python file at the top of the input is copied: `*.pyc` loses
      its `*` and becomes a prefix test, which `foo.pyc` does not pass. */
  lemma PycFileCopied(name: string)
    requires name == "foo.pyc"
    ensures CopyDecisionAsWritten(name, File, false) == CopyFile
    ensures CopyDecision(name, File, false) == Excluded
  {
    assert '/' !in name && '_' !in name && 'D' !in name && 'T' !in name;
    assert !StartsWith(name, ".git") && !StartsWith(name, ".pyc") by { assert name[0] != '.'; }
    assert !StartsWith(name, "Jenkinsfile") by { assert name[0] != 'J'; }
    assert EndsWith(name, ".pyc") by { assert name[3..] == ".pyc"; }
    MissingCharNotContained(name, "jenkins/", '/');
    MissingCharNotContained(name, ".git/", '/');
    MissingCharNotContained(name, "__pycache__/", '/');
    MissingCharNotContained(name, ".DS_Store", 'D');
    MissingCharNotContained(name, "Thumbs.db", 'T');
  }

  /** A lower-case `jenkinsfile` is a pipeline file to the walk but is copied:
      the file test is case-sensitive and only `Jenkinsfile…` is excluded. */
  lemma LowercaseJenkinsfileCopied(name: string)
    requires name == "jenkinsfile"
    ensures IsPipelineFileName(name)
    ensures CopyDecisionAsWritten(name, File, false) == CopyFile
    ensures CopyDecision(name, File, false) == CopyFile
  {
    assert '/' !in name && '.' !in name && '_' !in name;
    assert !StartsWith(name, ".git") && !StartsWith(name, ".pyc") by { assert name[0] != '.'; }
    assert !StartsWith(name, "Jenkinsfile") by { assert name[0] != 'J'; }
    assert !EndsWith(name, ".pyc");
    MissingCharNotContained(name, "jenkins/", '/');
    MissingCharNotContained(name, ".git/", '/');
    MissingCharNotContained(name, "__pycache__/", '/');
    MissingCharNotContained(name, ".DS_Store", '.');
    MissingCharNotContained(name, "Thumbs.db", '.');
  }
}
