/**
  How the Maven jobs are gated and where they look for build outputs
  (jenkins-to-gha-converter.py:262-489), read off the generated document by
  path, the way a YAML reader would address it.
 */
module WorkflowGates {
  import opened Options
  import opened Text
  import opened Document
  import opened Project
  import opened Workflow
  import opened WorkflowFacts

  /** Following a key of a mapping: the first entry carrying it. */
  lemma {:induction false} SelectField(v: Value, i: nat, path: seq<Selector>)
    requires v.Map? && i < |v.entries|
    requires forall j :: 0 <= j < i ==> v.entries[j].0 != v.entries[i].0
    requires |path| > 0 && path[0] == Key(v.entries[i].0)
    ensures Select(v, path) == Select(v.entries[i].1, path[1..])
  {
    LookupAt(v.entries, v.entries[i].0, i);
    SelectFirst(v, path, v.entries[i].1);
  }

  /** Following a position in a list. */
  lemma {:induction false} SelectItem(v: Value, i: nat, path: seq<Selector>)
    requires v.List? && i < |v.items|
    requires |path| > 0 && path[0] == Index(i)
    ensures Select(v, path) == Select(v.items[i], path[1..])
  {
    SelectFirst(v, path, v.items[i]);
  }

  /** Following `steps` and then a position in a job whose steps sit at entry `k`. */
  lemma {:induction false} SelectStep(job: Value, k: nat, steps: seq<Value>, i: nat, path: seq<Selector>)
    requires job.Map? && k < |job.entries| && job.entries[k] == ("steps", List(steps))
    requires forall j :: 0 <= j < k ==> job.entries[j].0 != "steps"
    requires i < |steps|
    requires |path| >= 2 && path[0] == Key("steps") && path[1] == Index(i)
    ensures Select(job, path) == Select(steps[i], path[2..])
  {
    SelectField(job, k, path);
    SelectItem(List(steps), i, path[1..]);
    assert path[1..][1..] == path[2..];
  }

  /** Following `with` and then one of its fields, for a step whose `with`
      mapping sits at entry `i` and the field at entry `j` of it. */
  lemma {:induction false} SelectWith(step: Value, i: nat, j: nat, path: seq<Selector>)
    requires step.Map? && i < |step.entries| && step.entries[i].0 == "with"
    requires forall k :: 0 <= k < i ==> step.entries[k].0 != "with"
    requires step.entries[i].1.Map? && j < |step.entries[i].1.entries|
    requires forall k :: 0 <= k < j ==> step.entries[i].1.entries[k].0 != step.entries[i].1.entries[j].0
    requires path == [Key("with"), Key(step.entries[i].1.entries[j].0)]
    ensures Select(step, path) == Some(step.entries[i].1.entries[j].1)
  {
    SelectField(step, i, path);
    SelectField(step.entries[i].1, j, path[1..]);
    assert path[1..][1..] == [];
  }

  // ---------------------------------------------------------------------------
  // build-and-test

  function BuildSteps(cfg: Config, wd: Option<string>): seq<Value>
    requires |cfg.javaVersions| > 0
  {
    BaseSteps() + PlaceAll(MavenSteps(cfg, wd), wd, StartsWithMvn)
  }

  /** A build-and-test step without a command is left as written. */
  lemma BuildStepUnchanged(cfg: Config, wd: Option<string>, i: nat)
    requires |cfg.javaVersions| > 0 && 3 <= i < 9 && i != 3 && i != 4 && i != 5 && i != 7
    ensures BuildSteps(cfg, wd)[i] == MavenSteps(cfg, wd)[i - 3]
  {
    StepSelected(cfg, wd, i - 3);
  }

  lemma {:induction false} SelectBuildStep(cfg: Config, wd: Option<string>, i: nat, path: seq<Selector>)
    requires |cfg.javaVersions| > 0 && i < 9
    requires |path| >= 2 && path[0] == Key("steps") && path[1] == Index(i)
    ensures Select(BuildAndTestJob(cfg, wd), path) == Select(BuildSteps(cfg, wd)[i], path[2..])
  {
    var job := BuildAndTestJob(cfg, wd);
    assert job.entries[2] == ("steps", List(BuildSteps(cfg, wd)));
    SelectStep(job, 2, BuildSteps(cfg, wd), i, path);
  }

  /** The build matrix runs one job per configured Java version, in order. */
  lemma MatrixVersions(cfg: Config, wd: Option<string>)
    requires |cfg.javaVersions| > 0
    ensures Select(BuildAndTestJob(cfg, wd), [Key("strategy"), Key("matrix"), Key("java-version")])
      == Some(List(Strs(cfg.javaVersions)))
  {
    var path := [Key("strategy"), Key("matrix"), Key("java-version")];
    var job := BuildAndTestJob(cfg, wd);
    var strategy := job.entries[1].1;
    var matrix := strategy.entries[0].1;
    SelectField(job, 1, path);
    SelectField(strategy, 0, path[1..]);
    SelectField(matrix, 0, path[1..][1..]);
    assert path[1..][1..][1..] == [];
  }

  // ---------------------------------------------------------------------------
  // Fields of single steps

  /** A `setup-java` step installs the version it is given. */
  lemma JdkVersion(name: string, version: string)
    ensures Select(SetupJdk(name, version), [Key("with"), Key("java-version")]) == Some(Str(version))
  {
    SelectWith(SetupJdk(name, version), 2, 0, [Key("with"), Key("java-version")]);
  }

  lemma TestReportFields(wd: Option<string>)
    ensures Select(TestReportStep(wd), [Key("with"), Key("path")])
      == Some(Str(ArtifactPath(wd, "target/surefire-reports/*.xml")))
  {
    SelectWith(TestReportStep(wd), 3, 1, [Key("with"), Key("path")]);
  }

  lemma UploadJarIf(last: string, wd: Option<string>)
    ensures Select(UploadJarStep(last, wd), [Key("if")])
      == Some(Str("matrix.java-version == '" + last + "'"))
  {
    SelectField(UploadJarStep(last, wd), 2, [Key("if")]);
  }

  lemma UploadJarPath(last: string, wd: Option<string>)
    ensures Select(UploadJarStep(last, wd), [Key("with"), Key("path")])
      == Some(Str(ArtifactPath(wd, "target/*.jar")))
  {
    SelectWith(UploadJarStep(last, wd), 3, 1, [Key("with"), Key("path")]);
  }

  lemma UploadJarRetention(last: string, wd: Option<string>)
    ensures Select(UploadJarStep(last, wd), [Key("with"), Key("retention-days")]) == Some(Int(30))
  {
    SelectWith(UploadJarStep(last, wd), 3, 2, [Key("with"), Key("retention-days")]);
  }

  lemma DownloadFields(wd: Option<string>)
    ensures Select(DownloadStep(wd), [Key("with"), Key("path")]) == Some(Str(ArtifactPath(wd, "target/")))
  {
    SelectWith(DownloadStep(wd), 2, 1, [Key("with"), Key("path")]);
  }

  lemma ReportUploadIf(wd: Option<string>)
    ensures Select(ReportUploadStep(wd), [Key("if")]) == Some(Str("always()"))
  {
    SelectField(ReportUploadStep(wd), 2, [Key("if")]);
  }

  lemma ReportUploadPath(wd: Option<string>)
    ensures Select(ReportUploadStep(wd), [Key("with"), Key("path")])
      == Some(Str(ArtifactPath(wd, "target/dependency-check-report.html")))
  {
    SelectWith(ReportUploadStep(wd), 3, 1, [Key("with"), Key("path")]);
  }

  lemma ReportUploadRetention(wd: Option<string>)
    ensures Select(ReportUploadStep(wd), [Key("with"), Key("retention-days")]) == Some(Int(30))
  {
    SelectWith(ReportUploadStep(wd), 3, 2, [Key("with"), Key("retention-days")]);
  }

  // ---------------------------------------------------------------------------
  // build-and-test, read by path

  /** Each matrix job installs its own entry's JDK. */
  lemma MatrixJdk(cfg: Config, wd: Option<string>)
    requires |cfg.javaVersions| > 0
    ensures Select(BuildAndTestJob(cfg, wd), [Key("steps"), Index(1), Key("with"), Key("java-version")])
      == Some(Str(MatrixVersion))
  {
    var path := [Key("steps"), Index(1), Key("with"), Key("java-version")];
    assert BuildSteps(cfg, wd)[1] == SetupJdk("Set up JDK " + MatrixVersion, MatrixVersion);
    SelectBuildStep(cfg, wd, 1, path);
    assert path[2..] == [Key("with"), Key("java-version")];
    JdkVersion("Set up JDK " + MatrixVersion, MatrixVersion);
  }

  /** The jar upload is the last build-and-test step, left as written. */
  lemma UploadIsLastBuildStep(cfg: Config, wd: Option<string>)
    requires |cfg.javaVersions| > 0
    ensures BuildSteps(cfg, wd)[8] == UploadJarStep(LastVersion(cfg), wd)
  {
    BuildStepUnchanged(cfg, wd, 8);
  }

  /** The jar is uploaded only by the matrix entry of the last configured version,
      kept for 30 days, and taken from the build output of the working directory. */
  lemma UploadOnLastVersion(cfg: Config, wd: Option<string>)
    requires |cfg.javaVersions| > 0
    ensures Select(BuildAndTestJob(cfg, wd), [Key("steps"), Index(8), Key("if")])
      == Some(Str("matrix.java-version == '" + LastVersion(cfg) + "'"))
  {
    var path := [Key("steps"), Index(8), Key("if")];
    UploadIsLastBuildStep(cfg, wd);
    SelectBuildStep(cfg, wd, 8, path);
    assert path[2..] == [Key("if")];
    UploadJarIf(LastVersion(cfg), wd);
  }

  lemma UploadRetention(cfg: Config, wd: Option<string>)
    requires |cfg.javaVersions| > 0
    ensures Select(BuildAndTestJob(cfg, wd), [Key("steps"), Index(8), Key("with"), Key("retention-days")])
      == Some(Int(30))
  {
    var path := [Key("steps"), Index(8), Key("with"), Key("retention-days")];
    UploadIsLastBuildStep(cfg, wd);
    SelectBuildStep(cfg, wd, 8, path);
    assert path[2..] == [Key("with"), Key("retention-days")];
    UploadJarRetention(LastVersion(cfg), wd);
  }

  lemma JarPath(cfg: Config, wd: Option<string>)
    requires |cfg.javaVersions| > 0
    ensures Select(BuildAndTestJob(cfg, wd), [Key("steps"), Index(8), Key("with"), Key("path")])
      == Some(Str(ArtifactPath(wd, "target/*.jar")))
  {
    var path := [Key("steps"), Index(8), Key("with"), Key("path")];
    UploadIsLastBuildStep(cfg, wd);
    SelectBuildStep(cfg, wd, 8, path);
    assert path[2..] == [Key("with"), Key("path")];
    UploadJarPath(LastVersion(cfg), wd);
  }

  /** The test report reads the surefire results under the working directory when there is one. */
  lemma ReportPath(cfg: Config, wd: Option<string>)
    requires |cfg.javaVersions| > 0
    ensures Select(BuildAndTestJob(cfg, wd), [Key("steps"), Index(6), Key("with"), Key("path")])
      == Some(Str(ArtifactPath(wd, "target/surefire-reports/*.xml")))
  {
    var path := [Key("steps"), Index(6), Key("with"), Key("path")];
    BuildStepUnchanged(cfg, wd, 6);
    assert BuildSteps(cfg, wd)[6] == TestReportStep(wd);
    SelectBuildStep(cfg, wd, 6, path);
    assert path[2..] == [Key("with"), Key("path")];
    TestReportFields(wd);
  }

  // ---------------------------------------------------------------------------
  // deliver, read by path

  lemma {:induction false} SelectDeliverStep(cfg: Config, wd: Option<string>, i: nat, path: seq<Selector>)
    requires |cfg.javaVersions| > 0 && i < 6
    requires |path| >= 2 && path[0] == Key("steps") && path[1] == Index(i)
    ensures Select(DeliverJob(cfg, wd), path)
      == Select(PlaceAll(DeliverSteps(cfg, wd), wd, MentionsMvnOrJar)[i], path[2..])
  {
    var job := DeliverJob(cfg, wd);
    var steps := PlaceAll(DeliverSteps(cfg, wd), wd, MentionsMvnOrJar);
    assert job.entries[3] == ("steps", List(steps));
    SelectStep(job, 3, steps, i, path);
  }

  /** Delivery waits for build-and-test and runs only for the `main` branch. */
  lemma DeliverGates(cfg: Config, wd: Option<string>)
    requires |cfg.javaVersions| > 0
    ensures Select(DeliverJob(cfg, wd), [Key("needs")]) == Some(Str("build-and-test"))
    ensures Select(DeliverJob(cfg, wd), [Key("if")]) == Some(Str("github.ref == 'refs/heads/main'"))
  {
    var job := DeliverJob(cfg, wd);
    SelectField(job, 0, [Key("needs")]);
    SelectField(job, 2, [Key("if")]);
  }

  /** Delivery installs the last configured JDK. */
  lemma DeliverJdk(cfg: Config, wd: Option<string>)
    requires |cfg.javaVersions| > 0
    ensures Select(DeliverJob(cfg, wd), [Key("steps"), Index(1), Key("with"), Key("java-version")])
      == Some(Str(LastVersion(cfg)))
  {
    var path := [Key("steps"), Index(1), Key("with"), Key("java-version")];
    var last := LastVersion(cfg);
    DeliverStepSelected(cfg, wd, 1);
    assert PlaceAll(DeliverSteps(cfg, wd), wd, MentionsMvnOrJar)[1] == SetupJdk("Set up JDK " + last, last);
    SelectDeliverStep(cfg, wd, 1, path);
    assert path[2..] == [Key("with"), Key("java-version")];
    JdkVersion("Set up JDK " + last, last);
  }

  /** Delivery downloads the jar into the build output directory. */
  lemma DownloadPath(cfg: Config, wd: Option<string>)
    requires |cfg.javaVersions| > 0
    ensures Select(DeliverJob(cfg, wd), [Key("steps"), Index(2), Key("with"), Key("path")])
      == Some(Str(ArtifactPath(wd, "target/")))
  {
    var path := [Key("steps"), Index(2), Key("with"), Key("path")];
    DeliverStepSelected(cfg, wd, 2);
    assert PlaceAll(DeliverSteps(cfg, wd), wd, MentionsMvnOrJar)[2] == DownloadStep(wd);
    SelectDeliverStep(cfg, wd, 2, path);
    assert path[2..] == [Key("with"), Key("path")];
    DownloadFields(wd);
  }

  // ---------------------------------------------------------------------------
  // security-scan, read by path

  lemma {:induction false} SelectSecurityStep(cfg: Config, wd: Option<string>, i: nat, path: seq<Selector>)
    requires |cfg.javaVersions| > 0 && i < 4
    requires |path| >= 2 && path[0] == Key("steps") && path[1] == Index(i)
    ensures Select(SecurityJob(cfg, wd), path)
      == Select(PlaceAll(SecuritySteps(cfg, wd), wd, MentionsMvn)[i], path[2..])
  {
    var job := SecurityJob(cfg, wd);
    var steps := PlaceAll(SecuritySteps(cfg, wd), wd, MentionsMvn);
    assert job.entries[2] == ("steps", List(steps));
    SelectStep(job, 2, steps, i, path);
  }

  /** The security scan waits for build-and-test. */
  lemma SecurityNeedsBuild(cfg: Config, wd: Option<string>)
    requires |cfg.javaVersions| > 0
    ensures Select(SecurityJob(cfg, wd), [Key("needs")]) == Some(Str("build-and-test"))
  {
    SelectField(SecurityJob(cfg, wd), 1, [Key("needs")]);
  }

  /** The security scan installs the last configured JDK. */
  lemma SecurityJdk(cfg: Config, wd: Option<string>)
    requires |cfg.javaVersions| > 0
    ensures Select(SecurityJob(cfg, wd), [Key("steps"), Index(1), Key("with"), Key("java-version")])
      == Some(Str(LastVersion(cfg)))
  {
    var path := [Key("steps"), Index(1), Key("with"), Key("java-version")];
    var last := LastVersion(cfg);
    SecurityStepSelected(cfg, wd, 1);
    assert PlaceAll(SecuritySteps(cfg, wd), wd, MentionsMvn)[1] == SetupJdk("Set up JDK " + last, last);
    SelectSecurityStep(cfg, wd, 1, path);
    assert path[2..] == [Key("with"), Key("java-version")];
    JdkVersion("Set up JDK " + last, last);
  }

  /** A failing OWASP check does not fail the job, with or without a working directory. */
  lemma OwaspMayFail(cfg: Config, wd: Option<string>)
    requires |cfg.javaVersions| > 0
    ensures Select(SecurityJob(cfg, wd), [Key("steps"), Index(2), Key("continue-on-error")])
      == Some(Bool(true))
  {
    var path := [Key("steps"), Index(2), Key("continue-on-error")];
    assert PlaceAll(SecuritySteps(cfg, wd), wd, MentionsMvn)[2] == Place(OwaspStep, wd, MentionsMvn);
    SelectSecurityStep(cfg, wd, 2, path);
    assert path[2..] == [Key("continue-on-error")];
    OwaspContinues(wd, path[2..]);
  }

  /** The OWASP step keeps `continue-on-error` once placed. */
  lemma OwaspContinues(wd: Option<string>, path: seq<Selector>)
    requires path == [Key("continue-on-error")]
    ensures Select(Place(OwaspStep, wd, MentionsMvn), path) == Some(Bool(true))
  {
    var placed := Place(OwaspStep, wd, MentionsMvn);
    PlaceKeepsFields(OwaspStep, wd, MentionsMvn, "continue-on-error");
    LookupAt(OwaspStep.entries, "continue-on-error", 2);
    SelectFirst(placed, path, Bool(true));
    assert path[1..] == [];
  }

  /** The dependency report is uploaded whatever the outcome of the check, kept
      for 30 days, and read from the build output of the working directory. */
  lemma ReportAlwaysUploaded(cfg: Config, wd: Option<string>)
    requires |cfg.javaVersions| > 0
    ensures Select(SecurityJob(cfg, wd), [Key("steps"), Index(3), Key("if")]) == Some(Str("always()"))
  {
    var path := [Key("steps"), Index(3), Key("if")];
    SecurityStepSelected(cfg, wd, 3);
    assert PlaceAll(SecuritySteps(cfg, wd), wd, MentionsMvn)[3] == ReportUploadStep(wd);
    SelectSecurityStep(cfg, wd, 3, path);
    assert path[2..] == [Key("if")];
    ReportUploadIf(wd);
  }

  lemma ReportRetention(cfg: Config, wd: Option<string>)
    requires |cfg.javaVersions| > 0
    ensures Select(SecurityJob(cfg, wd), [Key("steps"), Index(3), Key("with"), Key("retention-days")])
      == Some(Int(30))
  {
    var path := [Key("steps"), Index(3), Key("with"), Key("retention-days")];
    SecurityStepSelected(cfg, wd, 3);
    assert PlaceAll(SecuritySteps(cfg, wd), wd, MentionsMvn)[3] == ReportUploadStep(wd);
    SelectSecurityStep(cfg, wd, 3, path);
    assert path[2..] == [Key("with"), Key("retention-days")];
    ReportUploadRetention(wd);
  }

  lemma DependencyReportPath(cfg: Config, wd: Option<string>)
    requires |cfg.javaVersions| > 0
    ensures Select(SecurityJob(cfg, wd), [Key("steps"), Index(3), Key("with"), Key("path")])
      == Some(Str(ArtifactPath(wd, "target/dependency-check-report.html")))
  {
    var path := [Key("steps"), Index(3), Key("with"), Key("path")];
    SecurityStepSelected(cfg, wd, 3);
    assert PlaceAll(SecuritySteps(cfg, wd), wd, MentionsMvn)[3] == ReportUploadStep(wd);
    SelectSecurityStep(cfg, wd, 3, path);
    assert path[2..] == [Key("with"), Key("path")];
    ReportUploadPath(wd);
  }

  // ---------------------------------------------------------------------------
  // Paths and the project directory

  /** Build outputs are looked for under `./<path>/target/` for a recognised
      project below the root, and under `target/` otherwise. */
  lemma ArtifactPathOfProject(files: set<string>, rel: seq<string>, tail: string)
    requires ValidPath(rel)
    ensures var wd := NormalizeWorkingDirectory(Detect(files, rel).workingDirectory);
      ArtifactPath(wd, tail)
        == if Detect(files, rel).kind != Generic && |rel| > 0 then "./" + Join(rel, "/") + "/" + tail
           else tail
  {
    var d := Detect(files, rel);
    if d.kind != Generic && |rel| > 0 {
      NestedPathText(rel);
      assert PathText(rel) == Join(rel, "/");
      var wd := NormalizeWorkingDirectory(d.workingDirectory);
      assert wd == Some("./" + Join(rel, "/"));
      assert Present(wd);
    } else {
      assert NormalizeWorkingDirectory(d.workingDirectory) == None;
    }
  }
}
