/**
  The workflow builder (`_generate_gha_workflow` and the job generators it calls,
  jenkins-to-gha-converter.py:233-489): from the stages and the project type of
  one pipeline it builds the GitHub Actions workflow as a nested document.

  A Maven project gets a matrix build-and-test job, a delivery job when some
  stage delivers, and a security scan job; every other project gets a single
  job running the stages' shell commands in order.
 */
module Workflow {
  import opened Options
  import opened Text
  import opened Document
  import opened Stages
  import opened Project

  /** The converter's settings: the Java versions of the build matrix and the runner label. */
  datatype Config = Config(javaVersions: seq<string>, runner: string)

  /** The settings a converter starts with (jenkins-to-gha-converter.py:75-76). */
  const DefaultConfig := Config(["17", "21"], "ubuntu-latest")

  /** What `_parse_jenkinsfile` records about a pipeline and the builder reads. */
  datatype Pipeline = Pipeline(stages: seq<Stage>, kind: ProjectType, workingDirectory: Option<string>)

  /** `self.java_versions[-1]`. */
  function LastVersion(cfg: Config): string
    requires |cfg.javaVersions| > 0
  {
    cfg.javaVersions[|cfg.javaVersions| - 1]
  }

  function Strs(xs: seq<string>): (r: seq<Value>)
    ensures |r| == |xs| && forall i :: 0 <= i < |xs| ==> r[i] == Str(xs[i])
  {
    seq(|xs|, i requires 0 <= i < |xs| => Str(xs[i]))
  }

  // ---------------------------------------------------------------------------
  // Working directory

  /** Python truthiness of the optional working directory. */
  predicate Present(wd: Option<string>) {
    wd.Some? && wd.value != ""
  }

  /** The path of a build output: below the working directory when there is one,
      relative to the checkout otherwise. */
  function ArtifactPath(wd: Option<string>, tail: string): string {
    (if Present(wd) then wd.value + "/" else "") + tail
  }

  /** Which steps of a job run inside the working directory, judged on their
      `run` text: the build job takes commands starting with `mvn`, the delivery
      job those mentioning `mvn` or `java -jar`, the security job those mentioning `mvn`. */
  datatype RunFilter = StartsWithMvn | MentionsMvnOrJar | MentionsMvn

  predicate Selects(f: RunFilter, run: string) {
    match f
    case StartsWithMvn => StartsWith(run, "mvn")
    case MentionsMvnOrJar => Contains(run, "mvn") || Contains(run, "java -jar")
    case MentionsMvn => Contains(run, "mvn")
  }

  /** The `run` text of a step, if it has one. */
  function RunOf(step: Value): Option<string> {
    match Get(step, "run")
    case Some(Str(r)) => Some(r)
    case _ => None
  }

  predicate Eligible(step: Value, f: RunFilter) {
    RunOf(step).Some? && Selects(f, RunOf(step).value)
  }

  /** `step['working-directory'] = working_directory` for a selected step. */
  function Place(step: Value, wd: Option<string>, f: RunFilter): (r: Value)
    ensures r.Map? == step.Map?
    ensures Get(r, "run") == Get(step, "run")
    ensures Present(wd) && step.Map? && Eligible(step, f) ==>
      Get(r, "working-directory") == Some(Str(wd.value))
    ensures !(Present(wd) && step.Map? && Eligible(step, f)) ==> r == step
  {
    if Present(wd) && step.Map? && Eligible(step, f) then
      var val := Str(wd.value);
      PutLookupAll(step.entries, "working-directory", val);
      Map(Put(step.entries, "working-directory", val))
    else step
  }

  lemma PutLookupAll(es: seq<(string, Value)>, key: string, val: Value)
    ensures Lookup(Put(es, key, val), key) == Some(val)
    ensures forall k :: k != key ==> Lookup(Put(es, key, val), k) == Lookup(es, k)
  {
    PutLookup(es, key, val, key);
    forall k | k != key ensures Lookup(Put(es, key, val), k) == Lookup(es, k) {
      PutLookup(es, key, val, k);
    }
  }

  function PlaceAll(steps: seq<Value>, wd: Option<string>, f: RunFilter): (r: seq<Value>)
    ensures |r| == |steps|
    ensures forall i :: 0 <= i < |steps| ==> r[i] == Place(steps[i], wd, f)
  {
    seq(|steps|, i requires 0 <= i < |steps| => Place(steps[i], wd, f))
  }

  // ---------------------------------------------------------------------------
  // Steps

  const CheckoutStep: Value := Map([("name", Str("Checkout code")), ("uses", Str("actions/checkout@v4"))])

  function RunStep(name: string, run: string): Value {
    Map([("name", Str(name)), ("run", Str(run))])
  }

  /** A `setup-java` step for the given version text. */
  function SetupJdk(name: string, version: string): Value {
    Map([("name", Str(name)), ("uses", Str("actions/setup-java@v4")),
         ("with", Map([("java-version", Str(version)), ("distribution", Str("temurin")),
                       ("cache", Str("maven"))]))])
  }

  const MatrixVersion := "${{ matrix.java-version }}"

  const CacheStep: Value :=
    Map([("name", Str("Cache Maven dependencies")), ("uses", Str("actions/cache@v4")),
         ("with", Map([("path", Str("~/.m2")),
                       ("key", Str("${{ runner.os }}-m2-${{ hashFiles('**/pom.xml') }}")),
                       ("restore-keys", Str("${{ runner.os }}-m2"))]))])

  /** The steps every Maven build starts with: checkout, the matrix JDK, the Maven cache. */
  function BaseSteps(): seq<Value> {
    [CheckoutStep, SetupJdk("Set up JDK " + MatrixVersion, MatrixVersion), CacheStep]
  }

  function TestReportStep(wd: Option<string>): Value {
    Map([("name", Str("Generate test report")), ("uses", Str("dorny/test-reporter@v1")),
         ("if", Str("success() || failure()")),
         ("with", Map([("name", Str("Maven Tests (JDK " + MatrixVersion + ")")),
                       ("path", Str(ArtifactPath(wd, "target/surefire-reports/*.xml"))),
                       ("reporter", Str("java-junit")), ("fail-on-error", Bool(true))]))])
  }

  /** The jar upload, run only by the matrix entry of the last configured version. */
  function UploadJarStep(last: string, wd: Option<string>): Value {
    Map([("name", Str("Upload build artifacts")), ("uses", Str("actions/upload-artifact@v4")),
         ("if", Str("matrix.java-version == '" + last + "'")),
         ("with", Map([("name", Str("jar-artifact")), ("path", Str(ArtifactPath(wd, "target/*.jar"))),
                       ("retention-days", Int(30))]))])
  }

  /** `maven_steps` before any working directory is attached. */
  function MavenSteps(cfg: Config, wd: Option<string>): seq<Value>
    requires |cfg.javaVersions| > 0
  {
    [RunStep("Validate Maven project", "mvn validate"),
     RunStep("Compile project", "mvn compile"),
     RunStep("Run tests", "mvn test"),
     TestReportStep(wd),
     RunStep("Build package", "mvn -B -DskipTests clean package"),
     UploadJarStep(LastVersion(cfg), wd)]
  }

  /** The `build-and-test` job of a Maven project. */
  function BuildAndTestJob(cfg: Config, wd: Option<string>): Value
    requires |cfg.javaVersions| > 0
  {
    Map([("runs-on", Str(cfg.runner)),
         ("strategy", Map([("matrix", Map([("java-version", List(Strs(cfg.javaVersions)))]))])),
         ("steps", List(BaseSteps() + PlaceAll(MavenSteps(cfg, wd), wd, StartsWithMvn)))])
  }

  // The three delivery scripts, each split where the command the working
  // directory is chosen for begins.

  const InstallEcho := "echo \"Installing Maven-built Java application to local Maven repository\"\n"
  const InstallCommand := " jar:jar install:install help:evaluate -Dexpression=project.name"
  const InstallRun := InstallEcho + "mvn" + InstallCommand

  const ExtractEcho := "echo \"Extracting project name and version\"\nNAME=$("
  const ExtractCommands := " -q -DforceStdout help:evaluate -Dexpression=project.name)\n"
    + "VERSION=$(mvn -q -DforceStdout help:evaluate -Dexpression=project.version)\n"
    + "echo \"PROJECT_NAME=$NAME\" >> $GITHUB_OUTPUT\n"
    + "echo \"PROJECT_VERSION=$VERSION\" >> $GITHUB_OUTPUT\n"
    + "echo \"Project: $NAME\"\n"
    + "echo \"Version: $VERSION\""
  const ExtractRun := ExtractEcho + "mvn" + ExtractCommands

  const RunAppEcho := "echo \"Running the Java application\"\n"
  const RunAppCommand :=
    " target/${{ steps.project-info.outputs.PROJECT_NAME }}-${{ steps.project-info.outputs.PROJECT_VERSION }}.jar"
  const RunAppRun := RunAppEcho + "java -jar" + RunAppCommand

  /** Delivery fetches the jar uploaded by build-and-test into the build output directory. */
  function DownloadStep(wd: Option<string>): Value {
    Map([("name", Str("Download build artifacts")), ("uses", Str("actions/download-artifact@v4")),
         ("with", Map([("name", Str("jar-artifact")), ("path", Str(ArtifactPath(wd, "target/")))]))])
  }

  /** The steps of the delivery job before any working directory is attached. */
  function DeliverSteps(cfg: Config, wd: Option<string>): seq<Value>
    requires |cfg.javaVersions| > 0
  {
    var last := LastVersion(cfg);
    [CheckoutStep,
     SetupJdk("Set up JDK " + last, last),
     DownloadStep(wd),
     RunStep("Install to local repository", InstallRun),
     Map([("name", Str("Extract project information")), ("id", Str("project-info")),
          ("run", Str(ExtractRun))]),
     RunStep("Run application", RunAppRun)]
  }

  /** `_create_maven_deliver_job`: after build-and-test, on `main` only. */
  function DeliverJob(cfg: Config, wd: Option<string>): Value
    requires |cfg.javaVersions| > 0
  {
    Map([("needs", Str("build-and-test")), ("runs-on", Str(cfg.runner)),
         ("if", Str("github.ref == 'refs/heads/main'")),
         ("steps", List(PlaceAll(DeliverSteps(cfg, wd), wd, MentionsMvnOrJar)))])
  }

  const OwaspArguments := " org.owasp:dependency-check-maven:check"

  const OwaspStep: Value :=
    Map([("name", Str("Run OWASP Dependency Check")), ("run", Str("mvn" + OwaspArguments)),
         ("continue-on-error", Bool(true))])

  /** The dependency report is uploaded whatever the outcome of the check. */
  function ReportUploadStep(wd: Option<string>): Value {
    Map([("name", Str("Upload OWASP Dependency Check results")),
         ("uses", Str("actions/upload-artifact@v4")), ("if", Str("always()")),
         ("with", Map([("name", Str("owasp-dependency-check-report")),
                       ("path", Str(ArtifactPath(wd, "target/dependency-check-report.html"))),
                       ("retention-days", Int(30))]))])
  }

  /** The steps of the security job before any working directory is attached. */
  function SecuritySteps(cfg: Config, wd: Option<string>): seq<Value>
    requires |cfg.javaVersions| > 0
  {
    var last := LastVersion(cfg);
    [CheckoutStep,
     SetupJdk("Set up JDK " + last, last),
     OwaspStep,
     ReportUploadStep(wd)]
  }

  /** `_create_security_job`: the OWASP dependency check after build-and-test. */
  function SecurityJob(cfg: Config, wd: Option<string>): Value
    requires |cfg.javaVersions| > 0
  {
    Map([("runs-on", Str(cfg.runner)), ("needs", Str("build-and-test")),
         ("steps", List(PlaceAll(SecuritySteps(cfg, wd), wd, MentionsMvn)))])
  }

  /** `_generate_maven_jobs`: build-and-test, delivery when a stage delivers, security. */
  function MavenJobs(cfg: Config, p: Pipeline): (jobs: seq<(string, Value)>)
    requires |cfg.javaVersions| > 0
    ensures Keys(jobs) == ["build-and-test"] + (if HasDeliverStage(p.stages) then ["deliver"] else [])
                          + ["security-scan"]
  {
    var wd := NormalizeWorkingDirectory(p.workingDirectory);
    [("build-and-test", BuildAndTestJob(cfg, wd))]
    + (if HasDeliverStage(p.stages) then [("deliver", DeliverJob(cfg, wd))] else [])
    + [("security-scan", SecurityJob(cfg, wd))]
  }

  /** One `Run <stage>` step per shell command of a stage, in order. */
  function StageSteps(st: Stage): (r: seq<Value>)
    ensures |r| == |st.commands|
  {
    seq(|st.commands|, i requires 0 <= i < |st.commands| => RunStep("Run " + st.name, st.commands[i]))
  }

  /** How many shell commands the stages hold together. */
  function TotalCommands(stages: seq<Stage>): nat {
    if |stages| == 0 then 0 else |stages[0].commands| + TotalCommands(stages[1..])
  }

  /** The command steps of all stages, stage after stage: one per command. */
  function CommandSteps(stages: seq<Stage>): (r: seq<Value>)
    ensures |r| == TotalCommands(stages)
  {
    if |stages| == 0 then [] else StageSteps(stages[0]) + CommandSteps(stages[1..])
  }

  /** `_generate_generic_jobs`: a single job, checkout then every stage's commands. */
  function GenericJobs(cfg: Config, p: Pipeline): seq<(string, Value)> {
    [("build-and-test", Map([("runs-on", Str(cfg.runner)),
                             ("steps", List([CheckoutStep] + CommandSteps(p.stages)))]))]
  }

  /** The document around the jobs: name, triggers, jobs. */
  function WorkflowDocument(jobs: seq<(string, Value)>): Value {
    Map([("name", Str("CI/CD Pipeline")), ("on", Triggers), ("jobs", Map(jobs))])
  }

  /** Pushes to `main` and `develop`, and pull requests against `main`. */
  const Triggers: Value := Map([("push", PushTrigger), ("pull_request", PullRequestTrigger)])
  const PushTrigger: Value := Map([("branches", List([Str("main"), Str("develop")]))])
  const PullRequestTrigger: Value := Map([("branches", List([Str("main")]))])

  /** `_generate_gha_workflow`: Maven projects get the Maven jobs, every other
      type the generic job. With no Java version configured, the Maven jobs
      fail on `java_versions[-1]` with Python's IndexError message. */
  function BuildWorkflow(cfg: Config, p: Pipeline): (r: Result<Value>)
    ensures r.Failure? <==> p.kind == Maven && |cfg.javaVersions| == 0
  {
    if p.kind == Maven then
      if |cfg.javaVersions| == 0 then Failure("list index out of range")
      else Success(WorkflowDocument(MavenJobs(cfg, p)))
    else Success(WorkflowDocument(GenericJobs(cfg, p)))
  }
}
