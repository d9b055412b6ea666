/**
  What the generated workflow promises: which jobs exist, how they are gated,
  which steps run inside the project's working directory, and where build
  outputs are looked for (jenkins-to-gha-converter.py:233-489).
 */
module WorkflowFacts {
  import opened Options
  import opened Text
  import opened Document
  import opened Stages
  import opened Project
  import opened Workflow

  const WorkingDirectoryKey := "working-directory"

  /** The steps of a job. */
  function JobSteps(job: Value): seq<Value> {
    match Get(job, "steps")
    case Some(List(xs)) => xs
    case _ => []
  }

  /** A step placed in the working directory `wd` carries it under `working-directory`. */
  predicate PlacedIn(step: Value, wd: Option<string>) {
    Present(wd) && Get(step, WorkingDirectoryKey) == Some(Str(wd.value))
  }

  /** Steps written without a working directory. */
  predicate Unplaced(steps: seq<Value>) {
    forall i :: 0 <= i < |steps| ==> steps[i].Map? && !HasKey(steps[i], WorkingDirectoryKey)
  }

  /** Attaching the working directory changes no other field of a step. */
  lemma PlaceKeepsFields(step: Value, wd: Option<string>, f: RunFilter, k: string)
    requires k != WorkingDirectoryKey
    ensures Get(Place(step, wd, f), k) == Get(step, k)
  {
    if Present(wd) && step.Map? && Eligible(step, f) {
      PutLookup(step.entries, WorkingDirectoryKey, Str(wd.value), k);
    }
  }

  /** Attaching the working directory touches exactly the selected steps, and only
      when there is a working directory; every other field, `run` included, is kept. */
  lemma PlaceAllExactly(steps: seq<Value>, wd: Option<string>, f: RunFilter)
    requires Unplaced(steps)
    ensures var r := PlaceAll(steps, wd, f);
      forall i :: 0 <= i < |steps| ==>
        && (HasKey(r[i], WorkingDirectoryKey) <==> Present(wd) && Eligible(steps[i], f))
        && (HasKey(r[i], WorkingDirectoryKey) ==> PlacedIn(r[i], wd))
        && RunOf(r[i]) == RunOf(steps[i])
  {
    var r := PlaceAll(steps, wd, f);
    forall i | 0 <= i < |steps|
      ensures HasKey(r[i], WorkingDirectoryKey) <==> Present(wd) && Eligible(steps[i], f)
      ensures HasKey(r[i], WorkingDirectoryKey) ==> PlacedIn(r[i], wd)
      ensures RunOf(r[i]) == RunOf(steps[i])
    {
      assert Get(r[i], "run") == Get(steps[i], "run");
      assert HasKey(r[i], WorkingDirectoryKey) <==> Get(r[i], WorkingDirectoryKey).Some?;
    }
  }

  lemma BaseStepsUnplaced()
    ensures Unplaced(BaseSteps())
    ensures forall i :: 0 <= i < |BaseSteps()| ==> RunOf(BaseSteps()[i]) == None
  {
  }

  lemma MavenStepsUnplaced(cfg: Config, wd: Option<string>)
    requires |cfg.javaVersions| > 0
    ensures Unplaced(MavenSteps(cfg, wd))
  {
  }

  lemma DeliverStepsUnplaced(cfg: Config, wd: Option<string>)
    requires |cfg.javaVersions| > 0
    ensures Unplaced(DeliverSteps(cfg, wd))
  {
  }

  lemma SecurityStepsUnplaced(cfg: Config, wd: Option<string>)
    requires |cfg.javaVersions| > 0
    ensures Unplaced(SecuritySteps(cfg, wd))
  {
  }

  /** Each step of a job, with the working directory `wd` in force: it carries
      `working-directory` exactly when the job's filter selects its `run` text,
      and then the value is `wd`. */
  predicate PlacementExact(steps: seq<Value>, wd: Option<string>, f: RunFilter) {
    forall i :: 0 <= i < |steps| ==>
      && (HasKey(steps[i], WorkingDirectoryKey) <==> Present(wd) && Eligible(steps[i], f))
      && (HasKey(steps[i], WorkingDirectoryKey) ==> PlacedIn(steps[i], wd))
  }

  lemma PlacementExactAppend(a: seq<Value>, b: seq<Value>, wd: Option<string>, f: RunFilter)
    requires PlacementExact(a, wd, f) && PlacementExact(b, wd, f)
    ensures PlacementExact(a + b, wd, f)
  {
    assert forall i :: |a| <= i < |a + b| ==> (a + b)[i] == b[i - |a|];
  }

  lemma PlaceAllPlacementExact(steps: seq<Value>, wd: Option<string>, f: RunFilter)
    requires Unplaced(steps)
    ensures PlacementExact(PlaceAll(steps, wd, f), wd, f)
  {
    PlaceAllExactly(steps, wd, f);
    var r := PlaceAll(steps, wd, f);
    forall i | 0 <= i < |r| ensures Eligible(r[i], f) == Eligible(steps[i], f) {
    }
  }

  /** The build-and-test job: the three set-up steps, then the Maven steps. */
  lemma BuildAndTestSteps(cfg: Config, wd: Option<string>)
    requires |cfg.javaVersions| > 0
    ensures JobSteps(BuildAndTestJob(cfg, wd)) == BaseSteps() + PlaceAll(MavenSteps(cfg, wd), wd, StartsWithMvn)
  {
    LookupAt(BuildAndTestJob(cfg, wd).entries, "steps", 2);
  }

  lemma DeliverJobSteps(cfg: Config, wd: Option<string>)
    requires |cfg.javaVersions| > 0
    ensures JobSteps(DeliverJob(cfg, wd)) == PlaceAll(DeliverSteps(cfg, wd), wd, MentionsMvnOrJar)
  {
    LookupAt(DeliverJob(cfg, wd).entries, "steps", 3);
  }

  lemma SecurityJobSteps(cfg: Config, wd: Option<string>)
    requires |cfg.javaVersions| > 0
    ensures JobSteps(SecurityJob(cfg, wd)) == PlaceAll(SecuritySteps(cfg, wd), wd, MentionsMvn)
  {
    LookupAt(SecurityJob(cfg, wd).entries, "steps", 2);
  }

  /** In build-and-test, exactly the steps whose command starts with `mvn` run
      in the working directory, and only when there is one. */
  lemma BuildAndTestPlacement(cfg: Config, wd: Option<string>)
    requires |cfg.javaVersions| > 0
    ensures PlacementExact(JobSteps(BuildAndTestJob(cfg, wd)), wd, StartsWithMvn)
  {
    BuildAndTestSteps(cfg, wd);
    BaseStepsUnplaced();
    MavenStepsUnplaced(cfg, wd);
    PlaceAllPlacementExact(MavenSteps(cfg, wd), wd, StartsWithMvn);
    PlacementExactAppend(BaseSteps(), PlaceAll(MavenSteps(cfg, wd), wd, StartsWithMvn), wd, StartsWithMvn);
  }

  /** In the delivery job, exactly the steps mentioning `mvn` or `java -jar`. */
  lemma DeliverPlacement(cfg: Config, wd: Option<string>)
    requires |cfg.javaVersions| > 0
    ensures PlacementExact(JobSteps(DeliverJob(cfg, wd)), wd, MentionsMvnOrJar)
  {
    DeliverJobSteps(cfg, wd);
    DeliverStepsUnplaced(cfg, wd);
    PlaceAllPlacementExact(DeliverSteps(cfg, wd), wd, MentionsMvnOrJar);
  }

  /** In the security job, exactly the steps mentioning `mvn`. */
  lemma SecurityPlacement(cfg: Config, wd: Option<string>)
    requires |cfg.javaVersions| > 0
    ensures PlacementExact(JobSteps(SecurityJob(cfg, wd)), wd, MentionsMvn)
  {
    SecurityJobSteps(cfg, wd);
    SecurityStepsUnplaced(cfg, wd);
    PlaceAllPlacementExact(SecuritySteps(cfg, wd), wd, MentionsMvn);
  }

  /** The steps carrying a working directory are exactly those at `positions`. */
  predicate PlacedExactlyAt(steps: seq<Value>, positions: set<nat>) {
    forall j :: 0 <= j < |steps| ==> (HasKey(steps[j], WorkingDirectoryKey) <==> j in positions)
  }

  /** The steps the filter selects are exactly those at `positions`. */
  predicate SelectedExactlyAt(steps: seq<Value>, f: RunFilter, positions: set<nat>) {
    forall j :: 0 <= j < |steps| ==> (Eligible(steps[j], f) <==> j in positions)
  }

  /** Placement at given positions follows from which original steps the filter selects. */
  lemma PlacedPositions(orig: seq<Value>, wd: Option<string>, f: RunFilter, selected: set<nat>)
    requires Unplaced(orig) && Present(wd)
    requires SelectedExactlyAt(orig, f, selected)
    ensures PlacedExactlyAt(PlaceAll(orig, wd, f), selected)
  {
    PlaceAllExactly(orig, wd, f);
  }

  lemma RunStepRun(name: string, run: string)
    ensures RunOf(RunStep(name, run)) == Some(run)
  {
    LookupAt(RunStep(name, run).entries, "run", 1);
  }

  /** A step without a `run` field is never selected. */
  lemma NoRunNotEligible(step: Value, f: RunFilter)
    requires step.Map? && forall i :: 0 <= i < |step.entries| ==> step.entries[i].0 != "run"
    ensures !Eligible(step, f)
  {
  }

  lemma PrefixOf(a: string, b: string)
    ensures StartsWith(a + b, a)
  {
    assert (a + b)[..|a|] == a;
  }

  lemma MavenStepsSelected(cfg: Config, wd: Option<string>)
    requires |cfg.javaVersions| > 0
    ensures SelectedExactlyAt(MavenSteps(cfg, wd), StartsWithMvn, {0, 1, 2, 4})
  {
    var ms := MavenSteps(cfg, wd);
    var positions: set<nat> := {0, 1, 2, 4};
    forall j | 0 <= j < |ms| ensures Eligible(ms[j], StartsWithMvn) <==> j in positions {
      StepSelected(cfg, wd, j);
    }
  }

  lemma StepSelected(cfg: Config, wd: Option<string>, j: nat)
    requires |cfg.javaVersions| > 0 && j < 6
    ensures Eligible(MavenSteps(cfg, wd)[j], StartsWithMvn) <==> j in {0, 1, 2, 4}
  {
    if j == 0 {
      ValidateSelected(cfg, wd);
    } else if j == 1 {
      CompileSelected(cfg, wd);
    } else if j == 2 {
      TestSelected(cfg, wd);
    } else if j == 4 {
      PackageSelected(cfg, wd);
    } else if j == 3 {
      NoRunNotEligible(TestReportStep(wd), StartsWithMvn);
    } else {
      NoRunNotEligible(UploadJarStep(LastVersion(cfg), wd), StartsWithMvn);
    }
  }

  lemma ValidateSelected(cfg: Config, wd: Option<string>)
    requires |cfg.javaVersions| > 0
    ensures Eligible(MavenSteps(cfg, wd)[0], StartsWithMvn)
  {
    MvnStepSelected(MavenSteps(cfg, wd), 0, "Validate Maven project", "mvn validate");
  }

  lemma CompileSelected(cfg: Config, wd: Option<string>)
    requires |cfg.javaVersions| > 0
    ensures Eligible(MavenSteps(cfg, wd)[1], StartsWithMvn)
  {
    MvnStepSelected(MavenSteps(cfg, wd), 1, "Compile project", "mvn compile");
  }

  lemma TestSelected(cfg: Config, wd: Option<string>)
    requires |cfg.javaVersions| > 0
    ensures Eligible(MavenSteps(cfg, wd)[2], StartsWithMvn)
  {
    MvnStepSelected(MavenSteps(cfg, wd), 2, "Run tests", "mvn test");
  }

  lemma PackageSelected(cfg: Config, wd: Option<string>)
    requires |cfg.javaVersions| > 0
    ensures Eligible(MavenSteps(cfg, wd)[4], StartsWithMvn)
  {
    MvnStepSelected(MavenSteps(cfg, wd), 4, "Build package", "mvn -B -DskipTests clean package");
  }

  /** A command step whose command starts with `mvn` is selected. */
  lemma MvnStepSelected(steps: seq<Value>, j: nat, name: string, run: string)
    requires j < |steps| && steps[j] == RunStep(name, run) && |run| >= 3 && run[..3] == "mvn"
    ensures Eligible(steps[j], StartsWithMvn)
  {
    RunStepRun(name, run);
  }

  lemma MavenPositions(cfg: Config, wd: Option<string>)
    requires |cfg.javaVersions| > 0 && Present(wd)
    ensures PlacedExactlyAt(PlaceAll(MavenSteps(cfg, wd), wd, StartsWithMvn), {0, 1, 2, 4})
  {
    MavenStepsUnplaced(cfg, wd);
    MavenStepsSelected(cfg, wd);
    PlacedPositions(MavenSteps(cfg, wd), wd, StartsWithMvn, {0, 1, 2, 4});
  }

  /** Positions shift by the length of the steps put in front. */
  lemma PlacedAfter(base: seq<Value>, placed: seq<Value>, positions: set<nat>, shifted: set<nat>)
    requires Unplaced(base) && PlacedExactlyAt(placed, positions)
    requires forall j: nat :: j in shifted <==> j >= |base| && j - |base| in positions
    ensures PlacedExactlyAt(base + placed, shifted)
  {
    var steps := base + placed;
    forall i | 0 <= i < |steps|
      ensures HasKey(steps[i], WorkingDirectoryKey) <==> i in shifted
    {
      if i >= |base| {
        assert steps[i] == placed[i - |base|];
      } else {
        assert steps[i] == base[i];
      }
    }
  }

  /** With a working directory, build-and-test runs validate, compile, test and
      package there (steps 3, 4, 5 and 7 of nine); the set-up steps, the test
      report and the upload stay at the checkout root. */
  lemma BuildAndTestPlacedSteps(cfg: Config, wd: Option<string>)
    requires |cfg.javaVersions| > 0 && Present(wd)
    ensures |JobSteps(BuildAndTestJob(cfg, wd))| == 9
    ensures PlacedExactlyAt(JobSteps(BuildAndTestJob(cfg, wd)), {3, 4, 5, 7})
  {
    BuildAndTestSteps(cfg, wd);
    BaseStepsUnplaced();
    MavenPositions(cfg, wd);
    var base := BaseSteps();
    assert |base| == 3;
    MavenPositionsShifted();
    PlacedAfter(base, PlaceAll(MavenSteps(cfg, wd), wd, StartsWithMvn), {0, 1, 2, 4}, {3, 4, 5, 7});
  }

  lemma MavenPositionsShifted()
    ensures var shifted: set<nat>, positions: set<nat> := {3, 4, 5, 7}, {0, 1, 2, 4};
      forall j: nat :: j in shifted <==> j >= 3 && j - 3 in positions
  {
  }

  /** Contains for a text built around the searched part. */
  lemma MentionsInside(pre: string, sub: string, post: string)
    ensures Contains(pre + sub + post, sub)
  {
    var t := pre + sub + post;
    assert t[|pre|..|pre| + |sub|] == sub;
    ContainsAt(t, sub, |pre|);
  }

  lemma DeliverStepsSelected(cfg: Config, wd: Option<string>)
    requires |cfg.javaVersions| > 0
    ensures SelectedExactlyAt(DeliverSteps(cfg, wd), MentionsMvnOrJar, {3, 4, 5})
  {
    var ds := DeliverSteps(cfg, wd);
    var positions: set<nat> := {3, 4, 5};
    forall j | 0 <= j < |ds| ensures Eligible(ds[j], MentionsMvnOrJar) <==> j in positions {
      DeliverStepSelected(cfg, wd, j);
    }
  }

  lemma DeliverStepSelected(cfg: Config, wd: Option<string>, j: nat)
    requires |cfg.javaVersions| > 0 && j < 6
    ensures Eligible(DeliverSteps(cfg, wd)[j], MentionsMvnOrJar) <==> j in {3, 4, 5}
  {
    if j == 3 {
      InstallSelected(cfg, wd);
    } else if j == 4 {
      ExtractSelected(cfg, wd);
    } else if j == 5 {
      RunAppSelected(cfg, wd);
    } else {
      NoRunNotEligible(DeliverSteps(cfg, wd)[j], MentionsMvnOrJar);
    }
  }

  lemma InstallSelected(cfg: Config, wd: Option<string>)
    requires |cfg.javaVersions| > 0
    ensures Eligible(DeliverSteps(cfg, wd)[3], MentionsMvnOrJar)
  {
    MentionsInside(InstallEcho, "mvn", InstallCommand);
    RunStepRun("Install to local repository", InstallRun);
  }

  lemma ExtractSelected(cfg: Config, wd: Option<string>)
    requires |cfg.javaVersions| > 0
    ensures Eligible(DeliverSteps(cfg, wd)[4], MentionsMvnOrJar)
  {
    MentionedStep(DeliverSteps(cfg, wd)[4], 2, ExtractRun, ExtractEcho, "mvn", ExtractCommands);
  }

  /** A step whose `run` text holds `mvn` or `java -jar` is selected for delivery. */
  lemma MentionedStep(step: Value, k: nat, run: string, pre: string, sub: string, post: string)
    requires step.Map? && k < |step.entries| && step.entries[k] == ("run", Str(run))
    requires forall i :: 0 <= i < k ==> step.entries[i].0 != "run"
    requires run == pre + sub + post && (sub == "mvn" || sub == "java -jar")
    ensures Eligible(step, MentionsMvnOrJar)
  {
    LookupAt(step.entries, "run", k);
    MentionsInside(pre, sub, post);
  }

  lemma RunAppSelected(cfg: Config, wd: Option<string>)
    requires |cfg.javaVersions| > 0
    ensures Eligible(DeliverSteps(cfg, wd)[5], MentionsMvnOrJar)
  {
    MentionsInside(RunAppEcho, "java -jar", RunAppCommand);
    RunStepRun("Run application", RunAppRun);
  }

  lemma DeliverPositions(cfg: Config, wd: Option<string>)
    requires |cfg.javaVersions| > 0 && Present(wd)
    ensures PlacedExactlyAt(PlaceAll(DeliverSteps(cfg, wd), wd, MentionsMvnOrJar), {3, 4, 5})
  {
    DeliverStepsUnplaced(cfg, wd);
    DeliverStepsSelected(cfg, wd);
    PlacedPositions(DeliverSteps(cfg, wd), wd, MentionsMvnOrJar, {3, 4, 5});
  }

  /** With a working directory, the delivery job runs its three scripts there
      (steps 3, 4 and 5 of six): installing, reading the project coordinates and
      running the jar. */
  lemma DeliverPlacedSteps(cfg: Config, wd: Option<string>)
    requires |cfg.javaVersions| > 0 && Present(wd)
    ensures |JobSteps(DeliverJob(cfg, wd))| == 6
    ensures PlacedExactlyAt(JobSteps(DeliverJob(cfg, wd)), {3, 4, 5})
  {
    DeliverJobSteps(cfg, wd);
    DeliverPositions(cfg, wd);
  }

  lemma SecurityStepsSelected(cfg: Config, wd: Option<string>)
    requires |cfg.javaVersions| > 0
    ensures SelectedExactlyAt(SecuritySteps(cfg, wd), MentionsMvn, {2})
  {
    var ss := SecuritySteps(cfg, wd);
    var positions: set<nat> := {2};
    forall j | 0 <= j < |ss| ensures Eligible(ss[j], MentionsMvn) <==> j in positions {
      SecurityStepSelected(cfg, wd, j);
    }
  }

  lemma SecurityStepSelected(cfg: Config, wd: Option<string>, j: nat)
    requires |cfg.javaVersions| > 0 && j < 4
    ensures Eligible(SecuritySteps(cfg, wd)[j], MentionsMvn) <==> j == 2
  {
    var ss := SecuritySteps(cfg, wd);
    if j == 2 {
      LookupAt(ss[2].entries, "run", 1);
      PrefixOf("mvn", OwaspArguments);
    } else {
      NoRunNotEligible(ss[j], MentionsMvn);
    }
  }

  lemma SecurityPositions(cfg: Config, wd: Option<string>)
    requires |cfg.javaVersions| > 0 && Present(wd)
    ensures PlacedExactlyAt(PlaceAll(SecuritySteps(cfg, wd), wd, MentionsMvn), {2})
  {
    SecurityStepsUnplaced(cfg, wd);
    SecurityStepsSelected(cfg, wd);
    PlacedPositions(SecuritySteps(cfg, wd), wd, MentionsMvn, {2});
  }

  /** With a working directory, the security job runs only the OWASP check there
      (step 2 of four). */
  lemma SecurityPlacedSteps(cfg: Config, wd: Option<string>)
    requires |cfg.javaVersions| > 0 && Present(wd)
    ensures |JobSteps(SecurityJob(cfg, wd))| == 4
    ensures PlacedExactlyAt(JobSteps(SecurityJob(cfg, wd)), {2})
  {
    SecurityJobSteps(cfg, wd);
    SecurityPositions(cfg, wd);
  }

  /** Without a working directory no step of any Maven job carries one. */
  lemma NoWorkingDirectoryAnywhere(cfg: Config, wd: Option<string>)
    requires |cfg.javaVersions| > 0 && !Present(wd)
    ensures Unplaced(JobSteps(BuildAndTestJob(cfg, wd)))
    ensures Unplaced(JobSteps(DeliverJob(cfg, wd)))
    ensures Unplaced(JobSteps(SecurityJob(cfg, wd)))
  {
    BuildAndTestSteps(cfg, wd);
    DeliverJobSteps(cfg, wd);
    SecurityJobSteps(cfg, wd);
    BaseStepsUnplaced();
    MavenStepsUnplaced(cfg, wd);
    DeliverStepsUnplaced(cfg, wd);
    SecurityStepsUnplaced(cfg, wd);
    PlaceAllAbsent(MavenSteps(cfg, wd), wd, StartsWithMvn);
    PlaceAllAbsent(DeliverSteps(cfg, wd), wd, MentionsMvnOrJar);
    PlaceAllAbsent(SecuritySteps(cfg, wd), wd, MentionsMvn);
    UnplacedAppend(BaseSteps(), MavenSteps(cfg, wd));
  }

  /** Without a working directory, placing changes nothing. */
  lemma PlaceAllAbsent(steps: seq<Value>, wd: Option<string>, f: RunFilter)
    requires !Present(wd)
    ensures PlaceAll(steps, wd, f) == steps
  {
  }

  lemma UnplacedAppend(a: seq<Value>, b: seq<Value>)
    requires Unplaced(a) && Unplaced(b)
    ensures Unplaced(a + b)
  {
    assert forall i :: |a| <= i < |a + b| ==> (a + b)[i] == b[i - |a|];
  }
}
