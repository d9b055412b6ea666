/**
  Which jobs a workflow holds (jenkins-to-gha-converter.py:233-253, 351-357)
  and what the single job of a non-Maven project runs (:466-489).
 */
module JobSet {
  import opened Options
  import opened Document
  import opened Stages
  import opened Project
  import opened Workflow
  import opened WorkflowFacts

  /** A Maven workflow starts with build-and-test, ends with the security scan,
      and holds a delivery job exactly when some stage delivers. */
  lemma MavenJobSet(cfg: Config, p: Pipeline)
    requires |cfg.javaVersions| > 0
    ensures var ks := Keys(MavenJobs(cfg, p));
      && ks[0] == "build-and-test" && ks[|ks| - 1] == "security-scan"
      && ("deliver" in ks <==> HasDeliverStage(p.stages))
      && |ks| == (if HasDeliverStage(p.stages) then 3 else 2)
  {
    var ks := Keys(MavenJobs(cfg, p));
    if !HasDeliverStage(p.stages) {
      assert ks == ["build-and-test", "security-scan"];
    }
  }

  /** Commands of consecutive stage lists add up. */
  lemma {:induction false} TotalCommandsAppend(a: seq<Stage>, b: seq<Stage>)
    ensures TotalCommands(a + b) == TotalCommands(a) + TotalCommands(b)
    decreases |a|
  {
    if |a| == 0 {
      assert a + b == b;
    } else {
      assert (a + b)[1..] == a[1..] + b;
      TotalCommandsAppend(a[1..], b);
    }
  }

  /** Command steps of consecutive stage lists follow one another. */
  lemma {:induction false} CommandStepsAppend(a: seq<Stage>, b: seq<Stage>)
    ensures CommandSteps(a + b) == CommandSteps(a) + CommandSteps(b)
    decreases |a|
  {
    if |a| == 0 {
      assert a + b == b;
    } else {
      assert (a + b)[1..] == a[1..] + b;
      CommandStepsAppend(a[1..], b);
    }
  }

  /** The `c`-th command of stage `k` becomes the step `Run <name>` running it,
      placed after the commands of all earlier stages. */
  lemma {:induction false} CommandStepAt(stages: seq<Stage>, k: nat, c: nat)
    requires k < |stages| && c < |stages[k].commands|
    ensures TotalCommands(stages[..k]) + c < |CommandSteps(stages)|
    ensures CommandSteps(stages)[TotalCommands(stages[..k]) + c]
      == RunStep("Run " + stages[k].name, stages[k].commands[c])
    decreases k
  {
    if k == 0 {
      assert stages[..0] == [];
    } else {
      var rest := stages[1..];
      assert stages[..k] == [stages[0]] + rest[..k - 1];
      TotalCommandsAppend([stages[0]], rest[..k - 1]);
      assert TotalCommands([stages[0]]) == |stages[0].commands| by {
        assert [stages[0]][1..] == [];
      }
      CommandStepAt(rest, k - 1, c);
    }
  }

  /** A stage without commands adds no step. */
  lemma SilentStage(before: seq<Stage>, st: Stage, after: seq<Stage>)
    requires |st.commands| == 0
    ensures CommandSteps(before + [st] + after) == CommandSteps(before + after)
  {
    CommandStepsAppend(before + [st], after);
    CommandStepsAppend(before, [st]);
    CommandStepsAppend(before, after);
    assert CommandSteps([st]) == [] by {
      assert [st][1..] == [];
    }
  }

  /** The generic job: checkout, then one step per command in stage order,
      none of them with a working directory. */
  lemma GenericJobShape(cfg: Config, p: Pipeline)
    ensures Keys(GenericJobs(cfg, p)) == ["build-and-test"]
    ensures var steps := JobSteps(GenericJobs(cfg, p)[0].1);
      && |steps| == 1 + TotalCommands(p.stages)
      && steps[0] == CheckoutStep
      && steps[1..] == CommandSteps(p.stages)
      && Unplaced(steps)
  {
    var job := GenericJobs(cfg, p)[0].1;
    var steps := [CheckoutStep] + CommandSteps(p.stages);
    LookupAt(job.entries, "steps", 1);
    assert JobSteps(job) == steps;
    CommandStepsUnplaced(p.stages);
  }

  lemma {:induction false} CommandStepsUnplaced(stages: seq<Stage>)
    ensures Unplaced(CommandSteps(stages))
    decreases |stages|
  {
    if |stages| > 0 {
      CommandStepsUnplaced(stages[1..]);
      var head := StageSteps(stages[0]);
      forall i | 0 <= i < |head|
        ensures head[i].Map? && !HasKey(head[i], WorkingDirectoryKey)
      {
        assert Keys(head[i].entries) == ["name", "run"];
      }
    }
  }

  /** The document always holds `name`, `on` and `jobs`, in that order; its jobs
      are the Maven jobs for a Maven project and the generic job otherwise. */
  lemma WorkflowJobs(cfg: Config, p: Pipeline)
    requires p.kind != Maven || |cfg.javaVersions| > 0
    ensures BuildWorkflow(cfg, p).Success?
    ensures var doc := BuildWorkflow(cfg, p).value;
      && doc.Map? && Keys(doc.entries) == ["name", "on", "jobs"]
      && Get(doc, "jobs") == Some(Map(if p.kind == Maven then MavenJobs(cfg, p) else GenericJobs(cfg, p)))
  {
    var jobs := if p.kind == Maven then MavenJobs(cfg, p) else GenericJobs(cfg, p);
    assert BuildWorkflow(cfg, p) == Success(WorkflowDocument(jobs));
    DocumentJobs(jobs);
  }

  lemma DocumentJobs(jobs: seq<(string, Value)>)
    ensures var doc := WorkflowDocument(jobs);
      && doc.Map? && Keys(doc.entries) == ["name", "on", "jobs"]
      && Get(doc, "jobs") == Some(Map(jobs))
  {
    LookupAt(WorkflowDocument(jobs).entries, "jobs", 2);
  }

  /** Every project type but Maven gets the generic job, whatever its build files. */
  lemma NonMavenIsGeneric(cfg: Config, p: Pipeline)
    requires p.kind != Maven
    ensures Get(BuildWorkflow(cfg, p).value, "jobs") == Some(Map(GenericJobs(cfg, p)))
  {
    WorkflowJobs(cfg, p);
  }
}
