# Jenkins-to-GitHub-Actions converter: a Dafny model of its conversion core

The converter reads a Jenkins project directory. It finds every Jenkinsfile,
reads the stage names from each one and detects the build system from the files
beside it. It then writes one GitHub Actions workflow per Jenkinsfile and copies
the rest of the source tree. This project models the decisions behind those
steps as pure Dafny functions and proves what they guarantee.

- **Stage extraction and classification** (`Stages`). The pattern
  `stage\s*(\s*['"]([^'"]+)['"]\s*)` with `re.findall` and `re.IGNORECASE` is
  modelled as a deterministic scanner. It is proved sound and complete against
  a part-by-part description of a declaration. The keyword-family classifier
  is characterised family by family.
- **Project detection** (`Project`). This covers the build type (Maven > Gradle
  > Node > generic), the working directory the Maven steps run in, and the
  workflow file name taken from the Jenkinsfile's directory.
- **The workflow builder** (`Workflow`, with its facts in `WorkflowFacts`,
  `WorkflowGates` and `JobSet`). A Maven project gets the matrix
  build-and-test job, the delivery job when some stage delivers, and the
  security scan. Working directories go onto exactly the steps each job's
  filter selects. Any other project gets the generic job, which replays the
  stages' shell commands.
- **The YAML serializer** `dict_to_yaml` (`Yaml`). It works over an
  insertion-ordered document value (`Document`). Python's `str`, `repr`,
  `strip` and `split` are written out where the serializer uses them.
- **One file end to end** (`Converter`). This reads the pipeline, builds the
  workflow, names the file and produces the text, with the catch-all as a
  `Result`.
- **The walk and the copy decision** (`Discovery`). The walk finds pipeline
  files and skips `.git…` directories. The copy decision is made for each
  entry at the top of the input.

The test-report step runs under `success() || failure()`
(jenkins-to-gha-converter.py:319). Every non-Maven type, Gradle and Node
included, gets the generic job (:250-253).

## Model

| member | source | states |
|---|---|---|
| Text.Lower | jenkins-to-gha-converter.py:182 | `str.lower()` keeps the length and folds each character on its own; the result has no upper-case ASCII letter |
| Text.ReplaceChar | jenkins-to-gha-converter.py:229 | `replace(' ', '-')` changes exactly the occurrences of the one character, position by position |
| Text.Strip | jenkins-to-gha-converter.py:53 | `strip()` returns a slice of the text with only whitespace before and after it, and the slice itself neither starts nor ends with whitespace |
| Text.StripUntouched | jenkins-to-gha-converter.py:53 | a text with no outer whitespace is left unchanged by `strip()` |
| Text.Split | jenkins-to-gha-converter.py:61 | `split('\n')` yields at least one field and no field holds the separator |
| Text.SplitCount | jenkins-to-gha-converter.py:61 | splitting yields one more field than the text has separators |
| Text.JoinSplit | jenkins-to-gha-converter.py:61 | joining the fields back with the separator restores the text exactly, empty fields included |
| Text.NatToString | jenkins-to-gha-converter.py:64 | `str(n)` of a natural number is a run of decimal digits without leading zeros whose value is `n` |
| Text.IntToString | jenkins-to-gha-converter.py:56 | `str(i)` starts with `-` exactly for negative numbers, and the digits after any sign spell the number's magnitude without leading zeros, so `retention-days: 30` is written with the digits of 30 |
| Text.Indent | jenkins-to-gha-converter.py:37 | the indentation of depth `n` is `2n` spaces |
| Document.Keys | jenkins-to-gha-converter.py:40 | a mapping's keys come in insertion order, one per entry |
| Document.Lookup | jenkins-to-gha-converter.py:296 | `d.get(key)` finds a value exactly when the key is present, and the value is one stored under it |
| Document.Put | jenkins-to-gha-converter.py:347 | `d[key] = v` keeps an existing key in place and appends a new key at the end |
| Document.PutLookup | jenkins-to-gha-converter.py:347 | after `d[key] = v` the key maps to `v` and every other key maps to what it did before |
| Document.PutDistinct | jenkins-to-gha-converter.py:347 | storing under a key keeps the mapping's keys distinct |
| Document.LookupAt | jenkins-to-gha-converter.py:346 | a key's lookup returns the first entry that carries it |
| Yaml.Render | jenkins-to-gha-converter.py:34-66 | every line emitted for a mapping at depth `n` starts with that depth's indentation |
| Yaml.RenderEntries | jenkins-to-gha-converter.py:39-40 | the entries of a mapping are emitted at the mapping's indentation |
| Yaml.EntryLines | jenkins-to-gha-converter.py:40-64 | an entry opens with a line naming its key at depth `n`, and every further line sits strictly beneath that depth |
| Yaml.BlockLines | jenkins-to-gha-converter.py:61-62 | a `\|` block emits each segment verbatim, one level deeper, one line per segment |
| Yaml.ItemsLines | jenkins-to-gha-converter.py:46-56 | every line of a list's items sits beneath the key's depth |
| Yaml.ItemLines | jenkins-to-gha-converter.py:46-56 | a list item opens with `- ` at the key's depth and its remaining lines sit beneath it |
| Yaml.ReprString | jenkins-to-gha-converter.py:56 | Python's `repr` of a string uses double quotes exactly when the text holds a single quote and no double quote, and single quotes otherwise; printable ASCII other than the quote and the backslash passes through unchanged |
| Yaml.RenderEntriesAppend | jenkins-to-gha-converter.py:40 | entries render independently: the lines of two runs of entries are the lines of the first followed by those of the second |
| Yaml.KeysInOrder | jenkins-to-gha-converter.py:40-64 | reading back the lines at a mapping's own depth gives exactly one line per entry, naming the keys in insertion order |
| Yaml.EntryKeyLine | jenkins-to-gha-converter.py:41-64 | an entry contributes exactly one line at its own depth, the one naming its key |
| Yaml.FlatMapLayout | jenkins-to-gha-converter.py:63-64 | a mapping of single-line scalars renders as one `key: value` line per entry, in order |
| Yaml.BlockScalarRoundTrip | jenkins-to-gha-converter.py:59-62 | a multi-line string becomes `key: \|` plus one line per line feed plus one; dedenting and joining the body gives the string back |
| Yaml.ReadBlockLines | jenkins-to-gha-converter.py:61-62 | dedenting a block body and joining it with line feeds gives back the joined segments |
| Yaml.BoolSpelling | jenkins-to-gha-converter.py:56-58 | a boolean mapping value is spelled `true`/`false`, while a boolean list item is spelled `True`/`False` |
| Yaml.ListItemFirstField | jenkins-to-gha-converter.py:47-54 | in a list of mappings, the first field shares the `- ` line and the other fields follow one level deeper |
| Stages.ClassifyCharacterisation | jenkins-to-gha-converter.py:193-209 | each stage kind holds exactly when its family matches and no earlier family does; a name with no keyword is a build stage |
| Stages.BuildDominates | jenkins-to-gha-converter.py:200-201 | a lower-cased name containing a build keyword is a build stage, whatever else it contains |
| Stages.TestBeatsLaterFamilies | jenkins-to-gha-converter.py:202-203 | with no build keyword, any test keyword makes a test stage, even alongside delivery or security keywords |
| Stages.TestBeforeDeliver | jenkins-to-gha-converter.py:196-205 | `integration-test-and-deploy` is a test stage, not a delivery stage |
| Stages.SpaceRun | jenkins-to-gha-converter.py:176 | `\s*` consumes the longest whitespace prefix and stops at the first non-space |
| Stages.NameRun | jenkins-to-gha-converter.py:176 | `[^'"]*` consumes the longest quote-free prefix and stops at a quote or at the end |
| Stages.MatchStage | jenkins-to-gha-converter.py:176 | a match is a valid declaration that sits at the start of the text: case-insensitive keyword, whitespace gaps, quotes and a non-empty quote-free name |
| Stages.MatchStageComplete | jenkins-to-gha-converter.py:176 | every valid declaration is matched whole, with all its parts, whatever follows it |
| Stages.Scan | jenkins-to-gha-converter.py:177 | every name `re.findall` returns is non-empty and holds no quote |
| Stages.KeywordStart | jenkins-to-gha-converter.py:176-177 | a match starts with `s` or `S` |
| Stages.ScanDecl | jenkins-to-gha-converter.py:177 | a text opening with a declaration yields its name first, then the names found after it |
| Stages.ScanDecls | jenkins-to-gha-converter.py:177 | consecutive declarations are all extracted, in order, with repeated names kept |
| Stages.ScanSkip | jenkins-to-gha-converter.py:177 | text without `s`/`S` contributes no stage names |
| Stages.ScanBound | jenkins-to-gha-converter.py:176-177 | each match spans at least ten characters, so a text yields at most a tenth of its length in stages |
| Stages.ScanNeedsKeyword | jenkins-to-gha-converter.py:176-177 | a text that does not contain `stage` in any letter case yields no stages |
| Stages.ParseStages | jenkins-to-gha-converter.py:179-185 | one stage per extracted name, in order, with the kind of its lower-cased name and the commands found for it |
| Project.Detect | jenkins-to-gha-converter.py:164-173 | each type holds exactly when its build file is present and no higher-priority one is; only a recognised project records its directory, as `.` or the joined relative path |
| Project.MavenWins | jenkins-to-gha-converter.py:165-167 | once `pom.xml` is present, no other file changes the detection |
| Project.GradleBeatsNode | jenkins-to-gha-converter.py:168-172 | without `pom.xml`, a Gradle build file wins over `package.json` |
| Project.NormalizeWorkingDirectory | jenkins-to-gha-converter.py:296-300 | there is a working directory exactly when the value is neither missing, empty nor `.`, and it is then `./` plus the value |
| Project.WorkingDirectoryPresence | jenkins-to-gha-converter.py:296-300 | the Maven steps get a working directory exactly for a recognised project below the root, namely `./` plus its joined path |
| Project.RootHasNoWorkingDirectory | jenkins-to-gha-converter.py:297-300 | a project at the input root never gets a working directory |
| Project.NestedMavenDirectory | jenkins-to-gha-converter.py:165-167 | a Maven project in `proj/sub` runs its Maven steps in `./proj/sub` |
| Project.WorkflowNameShape | jenkins-to-gha-converter.py:226-231 | the name is `ci` exactly at the root, and otherwise `ci-` plus the last directory folded character by character; it never holds a space or an upper-case letter |
| Project.WorkflowNameLastSegment | jenkins-to-gha-converter.py:228-229 | only the innermost directory decides the name |
| Project.NameOfDirectory | jenkins-to-gha-converter.py:229 | a directory whose characters fold to `expected` gives `ci-` plus `expected` |
| Project.NamesCollide | jenkins-to-gha-converter.py:229 | two directory names that differ only in case, or in space against `-`, give the same workflow name |
| Workflow.Place | jenkins-to-gha-converter.py:344-347 | a step gets `working-directory` exactly when there is one and the job's filter selects the step; nothing else about the step changes |
| Workflow.PlaceAll | jenkins-to-gha-converter.py:344-347 | the placing loop treats every step on its own and keeps the order and the number of steps |
| Workflow.MavenJobs | jenkins-to-gha-converter.py:257-359 | a Maven workflow's jobs are build-and-test, then deliver when a stage delivers, then security-scan |
| Workflow.StageSteps | jenkins-to-gha-converter.py:483-487 | a stage contributes one step per command |
| Workflow.CommandSteps | jenkins-to-gha-converter.py:481-487 | all the stages together contribute one step per command |
| Workflow.BuildWorkflow | jenkins-to-gha-converter.py:233-255 | building fails exactly for a Maven project with no Java versions, where `java_versions[-1]` raises |
| WorkflowFacts.PlaceKeepsFields | jenkins-to-gha-converter.py:347 | setting the working directory changes no other field of a step |
| WorkflowFacts.PlaceAllExactly | jenkins-to-gha-converter.py:344-347 | in a list of steps, exactly the selected ones get the working directory, only when there is one, and every `run` is kept |
| WorkflowFacts.PlaceAllPlacementExact | jenkins-to-gha-converter.py:344-347 | placement over a list of unplaced steps is exact for its filter |
| WorkflowFacts.PlacementExactAppend | jenkins-to-gha-converter.py:349 | exact placement survives joining two step lists |
| WorkflowFacts.BaseStepsUnplaced | jenkins-to-gha-converter.py:269-292 | the three set-up steps run no command and have no working directory |
| WorkflowFacts.MavenStepsUnplaced | jenkins-to-gha-converter.py:303-341 | the Maven steps are written without a working directory |
| WorkflowFacts.DeliverStepsUnplaced | jenkins-to-gha-converter.py:367-410 | the delivery steps are written without a working directory |
| WorkflowFacts.SecurityStepsUnplaced | jenkins-to-gha-converter.py:426-455 | the security steps are written without a working directory |
| WorkflowFacts.BuildAndTestSteps | jenkins-to-gha-converter.py:349 | the build-and-test steps are the three set-up steps followed by the placed Maven steps |
| WorkflowFacts.DeliverJobSteps | jenkins-to-gha-converter.py:413-417 | the delivery job's steps are its six steps, placed by the `mvn`-or-`java -jar` filter |
| WorkflowFacts.SecurityJobSteps | jenkins-to-gha-converter.py:458-462 | the security job's steps are its four steps, placed by the `mvn` filter |
| WorkflowFacts.BuildAndTestPlacement | jenkins-to-gha-converter.py:343-349 | in build-and-test, exactly the steps whose command starts with `mvn` run in the working directory |
| WorkflowFacts.DeliverPlacement | jenkins-to-gha-converter.py:413-417 | in delivery, exactly the steps mentioning `mvn` or `java -jar` run in the working directory |
| WorkflowFacts.SecurityPlacement | jenkins-to-gha-converter.py:458-462 | in the security job, exactly the steps mentioning `mvn` run in the working directory |
| WorkflowFacts.PlacedPositions | jenkins-to-gha-converter.py:344-347 | the placed positions are exactly the positions the filter selects |
| WorkflowFacts.NoRunNotEligible | jenkins-to-gha-converter.py:346 | a step without `run` is never selected (`'run' in step`) |
| WorkflowFacts.MavenStepsSelected | jenkins-to-gha-converter.py:303-347 | among the six Maven steps, exactly validate, compile, test and package (0, 1, 2, 4) start with `mvn` |
| WorkflowFacts.StepSelected | jenkins-to-gha-converter.py:344-347 | Maven step `j` is selected if and only if it is one of 0, 1, 2, 4 |
| WorkflowFacts.ValidateSelected | jenkins-to-gha-converter.py:304-307 | `mvn validate` is selected |
| WorkflowFacts.CompileSelected | jenkins-to-gha-converter.py:308-311 | `mvn compile` is selected |
| WorkflowFacts.TestSelected | jenkins-to-gha-converter.py:312-315 | `mvn test` is selected |
| WorkflowFacts.PackageSelected | jenkins-to-gha-converter.py:327-330 | the package step is selected |
| WorkflowFacts.MvnStepSelected | jenkins-to-gha-converter.py:346 | a step whose command starts with `mvn` passes `startswith('mvn')` |
| WorkflowFacts.MavenPositions | jenkins-to-gha-converter.py:344-347 | with a working directory, exactly Maven steps 0, 1, 2 and 4 carry it |
| WorkflowFacts.PlacedAfter | jenkins-to-gha-converter.py:349 | putting unplaced steps in front shifts the placed positions by their number |
| WorkflowFacts.BuildAndTestPlacedSteps | jenkins-to-gha-converter.py:262-349 | with a working directory, build-and-test has nine steps and exactly steps 3, 4, 5 and 7 carry it |
| WorkflowFacts.DeliverStepsSelected | jenkins-to-gha-converter.py:389-417 | among the delivery steps, exactly install, extract and run (3, 4, 5) mention `mvn` or `java -jar` |
| WorkflowFacts.DeliverStepSelected | jenkins-to-gha-converter.py:413-417 | delivery step `j` is selected if and only if it is one of 3, 4, 5 |
| WorkflowFacts.InstallSelected | jenkins-to-gha-converter.py:389-393 | the install step mentions `mvn` |
| WorkflowFacts.ExtractSelected | jenkins-to-gha-converter.py:394-404 | the project-information step mentions `mvn` |
| WorkflowFacts.RunAppSelected | jenkins-to-gha-converter.py:405-409 | the run-application step mentions `java -jar` |
| WorkflowFacts.MentionedStep | jenkins-to-gha-converter.py:416 | a step whose `run` contains `mvn` or `java -jar` is selected for delivery |
| WorkflowFacts.DeliverPositions | jenkins-to-gha-converter.py:413-417 | with a working directory, exactly delivery steps 3, 4 and 5 carry it |
| WorkflowFacts.DeliverPlacedSteps | jenkins-to-gha-converter.py:361-419 | with a working directory, the delivery job has six steps and exactly 3, 4 and 5 carry it |
| WorkflowFacts.SecurityStepsSelected | jenkins-to-gha-converter.py:440-462 | among the security steps only the OWASP check mentions `mvn` |
| WorkflowFacts.SecurityStepSelected | jenkins-to-gha-converter.py:459-462 | security step `j` is selected if and only if `j` is 2 |
| WorkflowFacts.SecurityPositions | jenkins-to-gha-converter.py:459-462 | with a working directory, only security step 2 carries it |
| WorkflowFacts.SecurityPlacedSteps | jenkins-to-gha-converter.py:421-464 | with a working directory, the security job has four steps and only the OWASP check carries it |
| WorkflowFacts.NoWorkingDirectoryAnywhere | jenkins-to-gha-converter.py:344 | without a working directory no step of any Maven job carries one |
| WorkflowFacts.PlaceAllAbsent | jenkins-to-gha-converter.py:344 | without a working directory the placing loop changes nothing |
| WorkflowFacts.UnplacedAppend | jenkins-to-gha-converter.py:349 | joining two step lists without working directories gives one without |
| WorkflowGates.BuildStepUnchanged | jenkins-to-gha-converter.py:343-349 | the build-and-test steps without a command are the Maven steps exactly as written |
| WorkflowGates.SelectBuildStep | jenkins-to-gha-converter.py:349 | step `i` of build-and-test is step `i` of the set-up steps followed by the placed Maven steps |
| WorkflowGates.MatrixVersions | jenkins-to-gha-converter.py:264-268 | the matrix lists the configured Java versions, in order |
| WorkflowGates.JdkVersion | jenkins-to-gha-converter.py:274-281 | a `setup-java` step installs the version it is given |
| WorkflowGates.MatrixJdk | jenkins-to-gha-converter.py:278 | each matrix entry installs its own JDK (`${{ matrix.java-version }}`) |
| WorkflowGates.TestReportFields | jenkins-to-gha-converter.py:322 | the test report reads `target/surefire-reports/*.xml` under the working directory when there is one |
| WorkflowGates.ReportPath | jenkins-to-gha-converter.py:316-326 | in build-and-test, step 6 reads the surefire results under the working directory |
| WorkflowGates.UploadJarIf | jenkins-to-gha-converter.py:334 | the jar upload runs only for the last configured Java version |
| WorkflowGates.UploadJarPath | jenkins-to-gha-converter.py:337 | the jar upload takes `target/*.jar` under the working directory |
| WorkflowGates.UploadJarRetention | jenkins-to-gha-converter.py:338 | the jar artifact is kept for 30 days |
| WorkflowGates.UploadIsLastBuildStep | jenkins-to-gha-converter.py:331-341 | the jar upload is the last build-and-test step and is left as written |
| WorkflowGates.UploadOnLastVersion | jenkins-to-gha-converter.py:334 | in the generated job, step 8 uploads only on the last configured Java version |
| WorkflowGates.UploadRetention | jenkins-to-gha-converter.py:338 | in the generated job, the jar is kept for 30 days |
| WorkflowGates.JarPath | jenkins-to-gha-converter.py:337 | in the generated job, the jar is taken from the working directory's build output |
| WorkflowGates.DownloadFields | jenkins-to-gha-converter.py:386 | the download step writes into `target/` under the working directory |
| WorkflowGates.DeliverGates | jenkins-to-gha-converter.py:364-366 | delivery needs build-and-test and runs only on `refs/heads/main` |
| WorkflowGates.DeliverJdk | jenkins-to-gha-converter.py:376 | delivery installs the last configured JDK |
| WorkflowGates.DownloadPath | jenkins-to-gha-converter.py:386 | delivery downloads the jar into the working directory's build output |
| WorkflowGates.SecurityNeedsBuild | jenkins-to-gha-converter.py:425 | the security scan needs build-and-test |
| WorkflowGates.SecurityJdk | jenkins-to-gha-converter.py:435 | the security scan installs the last configured JDK |
| WorkflowGates.OwaspMayFail | jenkins-to-gha-converter.py:440-444 | a failing OWASP check does not fail the job, whether or not the step was placed |
| WorkflowGates.OwaspContinues | jenkins-to-gha-converter.py:443 | placing the OWASP step keeps `continue-on-error: true` |
| WorkflowGates.ReportUploadIf | jenkins-to-gha-converter.py:448 | the dependency report is uploaded with `always()` |
| WorkflowGates.ReportUploadPath | jenkins-to-gha-converter.py:451 | the dependency report is read under the working directory |
| WorkflowGates.ReportUploadRetention | jenkins-to-gha-converter.py:452 | the dependency report is kept for 30 days |
| WorkflowGates.ReportAlwaysUploaded | jenkins-to-gha-converter.py:448 | in the generated job, step 3 uploads whatever the check's outcome |
| WorkflowGates.ReportRetention | jenkins-to-gha-converter.py:452 | in the generated job, the report is kept for 30 days |
| WorkflowGates.DependencyReportPath | jenkins-to-gha-converter.py:451 | in the generated job, the report is read from the working directory's build output |
| WorkflowGates.ArtifactPathOfProject | jenkins-to-gha-converter.py:322 | build outputs are read under `./<path>/` for a recognised project below the root, and at the checkout root otherwise |
| JobSet.MavenJobSet | jenkins-to-gha-converter.py:351-357 | a Maven workflow starts with build-and-test, ends with security-scan, and has a delivery job exactly when some stage delivers |
| JobSet.TotalCommandsAppend | jenkins-to-gha-converter.py:481-487 | the command counts of consecutive stage lists add up |
| JobSet.CommandStepsAppend | jenkins-to-gha-converter.py:481-487 | the command steps of consecutive stage lists follow one another |
| JobSet.CommandStepAt | jenkins-to-gha-converter.py:481-487 | command `c` of stage `k` becomes `Run <name>` running it, after the commands of all earlier stages |
| JobSet.SilentStage | jenkins-to-gha-converter.py:482 | a stage without commands adds no step |
| JobSet.GenericJobShape | jenkins-to-gha-converter.py:466-489 | the generic workflow is one build-and-test job: checkout, then one step per command in stage order, none with a working directory |
| JobSet.CommandStepsUnplaced | jenkins-to-gha-converter.py:484-487 | command steps never carry a working directory |
| JobSet.WorkflowJobs | jenkins-to-gha-converter.py:233-255 | the document holds `name`, `on` and `jobs` in that order; its jobs are the Maven jobs for Maven and the generic job otherwise |
| JobSet.DocumentJobs | jenkins-to-gha-converter.py:236-247 | the document's three top-level keys come in order and the jobs sit under `jobs` |
| JobSet.NonMavenIsGeneric | jenkins-to-gha-converter.py:250-253 | every non-Maven type, Gradle and Node included, gets the generic job |
| Converter.ReadPipeline | jenkins-to-gha-converter.py:153-191 | the pipeline holds one stage per extracted name with its classified kind; it is Maven exactly with `pom.xml`, and only recognised projects record a directory |
| Converter.YamlText | jenkins-to-gha-converter.py:145-146 | the written text is never empty and ends with a line feed |
| Converter.FileName | jenkins-to-gha-converter.py:143 | the workflow file is named `ci…` and ends in `.yml` |
| Converter.ConvertFile | jenkins-to-gha-converter.py:124-151 | converting fails, so that nothing is written, exactly for a Maven project with no Java versions; otherwise it yields a `ci….yml` file |
| Converter.ConvertedHeader | jenkins-to-gha-converter.py:136-146 | every successful conversion is written to the directory's file name, and its text starts with the fixed header lines |
| Converter.WorkflowLayout | jenkins-to-gha-converter.py:236-247 | every workflow renders as the same ten header lines ending in `jobs:`, then the jobs one level deeper |
| Converter.HeaderText | jenkins-to-gha-converter.py:145-146 | the text of every workflow begins with the header, each line ended by a line feed |
| Converter.JobLinesInOrder | jenkins-to-gha-converter.py:246-253 | after the header, the lines at job depth name the jobs in order |
| Converter.TriggerEntry | jenkins-to-gha-converter.py:238-245 | the triggers render as `on:`, push on `main` and `develop`, and pull_request on `main` |
| Converter.NameEntry | jenkins-to-gha-converter.py:237 | the workflow's name line is `name: CI/CD Pipeline` |
| Converter.PushEntry | jenkins-to-gha-converter.py:239-241 | the push trigger renders as its key, `branches:` and the two branches |
| Converter.PullRequestEntry | jenkins-to-gha-converter.py:242-244 | the pull-request trigger renders as its key, `branches:` and `main` |
| Converter.JobsEntry | jenkins-to-gha-converter.py:246 | the jobs entry is `jobs:` followed by the jobs one level deeper |
| Converter.BranchesEntry | jenkins-to-gha-converter.py:41-56 | a mapping holding a list renders as its key, the list key one level deeper, then the items |
| Converter.SameDirectoryNameSameFile | jenkins-to-gha-converter.py:139-143 | two Jenkinsfiles in directories with the same name, however deep, are written to the same file |
| Discovery.PipelineFiles | jenkins-to-gha-converter.py:117-119 | a directory's reported files are exactly its files with a pipeline file name |
| Discovery.WalkSound | jenkins-to-gha-converter.py:113-119 | every path the walk yields is a pipeline file of the tree reached without entering a `.git…` directory |
| Discovery.WalkDirsSound | jenkins-to-gha-converter.py:113-115 | every path found below the subdirectories starts with an entered subdirectory |
| Discovery.WalkComplete | jenkins-to-gha-converter.py:113-119 | every pipeline file reached without entering a `.git…` directory is reported |
| Discovery.WalkDirsComplete | jenkins-to-gha-converter.py:115 | a pipeline file below an entered subdirectory is reported under that directory |
| Discovery.GithubPruned | jenkins-to-gha-converter.py:115 | a Jenkinsfile under `.github` is never found, because the test is a prefix test |
| Discovery.OrdinaryDirectoryWalked | jenkins-to-gha-converter.py:113-119 | the same Jenkinsfile under an ordinary directory is found |
| Discovery.PipelineFileNameCases | jenkins-to-gha-converter.py:111 | exactly three names are pipeline files and case matters: `JENKINSFILE` and `Jenkinsfile.txt` are not |
| Discovery.RemoveChar | jenkins-to-gha-converter.py:513 | `replace(c, '')` leaves no `c` and never lengthens the text |
| Discovery.StarPatterns | jenkins-to-gha-converter.py:513-515 | only `Jenkinsfile*` and `*.pyc` hold `*`, and they reduce to `Jenkinsfile` and `.pyc`; the other patterns are used as written |
| Discovery.SlashPatterns | jenkins-to-gha-converter.py:525 | only the three directory patterns hold `/`, and they reduce to `jenkins`, `.git` and `__pycache__` |
| Discovery.Decide | jenkins-to-gha-converter.py:505-531 | an entry is copied as a file or as a tree exactly when it passes its kind's test, does not start with `.git` and its destination is new; it is excluded exactly when a test rejects it |
| Discovery.CopyDecisionAsWritten | jenkins-to-gha-converter.py:511-520 | a new top-level file is copied exactly when the file test as written does not exclude it |
| Discovery.CopyDecision | jenkins-to-gha-converter.py:511-520 | a new top-level file is copied exactly when the glob-reading file test does not exclude it |
| Discovery.GitPrefixExcluded | jenkins-to-gha-converter.py:506-507 | nothing whose name starts with `.git` is copied, whatever its kind |
| Discovery.NeverOverwrites | jenkins-to-gha-converter.py:519 | an existing destination is never overwritten |
| Discovery.DirectoryCopied | jenkins-to-gha-converter.py:523-530 | a new directory is copied exactly when it does not start with `.git` and is neither `jenkins` nor `__pycache__` |
| Discovery.PycFileExcluded | jenkins-to-gha-converter.py:515 | with `*.pyc` read as a glob, every `.pyc` file is excluded |
| Discovery.CorrectionOnlyTouchesPyc | jenkins-to-gha-converter.py:513-516 | the corrected test agrees with the one as written on every name that neither starts nor ends with `.pyc` |
| Discovery.PycFileCopied | jenkins-to-gha-converter.py:515 | as written, `foo.pyc` at the top of the input is copied |
| Discovery.LowercaseJenkinsfileCopied | jenkins-to-gha-converter.py:515 | a lower-case `jenkinsfile` is converted by the walk but also copied, because the file test is case-sensitive |

## Left out

- The command line, logging, `main` and the summary output: these are I/O only.
- File-system access. A Jenkinsfile's text, the names of the files beside it and its relative path are parameters. A directory tree is the `Tree` datatype, listed in the order the file system gives it, and `os.walk`'s listing order is that order.
- `_extract_stage_commands` (jenkins-to-gha-converter.py:211-224) is the parameter `commandsOf`. Its lazy `.*?` search across nested braces is not modelled, so the commands of a stage are whatever that function returns.
- The `tools` field (:187-189) is never read by the builder, so it is not modelled.
- `shutil.copy2` and `shutil.copytree`, including `ignore_patterns` filtering the entries inside a copied directory: only the top-level decision is modelled.
- `_setup_output_directory`, writing the workflow file, and `demo-converter.py` with the sample Java applications are not part of this model.
- Converter.ConvertFile: the catch-all at :150-151 is modelled only for the one error the core itself can raise, `java_versions[-1]` on an empty list. Read and write errors are I/O.
- Text.Lower: folds ASCII letters only. Python's `lower()` also folds other Unicode letters, and `re.IGNORECASE` also matches the long s (U+017F) against `s`.
- Yaml.ReprString: escapes only ASCII control codes and DEL. Python's `repr` also escapes non-printable characters beyond ASCII, such as U+0085, U+00A0, U+200B and U+2028, which the model writes as themselves. The builder never reaches this path, because only a list nested inside a list item is written with `repr`.
- Text.Strip: Python's whitespace is taken as the ASCII whitespace and separator codes (9-13, 28-32). The other Unicode spaces are not treated as whitespace.
- Workflow.MavenJobs: its own contract states only the job keys. The contents of each job are stated by the lemmas in `WorkflowFacts` and `WorkflowGates`.
- Stages.ParseStages: only the scan is modelled, as a function. The regular-expression engine itself is not modelled.

## Findings

| source | as written | input that shows it | evidently intended | confidence | as-written member | corrected member |
|---|---|---|---|---|---|---|
| jenkins-to-gha-converter.py:515 | the glob `*.pyc` loses its `*` and becomes the prefix test `startswith('.pyc')` | a top-level file `foo.pyc` is copied | compiled Python files (names ending in `.pyc`) are excluded, as the glob says | not executed | Discovery.PycFileCopied | Discovery.PycFileExcluded |
