# A model of the Cloud Build local builder

The local builder reads a build file, merges command-line substitutions into it, validates it,
expands the templates in it in place, validates it again, and runs its steps in containers. This
project models that path in Dafny, together with four pieces of the builder that have hard
properties of their own, and proves what the pieces guarantee alone and together.
`dafny verify dfyconfig.toml` checks the whole project.

| file | what it models |
|---|---|
| `GoStrings.dfy`, `Utf8.dfy` | byte strings and the few library operations needed on them; runes and white space |
| `Templates.dfy` | the template scanner, the splicer, and `Expand`, the one-pass rewrite they compute together |
| `TemplateLaws.dfy` | what a parameter is, stated without the scanner, and that the scanner's list is the only one that fits |
| `ExpansionLaws.dfy` | the algebra of expansion: cuts, separators, escaping, what is left to expand, lengths, unbound keys |
| `BuildModel.dfy` | the build request: classes and arrays for what is overwritten, values for the rest |
| `Substitution.dfy` | in-place substitution over a whole build |
| `Steps.dfy`, `ArtifactsCheck.dfy`, `TemplateCheck.dfy`, `Volumes.dfy`, `VolumeLaws.dfy`, `Secrets.dfy`, `Tags.dfy` | the checkers of the validator, each with the exact condition under which it accepts |
| `Documented.dfy` | what the checkers accept, written out again from the documented limits and names |
| `Pipeline.dfy`, `PipelineLaws.dfy` | the whole of `SubstituteAndValidate`, and the facts that span several packages |
| `PipelineWitnesses.dfy` | builds it accepts, or panics on, with the properties that do not hold of all builds |
| `Scheduler.dfy`, `Executor.dfy` | which channels a step waits for, and every interleaving of the step executor |
| `Runner.dfy` | the process table under every interleaving of `Run` and `Clean` |
| `YamlTree.dfy`, `YamlFix.dfy` | the repair of a decoded YAML tree: its meaning, and the in-place rewrite of a heap of maps and slices |
| `Flags.dfy`, `Backoff.dfy`, `Generation.dfy` | the substitutions flag, exponential backoff, the latest object generation |

Conventions. A Go string is a `string` each of whose characters stands for one byte; everything is
proved for all character sequences, hence for all byte strings. Validation is modelled as accept or
reject (`bool`, `Option`, or `Outcome` where the code can also panic); message texts are not.
Library functions whose code is not in the repository are parameters: `path.Clean`,
`strings.TrimSpace`, the printing of a YAML key, and the regular expressions of docker references;
nothing is assumed of them except where a lemma says so. UTF-8 decoding and `unicode.IsSpace` are
written out. Go's random map order is an unconstrained choice. Arrays of a build are assumed to be
distinct slices, as decoding makes them, except for the two image lists, which may be one
(`Build.Separate`).

Some things the code does that its documentation or its tests do not suggest. For each there is below
a lemma with the exact condition under which it happens and one at an input at which it does:

- an image is expanded twice, because validation makes both image lists one slice, and the second
  time no check has looked for keys that are not bound;
- after substitution a name, argument, directory, environment entry or image can be longer than the
  limit that was checked before, two artifact paths can be the same, and one can have white space;
- substitution can give an environment variable the name of a secret after that was checked;
- a step-local volume and a global one can share a directory when their paths are not cleaned;
- a global environment entry without `=` makes validation panic;
- a process can be missing from the process table if its pid was reused early;
- the goroutine waiting for a process outlives a `Run` that returned because of its context;
- YAML keys that print alike lose entries; a generation number with more digits can be missed.

`FindTemplateParameters` is documented to return the parameters that are not escaped; it returns the
escapes too, and so does the model. `Backoff` is documented to return a value up to `maxDelay`; for a
negative `maxDelay` the code, and the model, return zero.

## Model

| member | source | states |
|---|---|---|
| Templates.FindTemplateParameters | subst/subst.go:146-167 | the index loop returns the parameters of the string from its first byte on, and ends |
| Templates.GapBeforeParameter | subst/subst.go:85-98 | from any index, the bytes up to the next parameter are copied, all slice bounds are valid, and the rest is copied when no parameter is left |
| Templates.ApplyReplacements | subst/subst.go:81-100 | scanning and then splicing by index equals the one-pass rewrite, for every string and every replacement map |
| TemplateLaws.FindValidKeyIsLongestMatch | subst/subst.go:26-28 | the regular expression matches exactly the longest braced or unbraced reference that starts at the index, and fails only if none does |
| TemplateLaws.TokenAtIsExact | subst/subst.go:149-163 | a parameter starts at a byte if and only if an escape or a reference does |
| TemplateLaws.ScanListsParameters | subst/subst.go:144-167 | the list is ordered, disjoint and in bounds, each entry is an escape or a maximal reference, and no byte outside starts one |
| TemplateLaws.ParameterListIsUnique | subst/subst.go:144-167 | a list has that description if and only if it is the one returned |
| ExpansionLaws.ExpandAppend | subst/subst.go:81-100 | expansion distributes over a concatenation whose seam lies inside no parameter |
| ExpansionLaws.ExpandAround | subst/subst.go:26-28 | a byte that no parameter can contain separates two independent expansions |
| ExpansionLaws.PrefixSurvives | subst/subst.go:81-100 | a dollar-free prefix is still there after expansion |
| ExpansionLaws.LastByteSurvives | subst/subst.go:81-100 | a final byte that no parameter can contain is still final after expansion |
| ExpansionLaws.ExpandUndoesEscape | subst/subst.go:91-94 | doubling every dollar and expanding gives the string back, whatever the replacements |
| ExpansionLaws.ScanOfEscaped | subst/subst.go:150-156 | in a string with doubled dollars the scanner finds exactly the escapes, at their positions |
| ExpansionLaws.EscapesOnePerDollar | subst/subst.go:150-156 | there is one such escape for each original dollar |
| ExpansionLaws.ExpandWithoutParameters | subst/subst.go:81-100 | a string without parameters is left as it is |
| ExpansionLaws.DollarFreeIffResolves | subst/subst.go:81-100 | a result has no dollar if and only if every dollar of the template begins a reference with a dollar-free value |
| ExpansionLaws.LengthOfExpansion | subst/subst.go:81-100 | the length of a result is that of the template and what its parameters grow by |
| ExpansionLaws.BoundIff | subst/subst.go:87-94 | no missing key was replaced by the empty string if and only if no further binding would change the result |
| ExpansionLaws.ExpansionsMeetIff | subst/subst.go:81-100 | templates that share what stands before and after expand alike if and only if what stands between does |
| ExpansionLaws.TextKeepsApart | subst/subst.go:81-100 | templates that first differ in a byte of text, with the same whole parameters before it, never expand alike |
| ExpansionLaws.DifferBeforeDollars | subst/subst.go:81-100 | templates that first differ before any dollar are of that kind |
| ExpansionLaws.OneParameterKeepsApartIff | subst/subst.go:81-100 | templates that differ in one parameter expand alike if and only if its values are equal |
| ExpansionLaws.ReferenceIsLookedUp | subst/subst.go:26-28 | with the alphabets written out: a dollar and a key, in braces or up to the first byte that cannot continue it, give the value of the key and the expansion of the rest |
| ExpansionLaws.OtherDollarIsCopied | subst/subst.go:26-28 | a last dollar, one before a byte that begins neither an escape nor a key, and one before a brace that encloses no key are copied |
| Substitution.ExpandInPlace | subst/subst.go:105-110 | a slice ends up with each element expanded once |
| Substitution.SubstituteStep | subst/subst.go:104-112 | the five template fields of a step are expanded and the others kept |
| Substitution.SubstituteSteps | subst/subst.go:103-113 | every step is expanded, none twice |
| Substitution.SubstituteBuildLists | subst/subst.go:114-132 | images, tags, logs bucket and artifacts after their loops; a shared image slice is expanded twice, an unshared one once |
| Substitution.SubstituteBuildFields | subst/subst.go:39-135 | the whole content of the build afterwards, as a function of its content before and of whether the image lists are one slice |
| TemplateCheck.CheckSubstitutionsLoose | validate/validate.go:182-207 | accepts exactly the maps within the limits whose keys are user-defined or overridable |
| TemplateCheck.CheckSubstitutions | validate/validate.go:166-178 | accepts exactly those whose keys are all user-defined |
| TemplateCheck.CheckParameters | validate/validate.go:222-240 | one template: fails exactly on an invalid key, else warns at each unmatched key and records the used ones |
| TemplateCheck.ScannedFieldsIff | validate/validate.go:242-284 | a string is scanned exactly if it is a name, argument, environment entry, directory or entry point of a step, an image, a tag, or the location or a path of the artifact objects |
| TemplateCheck.CollectUnused | validate/validate.go:286-290 | one warning for each unused key, in whatever order the map is visited |
| TemplateCheck.CheckSubstitutionTemplate | validate/validate.go:212-292 | fails exactly when some scanned key is unbound, not user-defined and not built-in; the warnings are the unmatched occurrences in order, then the unused keys |
| TemplateCheck.WarningCount | validate/validate.go:212-292 | the number of warnings is the number of unmatched occurrences plus the number of unused keys |
| TemplateCheck.WarnedOf | validate/validate.go:222-290 | warned of are exactly the user-defined keys that are used and not substituted, and the substitutions that are not used |
| TemplateCheck.NoSilentBlanks | validate/validate.go:124-132 | without warnings every parameter of a scanned field is an escape or has a replacement |
| Utf8.ContainsSpace | validate/validate.go:350-354 | the loop over the runes of a path finds white space exactly if some rune is white space |
| Utf8.RuneLengthIff | validate/validate.go:350-354 | the runes of the loop are the shortest encodings of the numbers up to 0x10FFFF but the surrogates |
| Utf8.SpacesAre | validate/validate.go:350-354 | the white-space runes, one by one |
| Utf8.SpaceOfParts | validate/validate.go:350-354 | a concatenation whose seam lies inside no rune has white space exactly if a part has |
| ArtifactsCheck.CheckPaths | validate/validate.go:339-357 | accepts exactly the lists without duplicates and without white space |
| ArtifactsCheck.ShareImages | validate/validate.go:297-306 | refuses two different image lists, else makes a non-empty one the list of the artifacts too |
| ArtifactsCheck.CheckArtifacts | validate/validate.go:296-366 | accepts exactly the builds within the limits, and leaves one image slice in both fields and a final slash on the location |
| ArtifactsCheck.NormalizingIsStable | validate/validate.go:296-366 | a normalized build is accepted again and does not change any more |
| Steps.CheckBuildStep | validate/validate.go:387-439 | one step is accepted exactly if its fields are in bounds, it waits for known names only and its id is new |
| Steps.CheckBuildSteps | validate/validate.go:369-443 | accepts exactly the lists in which that holds of every step against the earlier ones |
| Steps.AcceptedIdsAreUnique | validate/validate.go:414-422 | in an accepted list ids are unique and none is the reserved name |
| Scheduler.IdxTranslate | build/build.go:1232-1237 | every id is translated to the last step that has it |
| Scheduler.ChannelsExistIff | build/build.go:818-848 | a channel is missing exactly if a name is no id or that of a later step |
| Scheduler.AcceptedStepsWaitForEarlierSteps | build/build.go:818-848 | for accepted steps no channel is missing, and a step waits for exactly the steps it depends on, all earlier ones |
| Scheduler.SomeUnfinishedStepIsReady | validate/validate.go:406-413 | among any unfinished steps of an accepted build one depends on finished ones only |
| Scheduler.SameNamesSamePlan | build/build.go:818-848 | the channels depend on ids and waited-for names only |
| Executor.RunKeepsInv | build/build.go:905-997 | in every interleaving a step that has begun had all its channels closed, and what the main goroutine has collected is finished |
| Executor.BegunAfterDependencies | build/build.go:906-916 | a step that has begun finds everything it depends on, through any number of steps, finished |
| Executor.RunsAreFinite | build/build.go:1244-1276 | no run has more events than the weight of its first state |
| Executor.StuckMeansReturned | build/build.go:985-997 | where nothing can happen any more the executor has returned and no step goroutine is left |
| Executor.AcceptedBuildRunsInOrder | build/build.go:1246-1276 | for accepted steps, after any events: order respected, success only with every step finished, run bounded |
| Executor.AcceptedBuildCompletes | build/build.go:1246-1276 | accepted steps never deadlock, and the run succeeds with all of them finished if none fails, nobody cancels and the images are found |
| Executor.EventsDecide | build/build.go:905-997 | in every run a step is done exactly if it succeeded, never after it failed or gave up, and the run returns success exactly if the images were found and an error exactly if one was received |
| Executor.FailedStepFailsBuild | build/build.go:985-997 | a build with a failed step never succeeds and ends with an error; one that succeeds had every step succeed and its images found |
| Executor.NothingAfterReturn | build/build.go:1244-1276 | once the main goroutine has returned it starts no step and its result stays |
| Executor.MissingChannelFailsBuild | build/build.go:1246-1252 | where the next step has no channels the main goroutine can only return an error |
| Executor.OnlyPlannedStepsStart | build/build.go:1246-1256 | whatever the plan, a step without channels is not started, nor any after it, and all are started before the first is collected |
| Executor.ImagesDecideAtTheEnd | build/build.go:1257-1276 | once every channel is collected only the images decide |
| Executor.StepsCanSucceed | build/build.go:905-997 | a run in which a step waits for another and both finish |
| Executor.StepCanFail | build/build.go:985-993 | a run in which a step fails, its error is returned and its dependent gives up |
| Executor.BuildCanBeCancelled | build/build.go:905-993 | a cancelled run in which the error of the running step is dropped |
| Executor.SelfDependencyDeadlocks | validate/validate.go:406-422 | the check is needed: a step waiting for its own id hangs the executor |
| Volumes.CommonVolumeChecks | validate/validate.go:645-683 | accepts exactly the lists of valid volumes with distinct names and distinct cleaned paths |
| Volumes.TwoUsers | validate/validate.go:726-737 | the counter of a name reaches two exactly when two different steps mount it |
| Volumes.CountAllUses | validate/validate.go:726-731 | the counter of a name is the number of steps that mount it |
| Volumes.ConflictsWithGlobals | validate/validate.go:705-723 | fails exactly when a local volume has the name or the raw path of a global one |
| Volumes.CheckVolumes | validate/validate.go:686-740 | accepts exactly the builds with valid lists, no conflict, and every local name mounted by two steps |
| VolumeLaws.AcceptedVolumesAreShared | validate/validate.go:725-737 | a local volume of an accepted build is mounted by another step and is not global |
| VolumeLaws.AcceptedMountsAreDistinct | validate/validate.go:704-723 | with cleaned paths no step of an accepted build mounts two volumes on one directory |
| VolumeLaws.CleanedPathsMakeTheCheckExact | validate/validate.go:704-723 | cleaning the paths first accepts exactly the accepted builds in which no step mounts a directory twice |
| Secrets.CheckNames | validate/validate.go:447-523 | accepts exactly if used and defined names agree, are unique where they must be, and sizes are in bounds |
| Secrets.CheckStepClash | validate/validate.go:528-540 | for one step: panic exactly on an entry without `=`, acceptance exactly without a clash |
| Secrets.CheckSecrets | validate/validate.go:445-543 | accepts, and panics, under exactly the stated conditions |
| Secrets.FirstBadStepDecides | validate/validate.go:528-540 | after the names are accepted, the first step with a clash or an entry without `=` decides: panic in the second case, error in the first |
| Secrets.UsedSecretHasOneDefinition | validate/validate.go:479-505 | a used name of an accepted build is defined by exactly one secret |
| Tags.SanitizeBuildTags | validate/validate.go:587-610 | succeeds exactly within the limit and with valid tags, and returns the non-empty tags without repetitions |
| Tags.SanitizedIsSubsequence | validate/validate.go:595-602 | the result is the subsequence of the first occurrences of non-empty tags |
| Tags.SanitizedHasNoDuplicates | validate/validate.go:595-602 | no tag occurs twice in the result |
| Tags.SanitizingIsIdempotent | validate/validate.go:587-610 | an accepted result is accepted again and unchanged |
| Pipeline.CheckEnvVars | validate/validate.go:613-641 | accepts exactly if every environment list is within the limits |
| Pipeline.CheckBuild | validate/validate.go:93-147 | accepts, and panics, under exactly the stated conditions, and then has normalized the build |
| Pipeline.ReplaceTags | validate/validate.go:156-159 | tags become the sanitized ones, or none when refused |
| Pipeline.CheckBuildAfterSubstitutions | validate/validate.go:151-162 | accepts exactly if step names, tags and images are valid; only the tags change |
| Pipeline.SubstituteAndValidate | common/common.go:148-184 | accepts, and panics, under exactly the stated conditions on the build as given, and the final content of an accepted build |
| Documented.UserNameIff | validate/validate.go:62 | the user-defined keys are an underscore and one or more capitals, digits and underscores |
| Documented.BuiltInsIff | validate/validate.go:64-76 | eight names are built in, and six of them can be set by a flag |
| Documented.SubstitutionsIff | validate/validate.go:166-207 | at most 100 substitutions, keys of 100 and values of 4000 bytes, of those names only |
| Documented.StepsIff | validate/validate.go:369-443 | the documented limits on steps, timeouts and environments, as numbers, and ids and dependencies by position |
| Documented.ArtifactsIff | validate/validate.go:296-366 | the documented limits on images, location and paths |
| Documented.TemplateIff | validate/validate.go:124-132 | every key mentioned is substituted or built in and every substitution mentioned; ALLOW_LOOSE lifts exactly the warnings |
| Documented.VolumesIff | validate/validate.go:645-740 | volume names by their alphabet, the four reserved paths, uniqueness, and another step that mounts each local volume |
| Documented.SecretsIff | validate/validate.go:445-543 | used and defined names agree and are unique, the limits as numbers, and no entry that sets a secret variable |
| Documented.ResultIff | validate/validate.go:151-162 | valid names of steps and images, and at most 64 tags, each valid or empty |
| Documented.AcceptedAsDocumented | common/common.go:148-184 | the pipeline accepts exactly the builds that meet all the conditions so written out |
| Documented.PanicsAsDocumented | validate/validate.go:527-534 | validation panics exactly on a build that meets all earlier conditions and has a global environment entry without `=` |
| PipelineLaws.ImagesAreExpandedTwice | subst/subst.go:114-124 | every image of the result is the expansion of the expansion of the given one |
| PipelineLaws.SecondExpansionIsIdle | subst/subst.go:114-124 | the second expansion changes nothing where the first leaves no dollar |
| PipelineLaws.ImageIsExpandedOnceIff | validate/validate.go:297-306 | in an accepted build an image comes out as expanded once if and only if every dollar in it begins a reference with a dollar-free value |
| PipelineLaws.LocationSurvives | validate/validate.go:319-331 | after substitution the object location of an accepted build still has its scheme and its final slash |
| PipelineLaws.EnvEntryExpands | validate/validate.go:423-427 | the two sides of the first `=` of an entry are expanded independently |
| PipelineLaws.EnvEntriesSurvive | validate/validate.go:423-427 | every step environment entry of the result still contains `=` |
| PipelineLaws.PlanSurvives | common/common.go:168-176 | the executor gets the dependencies that were validated |
| PipelineLaws.PipelineResultCompletes | localbuilder_main.go:168-212 | the steps of an accepted build, as substituted, run without deadlock, and to success if none fails, nobody cancels and the images are found |
| PipelineLaws.TableOfAcceptedBuild | common/common.go:161-166 | flags override the configuration, and project and build names keep their own values |
| PipelineLaws.SourceOfAcceptedBuild | subst/subst.go:46-60 | unless a flag overrides it, the repository name is that of the source, the branch name that of its branch or empty, the tag name that of its tag or empty |
| PipelineLaws.CommitOfAcceptedBuild | subst/subst.go:60-74 | unless a flag overrides one, revision and commit are the resolved commit and the short one its first seven bytes or all of it; all are empty without one |
| PipelineLaws.AcceptedBuildHasNoBlanks | validate/validate.go:124-132 | without ALLOW_LOOSE every parameter of a scanned field of an accepted build is an escape or bound |
| PipelineLaws.LogsBucketIsNotScanned | subst/subst.go:120 | acceptance before substitution does not depend on the logs bucket, which is substituted |
| PipelineLaws.KeyOfExpandedEntry | validate/validate.go:530-534 | the key of an expanded entry is determined by the key of the entry |
| PipelineLaws.NoClashAfterSubstitutionIff | validate/validate.go:527-540 | after substitution no variable has the name of a secret if and only if the expanded keys and the global keys avoid the secrets |
| PipelineLaws.StepsOkAgainIff | validate/validate.go:387-405 | the substituted steps would pass their check again if and only if no name, argument or directory outgrows its limit and no name vanishes |
| PipelineLaws.EnvVarsOkAgainIff | validate/validate.go:613-641 | the same of the environment entries |
| PipelineLaws.ImagesOkAgainIff | validate/validate.go:309-317 | the same of the images, by the growth in both expansions |
| PipelineLaws.PathsOkAgainIff | validate/validate.go:339-357 | the substituted paths would pass again if and only if no value brings white space and any two stay apart: by text, by the values of the one parameter they differ in, or else by their expansions |
| PipelineLaws.PathsStayDistinct | validate/validate.go:339-357 | whatever the table, paths that pairwise differ in text first stay distinct |
| PipelineLaws.PathsMeetIff | validate/validate.go:339-357 | two paths that differ in one parameter come out alike if and only if its values are equal |
| PipelineLaws.SecondExpansionIsBoundIff | subst/subst.go:121-124 | the second expansion of an image replaces no missing key by nothing if and only if every parameter the first one leaves is an escape or bound |
| PipelineLaws.AcceptedTagsAreSane | validate/validate.go:157-159 | the final tags are distinct, not empty, valid, and stable |
| PipelineLaws.AcceptedStepNames | validate/validate.go:151-154 | every step of the result has the expansion of its name, which is a valid image name |
| PipelineLaws.BuildPanicsIff | validate/validate.go:530-534 | validation panics if and only if the checks before that of the secrets pass, the secret names do, and a global environment entry has no `=` |
| PipelineWitnesses.PlainBuildIsAccepted | common/common.go:148-184 | the conditions can be met: one step and one image with a valid dollar-free name make an accepted build, whose image stays |
| PipelineWitnesses.StepNameDecides | validate/validate.go:558-567 | a build that passes every other check is accepted if and only if its step name is a valid image name |
| PipelineWitnesses.FieldsAreExpanded | subst/subst.go:103-133 | the whole result of an accepted build with a reference in every field: which are expanded, and which are not |
| PipelineWitnesses.MissingSeparatorPanics | validate/validate.go:530-534 | a build that passes every other check and panics |
| PipelineWitnesses.MountsCanCollide | validate/validate.go:719-721 | an accepted build whose steps mount a global and a local volume on one directory |
| PipelineWitnesses.EscapedImageIsExpanded | subst/subst.go:121-124 | an accepted build in which an escaped reference in an image is replaced after all, and an unbound key by nothing |
| PipelineWitnesses.SubstitutionCanClash | validate/validate.go:527-540 | an accepted build whose substituted step has a variable with the name of a secret |
| PipelineWitnesses.PathsCanMeet | validate/validate.go:339-357 | an accepted build with two substituted paths that are the same |
| PipelineWitnesses.PathsCanGetSpace | validate/validate.go:350-354 | an accepted build whose substituted path has white space |
| PipelineWitnesses.LimitsCanBeOutgrown | validate/validate.go:151-162 | an accepted build whose substituted step name, argument, directory, environment entry and image are all over their limits |
| Flags.SplitUndoesJoin | common/common.go:66 | parts without the separator are recovered from their join |
| Flags.ParseSubstitutionsFlag | common/common.go:64-76 | fails exactly when a part has no `=`, else the map of the last values |
| Flags.LastWinsLookup | common/common.go:73 | a key is bound exactly if it occurs, to the value of its last occurrence |
| Flags.ParseUndoesPrint | common/common.go:64-76 | printing any non-empty list of expressible pairs and parsing it gives the pairs back, trimmed |
| Runner.ExactTableStep | runner/runner.go:62-73 | a step keeps the table exact if and only if it does not touch the entry of another run |
| Runner.DistinctPidsNeverCollide | runner/runner.go:62-73 | that never happens while the pids of unreturned runs are distinct |
| Runner.ExactOnEveryRunIff | runner/runner.go:44-116 | of any interleaving: the table is exact in every state if and only if no event touches the entry of another run |
| Runner.EventsDecide | runner/runner.go:44-91 | in every run, pids reused or not, what has become of a Run and its waiting goroutine is what the events say |
| Runner.StepKeepsReportsOk | runner/runner.go:106-116 | a Clean removes exactly the entries it kills, and succeeds exactly if these are all |
| Runner.CleanByEvent | runner/runner.go:106-116 | a Clean reports once, success exactly if no kill failed; only a kill kills, and only the run under its pid |
| Runner.CleansExcludeEachOther | runner/runner.go:106-116 | of the Clean calls that began, all but one that holds the lock have ended, each with one report |
| Runner.PidsInUseDifferOnEveryRun | runner/runner.go:62-73 | what is assumed of the operating system: processes that have not been waited for differ in pid |
| Runner.CleanCanSucceed | runner/runner.go:106-116 | a Clean that kills the one process it finds and succeeds |
| Runner.CleanCanFail | runner/runner.go:106-116 | a Clean that fails and leaves the process it could not kill |
| Runner.TableIsExactOnEveryRun | runner/runner.go:44-116 | after any interleaving without early pid reuse the table holds exactly the live runs, is empty once all have returned, and every Clean report is right |
| Runner.WaiterOutlivesCancelledRun | runner/runner.go:75-91 | the waiting goroutine of a returned run is over exactly when its result was taken, and otherwise never will be |
| Runner.CancelledRunLeaks | runner/runner.go:75-91 | a run that returns on its context, after which the waiting goroutine offers its result for ever |
| Runner.EarlyReuseLosesProcess | runner/runner.go:69-73 | a run in which a reused pid leaves a live process out of the table |
| YamlTree.FixedHasOnlyStringMaps | config/config.go:42-47 | a repaired tree has no map with arbitrary keys at any depth |
| YamlTree.StringMapsAreStringKeyed | config/config.go:42-47 | trees of string maps are among the string-keyed ones |
| YamlTree.KindOfKeysDoesNotMatter | config/config.go:42-47 | a node is string-keyed whether the decoder gave it strings or arbitrary keys that are strings |
| YamlTree.FixedOfStringMaps | config/config.go:58-64 | a tree without such maps is repaired exactly by itself |
| YamlTree.FixedIsIdempotent | config/config.go:48-77 | repairing twice is repairing once |
| YamlTree.FixedKeepsEverything | config/config.go:48-77 | for string-keyed trees every path leads to the same leaf, key set or list length as before |
| YamlTree.EntriesKeptIffKeysPrintApart | config/config.go:52-55 | a node loses entries if and only if two of its keys print alike |
| YamlTree.KeysCanPrintAlike | config/config.go:52-55 | a node with the key 1, which `%s` prints as `%!s(int=1)`, and that string as a key: every repair has one entry, and either may be left |
| YamlFix.CopyUnderNames | config/config.go:52-55 | the new map has, under every printed key, one of the entries with that key |
| YamlFix.FixEntry | config/config.go:61-63 | overwriting one entry in place leaves the others and keeps the heap a tree |
| YamlFix.Fix | config/config.go:48-77 | the in-place rewrite ends, leaves a repair of the tree on the heap, and returns its argument unless that is a map with arbitrary keys |
| YamlFix.OneEntryIsATree | config/config.go:50-57 | such heaps exist: a map with one arbitrary key, and its repair |
| YamlFix.RepairTemplate | config/config.go:79-84 | dropping the result is right for a string-keyed document: the map passed in is the repaired tree |
| Backoff.Grow | common/common.go:44-51 | the loop with its early exit computes the uncut power, capped |
| Backoff.Backoff | common/common.go:43-61 | the delay is the cap less the drawn part of 40%, rounded down, and never above the largest delay; zero for negative bounds |
| Backoff.CapIsMonotone | common/common.go:41-51 | more retries never shorten the delay before randomization |
| Backoff.FirstDelays | common/common.go:37-51 | from ten, capped at a hundred: 10, 13, 16.9, and 100 after nine retries |
| Generation.GetGeneration | gsutil/gsutil.go:257-267 | the loop returns a largest line in byte order, and fails exactly if all are empty |
| Generation.AllEmptyIff | gsutil/gsutil.go:251-265 | it fails exactly if the output has nothing but line ends |
| Generation.SameLengthOrder | gsutil/gsutil.go:245-253 | for numerals of one length byte order is numeric order |
| Generation.LargestLineIsLatest | gsutil/gsutil.go:245-263 | the chosen line carries the largest generation if and only if one of the longest generations comes after all shorter ones in byte order |
| Generation.LongerGenerationIsMissed | gsutil/gsutil.go:255-262 | of the generations 9 and 10 the first is chosen |

## Left out

- Backoff.Backoff: uses exact real arithmetic; float64 rounding is not modelled.
- Generation.LargestLineIsLatest: takes generations without leading zeros, as gsutil prints them.
- YamlFix.Fix: starts from a heap in which no map or slice occurs twice; a document in which the decoder shares nodes is not covered.
- Substitution.SubstituteBuildFields: slices that overlap in part, or are shared other than by the two image lists, are not covered.
- Runner.TableIsExactOnEveryRun: the table is a value changed by events, not a Go map under a mutex; a section under the lock with one access is one event, and a dry run, which touches nothing, has none.
- Executor.AcceptedBuildCompletes: what a step does between beginning and ending (pulling, running, timing out) is one event that succeeds or fails, and the check of the images after the last step one event that finds them all or not.
- Pipeline.CheckBuild: a nil build, which is refused before anything else, is not modelled.
- PipelineLaws.PathsOkAgainIff: takes paths that are valid UTF-8 and values that do not start inside a rune; bytes of two adjacent values that make up a rune together are not covered.
- PipelineLaws.ImageIsExpandedOnceIff: assumes that the docker regular expression of an image name, a parameter here, admits no dollar.
- The docker regular expressions and the registry formats of image names: parameters.
- Docker, gcloud, iptables and HTTP plumbing (`metadata`, `gcloud`, the rest of `gsutil`, `common.Clean`): external effects without an algorithm of their own.
- `volume/volume.go` and `RefreshDuration`: they would only add easy members.
- Decryption of secrets, digests and pushing in `build/build.go`: effects on the outside.
