# Verified model of HayaSend's command-line and adapter protocols

HayaSend is a self-hosted, Resend-compatible email service. This project models the parts of
it whose guarantees span several steps, and proves those guarantees for every input, every
answer of a remote system and every interleaving:

- `templates push`: reconciling a manifest with hosted templates by optimistic concurrency;
- `deploy aws` and `cleanup aws`: traces of commands against a CloudFormation that may answer
  anything, parameter planning over deployment sequences, the template rewriter, and the
  printed `apply_command` on its way back through the parser;
- the argument scanners and the shell printer;
- three small adapters: the Pub/Sub waiter, the Azure delegation-key cache and the EventBridge
  scheduler;
- the Supabase Auth email hook under redelivery and loss, and the Resend migration gate.

A remote system is a function or a script that the proofs leave arbitrary: it may answer,
fail, lose a reply or change between any two steps. A run is a log of what was sent and
received, and the theorems are about logs.

| module | models |
|---|---|
| `TemplateServer`, `TemplatePush` | the template routes and store; planning and pushing |
| `CloudFormation`, `StackPolicies` | commands and replies; stack policies, their inspection and evaluation |
| `AwsDeploy`, `AwsCleanup` | the two lifecycle runs |
| `MarkerRewrite`, `AwsTemplate` | marker rewriting in general; `renderAwsTemplate` |
| `AwsOptions`, `AwsParameters`, `PlanValues` | the option and parameter tables; layered planning and tags; plans value by value |
| `AwsApplyCommand`, `AwsRoundTrip`, `CommandText` | printing a plan as a command; reading it back; its text |
| `OptionMeaning` | what any command line means for the plan |
| `OptionScan`, `SendOptions`, `ShellFormat`, `HtmlEscape` | scanners, the greedy parser, printers |
| `PubSubWaiter`, `DelegationKey`, `EmailScheduler` | the stateful adapters |
| `AuthHook`, `MigrationGate` | the email hook; the go/no-go decision |

Where a property does not hold of the code in general, the code is modelled as it is, a lemma
gives the failing family, and another lemma gives the exact condition:

- the order of the markers in `renderAwsTemplate` matters, and the result is not a plain
  substitution, for texts in which a marker comes into being by an earlier replacement
  (`OrderMatters`, `ApplicationOrderMatters`, `OrderIrrelevantExactly`, `OnePassExactly`);
- a stack policy that passes the tool's inspection need not keep the retained resources, since
  the inspection looks at no `Condition` (`ConditionalPolicyKeeps`, `ExpectedPolicyProtects`,
  `KeepsAllExactly`);
- a printed `apply_command` does not always plan the same deployment again
  (`EqualsSignInKeyIsLost`, `ApplyCommandRoundTrip`);
- an undisturbed `templates push` can be refused, for its content or because of a foreign
  published alias (`TwoFilesTooLarge`, `RenamedDraftBlocks`, the last clause of
  `PushTemplates`);
- `hasFlag` also matches the command word itself, which `validateOptions` never looks at
  (`ScansAgree`);
- an upload URL may outlive a delegation key that was granted for less than was asked
  (`FetchSafeExactly`, `SignaturesOutlived`);
- overlapping uploads may fetch several delegation keys at once (`OverlappingFetches`,
  `FetchesApart`);
- a near `schedule` call leaves an earlier EventBridge entry in place
  (`NearScheduleLeavesEntry`).

## Model

| member | source | states |
|---|---|---|
| TemplateServer.ServeValid | src/adapters/memory-store.ts:279-460 | every template request, refused or carried out, keeps the draft and published alias indexes exact (each carried alias points to its one carrier and nothing else is indexed), keeps every version id tied to the content it was minted for, and forgets no version |
| TemplateServer.ServeAllValid | src/services/template-service.ts:654-751 | the same over any sequence of requests of any writers |
| TemplateServer.PublishIsCompareAndSwap | src/services/template-service.ts:697-751 | a conditional publication that succeeds publishes exactly the content its version id was minted for and touches no other template; one that does not succeed changes nothing |
| TemplatePush.PushTemplates | src/cli.ts:572-647 | under every schedule of other writers and lost messages, each publish request carries an If-Match version whose content was compared with the manifest, each one the server carries out publishes manifest content, the log is one read per entry followed by one stretch per reported entry in which every request was answered with success, and a failed push stopped at the first answer it could not go on from; a dry run only reads and reports the ids it read; undisturbed, a finished push leaves nothing for a second planning pass, and it finishes exactly when the server accepts every draft that has to be written and, with publication, no foreign published version holds a manifest alias |
| TemplatePush.ReportedMeans | src/cli.ts:590-647 | whatever was lost or changed on the way, a reported entry whose draft was missing or different had its write answered with success, one that was not published had a publication answered with success under the reported id, after which that id was published with the manifest content, and one that needed nothing carries the id read while planning |
| TemplatePush.ApplyPlans | src/cli.ts:590-647 | the push loop: every entry before a failure is accomplished and confirmed, nothing is done after it |
| TemplatePush.PlanTemplatePush | src/cli.ts:534-570 | sends exactly one read per entry in order; each plan follows from the reply to its own read, planning fails exactly at a read that shows neither a template nor a 404, and undisturbed each plan is the one its stored template calls for |
| TemplatePush.ReadTemplate | src/cli.ts:542-551 | one GET by alias, and the result is what its reply says: a 404 is absence, a readable template is that template, everything else fails; undisturbed it is the template as stored |
| TemplatePush.AliasesUnique | src/cli-templates.ts:72-84 | accepts a manifest exactly when its aliases are pairwise distinct |
| TemplatePush.PublicationJustified | src/cli.ts:627-640 | a publication conditional on a compared version publishes the compared content, whatever other writers did since the comparison |
| TemplatePush.Review | src/cli.ts:615-626 | the second look returns the template its reply showed only if it equals the manifest entry, and tells a difference from a failed read |
| TemplatePush.PublishVersion | src/cli.ts:627-640 | under every schedule success means an answer that confirms the publication of the compared version; undisturbed it affects only its own alias, succeeds exactly when that alias is free, and then the entry is reconciled |
| TemplatePush.WriteDraft | src/cli.ts:593-613 | under every schedule an id means that no write was needed or that the write was answered with it; undisturbed, a needed draft is written exactly when the server accepts its content; then the alias shows the manifest content and nothing else has moved, otherwise nothing has changed |
| TemplatePush.ReviewAndPublish | src/cli.ts:614-641 | after writing, publishes only the version read back and compared, and succeeds only on an answer that confirms it |
| TemplatePush.ApplyPlan | src/cli.ts:590-647 | under every schedule a plan that succeeds has made exactly the requests its entry needs, all confirmed, and one that fails stopped at an answer it could not go on from; undisturbed it reconciles its entry and leaves other aliases alone, exactly when the content needs no write or is accepted and, with publication, the alias is free |
| TemplatePush.ReconciledMeans | src/cli.ts:552-566 | planning has nothing to do exactly when some template has the manifest content as draft and as published version |
| TemplatePush.ShowParses | src/cli-templates.ts:297-323 | showing a template and parsing the reply gives back its content, id and version |
| TemplatePush.StayOnCourse | src/cli.ts:590-647 | executing one plan invalidates no later plan and undoes no earlier entry, since manifest aliases are distinct |
| TemplatePush.PublishSettles | src/app.ts:785-810 | publishing the version just read reconciles the entry exactly when no other template is published under its alias |
| TemplatePush.RenamedDraftBlocks | src/adapters/memory-store.ts:349-446 | a template published under an alias and then renamed in draft blocks every manifest entry with the old alias |
| TemplatePush.TwoFilesTooLarge | src/services/template-service.ts:255-259 | two content files that each respect the tool's own bound make an entry that a service bounding the whole version refuses, so its push to an empty store fails, published or not |
| CloudFormation.SummarizeChanges | src/cli-aws-deploy.ts:2370-2412 | returns one summary per reported change, or refuses a change set that is not ready or has an unreadable entry |
| CloudFormation.PassesExactly | src/cli-aws-deploy.ts:2370-2422 | a change set passes without acknowledgement exactly when it is ready and every raw entry is readable and reports that nothing is replaced, removed or lost: the check fails closed |
| CloudFormation.HarmlessChange | src/cli-aws-deploy.ts:2380-2422 | one raw change is harmless exactly when it is well formed and not classified as destructive; a modification must say outright that it replaces nothing |
| CloudFormation.ReplacementWord | src/cli-aws-deploy.ts:2380-2400 | the replacement word of a summary: the reported one if it is True, False or Conditional, else Unknown for Modify and Dynamic, else False |
| StackPolicies.OwnPolicyKeeps | src/cli-aws-deploy.ts:1142-1211 | the stack policy the tool sets passes its own inspection and, as CloudFormation evaluates it, denies replacement and deletion of every retained resource |
| StackPolicies.InspectionExactly | src/cli-aws-deploy.ts:1163-1211 | the inspection passes exactly the policies with the literal Allow statement and a Deny statement for everyone that names both actions and each of the five retained ids among the stack's resources |
| StackPolicies.ExpectedPolicyProtects | src/cli-aws-deploy.ts:1163-1211 | an inspected policy whose only denials are inspected ones keeps every retained resource if and only if each one's type is admitted by the condition of such a denial |
| StackPolicies.KeepsAllExactly | src/cli-aws-deploy.ts:1163-1211 | any policy at all keeps every retained resource if and only if each one's type is admitted by an inspected denial or other Deny statements, with their wildcards and conditions, forbid both its replacement and its deletion |
| StackPolicies.ConditionalPolicyKeeps | src/cli-aws-deploy.ts:1185-1209 | the tool's policy with its denial conditioned on one resource type passes inspection and keeps exactly the retained resources of that type |
| AwsDeploy.DeployAws | src/cli-aws-deploy.ts:2952-3403 | over all answers: no mutating command without apply; every mutating command justified by earlier observations and preceded by the complete planning pass, command by command, over a fit stack; a plan is that pass and nothing else; a finished run is told command by command, from the listings around the creation to the inspection of the policy, the protection and the outputs; every stop is grounded in an observation at its place in the log |
| AwsDeploy.Deploy | src/cli-aws-deploy.ts:2952-3403 | the run with the tool's own decisions, in the words of the answers: nothing is planned or changed unless the stack was described as absent (and no upgrade was asked for) or with one of the four steady statuses, and its role is accepted; on any other description the run stops without having changed anything; a finished deployment ends with all four outputs and a usable secret; every stop names what was seen |
| AwsDeploy.StopMeans | src/cli-aws-deploy.ts:2974-3345 | each reason to stop in terms of the literal statuses, outputs, change-set fields, retained ids and policy statements of the answers |
| AwsDeploy.EnforceStackProtections | src/cli-aws-deploy.ts:1250-1299 | succeeds only if the retained resources were listed, the policy then read back passed inspection for them and the stack then described is protected; every failure is grounded in an observation |
| AwsDeploy.VetAndExecute | src/cli-aws-deploy.ts:3258-3300 | a change set is executed only after identity, readiness and destructiveness checks of its own description |
| AwsDeploy.CreateChangeSet | src/cli-aws-deploy.ts:3185-3257 | the planned change set is created between two listings, of which the first may say that there is no stack only if there was none; yields an id only if it is the single one the second listing adds, nothing only if it adds none |
| AwsDeploy.PlanIsReadOnly | src/cli-aws-deploy.ts:3181-3183 | a lawful run in plan mode contains no mutating command |
| AwsDeploy.ExecutedOnce | src/cli-aws-deploy.ts:3290-3300 | no run executes two change sets |
| AwsDeploy.ExecutionVetted | src/cli-aws-deploy.ts:3185-3300 | every execution is preceded, in order, by listing, creation, listing and a clearing description of that very id |
| AwsDeploy.ExecutionCleared | src/cli-aws-deploy.ts:2341-2422 | what is executed lives in the requested account, Region and stack, was available and ready, and unless acknowledged every one of its raw changes was harmless |
| AwsDeploy.CreationPlanned | src/cli-aws-deploy.ts:3185-3218 | the change set is created after a complete planning pass, with the role, template text, tags and parameters planned for the stack and resources as found in this run, leaving only an empty bootstrap secret to CloudFormation |
| AwsDeploy.SecuredMeans | src/cli-aws-deploy.ts:1275-1299 | a secured run has, with nothing changed since, last seen termination protection on and a policy that passed inspection; that policy keeps every retained resource it listed exactly when each is covered by an admitting denial, and always when it is the one the tool sets |
| AwsCleanup.CleanupAws | src/cli-aws-deploy.ts:2658-2950 | over all answers: every mutating command justified, nothing changed without apply and confirmation, protection that was switched off accounted for, a failed deletion reports what became of the protection, a stack still present after an accepted deletion is left with protection confirmed off and never switched on again, a reported deletion was verified, the purge report matches what was found and deleted, and every stop is grounded in the request or an observation |
| AwsCleanup.Cleanup | src/cli-aws-deploy.ts:2658-2950 | the run with the tool's own decisions, in the words of the answers: nothing is planned or changed unless the stack was described with both tags and one of the five settled statuses, ROLLBACK_COMPLETE for a purge; on any other description the run ends without having changed anything; switching protection off without apply is refused before anything is sent |
| AwsCleanup.FindingMeans | src/cli-aws-deploy.ts:1577-1674 | what can be purged, in the words of the answers: a named table answered with zero items, a named bucket or vault answered with no or zero contents; everything else is refused, whatever was answered |
| AwsCleanup.DeleteProtected | src/cli-aws-deploy.ts:2814-2879 | protection is switched off once, confirmed off before the deletion, and after a failed deletion switched on again, with the outcome saying whether that worked |
| AwsCleanup.VerifyGone | src/cli-aws-deploy.ts:2880-2908 | success means that the stack was deleted, awaited, then looked for and not found, whatever the waiter said; otherwise it was still described or the look failed |
| AwsCleanup.Inspect | src/cli-aws-deploy.ts:1577-1674 | a resource is purgeable exactly on an answer that says empty (a table must say zero, a bucket or vault must not report contents), and refused otherwise |
| AwsCleanup.Purge | src/cli-aws-deploy.ts:2908-2928 | deletes the purgeable findings in order, stops at the first failure, and reports one mark per finding |
| AwsCleanup.MutationConfirmed | src/cli-aws-deploy.ts:2797-2813 | any mutating command implies apply and a confirmation of the exact stack name |
| AwsCleanup.DeletionMeans | src/cli-aws-deploy.ts:2707-2719 | the stack is deleted only if it was described with both tags and one of the five literal statuses, and its latest description does not say protected |
| AwsCleanup.PurgeMeans | src/cli-aws-deploy.ts:2915-2928 | a purged resource is one of the five retained ids, a table, bucket or vault by its type, of a stack in ROLLBACK_COMPLETE, whose contents were answered as zero (or, but for a table, as none), and its stack was verified gone first |
| AwsCleanup.DeletedOnce | src/cli-aws-deploy.ts:2837-2850 | no run deletes the stack twice |
| AwsCleanup.PurgeComplete | src/cli-aws-deploy.ts:2915-2928 | a purge that gets through has deleted every purgeable finding |
| MarkerRewrite.RewriteMarkers | src/cli-aws-deploy.ts:407-442 | the loop of one round per marker computes the specification of the rounds |
| MarkerRewrite.OnePassExactly | src/cli-aws-deploy.ts:412-441 | an accepted text becomes its one-pass substitution (each marker gives way to its block, all other text is kept in order) if and only if each marker occurs exactly once in the source |
| MarkerRewrite.AcceptedExactly | src/cli-aws-deploy.ts:412-441 | a text that holds each marker once is accepted if and only if its one-pass substitution is free of the tag |
| MarkerRewrite.MissingLeavesTag | src/cli-aws-deploy.ts:412-441 | if an accepted text lacks a marker, the first marker that the rounds put together is still there in the one-pass substitution, so the two results differ |
| MarkerRewrite.FirmIsPresent | src/cli-aws-deploy.ts:423-435 | if every block but the last is made of whole lines that cannot complete a marker, an accepted text holds every marker from the start |
| MarkerRewrite.OrderIrrelevant | src/cli-aws-deploy.ts:412-435 | if every marker is present, all orders of the rounds give the same result or the same refusal |
| MarkerRewrite.OrderIrrelevantExactly | src/cli-aws-deploy.ts:412-435 | an accepted text renders the same in every order if and only if each marker occurs exactly once in the source |
| MarkerRewrite.OrderMatters | src/cli-aws-deploy.ts:412-435 | for any two markers, one of them removed, some text is accepted in one order and refused in the other |
| MarkerRewrite.DoubleRefused | src/cli-aws-deploy.ts:418-422 | a marker that occurs twice is refused, whatever the rounds before its own do |
| MarkerRewrite.LeftoverRefused | src/cli-aws-deploy.ts:436-440 | a marker whose turn is over is never lost and is refused at the end |
| MarkerRewrite.AcceptedIsClean | src/cli-aws-deploy.ts:436-440 | no accepted result contains the marker tag |
| AwsTemplate.RenderAwsTemplate | src/cli-aws-deploy.ts:407-442 | for the five application functions: no marker left, and the result is the substitution of each marker by its preference block (when the alias is in the set) or by nothing, everything else in order, exactly when each marker occurs once in the source; a source that holds each marker once is accepted exactly when that substitution is free of the tag |
| AwsTemplate.EditsValid | src/cli-aws-deploy.ts:112-138 | the markers of the five functions are distinct one-line comments that carry the tag |
| AwsTemplate.TextsOf | src/cli-aws-deploy.ts:414-434 | markers and preference blocks line by line |
| AwsTemplate.EditsFirm | src/cli-aws-deploy.ts:423-434 | once every function but the last has its alias, no preference block can put a marker together with the text around it |
| AwsTemplate.ApplicationOrderMatters | src/cli-aws-deploy.ts:112-138 | for the table of the five functions itself, a nested source is accepted in the table's order and refused when the first two functions are exchanged |
| AwsOptions.NamesDiffer | src/cli.ts:1426-1475 | no two options of deploy share a name |
| AwsParameters.ReplanningIsStable | src/cli-aws-deploy.ts:2063-2122 | planning is a fixed point: after any number of deployments without flags every parameter but the gradual-deployment switch keeps its first planned value, no later plan is refused, and the switch says whether the required aliases are complete now |
| PlanValues.PlanByValue | src/cli-aws-deploy.ts:2068-2084 | every parameter of an accepted plan is the flag's value, else the stack's own, else 50 and 100 for the two limits of an existing stack, else the template's default, each default given by its value; only the vault's and the restore plan's name and the gradual switch are derived |
| PlanValues.SwitchByName | src/cli-aws-deploy.ts:2091-2105 | the gradual-deployment switch is true exactly when the stack exists and the named aliases are there in a completed status, the inbound one if inbound mail is on |
| PlanValues.PlanRefusedExactly | src/cli-aws-deploy.ts:2085-2121 | planning refuses restore tests without backups, unacceptable secrets and undeliverable suffixes of enabled inbound mail, and nothing else |
| AwsParameters.SwitchStaysOn | src/cli-aws-deploy.ts:2095-2105 | once on, the switch stays on while the aliases persist |
| AwsParameters.FirstDeploymentBootstraps | src/cli-aws-deploy.ts:2102-2105 | the switch is off for a stack that does not exist |
| AwsParameters.SwitchRendersPreferences | src/cli-aws-deploy.ts:407-442 | when the switch is on, every accepted template is rendered by plain substitution and every required function gets its deployment preference |
| AwsParameters.ParseTags | src/cli-aws-deploy.ts:482-509 | the loop computes the fold over the tokens that refuses malformed, reserved and repeated keys, which TagsExactly characterises |
| PlanValues.TagsExactly | src/cli-aws-deploy.ts:482-509 | tags are accepted exactly when every token has a non-empty key before its first equals sign that is acceptable, not Project or ManagedBy, and not repeated; the result holds the tool's two tags, those of the tokens and no others |
| PlanValues.EffectiveTagsExactly | src/cli-aws-deploy.ts:2124-2136 | the stack keeps its tags unless asked for anew, and more than fifty in all are refused |
| AwsApplyCommand.AcceptedExactly | src/cli.ts:134-178 | printed options are accepted exactly when every value is non-empty and does not look like an option |
| AwsApplyCommand.ReadsValue | src/cli.ts:1474-1535 | each option of a printed command reads back the value printed for it |
| AwsApplyCommand.ReadsTags | src/cli.ts:1592-1592 | the tag tokens read back in order |
| AwsApplyCommand.PrintedSwitches | src/cli-aws-deploy.ts:2137-2227 | a switch is printed exactly when the plan calls for it, and destructive changes are never acknowledged by the printed command |
| AwsApplyCommand.PrintedRow | src/cli-aws-deploy.ts:2137-2227 | every plain parameter is printed once, with its planned value |
| CommandText.FirstPartsText | src/cli-aws-deploy.ts:2149-2197 | the first six parts of the printed command, from the account to the backup switch, with option names, values and order |
| CommandText.LastPartsText | src/cli-aws-deploy.ts:2198-2226 | the last six parts, from the backup retention to the apply switch |
| AwsRoundTrip.DeployVocabularyFaithful | src/cli.ts:1426-1475 | the specification handed to the scanner tells all options apart and knows each one's kind |
| AwsRoundTrip.ApplyCommandRoundTrip | src/cli-aws-deploy.ts:2063-2227 | running the printed command on the unchanged stack plans for the same target with the same parameters and tag map if and only if the plan survives printing: values usable and in normal form, toggles true or false, suffixes printed or the stack's own, console values all or none, tags that read back |
| AwsRoundTrip.ParametersComeBack | src/cli-aws-deploy.ts:611-866 | the parameter part of the round trip, as an equivalence |
| AwsRoundTrip.TagsComeBack | src/cli-aws-deploy.ts:482-509 | the tag map comes back if and only if every tag outside the reserved ones has a non-empty key without an equals sign and passes the tag rule |
| AwsRoundTrip.UsableExactly | src/cli-aws-deploy.ts:2137-2227 | the printed command is accepted exactly when each printed option value and each tag token is usable |
| AwsRoundTrip.EqualsSignInKeyIsLost | src/cli-aws-deploy.ts:2220-2224 | a stack tag whose key holds an equals sign is never planned again by the printed command |
| AwsRoundTrip.DeployCommandRoundTrip | src/cli.ts:1426-1593 | the round trip and its exact condition for the option names of deploy themselves |
| AwsRoundTrip.DeployLosesEqualsSign | src/cli-aws-deploy.ts:2220-2224 | the loss of a tag key with an equals sign, for the option names of deploy themselves |
| OptionMeaning.OptionsMean | src/cli-aws-deploy.ts:611-850 | what any command line that plans means, printed by the tool or not: it is coherent, each switch, text and validated row comes through in the plan, the console login is taken as a whole or switched off, and what is left open stays as the stack has it |
| OptionMeaning.CoherentExactly | src/cli.ts:1469-1497 | the wiring refuses exactly the command lines that contradict a switch, ask for restore tests while disabling backups, acknowledge destructive changes without applying, or give the console login in part or besides switching it off |
| OptionScan.ValidateOptions | src/cli.ts:134-178 | accepts exactly the argument lists whose structured reading has known options, usable values, single options once and the required number of positionals |
| OptionScan.AcceptedMeans | src/cli.ts:134-178 | what accepted means, spelled out: every valued option is known and has a value that is not empty and does not begin with two dashes, no option but a repeatable one comes twice, and the number of positionals is right |
| OptionScan.Flags | src/cli.ts:92-105 | the loop returns every value that follows the option anywhere in the list, or refuses |
| OptionScan.FlagsExactly | src/cli.ts:92-105 | on any argument list the result is, in order, what follows each place of the option, and there is none exactly when some place is not followed by a plain value |
| OptionScan.FlagExactly | src/cli.ts:107-113 | a single value after the one place of the option, nothing without one, and a refusal for two places or a missing value |
| OptionScan.PositionalExactly | src/cli.ts:119-125 | a read at a fixed index succeeds exactly on a plain argument |
| OptionScan.ScansAgree | src/cli.ts:92-117 | for every accepted list the later whole-list scans do not throw and return what the structured reading assigned |
| OptionScan.PositionalsByIndex | src/cli.ts:119-125 | fixed-index reads that succeed at 1 to k are the k structured positionals in order |
| OptionScan.StructuredOfPrinted | src/cli.ts:134-178 | printed options read back as the same options |
| SendOptions.ParseOptions | src/cli-send.ts:64-104 | the index loop with its greedy inner loop computes the specification of the parse |
| SendOptions.TakeValues | src/cli-send.ts:88-99 | the inner loop takes exactly the arguments up to the next option |
| SendOptions.ReadIsPrinted | src/cli-send.ts:64-104 | whatever is accepted is the printed form of what was read |
| SendOptions.ParseOfPrinted | src/cli-send.ts:64-104 | printing well-formed groups and parsing gives their meaning |
| SendOptions.RegroupingIsIrrelevant | src/cli-send.ts:64-104 | argument lists that give each single option the same value and each repeatable option the same concatenated values parse to the same maps |
| SendOptions.SwapKeepsContent | src/cli-send.ts:64-104 | exchanging neighbouring groups of different options keeps the content |
| SendOptions.SplitKeepsContent | src/cli-send.ts:88-101 | splitting the values of a repeatable option into two groups keeps the content |
| SendOptions.ParsePrintParse | src/cli-send.ts:64-104 | printing a parse result and parsing it again gives it back |
| SendOptions.SendOptionsValid | src/cli-send.ts:41-62 | the tables of single and repeatable options are disjoint and without repetition |
| ShellFormat.FormatCommand | website/setup.js:206-214 | the text has five tokens on the first line and two on each continued line, and POSIX shell tokenising of it yields exactly the tokens, for every list of tokens |
| ShellFormat.QuotedExactly | website/setup.js:200-204 | a token is printed as it stands exactly when it is not empty and has letters, digits and the ten listed signs only |
| ShellFormat.TokenPrints | website/setup.js:200-204 | a quoted token reads as that one word in front of any boundary |
| ShellFormat.QuoteTokenInjective | website/setup.js:200-204 | different tokens are quoted differently |
| HtmlEscape.EscapeHtmlIsOnePass | examples/supabase-auth-send-email-hook/email.ts:158-165 | the five successive replacements equal one substitution per character |
| HtmlEscape.EscapedIsInert | examples/supabase-auth-send-email-hook/email.ts:158-165 | escaped text holds no raw angle bracket or quote, and every ampersand in it starts one of the five references |
| HtmlEscape.DecodeEscaped | examples/supabase-auth-send-email-hook/email.ts:158-165 | decoding the references of escaped text gives the original |
| PubSubWaiter.RunKeeps | src/adapters/google-pubsub-wakeup.ts:159-233 | under every interleaving: waiting is set exactly while one call is suspended, a pull starts only after every earlier call has ended, none starts after close, and a call acknowledges at most one message, which its own pull returned |
| PubSubWaiter.OneRequestInFlight | src/adapters/google-pubsub-wakeup.ts:159-185 | at no point of any run are two calls suspended |
| PubSubWaiter.Waiter.Start | src/adapters/google-pubsub-wakeup.ts:159-191 | a pull is sent exactly when the waiter is open, the signal is not aborted, the time is in range and nobody waits |
| PubSubWaiter.Waiter.Pulled | src/adapters/google-pubsub-wakeup.ts:192-205 | the message to acknowledge is the one returned, if any; otherwise the call ends |
| PubSubWaiter.Waiter.Leave | src/adapters/google-pubsub-wakeup.ts:206-228 | the end of a call frees the waiter |
| PubSubWaiter.Waiter.Shut | src/adapters/google-pubsub-wakeup.ts:230-233 | closing is recorded and final |
| PubSubWaiter.Drive | src/adapters/google-pubsub-wakeup.ts:136-233 | the object driven through any schedule of segments is in the specified state and keeps the invariant |
| DelegationKey.SignaturesSafe | src/adapters/azure-blob-attachment-storage.ts:58-96 | under every interleaving of calls, with windows of up to 55 minutes, every upload URL expires at least five minutes before the recorded expiry of the key that signed it, which is the expiry asked for |
| DelegationKey.SignaturesOutlived | src/adapters/azure-blob-attachment-storage.ts:68-75 | the same for the expiry that the service granted, as long as it grants no less than was asked, cached keys included |
| DelegationKey.FetchSafeExactly | src/adapters/azure-blob-attachment-storage.ts:67-75 | a fetched key is recorded as outliving its URL by five minutes if and only if the URL lasts at most 55 minutes from the fetch, and really does so if and only if it was granted until then |
| DelegationKey.FetchesApart | src/adapters/azure-blob-attachment-storage.ts:58-76 | when calls do not overlap and windows are at most 15 minutes, more than forty minutes lie between a successful fetch and any later fetch |
| DelegationKey.OverlappingFetches | src/adapters/azure-blob-attachment-storage.ts:58-76 | two overlapping calls may both fetch at the same moment |
| DelegationKey.Storage.Begin | src/adapters/azure-blob-attachment-storage.ts:58-70 | returns the cached key exactly when it outlives the URL by the skew, else the expiry to ask for |
| DelegationKey.Storage.Complete | src/adapters/azure-blob-attachment-storage.ts:70-75 | the fetched key is cached with the expiry it was asked for, whatever expiry it was granted |
| DelegationKey.Drive | src/adapters/azure-blob-attachment-storage.ts:39-110 | the object driven through any timely schedule with windows of 15 minutes issues only URLs that expire five minutes before the recorded expiry of their keys |
| EmailScheduler.RunIsOwnHistory | src/adapters/email-scheduler.ts:79-210 | after any run of completed calls and fired schedules, the entry of an email is what its own calls and firings made of it; calls for other emails never interfere |
| EmailScheduler.MoveDecides | src/adapters/email-scheduler.ts:110-150 | after reschedule or rescheduleDelivery an entry exists exactly when the time is more than 900 seconds away, with that call's job and the time truncated to the second; all other entries are unchanged; and the queue has gained that job once, with its exact delay, exactly when the time is not that far |
| EmailScheduler.RunSends | src/adapters/email-scheduler.ts:79-150 | at every point of a run the queue grows by one message with the call's own job when a call for a time within 900 seconds completes, delayed by whole seconds, never early and late by less than a second, and by nothing else |
| EmailScheduler.FarExactly | src/core/schedule.ts:52-63 | the rounding of secondsUntil makes the limit exact to the millisecond |
| EmailScheduler.NearDelay | src/core/schedule.ts:45-63 | a near message is delayed by 0 to 900 seconds, never early, and late by less than a second unless its time had passed |
| EmailScheduler.NearScheduleLeavesEntry | src/adapters/email-scheduler.ts:85-108 | schedule leaves the entries alone exactly when the time is near or the entry is already that one |
| EmailScheduler.AwsEmailScheduler.Perform | src/adapters/email-scheduler.ts:79-210 | a call that completes has the specified effect on entries and queue, whatever faults it met; no call, completed or not, touches another email's entry or queues anything but its own message; without faults every call completes |
| EmailScheduler.AwsEmailScheduler.Upsert | src/adapters/email-scheduler.ts:196-210 | create, and update on conflict, leaves exactly one entry with the new content when it completes, even if the schedule fires in between |
| EmailScheduler.AwsEmailScheduler.CancelSchedule | src/adapters/email-scheduler.ts:152-165 | after a completed cancel the email has no entry, whether or not it had one |
| AuthHook.DeliveredExactlyOnce | examples/supabase-auth-send-email-hook/handler.ts:132-205 | for any number of overlapping deliveries with any submissions lost before or after acceptance, a delivery that replies 200 has each of its messages accepted exactly once in the whole run |
| AuthHook.HandledExactlyOnce | examples/supabase-auth-send-email-hook/handler.ts:152-205 | the same for the handler's own submissions, whatever was submitted before and after |
| AuthHook.SmoothDeliverySucceeds | examples/supabase-auth-send-email-hook/handler.ts:152-205 | progress: whatever was lost, refused or accepted before, a delivery whose submissions all arrive, are not turned down and are answered replies 200 |
| AuthHook.AtMostOnce | src/adapters/memory-store.ts:145-178 | within a deduplication window no key is accepted twice |
| AuthHook.ReceiveAllKeeps | src/adapters/memory-store.ts:145-178 | two acceptances of one key lie at least 24 hours apart, in every run |
| AuthHook.AcceptedAgainAfterWindow | src/services/email-service.ts:469-476 | 24 hours later the same key is accepted again: the window is exact |
| AuthHook.OkMeansAccepted | src/adapters/memory-store.ts:149-177 | a success answer means that this very email has been accepted under its key, now or earlier |
| AuthHook.AcceptedIsMessage | examples/supabase-auth-send-email-hook/email.ts:267-290 | with a collision-free hash, what is accepted under a message's key is that message |
| AuthHook.PreimageInjective | examples/supabase-auth-send-email-hook/email.ts:271-285 | a key preimage determines the webhook id and the discriminator |
| AuthHook.KeysDiffer | examples/supabase-auth-send-email-hook/handler.ts:141-149 | equal keys mean the same webhook id and, for one hook, the same message index |
| AuthHook.KeyByValue | examples/supabase-auth-send-email-hook/email.ts:267-290 | a key exists exactly for ids of 1 to 1024 characters without line ends and NUL; it hashes the id alone for a single email, else the id, a NUL and the numbered message |
| AuthHook.KeyForDiscriminator | examples/supabase-auth-send-email-hook/email.ts:267-281 | the same for any discriminator of up to 64 lower-case letters, digits, underscores and hyphens |
| AuthHook.OutcomeByFate | src/adapters/memory-store.ts:145-178 | a submission is lost exactly when it or its answer does not get through, a refusal passes on its status, and only a live claim for another email is a conflict |
| AuthHook.AggregateMeans | examples/supabase-auth-send-email-hook/handler.ts:171-205 | the reply is 200 exactly when every status lies between 200 and 299, 503 with retry hint 2 exactly when some submission was lost or answered with 429 or 500 and above, and 422 exactly when neither holds |
| AuthHook.DeriveKeys | examples/supabase-auth-send-email-hook/handler.ts:141-151 | one key per email, or a refusal when any of them cannot be derived |
| AuthHook.Handle | examples/supabase-auth-send-email-hook/handler.ts:112-205 | refusals before the fan-out (405, 413, 401, 400) submit nothing; otherwise every email is submitted once under its key and the reply is the one AggregateMeans gives for how they fared |
| MigrationGate.BuildResendMigrationReport | src/cli-resend-migration.ts:443-578 | GO exactly when nothing blocks the inventory and every check passed; the blockers are exactly those of the assessment and the failed checks |
| MigrationGate.AssessResendInventory | src/cli-resend-migration.ts:316-441 | lists exactly the reasons that block the inventory and exactly the warnings that apply |
| MigrationGate.GoMeansVerified | src/cli-resend-migration.ts:150-234 | for every inventory the schema accepts, GO means that each used feature is verified in the evidence of a stream that carries it, with terminal matches equal to comparisons, at least the required count, and a rehearsed rollback |
| MigrationGate.GoVerifiesByName | src/cli-resend-migration.ts:150-234 | the same by the name of each used feature |
| MigrationGate.GoExactly | src/cli-resend-migration.ts:443-578 | with unique evidence names, GO holds exactly when nothing blocks, the fixed gates pass and every stream is carried by the evidence of its name |
| MigrationGate.GoByNumbers | src/cli-resend-migration.ts:443-578 | GO in the evidence's own numbers: observed at most 24 hours ago and at most 5 minutes ahead, both SES switches, 14 days, 1000 notifications, matching template and suppression counts, verified webhook and inbound paths where used, nothing blocking and every stream carried |
| MigrationGate.GoMeansSupported | src/cli-resend-migration.ts:8-38 | GO for the tool's own support tables means a reviewed version 2 inventory without SMTP and marketing, with only supported fields and events, horizons of at most 30 days and verified webhook signatures |
| MigrationGate.CheckStream | src/cli-resend-migration.ts:538-551 | a stream passes exactly when its evidence exists and carries it |
| MigrationGate.PassedIsCarried | src/cli-resend-migration.ts:535-551 | looking evidence up by name finds the one entry of that name, in whatever order it was listed |

## Left out

- Error messages, log output and JSON reports: only which branch is taken and what is reported as done.
- Regular expressions, number formatting, URL parsing and SHA-256: validators are arbitrary functions (`Rules`, `Patterns`), the hash is an arbitrary injective function.
- Environment-variable fallbacks of the target options, and the choice of the artifact bucket: the inspection of the bootstrap stack is one command that may fail.
- AwsDeploy.DeployAws: the two inspections that the source awaits together are sent one after the other; their answers are arbitrary either way.
- AwsDeploy.VetAndExecute: decisions that look at one answer are the fields of a `Judge`; `JudgeOf` is the tool's own one, and the lemmas about executions, creations and protections are stated for it.
- StackPolicies.KeepsAllExactly: `NotAction`, `NotResource` and a default denial where no statement allows an update are not modelled; a condition is an arbitrary predicate on the resource type.
- AwsCleanup.CleanupAws: inspections of retained resources are sent in listing order although the source starts them together; all of them are sent even if one fails.
- AwsCleanup.DeleteProtected: the service role that is passed along with the deletion is not part of the command.
- AwsCleanup.CleanupAws: when switching the protection off is not confirmed, the run stops without switching it on again; `Accounted` says so, as the source does.
- AuthHook.Handle: the submissions of one delivery reach the server in index order; the redelivery theorem allows any order.
- AuthHook.Handle: rendering and signature verification are inputs.
- PubSubWaiter.Waiter.Start: abort signals end a request early in the source; here any request may fail at any time, which covers it.
- DelegationKey.Drive: the start time of an upload URL is not modelled, only its expiry and that of its key.
- EmailScheduler: the single-queue scheduler, which only enqueues, and the static fields of a schedule.
- TemplateServer.ServeValid: publication history, rendering and pagination; a restore is an update with the old content, and requests of other writers are taken one at a time.
- TemplateServer.ServeValid: what the service validates is an arbitrary predicate on the content of a version (`Store.accepts`); request-schema checks of single PATCH fields are part of it.
- TemplatePush.PushTemplates: file loading and path checks of the manifest; equality of the JSON texts is equality of the eight fields.
- The order of tags: the round trip is about the tag map.
- `statusAws`, drift detection, Lambda concurrency arithmetic and the summaries printed by deploy: reporting only.
- Cloudflare and Google deployment, bootstrap and doctor commands: the same shape with fewer guarantees.
- The delivery services, queue workers, console, preview pages and generated clients.
- Reading migration inventories and evidence from files, and comparing event logs in the migration command.
