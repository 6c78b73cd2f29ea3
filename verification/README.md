# Verified model of the sonic-gnmi server core

sonic-gnmi is the telemetry and management server of a SONiC switch. This Dafny project models the parts of
it whose correctness spans many steps, and proves what they are for:

- **Path authorization (pathz).** A policy is a flat list of rules, each giving a user or a group an action for a
  path with keys. The server compiles the list into a tree of name nodes and key nodes and answers each request
  with one walk, exact key values before wildcards. The model proves that the walk decides every request as the
  flat list does, that the order of rules and of map iteration never shows, and exactly which lists the loader
  accepts and reads as they are meant. The tree is proved both as a value and as linked nodes updated in place.
- **Credential rotation (pathz, authz, certz).** Three stream protocols: checkpoint, any number of uploads, then
  Finalize or any kind of abort. The model covers every sequence of events, with failing writes, link steps and
  sends, and proves what memory, files, links, directories and database rows hold afterwards.
- **Subscription streams.** Updates-only streams refine full streams; polling reports exactly what is present;
  the sync response comes once, after every subscription has queued its first message, in every interleaving.
- **JSON document editing and the Redis entry codec.** Replace as a pointwise update, frames of Remove, and the
  round trip of entries through their database form.
- **OS image installation.** Interleaved Install streams of any number of clients, the image handed to the
  backend, the progress counts and the clean-up.
- **Timers and processor statistics.** Subscriptions multiplexed on shared tickers; a ring of samples that
  answers for the unbounded history.

Each component has a specification (datatypes and functions), lemmas about all inputs and all runs, and, where
the program updates objects in place, a class whose methods are proved against that specification. Disks,
links, tables, clocks and connections are values and parameters: the outcome of every step the server cannot
foresee is part of the event that causes it.

| files | component |
|---|---|
| `SortedStrings`, `PathzPolicy`, `PathzReading`, `PathzTrie`, `PathzRules`, `PathzDecisions`, `PathzAcceptance` | the policy tree as a value, the flat reading of the rules, and their agreement |
| `PathzShape`, `PathzAuthorizer`, `PathzProcessor` | the tree as linked nodes, and the processor that owns it |
| `PathzRotate`, `AuthzRotate`, `CrlFiles`, `CertzState`, `CertzTheorems`, `CertzFreshness`, `CertzLists`, `CertzServer` | the three rotation protocols |
| `FieldStream`, `TableStream`, `AppDbPoll`, `SyncGate` | subscriptions |
| `JsonDocument`, `JsonTheorems`, `JsonClient`, `Delimited`, `RedisEntry` | the document editor and the entry codec |
| `FilePath`, `FileTree`, `OsInstall`, `OsInstallDisk`, `OsInstallWatch`, `OsInstallAnswers` | names and places on a disk; image installation |
| `Tickers`, `CpuRing` | timers and statistics |
| `Options`, `Words` | optional values; arithmetic in 64 bits |

## Where the code does less than it seems to

Each of these is a lemma with its exact condition; the model follows the code.

- An empty key name is the loader's mark for "no key yet". A list that uses one can be accepted although its rules
  name different keys at one place (`EmptyKeyNameMisread`). `AcceptedIff` says which lists are accepted,
  `AcceptedInAnyOrderIff` which are in every order, `PlacedIffConsistent` when every rule is where it belongs, and
  `ReadAsMeantIff` that consistency is just what it takes to be read as meant.
- The pathz checkpoint keeps a reference to the version metadata, not a copy: memory keeps the metadata of the last
  upload that was looked at, however the stream ends (`MetaKeptIff`). A failed commit can leave a mixed row
  (`MixedRowIff`, `MixedRow`).
- Aborting a pathz stream cannot restore "no policy" (`RevertedStreamRestores`).
- An authz rollback whose own database writes fail leaves memory and tables with fields of the uploads
  (`AbortRestoresIff`).
- A certz abort whose link steps fail removes the files under the links (`RevertDanglesIffFault`), and what a rejected
  revocation bundle did to the live directory stays (`AbortKeepsListsIff`, `RejectedSameIff`). A list whose identifier
  leads out of the live directory is written there and never rolled back (`InsideIff`, `EscapingList`,
  `RotateElsewhereStays`). The files of an upload superseded in its own stream are never removed (`ServeFiles`,
  `SupersededStays`).
- Two subscribed fields with the same JSON name make suppressed and full streams diverge (`RefinesIffDistinct`); a
  field that goes missing stays in the client's view (`ViewIsLastFull`).
- A Replace with a value that does not fit loses what it was to replace (`FailedReplaceIff`), and a failed Add may
  leave containers behind (`FailedAdd`).
- Install progress counts bytes of all earlier transfers of the same image (`ProgressCounts`). Chunks go to the
  cleaned name, while looking up and removing follow the name as it is, so with some names the clean-up misses the
  file that was written: `RestoredIff` says exactly which, `SlashStays` shows a version with a final slash, and
  `TargetIsImageIff` says when a relative directory is to blame. A transfer that ends badly without a chunk removes an
  image that was there before it (`DiskIsSameIff`). The check of the path compares text, and does not cover what is
  removed (`StaysBelowIff`, `ChunksBelowIff`, `SiblingPasses`).
- A path that asks for a heartbeat timer, on change or with suppression, ends the subscription if its heartbeat is
  beyond the signed range (`MakeableIff`, `PlanSucceedsIff`).
- The load is computed in 64 bits and is the share of busy ticks exactly when a hundred times those fit
  (`PercentIsLoadIff`).
- The window reported as five minutes starts 2384 samples back (`ReadsBackIff`, `LongOffset`), and a sample with more
  processors than the last two makes the report fail (`GetCpuUtilStat`).

## Model

| member | source | states |
|---|---|---|
| `SortedStrings.SortKeys` | pathz_authorizer/pathz_authorizer.go:301-305 | the keys of a map, collected in any order, come out as its one ascending sequence |
| `SortedStrings.AscendingUnique` | pathz_authorizer/pathz_authorizer.go:405-409 | there is only one ascending sequence with given elements, so map iteration order cannot show |
| `SortedStrings.LexLeqIff` | pathz_authorizer/pathz_authorizer.go:405-409 | the order is that of the first character that differs, and a text comes before those it begins |
| `PathzPolicy.StepName` | pathz_authorizer/pathz_authorizer.go:293-306 | moving the cursor past a name consumes one token and turns to the element's sorted keys, or to the next element if it has none |
| `PathzPolicy.StepKey` | pathz_authorizer/pathz_authorizer.go:252-268 | moving the cursor past a key consumes one token; the last key turns to the next element |
| `PathzReading.ReadBack` | pathz_authorizer/pathz_authorizer.go:293-306 | a path is read back from its tokens, with every key and its own value |
| `PathzReading.TokensInjective` | pathz_authorizer/pathz_authorizer.go:293-306 | different paths have different tokens |
| `PathzReading.KeyIsToken` | pathz_authorizer/pathz_authorizer.go:252-268 | every key of an element is among its tokens, with its own value |
| `PathzReading.PrintReadsBack` | pathz_authorizer/pathz_authorizer.go:31-51 | a path is read back from its printed text, if its parts hold none of the characters that end them |
| `PathzReading.PrintEmpty` | pathz_authorizer/pathz_authorizer.go:31-51 | the empty path is written as a slash |
| `PathzTrie.WalkFindsBest` | pathz_authorizer/pathz_authorizer.go:207-315 | on every tree and request the walk ends at the best deciding pattern (left to right: exact, then wildcard, then stopping) and finds nothing only if no pattern decides |
| `PathzRules.InsertAt` | pathz_authorizer/pathz_authorizer.go:317-412 | an insertion is felt at the prefixes of the rule's path only, where the rest of the path is inserted; every other node stays |
| `PathzRules.InsertPermAt` | pathz_authorizer/pathz_authorizer.go:324-357 | of all permissions in the tree, one insertion changes its principal's at the end of its path |
| `PathzRules.UpdateSlot` | pathz_authorizer/pathz_authorizer.go:179-205 | a deny is never overwritten, an unspecified action changes nothing, the other mode stays |
| `PathzRules.BuildActions` | pathz_authorizer/pathz_authorizer.go:517-528 | the tree stores for every path, principal and mode what the rules for exactly that path say, deny over permit, with the identifier of such a rule |
| `PathzRules.BuildSucceeds` | pathz_authorizer/pathz_authorizer.go:517-528 | a consistent list is built exactly when every rule has a principal |
| `PathzDecisions.DecisionFlat` | pathz_authorizer/pathz_authorizer.go:207-231 | at every node: the user's own rules first, then the groups' with deny winning |
| `PathzDecisions.WalkIsFlat` | pathz_authorizer/pathz_authorizer.go:207-315 | the walk of the built tree finds nothing exactly when no rule path covers a prefix of the request and decides; otherwise it ends at the deciding path, with its action, text and rule identifier |
| `PathzDecisions.WalkActionIsVerdict` | pathz_authorizer/pathz_authorizer.go:207-315 | for every accepted consistent list, user, path, mode and group membership, the tree returns the action of the flat reading |
| `PathzDecisions.OneRule` | pathz_authorizer/pathz_authorizer.go:207-315 | a policy of one rule gives its action to exactly the requests of its user or group, in its mode, whose path begins with its own, a star standing for any value of a key |
| `PathzDecisions.OrderIsIrrelevant` | pathz_authorizer/pathz_authorizer.go:517-528 | reordering or repeating rules changes neither acceptance nor any action |
| `PathzDecisions.DenyOnlyDenies` | pathz_authorizer/pathz_authorizer.go:179-205 | adding an accepted deny rule can change an action only to deny |
| `PathzDecisions.EmptyKeyNameMisread` | pathz_authorizer/pathz_authorizer.go:369-372 | a list with an empty key name that is accepted though inconsistent, and then permits what no rule permits |
| `PathzAcceptance.InsertIff` | pathz_authorizer/pathz_authorizer.go:317-412 | an insertion into any tree fails exactly for want of a principal or for a clash with a key name that is already set |
| `PathzAcceptance.BuildKeyName` | pathz_authorizer/pathz_authorizer.go:369-372 | a node's key name is one that a rule gives it, and every other name given to it is empty |
| `PathzAcceptance.AcceptedIff` | pathz_authorizer/pathz_authorizer.go:517-528 | any list is accepted exactly when it is not empty, every rule has a principal, and no rule gives a node a key after another gave it a different non-empty one |
| `PathzAcceptance.PlacedIffConsistent` | pathz_authorizer/pathz_authorizer.go:360-389 | every rule of an accepted list is found at its own path exactly when the list is consistent |
| `PathzAcceptance.AcceptedInAnyOrderIff` | pathz_authorizer/pathz_authorizer.go:517-528 | every reordering of a list is accepted exactly when it is consistent and every rule has a principal |
| `PathzAcceptance.NamedAcceptedIff` | pathz_authorizer/pathz_authorizer.go:517-528 | if no key name is empty, accepted means consistent |
| `PathzAcceptance.BuildMarks` | pathz_authorizer/pathz_authorizer.go:317-412 | a rule, for a user or a group, leaves its mark at its own location only, also in lists that are not consistent |
| `PathzAcceptance.ReadAsMeantIff` | pathz_authorizer/pathz_authorizer.go:207-412 | a list is consistent exactly when, whoever its paths are given to with whatever action and mode, it is accepted and every request is decided as the flat list does |
| `PathzShape.InsertShapeUnder` | pathz_authorizer/pathz_authorizer.go:317-412 | inserting node by node gives the shape of the tree with the rule inserted, fails in the same cases, and touches nothing outside the path |
| `PathzShape.InsertWorded` | pathz_authorizer/pathz_authorizer.go:322-325 | nodes that carry permissions carry a rule text, which the result checks rely on |
| `PathzAuthorizer.Print` | pathz_authorizer/pathz_authorizer.go:31-51 | the printed path has the elements in order and the keys ascending |
| `PathzAuthorizer.Next` | pathz_authorizer/pathz_authorizer.go:252-306 | one step of the cursor takes exactly one token off the remaining path |
| `PathzAuthorizer.Node.constructor` | pathz_authorizer/pathz_authorizer.go:395-398 | a new node stores nothing |
| `PathzAuthorizer.Node.InsertHere` | pathz_authorizer/pathz_authorizer.go:322-357 | the rule is recorded at the node, refused without a principal |
| `PathzAuthorizer.Node.NameChild` | pathz_authorizer/pathz_authorizer.go:391-398 | the child for a name, made empty if missing, all other nodes untouched |
| `PathzAuthorizer.Node.ValueChild` | pathz_authorizer/pathz_authorizer.go:373-378 | the child for a key value, made empty if missing |
| `PathzAuthorizer.Node.GroupResult` | pathz_authorizer/pathz_authorizer.go:217-231 | whatever the order of groups, a deny of any of the user's groups wins over permits, with the identifier of such a permission |
| `PathzAuthorizer.Node.OwnResult` | pathz_authorizer/pathz_authorizer.go:208-231 | the result of one node alone |
| `PathzAuthorizer.Node.Authorize` | pathz_authorizer/pathz_authorizer.go:207-315 | on linked nodes that spell a tree, the recursion reports exactly the walk of that tree, action, text and identifier |
| `PathzAuthorizer.Node.AuthorizeName` | pathz_authorizer/pathz_authorizer.go:293-314 | the same for a request that goes on with a name |
| `PathzAuthorizer.Node.AuthorizeValue` | pathz_authorizer/pathz_authorizer.go:270-288 | the same below one key value |
| `PathzAuthorizer.Node.AuthorizeKey` | pathz_authorizer/pathz_authorizer.go:239-291 | the same for a request that goes on with a key: exact value, then wildcard, then the node itself |
| `PathzAuthorizer.Node.InsertPath` | pathz_authorizer/pathz_authorizer.go:317-412 | in-place insertion gives nodes of the shape with the rule inserted, and fails exactly when that does |
| `PathzAuthorizer.LoadPolicies` | pathz_authorizer/pathz_authorizer.go:517-528 | loading gives linked nodes that spell the tree of the list, or nothing exactly when the list is refused |
| `PathzProcessor.MemberIffListed` | pathz_authorizer/pathz_authorizer.go:504-515 | a user is in a group exactly when a definition of that name lists them |
| `PathzProcessor.CreateGroups` | pathz_authorizer/pathz_authorizer.go:504-515 | the loop builds that membership |
| `PathzProcessor.Processor.constructor` | pathz_authorizer/pathz_authorizer.go:102-108 | a new processor has no policy |
| `PathzProcessor.Processor.UpdatePolicyFromProto` | pathz_authorizer/pathz_authorizer.go:475-492 | tree and groups are always those of the stored policy; a refused policy leaves all three as they were |
| `PathzProcessor.Processor.Authorize` | pathz_authorizer/pathz_authorizer.go:415-430 | the answer is the flat verdict of the stored policy, with the text and identifier of a rule that gives it |
| `PathzProcessor.Processor.AuthorizeWithPrefix` | pathz_authorizer/pathz_authorizer.go:433-451 | the answer for the prefix followed by the path: the flat verdict, with the text and identifier of a rule that gives it |
| `PathzProcessor.OneRuleExplained` | pathz_authorizer/pathz_authorizer.go:138-160 | under a policy of one rule the result has its action, its identifier and the text of its path exactly when it applies |
| `PathzRotate.ServeEnds` | gnmi_server/gnsi_pathz.go:181-248 | from any point of a stream, every ending leaves policy, file, backup, row and saved metadata as the checkpoint or the last accepted upload says; a commit that fails leaves the fields of the row that were written by then |
| `PathzRotate.RevertedStreamRestores` | gnmi_server/gnsi_pathz.go:158-170 | a stream that does not commit leaves the policy as it was exactly when one was loaded or no upload was accepted; the file exactly then or when the last upload looked at left the same text; the row and the saved metadata are as they were |
| `PathzRotate.CommittedStreamKeepsLast` | gnmi_server/gnsi_pathz.go:172-178 | a committed stream leaves the last accepted upload in force, in the file, in the row and in the saved metadata, and no backup |
| `PathzRotate.CommitsIff` | gnmi_server/gnsi_pathz.go:250-272 | an upload and Finalize are committed exactly when the version is there and new or forced, the file is written, the policy can be loaded and the reply is sent; policy, file, memory, row and saved metadata are then those of the upload |
| `PathzRotate.NothingToCommit` | gnmi_server/gnsi_pathz.go:181-248 | Finalize without an upload gives the stream up |
| `PathzRotate.StaysInSync` | gnmi_server/gnsi_pathz.go:181-248 | over every sequence of streams the file holds the policy in force |
| `PathzRotate.MetaKeptIff` | gnmi_server/gnsi_pathz.go:250-263 | however a stream ends, memory has the metadata of the last upload that was looked at; it is as it was exactly when none was or that one carries the same |
| `PathzRotate.MixedRowIff` | gnmi_server/gnsi_pathz.go:123-130 | a failed commit leaves the row neither as it was nor as the last upload looked at has it exactly when only the first of its two writes succeeded and both fields differ |
| `PathzRotate.MixedRow` | gnmi_server/gnsi_pathz.go:123-130 | one upload and a commit that writes one field leave a row with the new version and the old time |
| `PathzRotate.RestartKeeps` | gnmi_server/gnsi_pathz.go:67-85 | what a committed stream put in force survives a restart; after a stream that was given up a restart brings back the saved version |
| `PathzRotate.RestartIs` | gnmi_server/gnsi_pathz.go:67-85 | what a new server starts with: the saved metadata or none, the policy file if that is enabled and it can be loaded, and the row as far as it can be written |
| `PathzRotate.AbortKeepsVersion` | gnmi_server/gnsi_pathz.go:150-170 | an aborted upload leaves its version in memory, so that the same upload is refused afterwards |
| `PathzRotate.PathzServer.constructor` | gnmi_server/gnsi_pathz.go:67-85 | a new server takes the saved metadata, writes it to the row, and loads the policy file if that is enabled and it can be loaded |
| `PathzRotate.PathzServer.CreateCheckpoint` | gnmi_server/gnsi_pathz.go:150-156 | policy and file are remembered, the metadata only by reference |
| `PathzRotate.PathzServer.RevertPolicy` | gnmi_server/gnsi_pathz.go:158-170 | the rollback of the model, step by step on the live objects |
| `PathzRotate.PathzServer.UpdatePolicy` | gnmi_server/gnsi_pathz.go:132-148 | the file is written before the policy is loaded, and both outcomes show |
| `PathzRotate.PathzServer.ProcessRequest` | gnmi_server/gnsi_pathz.go:250-272 | which uploads are accepted, and what each leaves behind |
| `PathzRotate.PathzServer.CommitChanges` | gnmi_server/gnsi_pathz.go:172-178 | the row field by field and then the metadata file, up to the first that fails |
| `PathzRotate.PathzServer.Rotate` | gnmi_server/gnsi_pathz.go:181-248 | the loop over live objects is the stream of the model |
| `AuthzRotate.ServeEnds` | gnmi_server/gnsi_authz.go:85-136 | from any point of a stream, an abort brings back the file and, as far as its own writes succeed, memory and tables; Finalize keeps the last accepted upload everywhere |
| `AuthzRotate.ServeRows` | gnmi_server/gnsi_authz.go:138-266 | after any stream, whatever was written and failed to be, each field of each table and of memory is that of the rollback, or of the last upload whose writes got that far |
| `AuthzRotate.AbortRestoresIff` | gnmi_server/gnsi_authz.go:229-266 | a stream that is not finalized brings the file back; memory and the second table, and the first table, are as they were exactly when the rollback wrote each field there or the last upload that wrote it left it the same |
| `AuthzRotate.AbortRestores` | gnmi_server/gnsi_authz.go:257-266 | a stream that is not finalized, whatever failed in it, leaves file, memory and both tables as at the checkpoint if the writes of the rollback succeed |
| `AuthzRotate.FinalizeKeepsLast` | gnmi_server/gnsi_authz.go:206-226 | a finalized stream leaves the last accepted policy and version everywhere and no backup |
| `AuthzRotate.MissingFile` | gnmi_server/gnsi_authz.go:138-173 | without a policy file no upload is considered, and an abort brings back an old backup |
| `AuthzRotate.StreamsKeepAgreement` | gnmi_server/gnsi_authz.go:85-136 | over every sequence of streams a policy file stays, and memory and tables agree as long as rollbacks can write |
| `AuthzRotate.AuthzServer.constructor` | gnmi_server/gnsi_authz.go:49-63 | a new server starts from the saved metadata and writes it to both tables, as far as the writes succeed |
| `AuthzRotate.AuthzServer.WriteMetadata` | gnmi_server/gnsi_authz.go:229-243 | a field reaches memory only after both tables |
| `AuthzRotate.AuthzServer.RevertAll` | gnmi_server/gnsi_authz.go:257-266 | the rollback of the model, with each number of its writes that succeed |
| `AuthzRotate.AuthzServer.ProcessRequest` | gnmi_server/gnsi_authz.go:138-173 | which uploads are accepted, and what a failed one leaves behind |
| `AuthzRotate.AuthzServer.Rotate` | gnmi_server/gnsi_authz.go:85-136 | the loop is the stream of the model |
| `CertzTheorems.UploadOneTracks` | gnmi_server/gnsi_certz.go:464-504 | after every upload, a pending entity has as its last one the final entity of the start of the stream |
| `CertzTheorems.RevertRestores` | gnmi_server/gnsi_certz.go:595-644 | reverting restores all four active entities and their rows, whatever link step fails |
| `CertzTheorems.ServeEntities` | gnmi_server/gnsi_certz.go:225-284 | a stream without Finalize restores entities and rows; with or without, nothing is left pending |
| `CertzFreshness.ServeShows` | gnmi_server/gnsi_certz.go:225-284 | for each kind, from any point of a stream: with Finalize the active entity and both fields of its row are those of the last accepted message of that kind, without it or with no such message those of the start |
| `CertzFreshness.RotateShows` | gnmi_server/gnsi_certz.go:225-284 | the same for whole streams |
| `CertzFreshness.AcceptedMsgIff` | gnmi_server/gnsi_certz.go:381-430 | exactly which messages of each kind are accepted: a creation time, a version, a new one unless it may be overwritten, and every step of that kind succeeds |
| `CertzFreshness.OneMessage` | gnmi_server/gnsi_certz.go:464-504 | one good message and Finalize put its version and time in force and in the row |
| `CertzFreshness.RefusedRequest` | gnmi_server/gnsi_certz.go:225-284 | a request that is empty, carries no credential or names another profile leaves everything as it was |
| `CertzFreshness.GoesOnIff` | gnmi_server/gnsi_certz.go:225-284 | a stream goes on after a request exactly when it could be carried out and its reply was sent; otherwise everything is given up |
| `CertzFreshness.DefaultProfile` | gnmi_server/gnsi_certz.go:225-284 | a request may name the default profile |
| `CertzFreshness.SavedIsActive` | gnmi_server/gnsi_certz.go:646-686 | what a finalized stream saves are the four active entities |
| `CertzTheorems.FailedPairRestores` | gnmi_server/gnsi_certz.go:925-964 | for each failing step, exactly when both links are as before |
| `CertzTheorems.FailedCaRestores` | gnmi_server/gnsi_certz.go:968-989 | for each failing step, exactly when the link of a trust bundle is as before; it is gone otherwise |
| `CertzTheorems.UploadCertLive` | gnmi_server/gnsi_certz.go:464-517 | an upload keeps every link on an existing file, also when saving or linking fails |
| `CertzTheorems.RevertLive` | gnmi_server/gnsi_certz.go:606-623 | so does a revert whose links can be pointed back |
| `CertzTheorems.FinalizeLive` | gnmi_server/gnsi_certz.go:646-686 | so does a finalize |
| `CertzTheorems.RevertDanglesIffFault` | gnmi_server/gnsi_certz.go:606-623 | no link dangles after a revert exactly when nothing was pending or the links were pointed back |
| `CertzTheorems.RevertRemovesNoLiveFile` | gnmi_server/gnsi_certz.go:606-614 | the certificate and key that a revert removes are not what any link leads to at that point |
| `CertzTheorems.RevertRemovesNoLiveBundle` | gnmi_server/gnsi_certz.go:606-623 | the same for a trust bundle, once the certificate links have been pointed back |
| `CertzTheorems.FinalizeRemovesNoLiveFile` | gnmi_server/gnsi_certz.go:646-662 | finalizing removes no file that any link leads to |
| `CertzTheorems.ServeLive` | gnmi_server/gnsi_certz.go:225-284 | a whole stream keeps every link on an existing file |
| `CertzTheorems.ServeFiles` | gnmi_server/gnsi_certz.go:225-284 | exactly the files a stream leaves: those of the start and all it saved, less those it replaced if it is finalized, or those active last if it is not |
| `CertzTheorems.SupersededStays` | gnmi_server/gnsi_certz.go:646-686 | of two certificates in one stream the first pair stays on the disk, however the stream ends |
| `CertzTheorems.ServePolicy` | gnmi_server/gnsi_certz.go:536-550 | however many policies a stream uploads, abort brings back the one before it and Finalize keeps the last; no backup is left |
| `CrlFiles.WritePassIs` | gnmi_server/gnsi_certz.go:798-831 | a pass puts its lists over the files at the places they lead to, up to the first that fails, which takes its own file away if it could not be written |
| `CrlFiles.AcceptedIff` | gnmi_server/gnsi_certz.go:792-832 | a bundle is accepted exactly when it has lists and none fails in either pass |
| `CrlFiles.AcceptedIs` | gnmi_server/gnsi_certz.go:792-832 | an accepted bundle replaces the live directory, and puts the lists that lead elsewhere over what is there |
| `CrlFiles.RotateElsewhere` | gnmi_server/gnsi_certz.go:792-832 | outside the live directory everything a bundle wrote stays, also when it is rejected |
| `CrlFiles.RejectedSameIff` | gnmi_server/gnsi_certz.go:792-832 | exactly which rejected bundles leave the live directory alone, for a bad list and for a failed write in either pass |
| `CrlFiles.LateFailure` | gnmi_server/gnsi_certz.go:792-832 | a list that passes the first time and cannot be written again leaves the live directory empty; one that cannot be written at all takes away its own file only |
| `CrlFiles.InsideIff` | gnmi_server/gnsi_certz.go:812-827 | a list is written in the live directory exactly when its identifier comes down again by the names it went up and takes one more |
| `CrlFiles.PlainList` | gnmi_server/gnsi_certz.go:812-827 | a plain name is a file of the directory crl |
| `CrlFiles.EscapingList` | gnmi_server/gnsi_certz.go:812-827 | an identifier that goes up is written beside the live directory and stays when the bundle is rejected, while the live directory is left alone |
| `CrlFiles.CopyIs` | gnmi_server/gnsi_certz.go:834-861 | a copied directory has the lists of the other one, and no other directory changes |
| `CertzLists.ServeCrl` | gnmi_server/gnsi_certz.go:624-683 | the whole disk after a stream: the accepted bundles one after the other, the rejected one, and the copy that ends it |
| `CertzLists.RotateLists` | gnmi_server/gnsi_certz.go:624-683 | with Finalize both directories hold the lists of the last activated bundle; without, after an activation both hold the flush copy with whatever was written into that, and otherwise the live directory keeps what a rejected bundle left |
| `CertzLists.RotateElsewhereStays` | gnmi_server/gnsi_certz.go:225-284 | a file outside both directories is, after any stream, what the bundles wrote there, never rolled back |
| `CertzLists.AbortKeepsListsIff` | gnmi_server/gnsi_certz.go:225-284 | a stream that is not finalized leaves the live lists as they were exactly when, after an activation, the flush copy with what was written into it is the same, and otherwise when the rejected bundle, if any, left them alone |
| `CertzLists.RejectedBundleStays` | gnmi_server/gnsi_certz.go:792-832 | one rejected message leaves the live lists as they were exactly when the bundle left them alone |
| `CertzLists.OneList` | gnmi_server/gnsi_certz.go:646-686 | one plain list and Finalize: the directories crl and crl_flush hold that list and no other |
| `CertzLists.StreamsFlush` | gnmi_server/gnsi_certz.go:646-686 | over every sequence of streams the flush copy holds the last bundle that was made final |
| `CertzLists.AgreeIff` | gnmi_server/gnsi_certz.go:624-683 | live lists and flush copy that agreed before a stream agree after it exactly when it activated a bundle, rejected none, or rejected one that left the live lists alone |
| `CertzTheorems.StreamsSettle` | gnmi_server/gnsi_certz.go:225-284 | over every sequence of streams, between streams all four active entities are final and their rows current |
| `CertzTheorems.StreamsStayLive` | gnmi_server/gnsi_certz.go:225-284 | over every sequence of streams no link dangles |
| `CertzServer.CopyDir` | gnmi_server/gnsi_certz.go:834-861 | emptying a directory and copying file by file in any order is the copy of the model |
| `CertzServer.Server.AtomicSetSrvCertKeyPair` | gnmi_server/gnsi_certz.go:925-964 | both links after each possible failing step |
| `CertzServer.Server.AtomicSetCaCert` | gnmi_server/gnsi_certz.go:968-989 | the link after each possible failing step |
| `CertzServer.Server.RotateCrlBundle` | gnmi_server/gnsi_certz.go:792-832 | lists are written while they are checked, and once more into the emptied directory; a failed write removes the file and ends it |
| `CertzServer.Server.WriteLists` | gnmi_server/gnsi_certz.go:798-831 | one pass over the lists |
| `CertzServer.Server.UploadCertMsg` | gnmi_server/gnsi_certz.go:509-517 | files, links and entity after a certificate upload |
| `CertzServer.Server.UploadBundleMsg` | gnmi_server/gnsi_certz.go:518-530 | file, link and entity after a trust bundle upload |
| `CertzServer.Server.UploadCrlMsg` | gnmi_server/gnsi_certz.go:531-535 | directory and entity after a revocation bundle upload |
| `CertzServer.Server.UploadAuthMsg` | gnmi_server/gnsi_certz.go:536-550 | file, backup and entity after a policy upload |
| `CertzServer.Server.Upload` | gnmi_server/gnsi_certz.go:381-430 | the loop over the messages of a request, stopping at the first that fails |
| `CertzServer.Server.Revert` | gnmi_server/gnsi_certz.go:595-644 | the revert of the model, kind by kind |
| `CertzServer.Server.FinalizeAll` | gnmi_server/gnsi_certz.go:646-686 | the finalize of the model, kind by kind |
| `CertzServer.Server.Rotate` | gnmi_server/gnsi_certz.go:225-284 | the loop is the stream of the model |
| `FieldStream.ReadVal` | sonic_data_client/db_client.go:1158-1195 | one reading: the message and the saved values |
| `FieldStream.Subscribe` | sonic_data_client/db_client.go:1150-1244 | the loop over readings, in each of its modes |
| `FieldStream.MessageAt` | sonic_data_client/db_client.go:1158-1195 | a message holds exactly the fields to be sent, with their values |
| `FieldStream.UpdatesRefineFull` | sonic_data_client/db_client.go:1150-1244 | after every reading, folding the suppressed messages gives the view of the full ones |
| `FieldStream.UpdateIsDifference` | sonic_data_client/db_client.go:1182-1190 | a suppressed message is exactly the part of the full one that the client does not know |
| `FieldStream.ViewIsLastFull` | sonic_data_client/db_client.go:1150-1244 | the view is the last full message exactly when no field seen before is missing from it |
| `FieldStream.ViewIsLastValue` | sonic_data_client/db_client.go:1158-1195 | in every mode the client knows for each path the value it last had; a field that cannot be read counts as empty, and so does a missing one unless the path is virtual |
| `FieldStream.SharedNameDiverges` | sonic_data_client/db_client.go:1158-1195 | whenever two different paths share a JSON name, some readings make full and suppressed streams diverge, sampled or on change |
| `FieldStream.RefinesIffDistinct` | sonic_data_client/db_client.go:1150-1244 | suppression never shows exactly when no two different paths share a JSON name |
| `TableStream.ViewPlusHeld` | sonic_data_client/db_client.go:1516-1578 | in every mode, what was sent plus what is held back is the contents |
| `TableStream.TickShowsContents` | sonic_data_client/db_client.go:1551-1572 | after every tick the folded updates are the contents, which is also the full message |
| `TableStream.OnChangeShowsContents` | sonic_data_client/db_client.go:1543-1550 | an on-change client has the contents after every event |
| `TableStream.Subscribe` | sonic_data_client/db_client.go:1516-1578 | the loop over updates and ticks |
| `AppDbPoll.PollShowsPresent` | sonic_data_client/db_client.go:301-362 | one poll, in any order of paths, makes the replay exactly the paths with data and deletes exactly the losses |
| `AppDbPoll.RunShowsPresent` | sonic_data_client/db_client.go:301-362 | over every run of polls the replay is what is present, and a path is deleted once per loss and never otherwise |
| `AppDbPoll.DbClient.PollOnce` | sonic_data_client/db_client.go:301-362 | the loop of one poll over paths in arbitrary order; an error ends it without a sync response |
| `SyncGate.RunKeeps` | sonic_data_client/db_client.go:204-258 | every interleaving of the main routine and the subscriptions keeps the invariant of phases, signals, wait group and queue |
| `SyncGate.SignalsOnce` | sonic_data_client/db_client.go:1432-1445 | each subscription has signalled once when it is past its first message, never twice, also when it fails later |
| `SyncGate.SyncAfterAll` | sonic_data_client/db_client.go:244-253 | the sync response is queued once, after first data or a fatal message of every subscription |
| `SyncGate.WaitEnds` | sonic_data_client/db_client.go:244-253 | the wait can end exactly when every subscription is past its first message |
| `SyncGate.GateOpens` | sonic_data_client/db_client.go:204-258 | from every point of every interleaving the main routine can get past the gate; it has then given up, without a sync response, exactly when some mode is not supported, and otherwise the sync response is the last message |
| `SyncGate.RunSays` | sonic_data_client/db_client.go:278-285 | a subscription whose interval is refused never sends data, and one that streams has sent some |
| `SyncGate.EndedSilent` | sonic_data_client/db_client.go:1226-1243 | a subscription that was stopped or has failed puts nothing more on the queue |
| `SyncGate.DisposedSilent` | sonic_data_client/db_client.go:244-258 | once it has been disposed of the queue does not change |
| `SyncGate.CanEnd` | sonic_data_client/db_client.go:244-258 | it can be disposed of at any time, and a subscription that streams can be stopped |
| `JsonDocument.UnescapeClean` | sonic_data_client/json_client.go:124-131 | an unescaped name has nothing left to unescape |
| `JsonDocument.FixIdempotent` | sonic_data_client/json_client.go:124-131 | fixing a path twice is fixing it once |
| `JsonDocument.UnescapeEscape` | sonic_data_client/json_client.go:124-131 | a name is read back from its escaped form |
| `JsonDocument.AtoiDecimal` | sonic_data_client/json_client.go:62-70 | a text means the number it is the decimal text of, with or without a sign, exactly if that fits 64 bits |
| `JsonDocument.AtoiZeros` | sonic_data_client/json_client.go:62-70 | leading zeros make no difference |
| `JsonDocument.AtoiRefuses` | sonic_data_client/json_client.go:62-70 | a text with anything but digits after its sign is no number |
| `JsonDocument.EscapedPath` | sonic_data_client/json_client.go:124-131 | the second part of every path is read unescaped, the others as they are |
| `JsonDocument.RemoveIff` | sonic_data_client/json_client.go:338-424 | a removal succeeds exactly when there is something at the path, which is not the document |
| `JsonDocument.AddIff` | sonic_data_client/json_client.go:220-328 | an addition succeeds exactly when there is a value of the sort the path takes, and an index is a number within the list or just behind it |
| `JsonTheorems.ReplaceField` | sonic_data_client/json_client.go:330-336 | replacing an existing field by a string or list sets it and changes nothing else, also when the removal empties its entry and table |
| `JsonTheorems.ReplaceItem` | sonic_data_client/json_client.go:330-336 | replacing an existing string item sets it and changes nothing else, also when the list held only that item |
| `JsonTheorems.ReplaceTable` | sonic_data_client/json_client.go:330-336 | replacing a table by an object sets it and changes nothing else |
| `JsonTheorems.ReplaceEntry` | sonic_data_client/json_client.go:330-336 | replacing an entry by an object sets it and changes nothing else |
| `JsonTheorems.GetAfterReplace` | sonic_data_client/json_client.go:133-218 | what was put there is read back, for paths of every length |
| `JsonTheorems.FailedReplaceIff` | sonic_data_client/json_client.go:330-336 | for paths of every length: a replacement succeeds exactly when the value fits; a failed one loses the table, entry or field, puts its neighbour or an empty string in place of an item, and leaves the document as it was exactly when the item was like that |
| `JsonTheorems.MissingReplace` | sonic_data_client/json_client.go:330-336 | replacing what is not there fails and changes nothing |
| `JsonTheorems.AddThenRemove` | sonic_data_client/json_client.go:282-321 | adding an item and removing it gives the document back exactly when the list was not empty |
| `JsonTheorems.RemoveFrame` | sonic_data_client/json_client.go:338-424 | a removal leaves every other table, entry and field, and takes away exactly what was named |
| `JsonTheorems.RemoveKeepsLean` | sonic_data_client/json_client.go:385-417 | a removal brings in no empty table, entry or list |
| `JsonTheorems.FailedAdd` | sonic_data_client/json_client.go:220-328 | exactly when a failed addition leaves the document as it was |
| `JsonClient.FixPath` | sonic_data_client/json_client.go:124-131 | the caller's own path is changed in place |
| `JsonClient.OpenGap` | sonic_data_client/json_client.go:311-316 | inserting moves the items up within the same array, though source and target overlap |
| `JsonClient.CloseGap` | sonic_data_client/json_client.go:407-408 | removing an item moves the ones after it down within the same array |
| `JsonClient.Client.GetPath` | sonic_data_client/json_client.go:133-218 | the value at the path, if any, without a change to the document |
| `JsonClient.Client.RemovePath` | sonic_data_client/json_client.go:338-424 | a failed removal leaves the document, a successful one is that of the model |
| `JsonClient.Client.AddPath` | sonic_data_client/json_client.go:220-328 | document and outcome of an addition, also a failed one |
| `JsonClient.Client.ReplacePath` | sonic_data_client/json_client.go:330-336 | removal and addition along the path that the removal has already changed |
| `RedisEntry.ConvertDbEntry` | sonic_data_client/mixed_db_client.go:1041-1063 | in whatever order the fields come, the row has every string field and every list under its marked name, and nothing else |
| `RedisEntry.MakeJson` | sonic_data_client/mixed_db_client.go:791-810 | in whatever order the fields come, marked fields become lists, the placeholder is dropped, others become strings |
| `RedisEntry.Written` | sonic_data_client/mixed_db_client.go:1041-1063 | a string is written under its name, a list under its name and an at sign with commas between its items |
| `RedisEntry.Read` | sonic_data_client/mixed_db_client.go:791-810 | and read back so; the placeholder stands for no field |
| `RedisEntry.RoundTrip` | sonic_data_client/mixed_db_client.go:1041-1063 | for any orders, decoding an encoded entry gives it back exactly when no string field is named NULL or ends in @, every list is a non-empty list of comma-free strings, and there are no other values |
| `Delimited.SplitJoin` | sonic_data_client/mixed_db_client.go:1041-1063 | splitting undoes joining for pieces without the separator |
| `FilePath.CleanIdempotent` | gnmi_server/gnoi_os.go:135-145 | cleaning a rooted name twice is cleaning it once |
| `FilePath.WalkReaches` | gnmi_server/gnoi_os.go:135-145 | walking the parts of a name leads where its steps up and down lead |
| `FilePath.CleanKeepsSteps` | gnmi_server/gnoi_os.go:135-145 | cleaning a relative name keeps the steps it takes |
| `FileTree.ResolveIs` | gnmi_server/gnoi_os.go:224-241 | a name that is looked up as it is leads where its parts lead, if there is a directory wherever another part is looked up, and nowhere otherwise |
| `OsInstallDisk.TargetIsImageIff` | gnmi_server/gnoi_os.go:135-145 | chunks go to the place that is later looked for exactly when the image directory is absolute, or is relative and leads back to itself, or the version goes up to the root either way |
| `OsInstallDisk.RunSound` | gnmi_server/gnoi_os.go:244-389 | every run keeps files and directories a tree: no file is a directory, and every place listed is in directories |
| `OsInstallDisk.RunHolds` | gnmi_server/gnoi_os.go:244-389 | in every interleaving of streams for tidy versions the files are as at the start less the dropped images, except for the image of the open stream, which is its chunks so far; no directory goes but those dropped |
| `OsInstallDisk.DiskIsRestored` | gnmi_server/gnoi_os.go:311-317 | once no stream is writing, whatever ended them, success included, no image of theirs is left; the files are as at the start, less the images dropped by a transfer that ended badly without a chunk |
| `OsInstallDisk.RestoredIff` | gnmi_server/gnoi_os.go:129-241 | all runs for a version restore the disk exactly when it is tidy: it leads where its chunks go, through directories that are there by then, or else the code refuses it or finds a directory that is always there |
| `OsInstallDisk.PlainTidy` | gnmi_server/gnoi_os.go:220-222 | in a plain absolute directory every version that is one plain name is tidy |
| `OsInstallDisk.SlashStays` | gnmi_server/gnoi_os.go:129-241 | with a final slash an image that is there is not seen, the chunk is added to it, and the file stays when the stream ends |
| `OsInstallDisk.BackendSeesImage` | gnmi_server/gnoi_os.go:363-389 | at the end of a transfer the image is the accepted chunks of that stream, in order |
| `OsInstallWatch.WatchIs` | gnmi_server/gnoi_os.go:311-362 | the phase of the open stream, the directories and the places whose image was dropped, from the actions and the names on the disk alone |
| `OsInstallWatch.DiskIsSameIff` | gnmi_server/gnoi_os.go:374-386 | the files are as at the start exactly when no transfer for an image that was there ended badly without a chunk; which those are follows from the actions and the names on the disk |
| `OsInstallWatch.StaysBelowIff` | gnmi_server/gnoi_os.go:129-241 | all runs for a version, in any image directory, write and remove only in it or below it exactly when the place chunks can go to is there and the place where a file can be removed is |
| `OsInstallWatch.ChunksBelowIff` | gnmi_server/gnoi_os.go:129-218 | chunks alone stay below exactly when the place they can go to is there |
| `OsInstallWatch.BelowIff` | gnmi_server/gnoi_os.go:220-222 | the name of an image leads into the image directory exactly when the version goes up no further than it comes down again by the same names |
| `OsInstallWatch.SiblingPasses` | gnmi_server/gnoi_os.go:147-157 | the check compares text, so a sibling whose name goes on from that of the directory passes it |
| `OsInstallAnswers.ChunkRefused` | gnmi_server/gnoi_os.go:147-157 | a chunk is refused, and nothing is different, whenever the text of the place its version leads to does not begin with that of the image directory |
| `OsInstallAnswers.TraversalRefused` | gnmi_server/gnoi_os.go:147-157 | so a version that goes up is refused, unless it comes down by a name that begins with the last one of the directory |
| `OsInstallAnswers.ChunkTakenIff` | gnmi_server/gnoi_os.go:129-218 | exactly when a first chunk is taken, and the files and directories then |
| `OsInstallAnswers.SlashKeeps` | gnmi_server/gnoi_os.go:158-206 | for each way a chunk can fail, the bytes that are left, seen with a version whose file is not found again |
| `OsInstallAnswers.DirsStay` | gnmi_server/gnoi_os.go:158-169 | the directories that a chunk makes stay, or the first levels of them if that fails on the way |
| `OsInstallAnswers.EmptyTransferRemoves` | gnmi_server/gnoi_os.go:231-241 | a transfer without a chunk that ends badly removes what its name is found to be: a file, or an empty directory that is neither the root nor the working directory and is not named with a dot |
| `OsInstallAnswers.LastPartIs` | gnmi_server/gnoi_os.go:231-241 | the last part of a name, whatever slashes follow |
| `OsInstallAnswers.OkIff` | gnmi_server/gnoi_os.go:244-389 | a call is answered Ok only if its client went away before asking, or the backend accepted the image and the client was told |
| `OsInstallAnswers.RefusalIff` | gnmi_server/gnoi_os.go:273-336 | which calls are invalid or unimplemented |
| `OsInstallAnswers.GoesOnIff` | gnmi_server/gnoi_os.go:244-389 | when an open stream goes on, and that a second call changes nothing |
| `OsInstall.ProgressCounts` | gnmi_server/gnoi_os.go:208-217 | each progress reply is the earlier count plus the bytes written under that name, in 64 bits, and is the size of the image so far exactly when the earlier count is zero |
| `OsInstall.OSServer.ProcessTransferContent` | gnmi_server/gnoi_os.go:129-218 | files, directories and count after one chunk, for each way it can fail |
| `OsInstall.OSServer.RemoveIncompleteTransfer` | gnmi_server/gnoi_os.go:231-241 | what the name, followed as it is, leads to is gone if it is a file or a removable empty directory, and nothing else |
| `OsInstall.OSServer.ImageExists` | gnmi_server/gnoi_os.go:224-229 | the name can be followed and something is there |
| `OsInstall.OSServer.Receive` | gnmi_server/gnoi_os.go:319-389 | one message of a transfer, with the deferred clean-up of the ones that end it |
| `OsInstall.OSServer.Install` | gnmi_server/gnoi_os.go:244-389 | a call while another is open changes nothing; otherwise the loop is the stream of the model |
| `Tickers.TimersAre` | sonic_data_client/transl_data_client.go:245-320 | which timers a path gets from its subscription, at which intervals, and when it is refused |
| `Tickers.TimersRespectMinimum` | sonic_data_client/transl_data_client.go:250-320 | a subscription that is not refused asks for no timer faster than the least interval of its path, except for a heartbeat beyond the signed range, whose interval is negative |
| `Tickers.MakeableIff` | sonic_data_client/transl_data_client.go:360-371 | the timers of a path can all be made exactly when it does not ask for a heartbeat timer, on change or with suppression, beyond the signed range |
| `Tickers.PlanSucceedsIff` | sonic_data_client/transl_data_client.go:245-371 | the subscription is set up exactly when no path is refused and none asks for such a heartbeat |
| `Tickers.PlanPositive` | sonic_data_client/transl_data_client.go:245-323 | every interval that reaches a ticker is positive, whatever was asked for |
| `Tickers.AddAllInv` | sonic_data_client/transl_data_client.go:360-380 | after any additions cases and intervals correspond one to one, each interval holds its timers in order, all on the ticker its case waits on |
| `Tickers.CaseRunsItsInterval` | sonic_data_client/transl_data_client.go:339-357 | a chosen case runs exactly the timers of its interval; the stop case runs none |
| `Tickers.OneCase` | sonic_data_client/transl_data_client.go:341-357 | every timer added is run by one case and no other |
| `Tickers.RoundRunsAll` | sonic_data_client/transl_data_client.go:341-357 | when every case has fired once, every timer has run once |
| `Tickers.Schedule.AddTimer` | sonic_data_client/transl_data_client.go:360-380 | the three tables after one addition; an interval that is not positive ends the subscription |
| `Tickers.Schedule.Subscribe` | sonic_data_client/transl_data_client.go:245-323 | the loop over subscriptions adds the planned timers and stops at the first that is refused or cannot be made |
| `Tickers.Schedule.Fire` | sonic_data_client/transl_data_client.go:347-356 | what is sampled for a chosen case, duplicates filtered only for suppressed timers that are not heartbeats |
| `CpuRing.PercentIsLoadIff` | sonic_data_client/non_db_client.go:134-143 | across counter wrap-around, the load is the share of busy ticks exactly when a hundred times those fit 64 bits, and is between 0 and 100 when a hundred times all ticks do |
| `CpuRing.SlotIsBack` | sonic_data_client/non_db_client.go:151-156 | within the capacity the slot at an offset is the sample that many writes back, empty exactly when there are fewer samples |
| `CpuRing.LongOffsetReads` | sonic_data_client/non_db_client.go:208-213 | every offset beyond twice the capacity wraps around and reads the sample at a fixed distance within the capacity |
| `CpuRing.ReadsBackIff` | sonic_data_client/non_db_client.go:151-213 | an offset reads the sample that far back in every history exactly when it is between 1 and the capacity |
| `CpuRing.LongOffset` | sonic_data_client/non_db_client.go:208-213 | for the offset of the longest window that is the sample 2384 back |
| `CpuRing.ReportSays` | sonic_data_client/non_db_client.go:145-221 | a report compares the latest sample with those 2, 10, 50, 600 and 2384 back, for the machine and each processor |
| `CpuRing.ReportedIff` | sonic_data_client/non_db_client.go:145-221 | a report is made exactly when none of these samples has more processors than the last two |
| `CpuRing.StatsRing.WriteStatsToBuffer` | sonic_data_client/non_db_client.go:338-344 | the ring stays the ring of the history with the sample appended |
| `CpuRing.StatsRing.GetCpuUtilStat` | sonic_data_client/non_db_client.go:145-221 | the report read from the ring is that of the whole history, for the machine and each processor; there is none exactly when a window starts with more processors than the last two samples have |

## Left out

- gRPC, Redis, pub/sub, D-Bus and the file system themselves: they are parameters, events and maps here.
- X.509 and PEM parsing, CSR generation, TLS, JWT, PAM and login: library code; a validation is an outcome in the event.
- The show commands, generated code, counters in shared memory, command line programs: formatting and plumbing.
- Master arbitration, the connection limit, retry helpers, event statistics: they would only add easy members.
- Rules with an undeclared action number, and calls on missing objects: the Go types allow them. Undeclared modes are modelled.
- WalkActionIsVerdict: stated for consistent lists; `ReadAsMeantIff` says that for any other list some principals, actions and modes on the same paths are misread.
- WalkIsFlat: the same.
- DecisionFlat: the same.
- BuildActions: the same.
- OrderIsIrrelevant: stated for consistent lists; `AcceptedInAnyOrderIff` says that any other list is refused in some order.
- DenyOnlyDenies: stated for consistent lists.
- InsertAt: stated for a rule whose keys agree with those in use; `InsertIff`, `BuildKeyName` and `BuildMarks` are about every insertion.
- InsertPermAt: the same.
- BuildSucceeds: stated for consistent lists; `AcceptedIff` is about every list.
- File faults during a rollback itself, and failures of removing a file: the rollback steps are taken to succeed, except for the certz link steps and the authz database writes.
- Several certz profiles: adding and deleting profiles is not implemented, and the links assume the default one.
- Certz entities are values here: the flag that marks one final is set on the value, not on a shared record.
- Certz upload file names carry a time stamp, which is taken never to repeat.
- RotateCrlBundle: does not model a list that is no PEM block at all, for which the code dereferences a missing block.
- Directories inside the directory of revocation lists: a list that leads into one that is missing is one that cannot be written. An identifier that names the live directory itself, while that is empty, removes it; that is not modelled.
- StreamsFlush: stated for lists that do not lead into the flush copy; `RotateLists` is about every stream.
- AgreeIff: the same.
- The locks that turn away a second rotation stream; for Install they are part of the model.
- Saving the authz and certz metadata at the end of a finalized stream is taken to succeed; for pathz it may fail.
- The nested JSON tables are values inside the client's document: what two references to one table would see is not modelled.
- The duplicate check of single table keys before the update channel; the table stream starts at that channel.
- The queue hands out messages in the order they were put in; priorities by time stamp are taken to agree with that.
- Symbolic links; and that the working directory itself could be removed while it is empty: it is taken to stay.
- Least intervals whose nanoseconds do not fit 64 bits, and what the timer table holds after a timer could not be made: the subscription has ended by then.
