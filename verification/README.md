# PAN-OS MCP server: a Dafny model

The server lets an agent edit the candidate configuration of a PAN-OS firewall or Panorama through read-modify-write
tools, and reports what the device says. This project models the parts of it where a mistake would corrupt a
configuration, lose log entries or leak a credential, and proves what they promise.

* **Concurrent edits** (`Zone`, `Rulebase`, `Handlers`, `Protocol`, `ProtocolTheorems`). A handler is a program that
  decides its next device request from the replies so far; the device may refuse a request, or carry it out and have the
  reply lost. `Protocol` interleaves the requests of any number of handlers under the readers-writer lock and shows
  every behaviour equivalent to running the writers one at a time in the order in which they got the lock.
* **Log queries** (`LogEntry`, `LogFields`, `Json`, `Paging`, `LogPage`, `LogJob`, `JobWait`). Grouping of duplicate
  keys, projection, JSON encoding against an independent parser of RFC 8259, the byte budget and `next_skip` paging, the
  poll loop and its bound for every accepted PANOS_JOB_WAIT.
* **Dynamic-update schedules** (`WallClock`, `ScheduleSpec`, `ScheduleNodes`, `ScheduleFeatures`, `ScheduleOverlay`,
  `ScheduleTheorems`, `ScheduleRoundTrip`, `ScheduleWords`). Seven hand-written overlays in classes of their own, each proved to compute
  what one table-driven overlay computes; histories, idempotence and the get-to-update round trip are proved of the table.
* **Redaction** (`Text`, `Redact`, `RedactErrors`). Sequential leftmost replacement and the raw-response collapse.
* **One-of containers** (`OneOf`, `FieldValues`, and `Zone`, `AuthMethod`, `AdminRole`, `DataPattern`, the schedules). One law about
  capture, clear, seed and overwrite, and a proof for each container that its overlay is an instance of the law.
* **NAT translations** (`Nat`) and **operational parsers** (`OpParsers`).

Code that edits an object in place is a class whose methods are proved equal to a function of the old contents
(`View()`); the properties of runs are then lemmas about those functions. As in the source, an overlay that fails may
leave the object half edited and its holder discards it, so most of these contracts describe the object on success
only; `AdminRole.Administrator.ApplyRole` also says what a refusal leaves behind.

## Results worth knowing

* The redaction guarantee fails for some secrets. `Redact.ScrubGuarantee` says for exactly which: a secret is absent from
  every redacted message, whatever else is listed, if and only if it cannot be laid over the placeholder (unless the
  collapse is armed and the secret holds the marker) and cannot be laid over the collapse tail after a marker-free
  prefix. `Redact.LeakThroughPlaceholder` and `Redact.LeakThroughTail` give the message that leaks any other secret.
* A failed call can have written. `Handlers.FailedCallWrote` says exactly when: if and only if `Handlers.WritesUnnoticed`
  holds of the call and the configuration it meets, that is, a write that changes something was carried out and then its
  reply was lost, or the read back that ends every create and update failed. `Handlers.FailedUpdateThatWrote` and
  `Handlers.FailedCreateThatWrote` are two such calls; the second leaves a rule at the bottom that was meant for the top.
  `ProtocolTheorems.FailedTurn` says the same of every finished call of every interleaving, at its turn.
* A create that reports "created but positioning failed" says that the rule sits at the rulebase bottom
  (`tools/policy_tools.go:447-449`). `Handlers.UnplacedAtBottom` says exactly when it does: if the move was not carried
  out, when the name was new or that of the last rule; if it was carried out and its reply lost, when the position asked
  for is the last slot. `Handlers.UnplacedNotAtBottom` is a call without any device failure that leaves the rule first.
* A refused role request can touch the entry (the comment at `tools/device_admin_tools.go:311` says it is untouched).
  `AdminRole.RefusalTouchesEntry` says exactly when: it asks for a custom role only, without a profile, on an entry that
  has no role container; an empty container is then left behind. `AdminRole.RefusedOnNewEntry` is one such request.

## Model

| member | source | states |
|---|---|---|
| Protocol.Serializable | tools/device_tools.go:578-698 | every reachable state of any interleaving is explained by the writers run alone in lock order: the configuration, also in the middle of a writer's requests, and the reply of every finished call |
| Protocol.RealTimeOrder | tools/device_tools.go:624-643 | a call made after another finished comes after it in that order |
| Protocol.ReadersSeePrefix | tools/device_tools.go:677-698 | a locked read answers from the state after the prefix of the order it got the lock at, never from one in between, and fails or is rejected only for its own reasons |
| Protocol.InvHolds | tools/device_tools.go:592-642 | the lock excludes: a writer runs alone, a reader's view does not change under it, in every state |
| Protocol.NoDeadlock | tools/tools.go:72-87 | no behaviour gets stuck: a call that is not finished can go on, or whoever holds the lock it waits for can |
| ProtocolTheorems.AlwaysSound | tools/policy_tools.go:452-497 | rule names stay unique and every zone keeps at most one network type in every state, requests in the middle of a call included |
| ProtocolTheorems.FailedTurn | tools/device_tools.go:631-640 | a finished writer that reports failure changed the configuration at its turn exactly when it wrote unnoticed there; a rejected one changed nothing |
| ProtocolTheorems.NoLostUpdate | tools/device_tools.go:608-644 | whatever a successful zone update supplied, network type and interfaces included, is in the configuration of every later state unless a later writer, finished or in flight, was about that setting |
| ProtocolTheorems.NoTransientSlot | tools/policy_tools.go:475-492 | a locked list that no other rule writer separates from a positioned create sees the rulebase from before it or after it: at any other slot the rule is listed only if the create said so, or failed at the reply to its set or at its read back |
| ProtocolTheorems.SerialSound | tools/policy_tools.go:432-497 | every serial prefix is sound |
| Handlers.ZoneUpdateEffect | tools/pango_adapter.go:81-98 | exactly when a zone update writes, what it writes, and what it replies, for every combination of device failures; an overlay that changes nothing sends no edit |
| Handlers.ZoneCreateEffect | tools/device_tools.go:580-606 | a zone create sets the built zone and reads it back; what is stored and replied for every combination of device failures |
| Handlers.ZoneDeleteEffect | tools/device_tools.go:647-672 | what a zone delete does to the configuration and replies |
| Handlers.ReadEffect | tools/device_tools.go:677-698 | a locked read changes nothing, and its reply is known for every configuration and every failure |
| Handlers.ValidExactly | tools/policy_tools.go:340-365 | exactly which calls pass validation, in the words of their inputs |
| Handlers.RuleMoveEffect | tools/policy_tools.go:390-432 | exactly when a rule is moved and exactly when success is reported, for every combination of device failures |
| Handlers.MovedAsWorded | tools/policy_tools.go:340-432 | a reported move has the rule first, last, or next to relative_to, as the position word says; without failures it succeeds exactly when both rules are there |
| Handlers.MovedPlaces | tools/policy_tools.go:340-365 | being moved means to sit where asked, with every other rule in order, and changes nothing exactly when the rule sat there |
| Handlers.RuleCreateEffect | tools/policy_tools.go:452-497 | what is stored, whether it is moved and which of the three outcomes is reported, for every combination of device failures |
| Handlers.RuleCreateMeans | tools/policy_tools.go:452-497 | what the three outcomes mean for the rulebase: placed; where the set left it or placed; and, failed, which of where the set left it and nothing happened |
| Handlers.CreatedAsWorded | tools/policy_tools.go:340-497 | a reported create has the rule in the rulebase, standing as the position word says if one was given; without failures exactly when the other rule is there |
| Handlers.UnplacedAtBottom | tools/policy_tools.go:447-492 | exactly when a rule reported as created but not positioned sits at the rulebase bottom |
| Handlers.UnplacedNotAtBottom | tools/policy_tools.go:447-492 | a call without device failures after which it does not |
| Handlers.RestIsMoveGroup | tools/policy_tools.go:363-365 | once a move has read its rule, or a create has set and read back its own, the handler's requests are one listing and at most one move |
| Handlers.FailedCallWrote | tools/pango_adapter.go:84-98 | for every call, a failed one changed the configuration if and only if it wrote unnoticed; a rejected one never did |
| Handlers.FailedUpdateThatWrote | tools/device_tools.go:608-644 | a zone update that reports failure with the zone changed |
| Handlers.FailedCreateThatWrote | tools/policy_tools.go:480-485 | a positioned create that reports failure with the rule in the rulebase, unmoved |
| Handlers.SharedChangesNothing | tools/device_tools.go:677-698 | a reader's requests leave the configuration as it is |
| Handlers.Decide | tools/device_tools.go:608-644 | no handler makes more than four requests, and a reader only reads |
| Rulebase.PlacedSits | tools/policy_tools.go:340-365 | a move puts the rule directly at the requested place, with its content, and keeps every other rule in order |
| Rulebase.PlacedKeepsNames | tools/policy_tools.go:363-365 | a move neither adds nor drops a rule |
| Rulebase.MoveIdempotent | tools/policy_tools.go:384-389 | a rule already in its place is not moved |
| Zone.ZoneEntry.Apply | tools/device_tools.go:456-495 | the in-place network overlay computes the overlay of the zone document |
| Zone.Network.SetNetworkType | tools/device_tools.go:401-427 | every branch is cleared and the chosen one set; a tunnel keeps what it stored |
| Zone.ZoneIsStep | tools/device_tools.go:401-495 | a successful zone overlay is one edit of the one-of |
| Zone.ZoneHistory | tools/device_tools.go:401-515 | after any run of updates a zone has at most one type, the one last named, and the law's contents; the container's own unmodeled XML survives every switch |
| Zone.CreatedZone | tools/device_tools.go:497-509 | a created zone has exactly the branch its input names |
| Zone.BuildAccepts | tools/device_tools.go:497-509 | exactly which inputs make a zone, and what is wrong with the others |
| Zone.OverlayAccepts | tools/device_tools.go:430-495 | exactly which updates a zone takes, the refusal of interfaces for a tunnel included |
| Zone.OverlaySparesNetwork | tools/device_tools.go:456-495 | an update that provides nothing of the network element leaves it alone, also where there is none |
| Zone.ReportsOneBranch | tools/device_tools.go:517-557 | type and interfaces reported are of the same branch for every combination of branches present |
| Zone.TypeReadsBack | tools/device_tools.go:517-557 | with at most one branch, they are those of that branch |
| OneOf.RunHistory | tools/device_authprofile_tools.go:156-172 | each field of the surviving branch is the last value supplied since that branch was last switched to |
| OneOf.RunKeepsOne | tools/device_authprofile_tools.go:156-172 | at most one branch, the last one chosen |
| OneOf.SelectIdempotent | tools/device_authprofile_tools.go:190-197 | the same choice twice is the choice once |
| AuthMethod.Profile.Apply | tools/device_authprofile_tools.go:173-237 | the in-place method overlay computes the overlay of the method document, and refuses several branches |
| AuthMethod.RefusesSeveral | tools/device_authprofile_tools.go:173-189 | refused are exactly the inputs with two branches or more |
| AuthMethod.OverlayIsStep | tools/device_authprofile_tools.go:173-237 | a successful method overlay is one edit of the one-of over eight branches |
| AuthMethod.MethodHistory | tools/device_authprofile_tools.go:156-172 | every run keeps at most one branch, the last one chosen, and the container's unmodeled XML |
| AuthMethod.FieldHistory | tools/device_authprofile_tools.go:166-172 | field by field what the branch stores after any run, unmodeled XML included |
| AuthMethod.ReportsOneBranch | tools/device_authprofile_tools.go:319-395 | method and method_detail describe the same branch for every combination of branches present |
| AuthMethod.SelectionReadsBack | tools/device_authprofile_tools.go:319-395 | a selecting update reads back with every value it supplied |
| AdminRole.Administrator.ApplyRole | tools/device_admin_tools.go:287-335 | the in-place role change computes verdict and entry, refusals and the container they may leave included |
| AdminRole.RefusalTouchesEntry | tools/device_admin_tools.go:304-335 | exactly when a refused request does not leave the entry untouched, and what it leaves |
| AdminRole.RefusedOnNewEntry | tools/device_admin_tools.go:304-335 | one such request: refused on a new entry, it leaves an empty container |
| AdminRole.OverlayIsStep | tools/device_admin_tools.go:222-335 | a successful role request is one edit of the one-of over eight branches |
| AdminRole.RoleHistory | tools/device_admin_tools.go:277-335 | every run keeps at most one branch, and once a role was requested never a custom role without a profile, even over a stored one that had none |
| AdminRole.SummaryHistory | tools/device_admin_tools.go:367-411 | after any run the summary is the built-in role last asked for, by its name, or the profile and vsys list last supplied since the custom role was last switched to |
| AdminRole.NamesFirstRole | tools/device_admin_tools.go:367-391 | with several branches present the role named is that of the first one in the source's order, the per-vsys roles included |
| AdminRole.BuiltinStored | tools/device_admin_tools.go:222-258 | what each built-in role stores |
| AdminRole.AcceptedRequests | tools/device_admin_tools.go:260-318 | exactly which role requests are accepted, and what is wrong with the others |
| AdminRole.RequestReadsBack | tools/device_admin_tools.go:367-411 | in the summary a request reads back over whatever was stored: a built-in role by name, a custom one by profile and vsys list, given or kept |
| DataPattern.BuildRegexPatterns | tools/data_filtering_tools.go:332-347 | the entries unchanged, or an error exactly when one has no name |
| DataPattern.BuildFilePropertyPatterns | tools/data_filtering_tools.go:298-315 | the entries unchanged, or an error exactly when one has no name |
| DataPattern.BuildPredefinedPatterns | tools/data_filtering_tools.go:317-330 | the entries unchanged, or an error exactly when one has no name |
| DataPattern.Pattern.Apply | tools/data_filtering_tools.go:358-409 | the in-place pattern-type overlay computes the overlay of the document |
| DataPattern.RefusesExactly | tools/data_filtering_tools.go:298-409 | refused are exactly several branches, and otherwise an entry without a name |
| DataPattern.ShowsEveryField | tools/data_filtering_tools.go:460-492 | every field of every entry is shown, under its own name |
| DataPattern.OverlayIsStep | tools/data_filtering_tools.go:358-409 | a successful overlay is one edit of the one-of over three branches |
| DataPattern.TypeHistory | tools/data_filtering_tools.go:349-409 | every run keeps at most one branch, the last one chosen, and the container's unmodeled XML |
| DataPattern.ReportsOneBranch | tools/data_filtering_tools.go:438-492 | type and entries reported are of the same branch for every combination of branches present |
| DataPattern.ReportHistory | tools/data_filtering_tools.go:438-492 | after any run the detail shows the branch last chosen with the entries last supplied for it since it was switched to |
| DataPattern.SelectionReadsBack | tools/data_filtering_tools.go:438-492 | in the detail a selection reads back over whatever was stored, and a branch sent without entries keeps its own |
| Nat.RuleEntry.ApplyTranslations | tools/policy_tools.go:652-694 | the in-place translations compute the translations of the rule document |
| Nat.NatHistory | tools/policy_tools.go:628-771 | after a create and any updates: the interface or the whole address list of the last input that gave one; the last address, the last port and the last type ever given; no port without an address or out of range |
| Nat.OverlayAccepts | tools/policy_tools.go:652-684 | exactly which inputs are accepted, and what is wrong with the others |
| Nat.UpdateHistory | tools/policy_tools.go:628-694 | the same history for updates of any rule: what no input asked for, port and DNS rewrite included, is kept |
| Nat.DetailShowsSource | tools/policy_tools.go:810-839 | the detail shows the interface or the whole address list last given, and not the other, on any rule |
| Nat.DetailOfCreated | tools/policy_tools.go:810-839 | and of a rule these tools made, the address and port last given |
| Nat.DetailRebuilds | tools/policy_tools.go:810-839 | both translations can be rebuilt from the detail, and updating with it changes nothing |
| ScheduleFeatures.AntiVirusRecurring.Update | tools/device_dynamicupdates_tools.go:582-639 | the hand-written overlay agrees with the table on verdict and result |
| ScheduleFeatures.AppProfileRecurring.Update | tools/device_dynamicupdates_tools.go:641-690 | the same for application profiles |
| ScheduleFeatures.ThreatsRecurring.Update | tools/device_dynamicupdates_tools.go:692-762 | the same for threats |
| ScheduleFeatures.WildfireRecurring.Update | tools/device_dynamicupdates_tools.go:764-832 | the same for WildFire |
| ScheduleFeatures.WfPrivateRecurring.Update | tools/device_dynamicupdates_tools.go:834-898 | the same for WildFire private |
| ScheduleFeatures.GpDatafileRecurring.Update | tools/device_dynamicupdates_tools.go:900-955 | the same for GlobalProtect data files |
| ScheduleFeatures.GpClientlessRecurring.Update | tools/device_dynamicupdates_tools.go:957-1012 | the same for GlobalProtect clientless VPN |
| ScheduleFeatures.ThreatsRecurring.SummaryAgrees | tools/device_dynamicupdates_tools.go:1133-1151 | the hand-written summary agrees with the table's |
| ScheduleOverlay.UpdateSchedule.Overlay | tools/device_dynamicupdates_tools.go:545-580 | the seven parts and the toggles, first error first, compute the table overlay of the whole configuration |
| ScheduleOverlay.UpdateSchedule.Summarize | tools/device_dynamicupdates_tools.go:1034-1229 | the seven summaries are the table's |
| ScheduleTheorems.ApplyIsStep | tools/device_dynamicupdates_tools.go:507-543 | applying a plan is one edit of the cadence one-of |
| ScheduleTheorems.PlanHistory | tools/device_dynamicupdates_tools.go:545-1012 | one feature after any run of plans: one cadence, each field the last supplied since it was switched to, each recurring-level field the last ever supplied |
| ScheduleTheorems.TableFromSplits | tools/device_dynamicupdates_tools.go:545-580 | features are independent: the whole succeeds exactly when each part does, and edits each on its own |
| ScheduleTheorems.FirstErrorReported | tools/device_dynamicupdates_tools.go:545-580 | of several parts that fail the first one's error is reported |
| ScheduleTheorems.ScheduleHistory | tools/device_dynamicupdates_tools.go:545-1012 | the same history for every feature of a configuration after any run of successful updates |
| ScheduleTheorems.ToggleHistory | tools/device_dynamicupdates_tools.go:1014-1032 | after any run of successful updates every statistics toggle has the value last given to it |
| ScheduleWords.AcceptsExactly | tools/device_dynamicupdates_tools.go:310-449 | exactly which inputs pass validation, feature by feature, in the words and numbers of the tool |
| ScheduleWords.ProblemNamed | tools/device_dynamicupdates_tools.go:310-449 | a refused input is refused for its first problem, in the order the tool looks for them |
| ScheduleWords.VerdictInWords | tools/device_dynamicupdates_tools.go:507-543 | what an accepted input then meets: a fresh recurrence must bring its action, time and day, the first missing one is named, and a stored recurrence is never refused |
| ScheduleWords.ReportsOneCadence | tools/device_dynamicupdates_tools.go:1072-1229 | with several cadences present a get is about the first one in the order common to all features: its name and each of its fields |
| ScheduleWords.ReportsNoCadence | tools/device_dynamicupdates_tools.go:1072-1229 | without one it has an empty recurrence and the feature's own fields |
| ScheduleRoundTrip.UpdateStoresAndSpares | tools/device_dynamicupdates_tools.go:310-449 | every provided field is stored, in canonical form where it is a time, and unmentioned features are untouched |
| ScheduleRoundTrip.UpdateIdempotent | tools/device_dynamicupdates_tools.go:545-1012 | the same update twice is the update once |
| ScheduleRoundTrip.ReachableIsGood | tools/device_dynamicupdates_tools.go:507-540 | every reachable feature has one cadence; each but none and real-time has an action, each of those but every-min an in-range time, and weekly a day |
| ScheduleRoundTrip.FeatureRoundTrip | tools/device_dynamicupdates_tools.go:1072-1229 | one feature's summary, read as an input, is accepted and changes nothing |
| ScheduleRoundTrip.GetFeedsBack | tools/device_dynamicupdates_tools.go:1034-1229 | the whole get summary, fed back as an update, succeeds and changes nothing, unless nothing was ever configured |
| WallClock.AcceptsExactlyTimes | tools/device_dynamicupdates_tools.go:456-479 | accepted are exactly digits, colon, digits within 23 and 59, and the result denotes the same time |
| WallClock.CanonicalIsFixed | tools/device_dynamicupdates_tools.go:456-467 | parsing a result again returns it |
| Redact.RedactSecrets | tools/redact.go:53-71 | the loop computes the sequential replacement of the text before the marker, and the tail |
| Redact.ScrubGuarantee | tools/redact.go:53-71 | for exactly which secrets the output never contains them, whatever the message and the other secrets |
| Redact.PlainSecretScrubbed | tools/redact.go:53-71 | a secret without brackets that is no part of the placeholder or the tail is always gone |
| Redact.NothingToScrub | tools/redact.go:66-70 | a text that holds none of the secrets comes out as it is |
| Redact.OnlySecretReplaced | tools/redact.go:66-70 | where a secret occurs there is the placeholder instead, and the text around it is as it was |
| Redact.LeakThroughPlaceholder | tools/redact.go:66-70 | for any secret that overlaps the placeholder, a message and a list that leak it |
| Redact.LeakThroughTail | tools/redact.go:58-65 | for any secret that overlaps the collapse tail, a message that leaks it |
| Redact.CollapseHidesBody | tools/redact.go:53-71 | an armed collapse depends only on the text before the first marker |
| Redact.MarkerSurvives | tools/redact.go:90-102 | the marker is in the output exactly when it was in the message, even when a secret is the marker |
| RedactErrors.RedactWriteError | tools/redact.go:90-102 | no secret that any option of the call submitted is in the message returned, if it is of the guaranteed kind; only a response code may be put in front |
| RedactErrors.ReadScrubs | tools/redact.go:146-159 | the same for the secrets handed to the read sink |
| RedactErrors.RawBodyNeverLeaks | tools/redact.go:146-159 | two errors that differ only behind the marker cannot be told apart after either sink |
| RedactErrors.CodeExactlyOnCollapse | tools/redact.go:176-200 | the response code of the error at the root of the chain, unless it is 0, is added exactly when a body was discarded, and nothing else is |
| RedactErrors.NonSecretWriteVerbatim | tools/redact.go:90-102 | a family without secrets keeps the device's message |
| LogEntry.LogEntry.Add | tools/log_tools.go:133-141 | one add keeps the grouping of all adds so far |
| LogEntry.LogEntry.UnmarshalXML | tools/log_tools.go:145-174 | the decoded entry is the grouping of its attributes, children and their attributes in document order |
| LogEntry.GroupedMeans | tools/log_tools.go:105-141 | keys unique, in first-seen order, each with its values in the order added |
| LogEntry.SourceFromKey | tools/log_tools.go:105-108 | a key says whether it is an entry attribute, an element or an element's attribute, so they never collide |
| LogEntry.ElementValues | tools/log_tools.go:155-169 | under an element's name are the values of exactly those elements |
| LogEntry.EntryAttrValues | tools/log_tools.go:145-154 | under an entry attribute's key are the values of exactly that attribute |
| LogEntry.ElementAttrValues | tools/log_tools.go:155-174 | under an element attribute's key are the values of exactly that attribute of those elements, in document order |
| LogEntry.KeysInDocumentOrder | tools/log_tools.go:145-174 | fields appear in the order in which the document first has them |
| LogFields.ProjectLogFields | tools/log_tools.go:211-225 | the loop keeps the fields to keep and records exactly the wanted names among the keys |
| LogFields.ProjectedMembers | tools/log_tools.go:211-225 | which fields survive the projection |
| LogFields.ProjectedConcat | tools/log_tools.go:211-225 | the projection keeps order and treats each stretch of an entry by itself |
| LogFields.ProjectedIdempotent | tools/log_tools.go:211-225 | projecting twice is projecting once |
| LogFields.KeepBySource | tools/log_tools.go:206-215 | entry attributes always, elements when wanted, their attributes when they or the element are wanted |
| LogFields.EncodeLogEntry | tools/log_tools.go:178-204 | the buffer loop writes the members in order, separated by commas |
| LogFields.EntryRoundTrip | tools/log_tools.go:176-204 | an encoded entry parses to exactly its fields: keys, values and both orders |
| Json.CharReadsBack | tools/log_tools.go:185-194 | an escaped character parses to itself and takes exactly its escape |
| Json.EscapedIsHarmless | tools/log_tools.go:185-194 | an escaped text has no control character and none of the characters HTML or JavaScript would trip over |
| Json.ItemsReadBack | tools/log_tools.go:190-194 | an array of strings parses to those strings |
| Paging.FitIsGreedy | tools/log_tools.go:331-358 | a page of several entries fits 256 KiB and no longer page would |
| Paging.WidthIsLeast | tools/log_tools.go:331-358 | the budget counts bytes: a character takes the fewest bytes of UTF-8 that can carry it |
| Paging.SizeIsLength | tools/log_tools.go:331-358 | the size compared with the budget is the length in bytes of the texts together |
| Paging.PageSays | tools/log_tools.go:361-400 | a page is marked cut exactly when it is, and next_skip is given exactly when it is cut or full |
| Paging.UnmatchedExact | tools/log_tools.go:388-398 | unmatched_fields is exactly the requested names no device entry has, cut entries included |
| Paging.UnmatchedOrdered | tools/log_tools.go:388-398 | in request order, without repetition |
| Paging.PagingLosesNothing | tools/log_tools.go:379-381 | following next_skip ends, and the pages are every entry from the start, once each, in order |
| LogPage.EncodeLogEntries | tools/log_tools.go:335-358 | the loop computes the greedy cut and projects every entry, cut or not |
| LogPage.LogPage | tools/log_tools.go:361-400 | the response is the page there should be for the device's entries |
| LogPage.UnmatchedInResponse | tools/log_tools.go:388-398 | in terms of the log: the unmatched names are those asked for that no entry of the device has |
| LogPage.ShowsWhatIsAsked | tools/log_tools.go:206-225 | which fields of an entry are shown: all if no names were given, otherwise those the names ask for |
| LogPage.ResponsesFollow | tools/log_tools.go:361-446 | the entries of the responses, followed by their next_skip, are what following the texts of the log brings |
| LogPage.PagesReadBack | tools/log_tools.go:361-446 | end to end: the collected responses hold one object per log entry, in order, and each parses to the wanted fields of its entry |
| LogJob.WaitLogJob | tools/log_tools.go:233-262 | how and when every wait ends: with the first answer that is not pending, when it comes, if it comes in time, and otherwise with the context |
| LogJob.AnswerEndsWait | tools/log_tools.go:240-252 | an answer in time that is not pending is what the wait ends with; no other end is possible |
| LogJob.RunLogJob | tools/log_tools.go:267-302 | the requests sent, and the drop exactly for a nonzero job whose wait failed with the context done |
| LogJob.QueryUnderJobWait | tools/log_tools.go:233-302 | a query under any accepted PANOS_JOB_WAIT: one submit, at most budget/interval + 1 polls and never over 43201, the drop once and exactly when due; the first answer that is not pending is reported if it comes in time, a finished job's body included, and the end of the context only if an answer or a timer really came after it |
| JobWait.JobWaitFits | config.go:159-166 | an accepted budget fits int64 and says what the variable says; the interval is two seconds, or half the budget if that is less |
| JobWait.SecondsExact | config.go:20-26 | the conversion is exact up to 9223372036 seconds and wraps for every larger number, to a negative duration just past it |
| JobWait.JobWaitExactly | config.go:159-166 | what every value of the variable means, white space, blank, junk and numbers out of range included |
| JobWait.JobWaitAccepts | config.go:159-166 | a number is accepted as written from 1 to 86400 and refused otherwise, blank means 120 seconds |
| Decimal.AtoiItoa | config.go:245-255 | a rendered int64 parses to itself |
| Decimal.AtoiExactly | config.go:245-255 | which texts are numbers, and which number |
| Decimal.ItoaCanonical | config.go:245-255 | a rendered number has a sign only if it is negative and no zero in front |
| Decimal.TrimSpaceMeans | config.go:245-255 | trimming takes white space off both ends, all of it and nothing else |
| OpParsers.InnerHasRecognizedShape | tools/op_tools.go:89-111 | the loop with its depth counter computes the scan of the token stream |
| OpParsers.RecognizedShapeIsRootNamed | tools/op_tools.go:89-111 | on a well-formed forest the scan is true exactly when a root element has one of the names |
| OpParsers.ScanFindsRoots | tools/op_tools.go:89-111 | on a stream cut short, exactly when such a root starts before the cut |
| OpParsers.JoinInterfaces | tools/op_tools.go:288-323 | the merge over shared records computes the declarative join |
| OpParsers.JoinMeans | tools/op_tools.go:288-323 | one record per name, in the order of first appearance, hardware before layer 3, each with the fields of the last entries of its name |
| OpParsers.FilterInterfaceByName | tools/op_tools.go:325-333 | the loop computes the records of that name, in order |
| OpParsers.FilteredJoin | tools/op_tools.go:325-333 | the name filter finds the joined record of that name, once, or nothing |
| OpParsers.InterfaceStatus | tools/op_tools.go:336-365 | scan, join and filter together: raw content exactly when nothing was parsed from content with neither container, otherwise the joined records, or the one asked for |

## Left out

- pango, HTTP and TLS transport, MCP registration, stdio and HTTP serving, tool descriptions: I/O and library code.
- MoveGroup internals: taken as one listing of the rulebase and at most one move, which needs a pivot that exists and is another rule; a move directly takes the requested place.
- pango's requests: a create is a set and then a read back, an update reads the entry again, edits it unless nothing changed and reads it back, a delete is one request; pango itself is not in the repository, and this is what its comments and tests say of it. Whether anything changed is taken as equality of the two zones.
- Handlers.RuleCreateEffect: what a device makes of a set over an existing rule is not in the source; the model replaces the rule in place.
- Handlers.ZoneCreateEffect: likewise a create over an existing zone is modeled as replacing the whole zone; a device that merges the two is not covered, by this or by ProtocolTheorems.AlwaysSound, which for such a create rests on it.
- LogEntry.LogEntry.UnmarshalXML: XML decoding is modeled by what it yields, a list of children and whether the stream breaks after them.
- Other writers to the same device, and a commit that outlives its wait: the lock does not cover them, and nothing is claimed about them. Commit, push, validate and revert handlers are not modeled.
- Logs that grow while being paged: PagingLosesNothing is about a fixed log.
- List filters, limits and offsets: a list is the names or rules it is given.
- Locations: whether a location resolves is one boolean of a call; the resolvers are finite tables.
- checkNoRename: an overlay here never renames, so its error branch is not reached from these handlers.
- validateLogQuery's enumerations and the trimming of field names, rawResultFallback's message and logJobError's wording.
- encoding/json and encoding/xml: json.Marshal is modeled by its documented escapes on valid Unicode text; XML decoding by what it yields, a list of children and whether the stream breaks; numbers, literals and surrogates left alone are not part of the parser.
- Error texts: errors are constructors that name the condition, not the message.
- Statistics toggles of the update schedule: one map merge stands for its fields.
- The wrapper struct around a feature's recurring container is merged with it into one nullable reference, and branch nodes are values: sharing of one node between two owners is not modeled.
- The device code is prefixed after redaction, so a secret that is part of that prefix is outside ScrubGuarantee.
- The select of the poll loop: which ready case it takes, how late timers fire and how long requests take are parameters of LogJob; the detached context of the drop request is not modeled.
- Flat overlays (lockout, multi-factor, single sign-on, the match lists of a NAT rule, tags, interfaces): one assignment per field.
