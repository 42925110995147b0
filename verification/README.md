# Verified models of the Okto Grafx instruments

Okto Grafx measures and certifies its graph database with a set of instruments: a multi-client
matrix with a serial oracle, a section phase probe with an independent validator, a bounded retry
loop with an independent evidence checker, a fixture schema inference, a battery mutex, a two-slot
publication experiment, a commanded-checkpoint channel with a log-inventory fold, a versioned
conformance ledger, a partial evaluator of query helpers and a ground-truth oracle for recall. A
verdict of these instruments is worth what their own algorithms are worth. This project models those
algorithms in Dafny and proves what they rest on. `dafny verify dfyconfig.toml` checks everything.

## The modules

- `SerialOracle`, `WriterLedger` -- committed operations as updates of rows and an edge multiset. Any
  commit order of writers that touch only rows they created equals the replay of their logs in slot
  order, and the ledgers the writers keep while running, merged over slots, are the final database.
- `Pacing` -- the staggered slots of paced writers, over real time: when a pass may begin, how many
  transactions all writers together can begin, and what a nonzero warmup does to the two criteria.
- `PhaseProbe`, `Intervals`, `ProbeCapture`, `ProbeInstall` -- the probe as a stack machine, its
  interval arithmetic over integer nanoseconds, its snapshot, the validator that recomputes the
  snapshot, and the patching and restoring of methods.
- `Retry` -- exception chains, the retry loop, and the two checkers of what it reports.
- `TableDomains` -- the arc-consistency loop over table domains and the endpoint-pair correlation.
- `BatteryLock` -- the lock file as a step system of processes that may crash anywhere.
- `TwoSlot` -- positional writes the device may cut short, alternating slots, and markers.
- `CheckpointChannel`, `WalInventory` -- the token protocol between parent, writer and observer, and
  the classification of log segments that disappear between two inventories.
- `LedgerSuccession` -- freezing a reviewed profile, expanding it twice, and verifying any version.
- `PartialEvaluator` -- the evaluator that answers "unknown" where it does not know.
- `GroundTruth` -- top-k membership with ties, recall, overlap and the differential of two oracles.
- `Sorting`, `Basics` -- the stable-order insertion sort, optional values and two small facts the
  others share.

Objects the instruments update in place are classes (`Writer`, `Pacer`, the two `Probe`s, `Bindings`),
loops are methods with invariants, and each is proved against a function about which the properties
below are stated. Protocols are step relations, and their theorems range over every run.

## Where a promise does not hold as stated

Each of these has a lemma with a concrete input and, where the promise can be rescued by a condition
a caller can check, a lemma that states exactly that condition.

- A snapshot is accepted by the validator exactly when a commit root was recorded and every recorded
  root has a positive duration and the shape the validator lists
  (`ProbeCapture.InstrumentedRunAcceptedIff`). A root of zero duration is refused although the probe
  recorded it properly (`ProbeCapture.InstantRootIsRefused`): the two sides treat it differently.
- The retry checker recognises classes by name, the loop by `isinstance`. What the loop emits is
  accepted exactly when the names in the chain corroborate the class (`Retry.EvidenceAcceptedIff`,
  `Retry.RenamedSubclassIsRefused`).
- A stamp reads back as its writer's pid exactly when no later line of the component's text takes it
  over (`BatteryLock.StampReadsBackIff`, `BatteryLock.ComponentTakesPidOver`). Mutual exclusion holds
  exactly for the texts whose stamp reads back as its writer or as no process at all
  (`BatteryLock.ExclusionIff`); with a text that names an absent process two processes get in even
  under atomic breaking (`BatteryLock.PidLineLetsTwoIn`).
- Mutual exclusion needs reading the stamp, checking liveness and unlinking to be one step
  (`BatteryLock.TwoBreakersBothHold` is the run in which two breakers both hold the lock).
- A slot whose publication was cut short can read as a complete publication that was neither being
  written nor being replaced. For publication n this never happens exactly when n is 0, or n is 1 and
  the payload is at least two bytes longer than its marker, or n is at least 2 and the payload is
  longer than its marker or n modulo 256 is at least 2 (`TwoSlot.NeverMisreadIff`). The inputs are the
  untouched second slot, which reads as publication 0 (`TwoSlot.UntouchedSlotMisreads`), and a bare
  marker that has just passed a multiple of 256 (`TwoSlot.BareMarkerMisreads`); the command line admits
  both sizes. Over a whole run the condition is one publication only, or a payload at least two bytes
  longer than its marker (`TwoSlot.RunNeverMisreadIff`).
- A slot left as an arbitrary mixture of old and new bytes is never misread under the same conditions,
  except that from n = 2 on a body only helps while n modulo 2^32 is neither 0 nor 1
  (`TwoSlot.MixtureNeverMisreadIff`, `TwoSlot.MixtureMisreads`). Over a whole run: one publication only,
  or a payload at least two bytes longer than its marker and at most 2^32 publications
  (`TwoSlot.RunMixturesNeverMisreadIff`).
- The upper side of the rate criterion and the window criterion are safe for every paced run the
  command line accepts exactly when there is no warmup (`Pacing.CriteriaSafeIff`). A single run is safe
  on the upper side when the warmup's share of the rate, plus one, is at most the number of writers
  (`Pacing.ShortWarmupNotExceeded`).
- A frozen ledger is accepted exactly when the fixtures' texts have the hashes the report claims,
  which freezing itself does not look at (`LedgerSuccession.FrozenIsAcceptedIff`).
- More knowledge never changes a definite answer of the evaluator, but it can make a helper raise
  (`PartialEvaluator.KnowledgeCanRaise`). Without helper calls the answer simply stands, and so does a
  call of a helper in which nothing that is assigned can raise (`PartialEvaluator.SteadyCallStands`).

One condition is met by everything the instruments ship: uninstalling the probe restores the method
table exactly when every target is an attribute of its own class (`ProbeInstall.UninstallRestoresIff`).
All shipped targets (tools/measure_m7_ce3.py:75-124) are methods of classes without bases, for which
this always holds (`ProbeInstall.BaselessTargetsAreRestored`). What a list with an inherited target
would leave behind is shown on a hypothetical list (`ProbeInstall.InheritedMethodStaysMeasured`).

## Model

| member | source | states |
|---|---|---|
| SerialOracle.Replay | tools/measure_multiclient_matrix.py:781-810 | The replay loop computes the state after all operations, or stops at the first refused one, with everything before it applied |
| SerialOracle.InsertRowsExact | tools/measure_multiclient_matrix.py:785-791 | Creating the rows of one transaction one by one succeeds exactly on distinct ids the table does not hold, and then adds exactly those rows |
| SerialOracle.ApplyChangesOnlyFootprint | tools/measure_multiclient_matrix.py:785-808 | A committed operation changes no row outside the rows it names and adds exactly the edge it found both ends of |
| SerialOracle.ApplyReadsOnlyFootprint | tools/measure_multiclient_matrix.py:785-808 | Whether an operation commits and what it leaves on its rows depends on those rows only |
| SerialOracle.Commute | tools/measure_multiclient_matrix.py:1714-1719 | Operations on different rows commute, refusals included |
| SerialOracle.Postpone | tools/measure_multiclient_matrix.py:1714-1722 | One writer's whole log can be moved behind everybody else's without changing the state |
| SerialOracle.SlotOrderReplays | tools/measure_multiclient_matrix.py:1714-1722 | Every commit order of writers with separate rows gives the state of the logs concatenated in slot order |
| SerialOracle.RowsStay | tools/measure_multiclient_matrix.py:683-687 | A committed run holds the starting rows and exactly the created ones, which were all new |
| SerialOracle.CreatedOnce | tools/measure_multiclient_matrix.py:683-687 | The primary key lets no two committed operations create the same row |
| SerialOracle.CommittedWritersAreApart | tools/measure_multiclient_matrix.py:1714-1717 | Writers that touch only rows they created and all committed have disjoint rows |
| SerialOracle.SlotOrderIsASerialisation | tools/measure_multiclient_matrix.py:1714-1722 | The slot-order concatenation is a valid serialisation of every commit order, with no assumption on key ranges |
| WriterLedger.Writer.constructor | tools/measure_multiclient_matrix.py:285-296 | The ledgers start empty and consistent with the empty log |
| WriterLedger.Writer.Create | tools/measure_multiclient_matrix.py:308-325 | A committed create_node keeps ledgers and log in step and the ids increasing inside the slot's range |
| WriterLedger.Writer.Link | tools/measure_multiclient_matrix.py:326-341 | A committed create_edge joins the two newest rows and keeps ledgers and log in step |
| WriterLedger.Writer.Update | tools/measure_multiclient_matrix.py:343-357 | A committed update_node writes slot * 1000 + round to the newest row and keeps ledgers and log in step |
| WriterLedger.Writer.Supersede | tools/measure_multiclient_matrix.py:358-374 | A committed mark_superseded names the oldest row, once in the ledger, and keeps ledgers and log in step |
| WriterLedger.Writer.RunRound | tools/measure_multiclient_matrix.py:307-375 | One pass of the loop, whichever transactions commit and whenever the window closes, keeps ledgers, log and id range consistent, and leaves the ids, log and round number of that round |
| WriterLedger.Writer.Work | tools/measure_multiclient_matrix.py:307-375 | The whole writer loop keeps them consistent over any sequence of round outcomes, and its ids and log are those of the rounds one after the other |
| WriterLedger.SlotRangesApartIff | tools/measure_multiclient_matrix.py:140-144 | Two writers' id ranges stay apart exactly while the lower slot has not counted through to the higher; a million ids each are always safe |
| WriterLedger.RangedWritersReplay | tools/measure_multiclient_matrix.py:1714-1722 | Writers of increasing slots, each inside its own million, replay in slot order even when operations were refused on the way |
| WriterLedger.LedgerPredicts | tools/measure_multiclient_matrix.py:285-374 | One writer's ledger is exactly what its committed log added: rows with owner, body and live flag, and edges with multiplicity |
| WriterLedger.RecordTracks | tools/measure_multiclient_matrix.py:319-374 | Recording one committed operation in the ledger tracks applying it to the database |
| WriterLedger.MergeReports | tools/measure_multiclient_matrix.py:1737-1746 | The merge loop computes the expectation folded over the reports |
| WriterLedger.SerialRunMeetsExpectation | tools/measure_multiclient_matrix.py:1720-1746 | The serial replay from the seeded database ends exactly in the merged expectation |
| WriterLedger.LedgersPredictDatabase | tools/measure_multiclient_matrix.py:1737-1746 | After any commit order the database is exactly the merged expectation: ids, owners, bodies, live flags, edge multiset |
| WriterLedger.CriteriaAreExact | tools/measure_multiclient_matrix.py:1355-1390 | The six criteria pass exactly when the scan lists each expected row once with its values and the expected edges with multiplicity |
| WriterLedger.HonestRunPasses | tools/measure_multiclient_matrix.py:1141-1146 | A faithful scan after any commit order passes every criterion, and the serial replay answers with the same database |
| WriterLedger.WritersPredictDatabase | tools/measure_multiclient_matrix.py:1714-1746 | For any writers in a state their loop can reach: after any commit order of their logs the database is exactly the merge of the ledgers they report, and the slot-order replay agrees |
| WriterLedger.WritersReplay | tools/measure_multiclient_matrix.py:1714-1722 | For such writers with increasing slots that counted no further than a million ids, the slot-order replay agrees from any database, refusals included |
| Pacing.PerWriterRate | tools/measure_multiclient_matrix.py:1490-1501 | The writers' rates add up to the labelled rate; without writers the rate is zero |
| Pacing.Pacer.constructor | tools/measure_multiclient_matrix.py:177-180 | The first slot is the writer's staggered offset |
| Pacing.Pacer.Gate | tools/measure_multiclient_matrix.py:206-220 | A pass begins only in its slot and inside the window; the next slot is a period later and never in the past |
| Pacing.SlotsAdvance | tools/measure_multiclient_matrix.py:206-220 | Slot k is at least k periods after the first |
| Pacing.PassNotEarly | tools/measure_multiclient_matrix.py:206-220 | Pass k of a writer begins at least k periods after its first slot |
| Pacing.PassStartsOnTurn | tools/measure_multiclient_matrix.py:1627-1629 | Pass k of slot s of N writers begins no earlier than turn s + k*N of the aggregate rate |
| Pacing.AggregateRateIsBounded | tools/measure_multiclient_matrix.py:206-220 | All writers together begin at most ceil(rate * T) transactions in the first T seconds |
| Pacing.LabelledRateNotExceeded | tools/measure_multiclient_matrix.py:1180-1195 | Without warmup the upper side of the delivered-rate criterion cannot fail |
| Pacing.ShortWarmupNotExceeded | tools/measure_multiclient_matrix.py:1180-1195 | With a warmup it cannot fail either while rate * warmup + 1 is at most the number of writers |
| Pacing.OnlyLastPassLandsOutside | tools/measure_multiclient_matrix.py:226-239 | Without warmup a commit that lands outside the window is the writer's last |
| Pacing.OutsideCommitsBounded | tools/measure_multiclient_matrix.py:1238-1246 | Without warmup at most one commit per writer lands outside |
| Pacing.WarmupCanOverDeliver | tools/measure_multiclient_matrix.py:1180-1195 | For every rate there is a warmup inside the window with which a properly paced run exceeds the labelled rate beyond the slack |
| Pacing.WarmupCommitsCountAsOutside | tools/measure_multiclient_matrix.py:1238-1246 | For every rate there is a warmup inside the window with which a properly paced run has more outside commits than writers |
| Pacing.CriteriaSafeIff | tools/measure_multiclient_matrix.py:1180-1246 | Over all paced runs whose warmup ends before the window, as the command line demands, both criteria always hold exactly when the warmup is zero |
| PhaseProbe.Probe.constructor | tools/measure_m7_ce3.py:220-226 | A probe starts with nothing open and nothing recorded |
| PhaseProbe.Probe.Enter | tools/measure_m7_ce3.py:256-347 | Entering a root, phase or context wrapper takes the step the stack discipline allows |
| PhaseProbe.Probe.Exit | tools/measure_m7_ce3.py:270-392 | Leaving the innermost wrapper records its event under the section it was attributed to, raising or not |
| PhaseProbe.Probe.Reset | tools/measure_m7_ce3.py:394-399 | Reset refuses inside an open section and otherwise drops the events only |
| PhaseProbe.StepKeeps | tools/measure_m7_ce3.py:248-392 | Every step keeps times, stack, section numbers and the anchoring of events in their sections |
| PhaseProbe.RunKeepsInvariant | tools/measure_m7_ce3.py:248-392 | Every well-nested run on a monotone clock keeps them |
| PhaseProbe.RunRecords | tools/measure_m7_ce3.py:248-392 | After every finished run each event lies inside the one recorded root of its section, and no section has two roots |
| Intervals.Merge | tools/measure_m7_ce3.py:490-514 | The merge loop returns sorted, strictly separated intervals inside the bounds covering exactly the clipped instants |
| Intervals.MergedExact | tools/measure_m7_ce3.py:490-514 | The same of the specification, for all inputs |
| Intervals.SeparatedIsCanonical | tools/measure_m7_ce3.py:501-514 | Separated intervals are a canonical form: equal coverage means equal intervals |
| Intervals.UnionCounts | tools/measure_m7_ce3.py:517-525 | The union length is the number of covered integer instants |
| Intervals.ResidualExact | tools/measure_m7_ce3.py:433-439 | Covered plus residual is the duration, and neither is negative |
| Intervals.WindowedUnionCounts | tools/measure_m7_ce3.py:528-535 | Over separated windows the windowed union counts each instant of the intersection once |
| Intervals.WindowedResidualExact | tools/measure_m7_ce3.py:457-467 | Over merged windows the coverage never exceeds the windows' duration |
| ProbeCapture.CollectSections | tools/measure_m7_ce3.py:422-480 | The section loop builds one measured section per recorded root |
| ProbeCapture.Snapshot | tools/measure_m7_ce3.py:401-487 | The snapshot method computes the specified capture: sorted events, totals, sections |
| ProbeCapture.CheckEvents | tools/measure_m7_ce3.py:2266-2303 | The event loop accepts exactly valid events with one root per section, and rebuilds roots and totals |
| ProbeCapture.CheckKeys | tools/measure_m7_ce3.py:2337-2363 | The key loop accepts exactly sections with pairwise different keys |
| ProbeCapture.CheckSections | tools/measure_m7_ce3.py:2338-2477 | The section loop accepts exactly the sections that reconcile with the recorded events |
| ProbeCapture.Validate | tools/measure_m7_ce3.py:2233-2477 | The validator's loops decide exactly the specified validity |
| ProbeCapture.MeasureIsValid | tools/measure_m7_ce3.py:438-452 | Coverage, residual and ratio of a section pass the validator; the verdict agrees exactly for positive durations |
| ProbeCapture.ContextRulesAgree | tools/measure_m7_ce3.py:2392-2439 | The validator's walk over sorted contexts accepts exactly the shape it lists |
| ProbeCapture.SectionAcceptedIff | tools/measure_m7_ce3.py:2338-2476 | The snapshot's section of a recorded root is accepted exactly when the root has positive duration and the listed shape |
| ProbeCapture.SnapshotAcceptedIff | tools/measure_m7_ce3.py:401-487 | The snapshot of any properly recorded events is accepted exactly when a commit root was recorded and every root is sound |
| ProbeCapture.InstrumentedRunAcceptedIff | tools/measure_m7_ce3.py:2233-2477 | The same of every finished, well-nested, single-threaded run of the probe itself |
| ProbeCapture.InstantRootIsRefused | tools/measure_m7_ce3.py:2352-2362 | A commit root of zero duration is properly recorded and its snapshot refused |
| ProbeInstall.Probe.Uninstall | tools/measure_m7_ce3.py:537-542 | Uninstalling undoes the saved originals in reverse and forgets them |
| ProbeInstall.Probe.Install | tools/measure_m7_ce3.py:231-246 | Installation fails exactly when some target is broken or cannot be resolved, at the first such target, and then undoes exactly the prefix before it; otherwise every target is patched; a second installation is refused |
| ProbeInstall.FailureIsForeseeable | tools/measure_m7_ce3.py:231-246 | When bases are inherited transitively, that target is the first that is broken or does not resolve in the table as it was before the installation: patching neither adds nor removes a resolution |
| ProbeInstall.OwnTargetsAreRestored | tools/measure_m7_ce3.py:231-246 | For any target list with repeats and any prefix, own attributes are restored exactly |
| ProbeInstall.UninstallRestoresIff | tools/measure_m7_ce3.py:537-542 | The table is restored exactly when every patched target was an own attribute |
| ProbeInstall.BaselessTargetsAreRestored | tools/measure_m7_ce3.py:75-124 | For targets in classes without bases, as all shipped ones are, every complete or failed installation is undone exactly |
| ProbeInstall.InheritedMethodStaysMeasured | tools/measure_m7_ce3.py:231-246 | Hypothetical, the shipped list has no such target: an inherited target patched after its base would keep calling the measuring wrapper after uninstall |
| Retry.Causes | tools/measure_m7_ce3.py:1043-1051 | The traversal ends on every cause graph, cyclic ones included, with the specified chain |
| Retry.ChainIsComplete | tools/measure_m7_ce3.py:1043-1051 | The chain starts at the failure, follows cause or context, repeats nothing and stops only at the end or at something seen |
| Retry.EvidenceAcceptedIff | tools/measure_m7_ce3.py:2033-2104 | A classified refusal's evidence is accepted exactly when the class names in the chain corroborate it |
| Retry.HonestNamesCorroborate | tools/measure_m7_ce3.py:1082-1133 | When names are the classes' own, every classified refusal is corroborated |
| Retry.RenamedSubclassIsRefused | tools/measure_m7_ce3.py:1082-1133 | A renamed subclass is retried by the loop and refused by the checker |
| Retry.ExecuteWithRetry | tools/measure_m7_ce3.py:1165-1237 | It makes exactly the attempts up to the first that is not a classified refusal, that a stop event ends, or that is the sixtieth; it reports truly which of these it was, with every refusal before it logged in order |
| Retry.RecordAcceptedIff | tools/measure_m7_ce3.py:2004-2105 | A record of the loop is consistent exactly when each of its refusals is corroborated |
| Retry.RunProcessA | tools/measure_m7_ce3.py:1297-1348 | Over all attempt outcomes: process A reports exactly when every operation commits, and its aggregates are accepted exactly when the names corroborate every refusal made |
| Retry.RunProcessB | tools/measure_m7_ce3.py:1507-1558 | Over all attempt outcomes and stop timings: process B reports exactly when all commit or the window closes on the first that does not, and its aggregates, the trailing interrupted operation included, are accepted exactly when the names corroborate every refusal made |
| TableDomains.CutArcs | tools/tck_fixtures.py:76-80 | One pass over the edges only shrinks domains, loses no consistent family, and changes nothing exactly at arc consistency |
| TableDomains.ShareAt | tools/tck_fixtures.py:83-86 | Intersecting one node with its variable's other occurrences loses no consistent family, and changes nothing exactly when its domain lies within theirs |
| TableDomains.ShareVariables | tools/tck_fixtures.py:82-86 | One pass over the variables loses no consistent family, and changes nothing exactly when occurrences agree |
| TableDomains.SmallerFamily | tools/tck_fixtures.py:73-87 | A round that changes anything strictly decreases the total domain size, so the loop ends |
| TableDomains.Refine | tools/tck_fixtures.py:73-87 | The loop ends in the greatest family below the start that is arc-consistent and equal on repeated variables |
| TableDomains.MatchIsConsistent | tools/tck_fixtures.py:43-68 | Every table assignment the pattern can match is a consistent family below the initial domains |
| TableDomains.CorrelateKeepsMirror | tools/tck_fixtures.py:97-100 | Recording an edge's pairs keeps pairs[r,l] the mirror of pairs[l,r] |
| TableDomains.Bindings.constructor | tools/tck_fixtures.py:174-174 | A statement starts with nothing bound |
| TableDomains.Bindings.RecordPairs | tools/tck_fixtures.py:91-100 | The recording loop keeps the mirror; afterwards a key is recorded exactly when it was or some edge joins its two variables, with exactly the pairs that its old entry and every such edge, in either direction, admit between the final domains |
| TableDomains.Bindings.MatchPath | tools/tck_fixtures.py:41-100 | A path is admitted exactly under the listed conditions; then no matching assignment the bindings allowed is lost, the aliases are the greatest consistent domains, and the pairs are the old ones intersected with what the edges connect between those domains |
| TableDomains.Bindings.MatchClause | tools/tck_fixtures.py:39-100 | A clause takes its paths in order up to the first that is not admitted; every edge between two variables of a path taken has their key recorded with only pairs it can connect, and so it stays for every path of an earlier clause |
| TableDomains.RecordedIsConnectable | tools/tck_fixtures.py:91-100 | After a path was recorded, each of its edges between two variables has their key, in both directions, with only pairs the edge can connect |
| TableDomains.ConnectableStays | tools/tck_fixtures.py:91-100 | Recording later paths only takes pairs away, so what an earlier path established stays |
| TableDomains.WritesKeepCorrelation | tools/tck_fixtures.py:210-223 | A written edge admits the pair of every allowed assignment and, when correlated, nothing outside the recorded pairs |
| TableDomains.CorrelatedWriteIsConnected | tools/tck_fixtures.py:210-223 | A write between two variables that an edge of a MATCH joins, in either direction, adds only pairs that edge can connect, never the product of the two domains |
| BatteryLock.Holder | tools/battery_lock.py:81-99 | The scanning loop reads the specified pid and component; an unreadable or unparseable stamp reads as -1 |
| BatteryLock.StampReadsBackIff | tools/battery_lock.py:81-99 | What a written stamp reads back as, from the component text alone; it is the writer exactly when no later line takes the pid over |
| BatteryLock.ComponentTakesPidOver | tools/battery_lock.py:88-94 | A component text with a further pid line makes the stamp name another process |
| BatteryLock.InvariantKept | tools/battery_lock.py:102-133 | Every step of acquire, release or crash keeps the lock invariant, whatever the component texts say |
| BatteryLock.AtMostOneInside | tools/battery_lock.py:102-133 | In every run with atomic stale breaking whose component texts name nobody else, at most one live process is between acquire and release |
| BatteryLock.TakeoverLetsTwoIn | tools/battery_lock.py:104-126 | For every text whose stamp reads back as another absent process there is a run, breaking atomically, with two processes inside |
| BatteryLock.PidLineLetsTwoIn | tools/battery_lock.py:88-94 | That run for the component text with the line pid=8 written by process 7 |
| BatteryLock.ExclusionIff | tools/battery_lock.py:102-133 | Runs with a given set of component texts are mutually exclusive exactly when each text leaves the stamp with its writer or with no process |
| BatteryLock.RemovalIsJustified | tools/battery_lock.py:110-133 | In every run, whatever the texts, a lock is only ever removed by the process its stamp names or when its stamp names a dead process; never when unparseable |
| BatteryLock.CrashBeforeStampWedges | tools/battery_lock.py:109-124 | After a crash between create and stamp the lock stays in every later state of the run, and nobody who was not already inside ever gets in |
| BatteryLock.TwoBreakersBothHold | tools/battery_lock.py:110-115 | The step-by-step run in which two breakers without atomicity both hold the lock |
| TwoSlot.WriteAt | tools/measure_control_publication.py:139-155 | It fails exactly when some write with bytes left to put out makes no progress, at that write; on return exactly the payload's bytes were replaced; state i on the way is the payload cut where i writes leave it, each of which put something out, and the last state is the file |
| TwoSlot.PublishOne | tools/measure_control_publication.py:189-208 | One publication fails exactly when its writes stall, and otherwise moves the file from n to n + 1 publications; its images are one per write, from the old file to the new, all reachable |
| TwoSlot.Publish | tools/measure_control_publication.py:189-208 | The loop fails exactly when some publication stalls or its number does not fit the marker, at the first such one; otherwise both slots are as last published; the images lead from the zeroed file to the final one, each one accepted write or one new publication after the last, all reachable |
| TwoSlot.OtherSlotSurvives | tools/measure_control_publication.py:189-208 | At every intermediate byte state of publication n >= 1 the other slot holds publication n - 1 complete |
| TwoSlot.OtherSlotSurvivesCrash | tools/measure_control_publication.py:189-208 | So does any mixture of synced and in-flight bytes a crash leaves |
| TwoSlot.MarkerRoundTrip | tools/measure_control_publication.py:65-69 | The little-endian marker reads back as its number |
| TwoSlot.CompleteIsIdentified | tools/measure_control_publication.py:65-69 | A complete slot names its publication |
| TwoSlot.TornSlotNotMisread | tools/measure_control_publication.py:65-69 | A slot cut anywhere never reads as a third publication when n is 0, or n is 1 and the body has two bytes or more, or n is at least 2 and there is a body or n modulo 256 is at least 2 |
| TwoSlot.BareMarkerMisreads | tools/measure_control_publication.py:345-348 | A bare marker n that has just passed a multiple of 256, cut after one byte over n - 2, reads as publication n - 256, complete |
| TwoSlot.UntouchedSlotMisreads | tools/measure_control_publication.py:345-348 | With at most one byte of body the untouched second slot reads as publication 0, complete |
| TwoSlot.NeverMisreadIff | tools/measure_control_publication.py:65-69 | For every publication number the marker can hold and every size: no cut is misread exactly when n is 0, or n is 1 and the body has two bytes or more, or n is at least 2 and there is a body or n modulo 256 is at least 2 |
| TwoSlot.RunNeverMisreadIff | tools/measure_control_publication.py:189-208 | Over a run of any length: no cut of any publication is misread exactly when there is at most one or the payload is at least two bytes longer than its marker |
| TwoSlot.MixtureNotMisread | tools/measure_control_publication.py:65-69 | No byte mixture of publication n and what its slot held before, zeros included, reads as a third one when n is 0, or n is 1 and the body has two bytes or more, or n is at least 2 and its remainder modulo 2^32, or modulo 256 without a body, is at least 2 |
| TwoSlot.MixtureMisreads | tools/measure_control_publication.py:65-69 | With a body, for every n that has just passed a multiple of 2^32, a mixture that reads as a third publication, complete |
| TwoSlot.MixtureNeverMisreadIff | tools/measure_control_publication.py:65-69 | For every publication number the marker can hold and every size: no mixture is misread exactly when n is 0, or n is 1 and the body has two bytes or more, or n is at least 2 and its remainder modulo 2^32, or modulo 256 without a body, is at least 2 |
| TwoSlot.RunMixturesNeverMisreadIff | tools/measure_control_publication.py:189-208 | Over a run of any length: no mixture is misread exactly when there is at most one publication, or the payload is at least two bytes longer than its marker and there are at most 2^32 |
| CheckpointChannel.InvariantKept | tools/measure_reader_pin.py:200-241 | Every step of parent, writer and observer keeps the channel invariant |
| CheckpointChannel.CheckpointsExecuteOnce | tools/measure_reader_pin.py:200-241 | Over every run a token executes at most once, exactly once when acknowledged, never when not issued, though command files stay and are rescanned |
| CheckpointChannel.ConversationIsOrderly | tools/measure_reader_pin.py:343-378 | A returned ack answers the command just issued, and a checkpoint executes only while its own command is outstanding |
| CheckpointChannel.PausedBetweenCommands | tools/measure_reader_pin.py:357-378 | Between a returned ack and the next command nobody is at work and every command is acknowledged |
| WalInventory.Classify | tools/measure_reader_pin.py:556-577 | The inner loop adds exactly the classification of one pair of inventories |
| WalInventory.Analyse | tools/measure_reader_pin.py:540-581 | The fold over the marks computes the specified facts |
| WalInventory.EmptyCarryIsNone | tools/measure_reader_pin.py:540-581 | An empty inventory handed on compares like none |
| WalInventory.PhasesCompose | tools/measure_reader_pin.py:540-581 | Analysing marks in phases, each carried from the last inventory, equals analysing them at once |
| WalInventory.ProtectedSegmentsSurvive | tools/measure_reader_pin.py:540-581 | When last positions never decrease and nothing protected was removed, every protected segment ever seen is still listed |
| WalInventory.ShrinkingLsnHidesARemoval | tools/measure_reader_pin.py:540-581 | Without that assumption a protected segment can vanish unreported |
| LedgerSuccession.ApplyReview | tools/tck_ledger.py:326-343 | The review loop refuses exactly when some reviewed case is repeated, unknown, stale or unproven, and otherwise marks exactly those entries |
| LedgerSuccession.Freeze | tools/tck_ledger.py:315-352 | The freezing method computes the specified ledger or refusal, counts included |
| LedgerSuccession.RefreezingIsStable | tools/tck_ledger.py:187-194 | Freezing again from the divergences a frozen ledger carries gives the same entries |
| LedgerSuccession.FrozenIsAcceptedIff | tools/tck_ledger.py:158-194 | A frozen ledger is accepted exactly when the fixture texts have the claimed hashes |
| LedgerSuccession.ForgedFixtureFreezes | tools/tck_ledger.py:171-173 | A report with a wrong fixture hash freezes and is refused afterwards |
| LedgerSuccession.AcceptedDivergencesAreProven | tools/tck_ledger.py:187-194 | In every accepted first version each divergence names the decision and shows nonempty approved evidence its own source case proves, and the counts are true |
| LedgerSuccession.RewriteFlexible | tools/tck_ledger.py:222-239 | The first rewriting loop computes the expanded entries and records exactly the changed profiles |
| LedgerSuccession.RewriteMultilabel | tools/tck_ledger.py:273-299 | The second loop does so too and refuses exactly when the pinned case already diverges |
| LedgerSuccession.WithdrawMeaning | tools/tck_ledger.py:228-235 | A divergence becomes a requirement exactly when all its evidence is withdrawn, and otherwise keeps exactly the rest |
| LedgerSuccession.FlexibleIsAccepted | tools/tck_ledger.py:195-200 | Every second version is accepted with its predecessor |
| LedgerSuccession.MultilabelIsAccepted | tools/tck_ledger.py:201-209 | Every third version is accepted with both ancestors |
| LedgerSuccession.FlexibleWidens | tools/tck_ledger.py:212-251 | From V1 to V2 a case is required exactly if it was or all its evidence is withdrawn; sources stay and evidence stays nonempty |
| LedgerSuccession.MultilabelWidens | tools/tck_ledger.py:258-312 | From V2 to V3 likewise for label evidence, but for the pinned case, which becomes the one new divergence |
| LedgerSuccession.SuccessionWidens | tools/tck_ledger.py:158-352 | The whole succession is accepted, and required cases only grow but for the pinned one |
| LedgerSuccession.ChangesRestorePredecessor | tools/tck_ledger.py:238-246 | Undoing an accepted successor's scope changes gives its predecessor's profiles exactly |
| LedgerSuccession.AcceptedCountsAreTrue | tools/tck_ledger.py:192-209 | Every accepted frozen version carries the counts of its own entries |
| LedgerSuccession.Summarise | tools/tck_ledger.py:355-371 | Each observed outcome is counted once upstream and once in exactly one profile, and the totals are the ledger's own counts |
| PartialEvaluator.EvalStands | tools/pulse_query_corpus.py:1836-1905 | When unknown names become known, a definite value stands, or a helper raises |
| PartialEvaluator.HelperStands | tools/pulse_query_corpus.py:1784-1834 | The same of calling a helper with unknown arguments, with raising excluded for the steady helpers |
| PartialEvaluator.GeneratorStands | tools/pulse_query_corpus.py:1931-1986 | The same of comprehensions, nested loops and filters included |
| PartialEvaluator.CondStands | tools/pulse_query_corpus.py:1988-2021 | A definite verdict of a filter stands |
| PartialEvaluator.DefiniteValueStands | tools/pulse_query_corpus.py:1836-1905 | Whatever the unknown names turn out to be, the value is the same or the evaluation raises |
| PartialEvaluator.HelperFreeValueStands | tools/pulse_query_corpus.py:1836-1905 | Where no helper is called the value is simply the same |
| PartialEvaluator.BareEvaluates | tools/pulse_query_corpus.py:1836-1905 | Text, lists, sums, unions, joins and fixed subscripts over bound names and literals never raise, whatever the values |
| PartialEvaluator.SteadyCallStands | tools/pulse_query_corpus.py:1784-1834 | A definite answer of a call simply stands when nothing its helper assigns can raise and the helpers called in turn are of that kind |
| PartialEvaluator.EvalDeeper | tools/pulse_query_corpus.py:1836-1905 | An answer, unknown or not, does not depend on how much recursion was left over |
| PartialEvaluator.KnowledgeCanRaise | tools/pulse_query_corpus.py:1809-1834 | A helper that sorts its argument and returns a constant answers while the argument is unknown and raises when it is a number; it is not of the steady kind |
| PartialEvaluator.SetDisplayChanges | tools/pulse_query_corpus.py:1863-1864 | A set display answers with the unknown inside it, so its answer changes |
| PartialEvaluator.RunHelper | tools/pulse_query_corpus.py:1784-1834 | The call loops -- positions, defaults, keywords, statements -- compute the specified answer |
| PartialEvaluator.Comprehend | tools/pulse_query_corpus.py:1931-1986 | The scope-list loops compute the specified answer |
| GroundTruth.MemberIffFewerThanKCloser | bench/recall_corpus.py:104-124 | A record is a generous member exactly when fewer than k records are strictly closer |
| GroundTruth.ComputedTruthIsGrounded | bench/recall_corpus.py:104-124 | The members are among the scored records |
| GroundTruth.MembersGrowWithK | bench/recall_corpus.py:104-124 | A larger k only adds members |
| GroundTruth.PerfectRecallIff | bench/recall_corpus.py:127-132 | Recall is within [0,1], and 1 exactly when the first k answers are distinct members |
| GroundTruth.ExactAnswerHasPerfectRecall | bench/recall_corpus.py:127-132 | Every exact top-k answer, however it breaks ties, has recall 1 |
| GroundTruth.OverlapIsSymmetric | bench/recall_corpus.py:151-173 | The overlap is symmetric, within [0,1], and 1 exactly when k members are shared |
| GroundTruth.CompareTruths | bench/recall_corpus.py:247-286 | A negative tolerance is refused; otherwise the comparison agrees exactly when members, scored records and all distances agree, each finite and each record listed once, and else names the first disagreement in the order of the checks, with the first record apart |
| GroundTruth.VerdictIsDetermined | bench/recall_corpus.py:247-286 | Two truths can get only one verdict |
| GroundTruth.CompareQueries | bench/recall_corpus.py:313-325 | The query loop stops at the first query whose truths disagree, with its verdict, and goes through all when none does |
| GroundTruth.CompareOracles | bench/recall_corpus.py:289-325 | The differential refuses a vacuous comparison and otherwise agrees exactly when the two ground truths of every query agree, stopping at the first query that does not, which it counts last and whose disagreement it names |

## Left out

- The database behind the instruments: query text, transactions, recovery, log recycling and snapshots enter only as abstract operations, inventories and commit orders.
- Processes, pipes, JSON, files and report rendering; the contents they carry are parameters. Hash functions are parameters too, with nothing assumed about them.
- Floating point: clocks and rates are real numbers, probe times are integer nanoseconds, distances are real numbers; a distance that is not finite exists only for the comparison of two truths, and the rounding of percentiles and milliseconds is not modelled.
- WriterLedger.CriteriaAreExact: keys are pairs of table and id; that the "table:id" text is injective is not modelled.
- WriterLedger.Writer.RunRound: the idle writer and the refusals inside a transaction's own retry are outcomes of a round, not steps.
- Pacing.Pacer.Gate: a sleep is taken to last at least as long as asked, on a monotone clock.
- PhaseProbe.Probe.Enter: one thread only; that is what the probe itself demands.
- ProbeInstall.Probe.Install: the method table maps owner and name to a callable; descriptors and class-level caches are not modelled.
- Retry.RecordAcceptedIff: the constant retry-policy block of the record is not modelled, and exception details are the fields the checker reads.
- BatteryLock.AtMostOneInside: the stamp is written by one write, pids are not reused, reading, checking and unlinking a stale lock is one step, and every component text leaves the stamp with its writer or with no process; the platform's liveness probes are a parameter.
- TableDomains.Bindings.MatchPath: a refused path ends the inference, so the edge names it had added before the refusal are not modelled.
- TwoSlot.Publish: the syncs enter only through the crash lemma; the cold and cached variants of the experiment are not modelled.
- CheckpointChannel.CheckpointsExecuteOnce: a command file that cannot be read yet is skipped and read again by a later scan; timing is not modelled.
- LedgerSuccession.Freeze: checksums, expected contracts and proven counterexamples of a case are inputs; owner, families and observations are carried along unread. The fixed policy texts and derived family counts are not modelled.
- PartialEvaluator.EvalStands: Python's rendering, equality, membership, sorting and hashing are parameters and a set lists its members in iteration order; recursion is bounded by a number, and running out of it stands for the recursion error. The import cache is not modelled.
- PartialEvaluator.SteadyCallStands: the condition is sufficient and not necessary; a helper may assign something that could raise in general and never does on its own arguments.
- `infer_fixture_schema`: property types, table declarations and the statement-level admission rules around the domain loop.
- Official-run gating, environment pins, provenance, documentation and packaging checks, tokenizing and source scanning.
