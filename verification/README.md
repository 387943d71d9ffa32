# A model of mctl-api's transactional cores

mctl-api is the control plane of a hosting platform. This project models, in Dafny, the parts of it whose
correctness depends on order, concurrency, failure or arithmetic, and proves what each part promises over
every input and every run. `dafny verify dfyconfig.toml` checks all of it.

- **Agent registry, v1alpha2** (`Registry`, `RegistryLedger`, `RegistryExactly`, `RegistryTransactions`,
  `RegistrySafety`, `RegistryStore`). Immutable definition and profile versions, a one-way lifecycle, and an
  append-only binding ledger per (agent, environment). `Registry` gives each transaction as one atomic function of
  the tables and `RegistryExactly` says what it accepts, refuses and writes; `RegistryTransactions` interleaves the
  same transactions statement by statement, with the advisory lock, the FOR SHARE and FOR UPDATE row locks, aborts
  and commits; `RegistrySafety` shows that every interleaving keeps the ledger's invariant, is serializable and
  cannot deadlock. `RegistryStore` is the store as a class.
- **Agent releases, v1** (`Releases`, `ReleaseTransactions`). A current-release row beside a promotion log; the
  row is always the fold of the log, also when promotions and rollbacks interleave.
- **Both in one database** (`RegistryTogether`). Promotions and binding transactions take the same advisory key and
  read the same agents; their combined runs are safe, serializable and free of deadlock.
- **Versions and ranges** (`Text`, `Semver`, `Catalog`). The restricted semver parser and printer, comparison in
  64-bit arithmetic, the meaning of a range as one interval, the choice of the highest compatible version, and
  the in-place catalog sort.
- **Alert store** (`Alerts`). Deduplication by an upsert on a partial unique index, occurrence counting, the
  trace and workflow pair, resolving by fingerprint, and literal prefix lookup through escaped LIKE.
- **Customer deletion** (`Memberships`, `Deletion`, `DeletionInvariant`, `DeletionSafety`, `DeletionWitness`,
  `DeletionLate`, `DeletionConvergence`, `DeletionPasses`). A retryable protocol across a database, a portal and an
  identity provider, under a per-tenant lock. Any invocation may stop between any two calls, any call may fail with
  or without its effect, and the effect of a call that ended unknown may land at any later time or never. Each stage
  is also shown to achieve its end when nobody is in its way.
- **Agent receipt gate** (`ReceiptGate`, `ReceiptRuns`). Read, reserve by compare-and-set, run, settle, for any
  number of concurrent calls on one receipt whose statements may land late or be lost.
- **Preflight, start-up, ERPact sites** (`Preflight`, `StoreInit`, `ErpactSites`). A three-valued evaluator and
  its monotonicity in information, the retry ladder against a shared deadline, and the capped site creation with
  its name and host mapping.

## Properties that do not hold as one might expect

The model follows the code. Where a property fails, a lemma shows an input and another says exactly when it holds.

- Printing a parsed version need not give the text back: leading zeros are accepted (`Semver.LeadingZeroIsAccepted`,
  `Semver.PrintOfParse`).
- `Compare` overflows outside parsed versions (`Semver.CompareOverflows`, `Semver.CompareExactly`).
- The catalog comparator is no strict weak order on unparseable versions (`Catalog.UnparseableBreaksTheOrder`,
  `Catalog.TiesFailExactly`), which publishing never stores (`Catalog.StoredDefinitionsParse`).
- The v1 store accepts an empty version and then loses a rollback target (`Releases.EmptyVersionLosesRollback`,
  `Releases.RollbackOfStoreExactly`); the handler refuses it, and the model publishes through the handler.
- A create retried with the same id while its fingerprint is still open merges and counts again: the partial index
  is looked at before the primary key. Only a retry that does not collide there is the idempotent one
  (`Alerts.CreateExactly`).
- The alert store's comment says that trace and workflow move together. An update replaces the trace alone
  (`Alerts.UpdateKeepsPairExactly`).
- Resolving by the empty fingerprint can return many ids (`Alerts.EmptyFingerprintResolvesMany`).
- Preflight is monotone in information except for `spec.tools` under enabled discovery, for the discovery section
  and its provider list, for the catalogs the policy leaves out, and for the names, mutating flags and required
  approvals its scope entries leave out; the texts of plain lists are kept. The holes are exact
  (`Preflight.InformationIsMonotone`) and real (`Preflight.AbsentToolsFail`, `Preflight.AbsentDiscoveryPasses`,
  `Preflight.AbsentCatalogFails`, `Preflight.AbsentApprovalPasses`, `Preflight.AbsentFlagPasses`,
  `Preflight.AbsentNameMatters`).
- Provider keys join kind and id with a slash and collide when a kind holds one (`Preflight.SlashedKindsCollide`,
  `Preflight.KeyExactly`).
- A freeze request that ended unknown can land after the deletion was cancelled and its row removed
  (`DeletionLate.LateFreezeStrands`), exactly when it was on its way when the cancellation was recorded, for the freeze, or
  when it came to its thaw, for the stranded portal (`DeletionLate.FreezeFollowsCancelExactly`,
  `DeletionLate.DropStrandsExactly`, `DeletionLate.ReleaseStrandsExactly`). No begin can.
- An ERPact site answered as created can share its name with one that landed late while it was being created
  (`ErpactSites.RetryInTheWindowShares`), exactly when an earlier create of that name was unanswered
  (`ErpactSites.WindowIsSafeExactly`).
- A prefix lookup can miss an alert created between its two reads (`Alerts.LookupAcrossAgreesExactly`).

## Assumptions about what is outside the code

- The database executes each statement atomically, enforces its constraints and locks, and reads committed rows.
- Customer deletion: an effect happens at most once; a store transaction other than begin commits before its call
  returns or never; the lock session is not lost while its holder goes on; a provider that reports success has the
  effect; principal ids and identity provider subjects are not reused; nothing new is created for a fenced customer;
  the portal keeps a freeze per tenant and principal.
- Receipt gate: a statement is executed at most once.
- Start-up: a constructor returns by its context's end, and only constructors and waits take time.
- ERPact: one process creates sites, the deployer's listing shows every site that has landed, and nothing is assumed
  of the deployer's own refusal of taken names.

## Model

| member | source | states |
|---|---|---|
| `Semver.ParseVersion` | internal/agentregistry/semver.go:34-56 | The loops accept exactly the three-part digit strings in 64-bit range, and return their numbers |
| `Semver.ParseVersionExactly` | internal/agentregistry/semver.go:34-56 | A text parses to a version if and only if it spells it as three dot-separated non-empty digit strings in 0..2^63-1 |
| `Semver.ParseOfPrint` | internal/agentregistry/semver.go:34-72 | Parsing a printed version gives it back, for all components in 0..2^63-1 |
| `Semver.PrintOfParse` | internal/agentregistry/semver.go:34-72 | Printing a parsed text gives the text back if and only if no component has a leading zero |
| `Semver.LeadingZeroIsAccepted` | internal/agentregistry/semver.go:34-56 | 01.0.0 is accepted and prints as 1.0.0, so print after parse is not the identity |
| `Semver.CompareExactly` | internal/agentregistry/semver.go:59-83 | With 64-bit subtraction, Compare is the sign of the deciding component exactly when that difference does not overflow |
| `Semver.CompareOverflows` | internal/agentregistry/semver.go:59-83 | With the largest major against any negative one the subtraction overflows and Compare is wrong |
| `Semver.CompareOfParsed` | internal/agentregistry/semver.go:59-83 | On parsed versions no subtraction overflows: Compare is the lexicographic order of section 11 of Semantic Versioning 2.0.0 |
| `Semver.CompareIsTotalOrder` | internal/agentregistry/semver.go:59-83 | On parsed versions Compare is antisymmetric, transitive and 0 only on equal versions |
| `Semver.Satisfies` | internal/agentregistry/semver.go:139-146 | The loop accepts a version if and only if every clause admits it |
| `Semver.RangeIsInterval` | internal/agentregistry/semver.go:91-146 | A list of clauses admits exactly the versions of one half-open interval: the intersection of each clause desugared (caret by leftmost non-zero component, tilde to the next minor, > and <= by patch successor) |
| `Semver.AcceptedRangeIsInterval` | internal/agentregistry/semver.go:91-181 | The same for every range text ParseRange accepts, which is never empty of clauses |
| `Semver.SatisfyingSetIsConvex` | internal/agentregistry/semver.go:91-146 | If a range admits two versions it admits every version between them |
| `Semver.SplitOp` | internal/agentregistry/semver.go:186-193 | The two-character operators win over their one-character prefixes; operator and rest concatenate to the field; none is found only when none is a prefix |
| `Semver.ParseRange` | internal/agentregistry/semver.go:156-181 | The loop returns the clauses of every field, or refuses if the range is blank or any field is malformed |
| `Semver.ParseOfRender` | internal/agentregistry/semver.go:149-193 | Printing any non-empty clause list with any separators of spaces and commas and parsing it returns the same list |
| `RegistryStore.Store.PublishDefinitionVersion` | internal/agentregistry/v1alpha2_store.go:98-174 | Publishes a version once, after every validation in order, as published; any refusal changes nothing; the registry stays valid |
| `RegistryStore.Store.PublishProfileVersion` | internal/agentregistry/v1alpha2_store.go:204-247 | The same for profile versions and their required policy fields |
| `RegistryStore.Store.SetDefinitionVersionLifecycle` | internal/agentregistry/v1alpha2_store.go:276-332 | Moves a definition version forward in the one-way lifecycle, or refuses a missing version, a transition that is not forward, or any text that names no lifecycle; only that column changes |
| `RegistryStore.Store.SetProfileVersionLifecycle` | internal/agentregistry/v1alpha2_store.go:334-373 | The same for profile versions |
| `RegistryStore.Store.ComputeRevision` | internal/agentregistry/v1alpha2_store.go:517-525 | Gives the highest revision of the scope plus one |
| `RegistryStore.Store.InsertBinding` | internal/agentregistry/v1alpha2_store.go:527-546 | Appends the row under a fresh id; no constraint can refuse it |
| `RegistryStore.Store.CreateBinding` | internal/agentregistry/v1alpha2_store.go:476-546 | Run alone: appends exactly the row the atomic bind defines, or reports its refusal and changes nothing |
| `RegistryStore.Store.RollbackBinding` | internal/agentregistry/v1alpha2_store.go:625-699 | Run alone: appends a copy of the target row with rollback_of set, or reports its refusal and changes nothing |
| `RegistryStore.Store.ResolveBinding` | internal/agentregistry/v1alpha2_store.go:703-784 | Answers the active binding with satisfied = true and its stored range, or not found when there is none |
| `RegistryExactly.PublishDefinitionExactly` | internal/agentregistry/v1alpha2_store.go:98-174 | A definition is published exactly when owner, sha and hash are more than white space, the version parses, the range is right for its kind, the spec is an object that describes an assistant, the key is new and the agent declared; it is then the only change and published; which refusal comes otherwise |
| `RegistryExactly.PublishProfileExactly` | internal/agentregistry/v1alpha2_store.go:204-247 | The same for profiles, with maxTokens, maxToolCalls and timeoutSeconds required |
| `RegistryExactly.DefinitionLifecycleExactly` | internal/agentregistry/v1alpha2_store.go:276-332 | On the literal texts: from published to deprecated or disabled, from deprecated to disabled, every other text and pair refused, and only that column changes |
| `RegistryExactly.ProfileLifecycleExactly` | internal/agentregistry/v1alpha2_store.go:334-373 | The same for profile versions |
| `RegistryExactly.CreateExactly` | internal/agentregistry/v1alpha2_store.go:476-546 | A create succeeds exactly on production or shadow, a source that is not the fixture, and two stored published versions of which the range admits the profile, of a definition that is no assistant; its row holds the next revision and every field of the request |
| `RegistryExactly.CreateRefusedExactly` | internal/agentregistry/v1alpha2_store.go:415-520 | Which refusal a create gets: the first that applies, from the environment to the incompatible profile |
| `RegistryExactly.RollbackExactly` | internal/agentregistry/v1alpha2_store.go:625-699 | A rollback succeeds exactly on a known environment and a revision in 1..n neither of whose versions is disabled, and writes that row again with a new id, the next revision, rollback_of, reason and actor; which refusal comes otherwise |
| `RegistryExactly.ConstraintsExactly` | internal/agentregistry/store.go:183-207 | The primary key, the unique scope and revision, and the foreign keys of the bindings table, exactly |
| `RegistryExactly.ResolveExactly` | internal/agentregistry/v1alpha2_store.go:703-755 | Every stored binding resolves, satisfied, to an envelope of its own fields and the two version rows it names |
| `RegistryLedger.RevisionsAreExactly` | internal/agentregistry/v1alpha2_store.go:517-546 | In a chained ledger the revisions of an (agent, environment) are exactly 1..n in commit order and the next is n+1 |
| `RegistryLedger.ActiveIsLastCommitted` | internal/agentregistry/v1alpha2_store.go:566-580 | The active binding is the last row committed for its scope |
| `RegistryLedger.AtRevisionExactly` | internal/agentregistry/v1alpha2_store.go:583-598 | A revision number finds exactly the row that took it, and nothing outside 1..n |
| `RegistryLedger.IdsAreUnique` | internal/agentregistry/store.go:183-207 | Ids differ across the ledger and grow within a scope |
| `RegistryLedger.RollbackChainEnds` | internal/agentregistry/v1alpha2_store.go:640-699 | Following rollback_of strictly decreases the id and ends at a created row with the same definition version, profile pair, range, source and intent |
| `RegistryLedger.PublishDefinitionKeeps` | internal/agentregistry/v1alpha2_store.go:98-174 | Publishing keeps the registry valid, only adds, and touches no binding |
| `RegistryLedger.SetDefinitionLifecycleKeeps` | internal/agentregistry/v1alpha2_store.go:290-332 | A lifecycle move keeps every stored binding sound and is never undone |
| `RegistryLedger.BoundRowKeeps` | internal/agentregistry/v1alpha2_store.go:476-546 | A bound row continues the ledger: right revision, unique id, compatible pair, restored content |
| `RegistryLedger.InsertNeverRefused` | internal/agentregistry/v1alpha2_store.go:517-546 | No bind ever fails on the UNIQUE (agent, environment, revision) constraint, the primary key or a foreign key |
| `RegistryLedger.BoundVersionsAreUsable` | internal/agentregistry/v1alpha2_store.go:429-470 | A created binding names two published versions; a restored one names two that are not disabled |
| `RegistryLedger.ResolveAlwaysSatisfied` | internal/agentregistry/v1alpha2_store.go:703-784 | Resolving from three reads at three later and later states never fails, is satisfied and reports the stored range |
| `RegistrySafety.BindCommitIsAtomic` | internal/agentregistry/v1alpha2_store.go:476-546 | At its commit a binding transaction has written exactly the row the whole transaction run at that instant would write |
| `RegistrySafety.InsertAlwaysSucceeds` | internal/agentregistry/v1alpha2_store.go:527-546 | Under the advisory and share locks the INSERT is never refused |
| `RegistrySafety.StepKeeps` | internal/agentregistry/v1alpha2_store.go:290-413 | Every statement, commit and abort of every transaction keeps the invariant and only grows the tables |
| `RegistrySafety.RunIsSafe` | internal/agentregistry/v1alpha2_store.go:290-699 | Every state of every interleaving is valid; the ledger is append-only, versions immutable but for a one-way lifecycle |
| `RegistrySafety.RunNumbersRevisions` | internal/agentregistry/v1alpha2_store.go:476-580 | In every reachable state revisions are 1..n, active is the last committed, and no binding names a profile-less definition or the compatibility-fixture source |
| `RegistrySafety.RunRollbackEnds` | internal/agentregistry/v1alpha2_store.go:625-699 | In every reachable state the rollback chain of every row goes down to a created row of the same content |
| `RegistrySafety.RunResolves` | internal/agentregistry/v1alpha2_store.go:757-784 | Resolving with its three reads at any three points of a run, in order, never fails and is satisfied |
| `RegistrySafety.AppendedRowWasUsable` | internal/agentregistry/v1alpha2_store.go:429-470 | The step that appended a row bound versions that were published (create) or not disabled (rollback) at that commit |
| `RegistrySafety.NeverBoundAfterDisable` | internal/agentregistry/v1alpha2_store.go:290-413 | No binding committed after a version was disabled names it |
| `RegistrySafety.StepIsAtomic` | internal/agentregistry/v1alpha2_store.go:476-546 | Each step makes visible one whole operation run alone, or nothing |
| `RegistrySafety.RunIsSerial` | internal/agentregistry/v1alpha2_store.go:290-699 | Every run is serializable: its tables are those of its committed operations run one after another |
| `RegistrySafety.NextExactly` | internal/agentregistry/v1alpha2_store.go:476-546 | A transaction whose operation would succeed now is never refused its next statement, and each statement brings it one closer to its commit |
| `RegistrySafety.AloneCommits` | internal/agentregistry/v1alpha2_store.go:476-546 | A transaction nobody disturbs, whose operation would succeed now, runs through its statements and commits that operation |
| `RegistrySafety.RequestAloneCommits` | internal/agentregistry/v1alpha2_store.go:476-546 | From an idle system a request that would succeed now is begun, run and committed with exactly that effect |
| `RegistrySafety.EndsExactly` | internal/agentregistry/v1alpha2_store.go:485-498 | A committed or aborted transaction holds nothing any more, and an aborted one has changed nothing |
| `RegistrySafety.WaitsGoUp` | internal/agentregistry/v1alpha2_store.go:377-413 | A transaction that is waited for waits, if at all, for a lock later in the order advisory, definition, profile |
| `RegistrySafety.NoDeadlock` | internal/agentregistry/v1alpha2_store.go:377-546 | No chain of lock waits is a cycle |
| `RegistrySafety.SomeoneCanProceed` | internal/agentregistry/v1alpha2_store.go:377-546 | While transactions are open, one of them waits for nobody |
| `RegistryTogether.RunIsSafe` | internal/agentregistry/store.go:405-505 | Bindings, lifecycle moves, publications and promotions interleaved in one database: every state keeps both invariants, and no advisory key has holders of both kinds |
| `RegistryTogether.ScopesDiffer` | internal/agentregistry/store.go:427-429 | A binding transaction and a promotion never work on the same agent and environment at once |
| `RegistryTogether.RunIsSerial` | internal/agentregistry/store.go:405-505 | Every combined run is serializable: the registry and the release tables are those of one order of whole operations of both kinds |
| `RegistryTogether.StepIsAtomic` | internal/agentregistry/store.go:405-505 | Each step of a combined run makes visible one whole operation of one kind, run alone on the whole database, or nothing |
| `RegistryTogether.AdvancesExactly` | internal/agentregistry/store.go:427-429 | A transaction of either kind can take its next statement exactly when that statement is not refused and it waits for nobody of either kind |
| `RegistryTogether.WaitsGoUp` | internal/agentregistry/v1alpha2_store.go:496-498 | Across both kinds, whoever is waited for waits, if at all, for a lock later in the order |
| `RegistryTogether.NoDeadlock` | internal/agentregistry/v1alpha2_store.go:636-638 | No chain of waits through binding transactions, lifecycle moves and promotions, in any order, is a cycle |
| `RegistryTogether.SomeoneCanProceed` | internal/agentregistry/store.go:427-429 | While a transaction of either kind is open, one of them waits for nobody of either kind |
| `Catalog.HighestCompatible` | internal/agentregistry/v1alpha2_store.go:825-858 | Returns a published, range-satisfying version that no other such version exceeds, the first of equals, and errors exactly when none exists or the range is malformed |
| `Catalog.BeforeIsStrictWeakOrder` | internal/agentregistry/assistant_catalog.go:195-207 | On parseable rows the catalog comparator is a strict weak order |
| `Catalog.TiesFailExactly` | internal/agentregistry/assistant_catalog.go:195-207 | On all rows the comparator is irreflexive, asymmetric and transitive, and its ties are transitive exactly unless an unparseable version stands between two different parseable ones of its agent |
| `Catalog.UnparseableBreaksTheOrder` | internal/agentregistry/assistant_catalog.go:195-207 | Every unparseable version ties with any two different versions of its agent, which do not tie with each other |
| `Catalog.StoredDefinitionsParse` | internal/agentregistry/v1alpha2_store.go:111-113 | Publish stores only parseable versions, so stored rows meet that condition |
| `Catalog.SortByAgentThenVersionDesc` | internal/agentregistry/assistant_catalog.go:195-207 | The in-place sort leaves exactly the stable sort of the old contents |
| `Catalog.SortedIsOrderedStablePermutation` | internal/agentregistry/assistant_catalog.go:195-207 | That result is an ordered, stable permutation of the rows |
| `Catalog.StableSortIsUnique` | internal/agentregistry/assistant_catalog.go:195-207 | Any two ordered rows lists with the same ties in the same order are equal, so every stable sort gives this result |
| `Releases.Store.PublishAgentVersion` | internal/agentregistry/store.go:283-310 | Stores a version once for a declared agent; the handler refuses an empty version first |
| `Releases.Store.PromoteTo` | internal/agentregistry/store.go:362-505 | promote: the new release row and log row, the no-op, or the refusal, with the fold invariant kept |
| `Releases.PublishKeeps` | internal/api/handlers_agent_registry.go:153-157 | Publishing keeps what is recorded, and through the handler no version is empty |
| `Releases.PerformKeeps` | internal/agentregistry/store.go:417-505 | A promotion or rollback keeps the release row equal to the fold of a gap-free log |
| `Releases.ReleaseIsFoldOfLog` | internal/agentregistry/store.go:417-505 | Each log row starts from the previous target and moves; the release exists when there is a row and is its last target |
| `Releases.RollbackOfStoreExactly` | internal/agentregistry/store.go:375-403 | In the store alone rollback has no target exactly when the pair has at most one log row or the version before the current one is empty |
| `Releases.RollbackExactly` | internal/agentregistry/store.go:375-403 | With the handler guard rollback fails with no target exactly when the pair has at most one log row; otherwise it moves to the version before, never a no-op, never version-not-found |
| `Releases.RollbackTwiceRestores` | internal/agentregistry/store.go:375-403 | Two rollbacks restore the release version |
| `Releases.RepromoteChangesNothing` | internal/agentregistry/store.go:450-479 | Promoting the current version returns the release unchanged |
| `Releases.PromoteMakesCurrent` | internal/agentregistry/store.go:362-372 | Promotion succeeds exactly when the version is published and then makes it current |
| `Releases.EmptyVersionLosesRollback` | internal/agentregistry/store.go:375-403 | Without the handler guard an empty version published and promoted in between leaves a pair of three log rows without a target, for every agent |
| `ReleaseTransactions.CommitIsAtomic` | internal/agentregistry/store.go:417-505 | At its commit a promotion has done exactly what promote run alone at that instant would do |
| `ReleaseTransactions.NextExactly` | internal/agentregistry/store.go:417-505 | A promotion that would succeed now is never refused its next statement |
| `ReleaseTransactions.AloneCommits` | internal/agentregistry/store.go:417-505 | A promotion nobody disturbs, that would succeed now, runs through its statements and commits its outcome |
| `ReleaseTransactions.AskAloneCommits` | internal/agentregistry/store.go:417-505 | From an idle system a promotion that would succeed now is begun, run and committed with exactly that outcome |
| `ReleaseTransactions.EndsExactly` | internal/agentregistry/store.go:421-429 | A committed or aborted promotion holds nothing any more, and an aborted one has changed nothing |
| `ReleaseTransactions.RunKeepsReleases` | internal/agentregistry/store.go:405-505 | In every state of every interleaving the release rows are the fold of the log |
| `Alerts.Store.CreateAlert` | internal/alerts/store.go:145-224 | Merges into the open alert of the same tenant and fingerprint, else inserts, else answers the same-tenant row of that id unchanged, else refuses; returns the stored row and the right evidence |
| `Alerts.Store.UpdateAlert` | internal/alerts/store.go:227-256 | Patches the row, keeps trace when none is given, refuses a second open alert of one fingerprint, ignores an unknown id |
| `Alerts.Store.ResolveByFingerprint` | internal/alerts/store.go:339-354 | Resolves every open match and returns their ids, at most one for a non-empty fingerprint |
| `Alerts.Store.GetEvidence` | internal/alerts/store.go:356-375 | Returns the evidence of one alert, all of it and nothing else |
| `Alerts.LookUp` | internal/alerts/store.go:289-332 | Over its two reads: the exact id of the first at any length, else too short, not found, ambiguous, or the one row of the second with that literal prefix |
| `Alerts.LookupAcrossAgreesExactly` | internal/alerts/store.go:289-332 | The two reads name what one read of the later table would, exactly unless an alert of that very id was created between them and the prefix is too short or shared |
| `Alerts.Store.GetByPrefix` | internal/alerts/store.go:289-332 | The same with nobody else at work |
| `Alerts.RunKeepsDedup` | internal/alerts/store.go:84-87 | After every run of creates, updates and resolves there is at most one open alert per tenant and non-empty fingerprint |
| `Alerts.CreateExactly` | internal/alerts/store.go:145-205 | A create merges exactly when it duplicates an open alert of its tenant and fingerprint, whatever its id; otherwise it inserts, answers the same tenant row or refuses another tenant row, exactly by who holds the id |
| `Alerts.CreateWritesExactly` | internal/alerts/store.go:145-224 | A create writes one new row with every field as given and the count 0 read as 1, or one more occurrence with the run it reports on one row, or nothing; and its evidence under that row |
| `Alerts.OutOfRangeExactly` | internal/alerts/store.go:145-174 | A create is out of range exactly when its own 32-bit count is, or the count of the open alert it would merge into is the largest |
| `Alerts.UpdateExactly` | internal/alerts/store.go:227-256 | An update of a stored alert is refused exactly when it would open it beside another open alert of its tenant and non-empty fingerprint; otherwise that row gets status, findings, resolvedBy and a reported trace, keeps the rest, no other row changes, and the evidence grows by the contents given |
| `Alerts.UpdateOfUnknown` | internal/alerts/store.go:227-256 | An update of an unknown id answers no error and changes nothing |
| `Alerts.ResolveExactly` | internal/alerts/store.go:339-354 | A resolve closes exactly the open alerts of that tenant and fingerprint, in the name of the actor, and answers exactly their ids |
| `Alerts.ResolveReturnsAtMostOne` | internal/alerts/store.go:339-354 | In every reachable state a resolve by a non-empty fingerprint returns at most one id and leaves no match open |
| `Alerts.EmptyFingerprintResolvesMany` | internal/alerts/store.go:339-354 | By the empty fingerprint, which the handler refuses, two ids can come back |
| `Alerts.TotalIsAdded` | internal/alerts/store.go:145-224 | After every run the occurrence counts sum to the counts the inserted alerts came with, a count below one read as one, plus one per merge; a primary-key retry adds nothing |
| `Alerts.TotalIsAcceptedCreates` | internal/api/handlers_alerts.go:138-140 | So through the handler, which zeroes the count, they sum to the number of creates that inserted or merged |
| `Alerts.RowRemembersItsCreates` | internal/alerts/store.go:162-174 | For every run and row: count = the count it was opened with plus the later creates landed on it, so through the handler the creates landed on it; and unless an update reported a trace, trace and workflow are the pair of the last create with a trace, or no trace and the last workflow name |
| `Alerts.RememberedOfMerge` | internal/alerts/store.go:165-174 | One upsert merge is one step of that last-pair rule |
| `Alerts.UpdateKeepsPairExactly` | internal/alerts/store.go:227-243 | An update keeps the trace and workflow pair exactly when it reports no trace or the stored one; otherwise the old workflow stays beside a new trace |
| `Alerts.EscapedPrefixIsLiteral` | internal/alerts/store.go:279-282 | For all strings, LIKE against the escaped prefix plus % matches exactly when it is a prefix, and is never a bad pattern |
| `Alerts.MatchesUpToTwo` | internal/alerts/store.go:302-322 | Looking at two matches decides none, one and many as an unlimited query would |
| `Alerts.LookupIsDetermined` | internal/alerts/store.go:284-332 | With unique ids the prefix lookup has exactly one answer |
| `Alerts.BytesOfOne` | internal/alerts/store.go:289-300 | The prefix length is counted in bytes: one to four per character by the ranges of section 3 of RFC 3629 |
| `Alerts.BytesAdd` | internal/alerts/store.go:289-300 | And added up over the text |
| `Memberships.CheckTenant` | internal/api/handlers_customer_deletion.go:90-106 | One tenant is clear if and only if no member or team member names the customer, or only the exclusive owner entry does |
| `Memberships.Check` | internal/api/handlers_customer_deletion.go:76-110 | The loops pass if and only if every tenant was readable and clear (and the owner was found when required), with the exact error otherwise |
| `Memberships.PassWithoutOwnerMeansNoAccess` | internal/api/handlers_customer_deletion.go:76-110 | A check without an owner passes exactly when every tenant was readable and no member or team entry is the customer, by id or by a known login up to case |
| `Memberships.PassWithOwnerMeansExclusive` | internal/api/handlers_customer_deletion.go:76-110 | A check with an owner passes exactly when every tenant was readable, one is the customer's own with the customer as its one member and owner, and all others have no entry of the customer |
| `DeletionInvariant.ChangeKeeps` | internal/principals/customer_deletion.go:74-137 | A change under the tenant lock, or on a complete manifest, keeps what every other invocation relies on |
| `DeletionInvariant.RewriteKeeps` | internal/principals/customer_deletion.go:210-227 | A row gives up the tenant name only once its portal is thawed, and then every frozen portal is still accounted for |
| `DeletionSafety.SendKeeps` | internal/api/handlers_customer_deletion.go:253-256 | A call that ends unknown leaves an effect that stays sound until it lands |
| `DeletionSafety.LandKeeps` | internal/api/handlers_customer_deletion.go:253-256 | A freeze, thaw, erasure or begin that lands late keeps the invariant |
| `DeletionSafety.StepKeeps` | internal/api/handlers_customer_deletion.go:138-482 | Every call, refusal, crash, unknown result, late landing and outside change keeps the invariant |
| `DeletionSafety.RunIsSafe` | internal/api/handlers_customer_deletion.go:138-482 | The invariant holds after every interleaving of prepare, begin, resources, complete and cancel with effects landing at any time or never |
| `DeletionSafety.FrozenNameIsPending` | internal/api/handlers_customer_deletion.go:112-134 | A frozen portal has a manifest row that holds the tenant name, so creating that tenant is refused, unless its portal was last thawed while a freeze of it was on its way |
| `DeletionSafety.CancellationIsFinal` | internal/api/handlers_customer_deletion.go:449-482 | Once a cancellation of a manifest is recorded no begin of it follows, late ones included, and no freeze if none was on its way |
| `DeletionLate.FreezeFollowsCancelExactly` | internal/api/handlers_customer_deletion.go:456-482 | After a recorded cancellation some continuation freezes for that manifest exactly when a freeze of it was on its way |
| `DeletionLate.StampIsJustCancelled` | internal/principals/customer_deletion.go:359-369 | Stamping a manifest is such a recorded cancellation |
| `DeletionLate.DropStrandsExactly` | internal/api/handlers_customer_deletion.go:474-482 | From a cancellation about to thaw, some continuation without a new filing, whatever interleaves and whenever freezes land, leaves the portal frozen with no row exactly when a freeze of it is on its way |
| `DeletionLate.ReleaseStrandsExactly` | internal/api/handlers_customer_deletion.go:380-402 | For a complete manifest some continuation leaves the portal frozen with the name given up exactly when a freeze of it is on its way, or it is frozen and its release is recorded or due without another thaw |
| `DeletionLate.LateFreezeStrands` | internal/api/handlers_customer_deletion.go:253-256 | The run, for every deletable customer: prepare ends unknown, cancel completes, the freeze lands and the portal is frozen with no manifest |
| `DeletionSafety.IdpDeletionIsJustified` | internal/api/handlers_customer_deletion.go:346-369 | The identity provider is asked only under the lock, for a deleting manifest, after the same pass saw no membership, no GitOps tenant and no platform resources |
| `DeletionSafety.ActsAreJustified` | internal/api/handlers_customer_deletion.go:205-253 | A manifest is filed, a portal frozen and a deletion begun only for a pass that had seen exclusive ownership, or no access once the tenant is gone; filing and a first begin only after the identity provider then confirmed the customer |
| `DeletionWitness.EntriesWereTrue` | internal/api/handlers_customer_deletion.go:138-482 | For every run and every entry it logged there is a state of that run in which the entry was true of the directory, the platform, the identity provider, the manifest and the lock |
| `DeletionWitness.IdpDeletionIsWitnessed` | internal/api/handlers_customer_deletion.go:346-362 | Every request to delete a customer at the identity provider came after three states of the run, in order: one whose directory gives that login no access, one whose directory has no such tenant, one whose platform lacks it; the same pass held the lock from the first to the request |
| `DeletionWitness.ActsAreWitnessed` | internal/api/handlers_customer_deletion.go:205-256 | Every filing, freeze and begin came after a state of the run in which the same pass, under the lock, found the exclusive ownership of that identity (or, after a state without the tenant, no access), and a filing or first begin after a later state in which the identity provider knew its subject |
| `DeletionWitness.HeldBetween` | internal/principals/customer_deletion.go:75-137 | A pass that holds the lock in two states of a run holds it in every state between them |
| `DeletionInvariant.InsertKeeps` | internal/principals/customer_deletion.go:143-206 | Inserting a manifest keeps live GitHub ids unique and every row sound |
| `DeletionInvariant.BeginKeeps` | internal/principals/customer_deletion.go:249-293 | Beginning disables exactly the approved identities' principal |
| `DeletionInvariant.FinishKeeps` | internal/principals/customer_deletion.go:297-356 | Finishing removes the disabled principal and no other deletion loses its own |
| `DeletionInvariant.StampKeeps` | internal/principals/customer_deletion.go:218-227 | Recording a release or a cancellation keeps every row sound |
| `DeletionInvariant.DropKeeps` | internal/principals/customer_deletion.go:371-380 | Removing a cancelled row keeps every other row sound |
| `DeletionConvergence.RetryStepKeepsEnd` | internal/api/handlers_customer_deletion.go:292-405 | No step, interruption, unknown call or late landing of a complete invocation changes the state the deletion ends in |
| `DeletionConvergence.RetriesKeepEnd` | internal/api/handlers_customer_deletion.go:292-405 | Nor does any sequence of interrupted complete invocations |
| `DeletionConvergence.DeletingPassReleases` | internal/api/handlers_customer_deletion.go:337-390 | From deleting, an uninterrupted pass reaches the released state |
| `DeletionConvergence.CompletePassReleases` | internal/api/handlers_customer_deletion.go:292-307 | From complete, an uninterrupted pass reaches the same released state |
| `DeletionConvergence.RetriesConverge` | internal/api/handlers_customer_deletion.go:292-405 | However far earlier passes got, one uninterrupted complete call ends in the state a single clean pass would have reached |
| `DeletionConvergence.ReleasedMeansGone` | internal/api/handlers_customer_deletion.go:371-390 | That state: manifest complete and released, principal removed, portal unfrozen, nothing left at any provider, everyone else untouched |
| `DeletionPasses.InsertExactly` | internal/principals/customer_deletion.go:143-206 | A manifest is filed exactly under a free key for an active principal with just these identities and a GitHub id of no live manifest |
| `DeletionPasses.BeginExactly` | internal/principals/customer_deletion.go:249-293 | A begin is refused exactly without a manifest, on a cancelled one, without the principal, or when a prepared one's principal is no longer who was approved; it disables the principal and sets the status, nothing else |
| `DeletionPasses.FinishExactly` | internal/principals/customer_deletion.go:297-356 | A deletion is finished exactly from deleting with its principal disabled, which goes; a complete one stays |
| `DeletionPasses.StampsExactly` | internal/principals/customer_deletion.go:210-380 | Releasing is for complete manifests, cancelling for prepared ones, removing for cancelled ones, and each changes that alone |
| `DeletionPasses.SendsExactly` | internal/api/handlers_customer_deletion.go:253-256 | Which calls may end unknown, and exactly what of each may still happen |
| `DeletionPasses.LandsOnce` | internal/api/handlers_customer_deletion.go:253-256 | An effect on its way happens at most once, and a lost one never |
| `DeletionPasses.NamePendingExactly` | internal/principals/customer_deletion.go:208-214 | A tenant name is held exactly by a manifest that is not both complete and released |
| `DeletionPasses.PermittedExactly` | internal/principals/customer_deletion.go:236-246 | What others may do between any two calls: nothing new for the principal or subject of a manifest that is not cancelled, no second sign-up of a principal, no relinking of a disabled one |
| `DeletionPasses.PreparePassFreezes` | internal/api/handlers_customer_deletion.go:161-260 | A preparation nobody disturbs files the manifest of the principal's identities and freezes the portal, and nothing else |
| `DeletionPasses.BeginPassBegins` | internal/api/handlers_customer_deletion.go:323-344 | A begin nobody disturbs moves the manifest to deleting, disables the principal and revokes the sessions, with the tenant there or gone, and nothing else |
| `DeletionPasses.CancelPassRemoves` | internal/api/handlers_customer_deletion.go:449-482 | A cancellation nobody disturbs thaws the portal and removes the manifest, and nothing else |
| `DeletionPasses.CancelUndoesPrepare` | internal/api/handlers_customer_deletion.go:424-482 | A preparation that is then cancelled leaves the world as it found it, but for the number of the next manifest |
| `DeletionPasses.DeletionCanBeDone` | internal/api/handlers_customer_deletion.go:138-413 | For every customer whose deletion can be prepared there is a run through prepare, begin, the removal of the tenant and complete, after which nothing of the customer is left and nothing else has changed |
| `ReceiptGate.ReadAuthorizesExactly` | internal/api/agent_receipt_gate.go:81-130 | The read answers valid if and only if requester, execution, tool, target, artifact, state, age and freshness all hold |
| `ReceiptGate.ReadRefusesExactly` | internal/api/agent_receipt_gate.go:81-130 | Which code the read answers: the first that applies of who, what, where, state, artifact and age |
| `ReceiptGate.ReserveRestoresTheRead` | internal/workitems/action_approvals.go:964-1033 | The compare-and-set holds of a row if and only if a fresh read of it would authorize the call |
| `ReceiptGate.RefusalReadsTheSame` | internal/api/agent_receipt_gate.go:155-181 | The code mapped from a lost race is the code a fresh read would give, and never means the target |
| `ReceiptGate.Gate.Verify` | internal/api/agent_receipt_gate.go:81-139 | Alone, a redeeming check reserves the receipt exactly when it answers valid, and nothing else changes |
| `ReceiptGate.Gate.Settle` | internal/api/agent_receipt_gate.go:142-153 | In flight becomes executed if the call was cancelled or returned without an error, and consumed again otherwise; anything else is left and reported by the right error |
| `ReceiptRuns.StepKeeps` | internal/workitems/action_approvals.go:964-1072 | Every read, sent, late, lost or landed statement, crash and outside transition keeps the invariant |
| `ReceiptRuns.OneCallPerReceipt` | internal/mcp/agent_receipt_gate.go:442-496 | In every run no two handlers run at once, the receipt is executed at most once, and every started handler was authorized by the row |
| `ReceiptRuns.LosingTheSettleStrands` | internal/mcp/agent_receipt_gate.go:340-365 | Losing the settle of the holding call, or its death before sending one, strands the receipt |
| `ReceiptRuns.LostSettleIsFinal` | README.md:162-162 | A stranded receipt stays in flight in every continuation: no handler starts, nothing is executed |
| `ReceiptRuns.FailedCallGivesItBack` | internal/workitems/action_approvals.go:1034-1072 | A landed failed settle returns the request to consumed, usable again exactly while it is live |
| `ReceiptRuns.CallEndDecides` | internal/mcp/agent_receipt_gate.go:358-370 | However late the settle of a call lands, the receipt is then executed if the call returned clean or was cancelled, and consumed again if it failed without being cancelled |
| `ReceiptRuns.CleanCallIsTheLast` | internal/mcp/agent_receipt_gate.go:358-370 | Once the settle of a clean or cancelled call has landed no handler starts on that receipt in any continuation |
| `ReceiptRuns.OnlyFailureGivesBack` | internal/mcp/agent_receipt_gate.go:478-496 | In every run a reserved receipt comes back only by the settle of a call that failed without being cancelled |
| `ReceiptRuns.ExecutedOrDeniedIsFinal` | internal/workitems/action_approvals.go:761-1072 | An executed or denied request changes no more and starts no handler, in any continuation |
| `ReceiptRuns.ReceiptIsUsable` | internal/mcp/agent_receipt_gate.go:442-496 | The run, for every request that fits a call: approved, consumed, read, reserved, run and settled, ending as the call ended |
| `ReceiptRuns.OutsideStepsExactly` | internal/workitems/action_approvals.go:761-945 | A request is decided exactly while pending and unexpired, consumed exactly while approved, unexpired and fresh, and marked elsewhere exactly while consumed, by its requester, for its target and artifact |
| `ReceiptRuns.ReserveLandsExactly` | internal/workitems/action_approvals.go:977-1030 | A reservation that lands takes a consumed receipt, young and fresh enough when it was sent, and otherwise changes nothing; a sender that still waits is told which |
| `Preflight.CheckRefs` | internal/api/agent_preflight.go:254-298 | The loops fail exactly when an unknown tool, skill, policy or evidence kind is named |
| `Preflight.CheckApprovalGates` | internal/api/agent_preflight.go:300-332 | The loops fail exactly when a gate is unknown or a mutation scope is unknown or uncovered; the last catalog entry of a name counts |
| `Preflight.ScanProviders` | internal/api/agent_preflight.go:346-366 | The alias and key sets detect exactly the clashes and misnamings among complete providers |
| `Preflight.CheckCapabilityDiscovery` | internal/api/agent_preflight.go:334-377 | Fail, unknown and pass of capability discovery |
| `Preflight.Verdict` | internal/api/agent_preflight.go:379-396 | Pass only if there are checks and all pass; fail exactly when one fails |
| `Preflight.Evaluate` | internal/api/agent_preflight.go:85-124 | The nine checks in order; never a pass without spec and policy |
| `Preflight.ReportExactly` | internal/api/agent_preflight.go:85-124 | Which check stands where, and that six are unknown without spec and policy |
| `Preflight.LifecycleExactly` | internal/api/agent_preflight.go:126-166 | The lifecycle check passes exactly when both versions are published or deprecated and fails exactly when one is disabled |
| `Preflight.CompatibilityExactly` | internal/api/agent_preflight.go:168-183 | The compatibility check passes and fails exactly on a known answer for the bound version |
| `Preflight.WithinExactly` | internal/api/agent_preflight.go:187-216 | A budget or timeout passes exactly up to its ceiling and fails exactly above it |
| `Preflight.SandboxExactly` | internal/api/agent_preflight.go:218-237 | The sandbox check passes exactly on an approved template of the backend catalog, and is unknown exactly when a field is absent |
| `Preflight.TaskExactly` | internal/api/agent_preflight.go:239-252 | The task check passes exactly on a known task and is unknown exactly on an absent one |
| `Preflight.CompletingKeepsBad` | internal/api/agent_preflight.go:346-366 | Completing provider entries keeps every clash |
| `Preflight.DiscoveryKeptExactly` | internal/api/agent_preflight.go:334-377 | Discovery keeps its pass exactly unless a section or provider list that was left out is supplied and does not pass, and its failure exactly unless the tool pattern is supplied to sound providers |
| `Preflight.TaskKeptExactly` | internal/api/agent_preflight.go:239-252 | The task check keeps its pass always, and its failure exactly unless the supplied catalog, left out before, knows the task |
| `Preflight.SandboxKeptExactly` | internal/api/agent_preflight.go:218-237 | The same for the templates of the sandbox backend |
| `Preflight.RefsKeptExactly` | internal/api/agent_preflight.go:254-298 | The same for tools, skills, policies and evidence kinds |
| `Preflight.GatesKeptExactly` | internal/api/agent_preflight.go:300-332 | The gate check keeps its failure exactly unless a catalog or entry name it needed was left out and what is supplied covers everything, and its pass exactly unless an entry left out its name, its mutating flag or its required approval and what is supplied leaves a scope uncovered |
| `Preflight.InformationIsOrdered` | internal/api/agent_preflight.go:85-124 | Supplying information is a preorder on the inputs |
| `Preflight.NothingIsLeast` | internal/api/agent_preflight.go:85-124 | Inputs that say nothing are below all others, section by section, list by list and field by field |
| `Preflight.InformationIsMonotone` | internal/api/agent_preflight.go:85-377 | Supplying any absent input, sections, catalogs, entries and their names and flags included, keeps every passed check exactly outside the discovery and approval holes and every failed check exactly outside the tools and catalog holes |
| `Preflight.VerdictIsMonotone` | internal/api/agent_preflight.go:379-396 | So a pass stays a pass exactly outside the first, and a fail stops failing exactly when every failed check is in its own hole and no other check comes to fail |
| `Preflight.FailKeptAt` | internal/api/agent_preflight.go:85-124 | Each of the nine checks keeps its failure exactly outside its own hole |
| `Preflight.AbsentToolsFail` | internal/api/agent_preflight.go:367-369 | An absent tools list fails enabled discovery, and supplying it passes |
| `Preflight.AbsentDiscoveryPasses` | internal/api/agent_preflight.go:339-342 | An absent discovery section passes, and supplying one can fail |
| `Preflight.AbsentCatalogFails` | internal/api/agent_preflight.go:239-252 | For every task, a task catalog left out fails it and supplying it passes |
| `Preflight.AbsentApprovalPasses` | internal/api/agent_preflight.go:318-326 | For every scope and gate, a required approval left out passes and supplying it fails |
| `Preflight.AbsentFlagPasses` | internal/api/agent_preflight.go:318-326 | For every scope and gate, a mutating flag left out passes and supplying it fails |
| `Preflight.AbsentNameMatters` | internal/api/agent_preflight.go:314-326 | For every scope and gate, an entry name left out fails the scope and supplying it passes; supplied, it can also shadow an earlier entry of that name and fail |
| `Preflight.KeyExactly` | internal/api/agent_preflight.go:356-362 | Two providers share a key exactly when kind and id are equal or part of one id, cut at a slash, sits in the other kind |
| `Preflight.KeyIsExact` | internal/api/agent_preflight.go:356-362 | So without a slash in a kind the key is exact |
| `Preflight.SlashedKindsCollide` | internal/api/agent_preflight.go:356-362 | Every kind with a slash has a different provider it is reported to duplicate |
| `StoreInit.InitStoreAttempts` | cmd/api/main.go:1918-1984 | The loop with its doubling delay computes the ladder outcome |
| `StoreInit.OneStoreIsBounded` | cmd/api/main.go:1843-1984 | 1 to 6 attempts unless cancelled, waits at most 250ms*(2^5-1), success only on a successful attempt, giving up only after the last or at the end of its time, done by the deadline or within a second of a late start |
| `StoreInit.OpensExactly` | cmd/api/main.go:1918-1984 | A store is opened exactly when its first attempt that would succeed is among the six and falls, with the waits before it, within the shared time; or, begun after it, when its last chance succeeds within a second |
| `StoreInit.LoneStoreGetsItsLadder` | cmd/api/main.go:1843-1858 | 8s leave a failing lone store all six attempts exactly when its first five take less than 250ms |
| `StoreInit.SequenceIsBounded` | cmd/api/main.go:1846-1868 | Any number of stores in sequence finish by the shared deadline plus one second per store begun after it |
| `StoreInit.InitAll` | cmd/api/main.go:1910-1916 | The failure list grows by exactly the failed stores in order, and the time bound holds |
| `StoreInit.ListedExactlyFailed` | cmd/api/main.go:1986-2004 | A name is listed if and only if its store failed |
| `ErpactSites.RoundTripExactly` | internal/api/handlers_erpact_sites.go:80-93 | For every name of the pattern, its host maps back to it if and only if its label does not start with the prefix |
| `ErpactSites.ValidateExactly` | internal/api/handlers_erpact_sites.go:126-150 | A name is accepted exactly when, trimmed and lowered, it is the prefix and 1 to 40 letters, digits and hyphens that are no system name, not the bench and do not start with the prefix again; which refusal comes otherwise |
| `ErpactSites.AnyCaseIsAccepted` | internal/api/handlers_erpact_sites.go:126-128 | Any accepted name in any mix of ASCII case validates to itself |
| `ErpactSites.ShortNameExactly` | internal/api/handlers_erpact_sites.go:80-93 | A host of the main domain maps to its label with the prefix, once, and one of the legacy domain to its label, for all labels |
| `ErpactSites.BenchesAreNoSites` | internal/api/handlers_erpact_sites.go:152-180 | The two bench hosts neither count nor take a name |
| `ErpactSites.HostRoundTrip` | internal/api/handlers_erpact_sites.go:80-150 | Every accepted name's new host maps back to exactly that name |
| `ErpactSites.DistinctNamesDistinctHosts` | internal/api/handlers_erpact_sites.go:126-150 | Distinct accepted names get distinct hosts |
| `ErpactSites.NewHostIsNotBase` | internal/api/handlers_erpact_sites.go:152-167 | No accepted name's host is taken for a base host, case folding included |
| `ErpactSites.FoldIsEquality` | internal/api/handlers_erpact_sites.go:326-329 | Among names of the pattern the case-folded duplicate test is equality |
| `ErpactSites.ValidateIsIdempotent` | internal/api/handlers_erpact_sites.go:126-150 | Validating an accepted name returns it unchanged |
| `ErpactSites.CountSites` | internal/api/handlers_erpact_sites.go:319-330 | The loop counts the sites that are not base hosts and finds the name among them, if and only if it is there |
| `ErpactSites.Sites.CheckSite` | internal/api/handlers_erpact_sites.go:286-349 | Refuses a bad name, the reached cap, a taken name, in that order; otherwise goes on to the deployer holding the mutex |
| `ErpactSites.Sites.FinishSite` | internal/api/handlers_erpact_sites.go:351-395 | Created, not made, timed out or broken after sending: what is answered, and what may still land |
| `ErpactSites.RunKeepsNamesAndCap` | internal/api/handlers_erpact_sites.go:312-395 | With the listing and the create as two calls and landings at any time between: no two on-time sites share a short name, and counted sites never exceed the larger of 15 and the initial count plus the late landings |
| `ErpactSites.SameNameMeansLate` | internal/api/handlers_erpact_sites.go:312-395 | Of two created sites that share a short name at least one landed late |
| `ErpactSites.WindowIsSafeExactly` | internal/api/handlers_erpact_sites.go:312-351 | A create that passed its check can come to share its name exactly when an earlier create of that name is unanswered |
| `ErpactSites.RetryInTheWindowShares` | internal/api/handlers_erpact_sites.go:312-351 | The run, for every name: the first create lands between the retry listing and its answer, and the later site is the one on time |
| `ErpactSites.FailureMayStillLand` | internal/erpactsites/client.go:189-201 | A create reported as failed after it was sent may still come up, for every name |

## Left out

- HTTP decoding, status codes, authentication, roles, audit entries, metrics and logging: each is settled by reading one branch.
- The commerce ledger, decisions, domains, work items other than the approval transitions, webhooks and deploy plans.
- The 32-bit width of revisions and SERIAL ids.
- The evidence list that a prefix lookup attaches to the alert it returns.
- Timestamps of registry, release and alert rows, and the free-text columns no transition reads (descriptions, details of checks).
- Listings, catalog projections and explicit resolution (`ListBindings`, `ListCatalog`, `ResolveExplicit`): reads that add only easy members.
- JSON parsing and hashing: a spec is what the registry reads of it, digests and intents are opaque values.
- Lock queues: a lock is granted when no conflicting lock is held; fairness, lock timeouts and statement timeouts are not modelled.
- The losing side of a concurrent INSERT into the alert or version tables that waits for another uncommitted row: each such statement is one atomic step.
- Invalid UTF-8: strings are sequences of Unicode scalars.
- Case folding of letters outside ASCII, except the two that fold to an ASCII letter.
- A store transaction of customer deletion other than begin that commits after its call ended unknown.
- A lost lock session in customer deletion: the handler notices within about two seconds and cancels; that window is not modelled.
- The order of a listed alert's evidence and of the two rows an ambiguous prefix finds, and evidence inserts that fail and are only logged.
- The identity reader that decides which external identities make a deletable customer: a principal either has that pair of identities or not.
- Deletion's table clean-ups inside the finishing transaction (surface links, refresh tokens, signup requests): they commit or fail with it.
- Receipt gate in observe mode, whose calls run whatever the receipt says, and the byte limits of stored fields.
- NaN budgets and timeouts: limits are compared as real numbers.
- CPU time at start-up, and which of two simultaneous events a select takes: at a tie the store is given up, as either choice leads there.
- Starting, stopping and deleting ERPact sites, and creates through another replica.
- ReceiptGate.ReadAuthorizesExactly: does not model the expired effective state, which a read answers like any other unconsumed state.
- Deletion is modelled as a state machine over values rather than as handler methods, because its steps interleave with other invocations.
