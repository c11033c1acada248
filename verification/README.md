# What `dpld` guarantees, proved

`dpld` supervises local sites, php-fpm pools, Octane servers, dev servers and
tunnels, and keeps one Postgres database per git branch behind a single name.
This project models the parts of it whose correctness is not obvious from any
one function, and proves what they guarantee.

- **Branch databases.** `Names` is how parked databases are named, and `Utf8` what
  that means for text. `Catalog` is one switch, statement by statement, over a
  catalog of databases; any psql call may fail. `BranchProtocol` runs any number
  of switches as concurrent threads under the `OPS` lock, with applications
  writing at any moment, and proves that every run refines a map from branch to
  data with one live branch, for every site that has its databases to itself.
  `BranchHazards` has, for each condition on that, the run on which it fails.
  `Watcher` is the loop that switches on its own, and what it remembers;
  `WatchedSwitches` puts it to work on the protocol.
- **Supervisors.** `Supervisor` is the crash ladder shared by dev servers, tunnels
  and Octane servers; `Octane` adds reload on save; `Fpm` is the two maps of
  running and failed masters. Time is a nondecreasing integer; exits, spawn
  results and scans are inputs. `Fingerprint` is the directory walk whose sum
  decides that a project changed; `Saves` is which files it watches and which
  saves move it.
- **The registry.** `Sites` expands a configuration into sites, fully or for one
  name. `Reconcile` says what a full and a single-site reconcile make of the
  running backends and why they agree. `Settings` follows every setting of a link
  to its route and backends. `Registry` is the object that does it in place;
  `Routing` follows routes and ports over whole runs; `Spec` is `dpl.toml`.
- **Texts and wire formats.** `Xdebug` (mode canonicalisation and master
  directories), `Hosts` (the managed block), `FastCgi`, `NodeShell` (the line
  built for nvm), `Mail` (SMTP DATA and sessions).

`Wrappers`, `Text`, `Sorting` and `Hashing` (FNV-1a, step by step) hold what these
share.

## How to read it

What the source changes in place is a class (`Postgres`, `Watch`, `SideCars`,
`AppServers`, `FpmManager`, `Registry`, `HostsFile`, `Connection`), its methods
proved equal to functions on values; the laws are lemmas about those functions.
The disk, PHP detection, package managers, base64 and whether a backend can start
are inputs. Branch and database names are bytes, because the 63-byte limit and
the cut on a character boundary are about bytes; other texts are strings.

Where the code and its own documentation part, the model follows the code:

- `switch` accepts a port other than the recorded one, swaps databases on that
  server, and records the branch as live on the site's own server
  (`BranchHazards.ForeignPortMisrecords`); the refinement holds for calls that
  name the recorded port or none.
- Nothing keeps two sites from being attached to one database on one server, as two
  links to one checkout are. Each then switches it in turn, and the second drops
  the parked copy of the branch they left
  (`BranchHazards.SharedBaseLosesABranch`, and on a first visit
  `BranchHazards.SharedBaseOverwritesABranch`). The refinement holds for every site
  that nobody shares with, also while others do (`BranchProtocol.ApartIff`,
  `BranchProtocol.TrustedSitesRefine`).
- Databases also meet when one site's base is called what another's branch is parked
  as, `app@x` beside `app`: switching to that branch takes the base away
  (`BranchHazards.NestedBaseIsTaken`). Without an `@` in a base they cannot.
- Detaching keeps the parked copies. Attached again on a branch that has one, a site
  takes its base for that branch's data, and the first switch drops the copy
  (`BranchHazards.ReattachingLosesABranch`).
- A branch name too long for a parked name shares its parked database with one
  short branch (`Names.TruncatedNameCollides`), and then a first visit to either
  makes the other's data live under its name
  (`BranchHazards.CollidingNamesMixBranches`).
- `dpl fpm restart` is what the give-up message points to, but nothing clears the
  record of a pool that gave up, so it stays down (`Fpm.GaveUpIsForever`).
- A request that finds a master dead before a tick does restarts it without
  recording a failure (`Fpm.UnseenDeathsHaveNoBound`), and a pool that is dropped
  and asked for again starts without a history (`Fpm.StoppedPoolsHaveNoBound`).
- `serving_count` agrees with `site_infos` after every reconcile, full or of one
  site, but goes on counting a site whose parked folder is then deleted
  (`Reconcile.DeletedFolderIsStillCounted`).
- The single-site path stands in for a full reconcile, but never looks at
  tunnels: a shared site that is unlinked, linked anew or given a spec keeps its
  tunnel until the next full reconcile (`Reconcile.UnsharedTunnelStays`).
- The single-site lookup misses links and folders with capitals and hidden links
  (`Sites.LookupAgreesIff` says exactly when it does not).
- The hosts file is said to be preserved outside the block; trailing blank lines
  and trailing white space go, and a stray carriage return is lost one sync later
  (`Hosts.OutsideSurvives`, `Hosts.LastSyncWinsIff`).
- A spec that turns Xdebug off leaves the site on the configured default mode
  (`Spec.OffMeansTheDefault`).
- The fingerprint is described as FNV-1a; its multiplier `0x1000_0000_01b3` is not
  the 64-bit FNV prime. What matters is that it is odd, so that every step can be
  undone (`Saves.SaveMovesItIff`).
- The automatic reload waits for one in flight; `dpl octane reload` does not, and
  its child takes the place of the one in flight (`Octane.AskedToReload`). A reload
  asked for between an edit and its undoing leaves the workers on the edit, and no
  pass notices (`Octane.UndoneEditIsMissed`, `Octane.StepKeepsUpToDateIff`).
- An automatic reload that fails restarts the server and clears its crash history,
  so failing reloads start it any number of times (`Octane.FailedReloadsHaveNoBound`);
  the bound of five starts holds for each restart, and outright while no reload
  fails.

## Model

| member | source | states |
|---|---|---|
| Names.Fnv1a | crates/dpl-core/src/branchdb.rs:90-97 | the hash loop computes the 32-bit FNV-1a fold, wrap-around included |
| Names.KnownHashes | crates/dpl-core/src/branchdb.rs:90-97 | the hashes of the empty text and of `a` are the published FNV-1a values |
| Names.BranchDbName | crates/dpl-core/src/branchdb.rs:57-73 | the loop that backs up to a character boundary, and the tag, give the parked name that the laws below are about |
| Names.CutIsTheLastBoundary | crates/dpl-core/src/branchdb.rs:57-73 | no character boundary lies between the cut and the limit |
| Names.LongNamesEndInTheirHash | crates/dpl-core/src/branchdb.rs:57-73 | a truncated name is a prefix of the full one, as long as 54 bytes and a character boundary allow, then a dash and eight hexadecimal digits that read back as the hash of the full name |
| Names.LongNamesStayDistinct | crates/dpl-core/src/branchdb.rs:57-73 | two over-long full names of one length that differ in one byte have different parked names, wherever the byte is |
| Names.ShortNamesArePlain | crates/dpl-core/src/branchdb.rs:57-63 | a full name of at most 63 bytes is parked as base, `@`, branch and nothing else |
| Utf8.BoundaryIff | crates/dpl-core/src/branchdb.rs:66-73 | in text encoded by section 3 of RFC 3629 the boundaries the cut looks for are exactly the places between characters |
| Utf8.WholeCharactersAreKept | crates/dpl-core/src/branchdb.rs:57-73 | a truncated name keeps whole characters of the full one, and as many as fit in 54 bytes |
| Names.ParkedNameIsAnIdentifierLength | crates/dpl-core/src/branchdb.rs:57-73 | every parked name, truncated or not, has at most 63 bytes |
| Names.ReadsBackIffItFits | crates/dpl-core/src/branchdb.rs:57-78 | the branch is read back from its parked name exactly when the name was not truncated |
| Names.InjectiveWhenItFits | crates/dpl-core/src/branchdb.rs:57-73 | for one base, names that fit never collide |
| Names.KeepsItsBase | crates/dpl-core/src/branchdb.rs:57-78 | a parked name starts with its base and `@`, even truncated, for bases of at most 50 bytes |
| Names.TruncatedNameCollides | crates/dpl-core/src/branchdb.rs:57-73 | every truncated name is also the parked name of some other, short branch |
| Names.FittingNamesAreGood | crates/dpl-core/src/branchdb.rs:57-73 | branches that fit have parked names distinct from each other and from the base, as the catalog proof needs |
| Names.FamiliesAreDisjoint | crates/dpl-core/src/branchdb.rs:57-78 | the databases of two bases never share a name |
| Names.GuardedNamesMeanThemselves | crates/dpl-core/src/branchdb.rs:80-88 | an accepted name put between quotes, single or double, reads back as itself and ends where it should |
| Utf8.IdentifierOfCharactersIff | crates/dpl-core/src/branchdb.rs:80-88 | of all text exactly that of one to 63 bytes is accepted with no control character, neither quote and no backslash |
| Catalog.SwitchOutcomes | crates/dpld/src/services.rs:672-706 | wherever psql calls stop succeeding, a switch ends with the two databases swapped, or untouched, or with only the stale copy dropped, or with the live data parked; enough calls and a base make it succeed |
| Catalog.InterruptedSwitchLosesNothing | crates/dpld/src/services.rs:678-699 | stopped after any statement, from a state with no parked copy of the live branch, no database's contents are gone |
| Catalog.Postgres.BranchSwitch | crates/dpld/src/services.rs:672-706 | unusable names are refused before any psql call; otherwise the catalog ends as the statement-by-statement run does, and the reply tells a clone from a swap |
| Catalog.Postgres.ParkLive | crates/dpld/src/services.rs:678-691 | the first half of a switch gets the run exactly to the point where the target is looked up, or fails with the catalog the run fails with |
| Catalog.Postgres.BringLive | crates/dpld/src/services.rs:692-706 | the second half swaps the target in or clones the parked copy, and on failure leaves the live data parked |
| Catalog.Postgres.BranchDrop | crates/dpld/src/services.rs:729-739 | dropping removes only that branch's parked database, or nothing |
| BranchProtocol.StepRefines | crates/dpld/src/branchdb.rs:89-117 | every step of every thread keeps the invariant that ties the catalog and the records to the branch map of each site with databases of its own |
| BranchProtocol.RunRefines | crates/dpld/src/branchdb.rs:89-117 | every interleaving of switches, failing psql calls and application writes refines the branch map of each such site, whatever the other sites share among themselves |
| BranchProtocol.RecordNamesTheLiveBranch | crates/dpld/src/branchdb.rs:89-117 | for each such site, whenever OPS is free and the base exists, the recorded branch is the live one, the base holds exactly its data, and no parked copy of it exists |
| BranchProtocol.NoBranchIsEverLost | crates/dpld/src/services.rs:672-706 | for each such site, at every moment of every run each known branch's data is in the base or under its parked name |
| BranchProtocol.ComesBackUnchanged | crates/dpld/src/branchdb.rs:89-117 | a whole run in which a site switches away and back, with any writes, switches and failures between, ends with its base database holding exactly what it held at the start |
| BranchProtocol.AwayAndBack | crates/dpld/src/branchdb.rs:89-117 | in the branch map, what is switched away from stays as it was, whatever is done to other branches, until it is switched back to |
| BranchProtocol.OtherDatabasesAreUntouched | crates/dpld/src/services.rs:672-706 | no run changes a database outside the attached sites' families, shared or not |
| BranchProtocol.MissingBaseStaysMissing | crates/dpld/src/services.rs:678-682 | once the base of a site with databases of its own is missing, no further switch changes its record or any of its databases |
| Catalog.MissingBaseRefuses | crates/dpld/src/services.rs:678-682 | with the base missing a switch refuses and the catalog is unchanged |
| BranchProtocol.AttachedSitesMayStart | crates/dpld/src/branchdb.rs:52-73 | freshly attached sites satisfy the invariant, each followed site having its databases to itself, an existing base and no parked copy of the live branch; where that is not so a branch or base is lost (BranchHazards.SharedBaseLosesABranch, NestedBaseIsTaken, ReattachingLosesABranch) |
| BranchProtocol.ApartIff | crates/dpld/src/branchdb.rs:52-73 | with no `@` in a base and branches that fit, sites have their databases to themselves if and only if nobody else is attached to the same database on the same server |
| BranchProtocol.TrustedSitesRefine | crates/dpld/src/branchdb.rs:52-117 | from every registry with such names, every run refines the branch map of every site that a look at the records and the catalog shows to be unshared, existing and with no parked copy of the live branch |
| BranchHazards.UndisturbedSwitch | crates/dpld/src/branchdb.rs:89-117 | in every state with OPS free and the base there, a switch with nobody else about, to the branch named or else to the one checked out, swaps the parked databases through the base, drops any parked copy of the live branch, and records the branch |
| BranchHazards.AnsweredAtOnceIff | crates/dpld/src/branchdb.rs:89-108 | a call ends before any psql call, with nothing changed and OPS free, exactly when the site is not attached, no branch is named or checked out, the branch is live already, no server answers or a name is unusable; otherwise it goes to the port asked for, the recorded one, or 5432 |
| BranchHazards.ForeignPortMisrecords | crates/dpld/src/branchdb.rs:89-117 | for every other port, there is a successful switch after which the record names a branch the site's own base does not hold |
| BranchHazards.SharedBaseLosesABranch | crates/dpld/src/branchdb.rs:52-117 | in every state where two sites share a database and record the same branch, once both have switched to a parked branch the branch they left is nowhere |
| BranchHazards.SharedBaseOverwritesABranch | crates/dpld/src/branchdb.rs:52-117 | the same for every branch, parked or not, once the application has written to it in between |
| BranchHazards.NestedBaseIsTaken | crates/dpld/src/services.rs:672-706 | if a site's base is called what another's branch is parked as, switching to that branch takes the base away and makes its data live elsewhere |
| BranchHazards.ReattachingLosesABranch | crates/dpld/src/branchdb.rs:76-86 | if a parked copy of the recorded branch exists when a site is attached, the first switch loses it |
| BranchHazards.CollidingNamesMixBranches | crates/dpld/src/services.rs:672-706 | for every two branches with one parked name, there is a successful first visit to one that makes the other's data live and leaves the other no parked copy |
| Watcher.Watch.Poll | crates/dpld/src/branchdb.rs:164-191 | one round tries exactly the sites due and updates the memory of failures as the whole history demands |
| Watcher.RemembersExactlyRefusals | crates/dpld/src/branchdb.rs:164-191 | what is remembered for a site is exactly a failed attempt that nothing has cleared since |
| Watcher.AttemptsUnlessRefused | crates/dpld/src/branchdb.rs:164-191 | the watcher switches if and only if HEAD is a named branch other than the recorded one and no standing refusal names it |
| Watcher.NoBlindRetry | crates/dpld/src/branchdb.rs:160-191 | between two attempts on one HEAD after a failure, another named HEAD or a caught-up record was seen |
| WatchedSwitches.OneAttemptACheckout | crates/dpld/src/branchdb.rs:160-191 | after an attempt, as long as no other branch is checked out and nobody else records the site, no later round calls `switch` for the site again, and the record names that HEAD if and only if the attempt succeeded |
| WatchedSwitches.AttemptTellsTheRecord | crates/dpld/src/branchdb.rs:89-191 | a call of the watcher's, among everything else that goes on, succeeds if and only if the record names that HEAD when it ends |
| WatchedSwitches.NothingUntilCleared | crates/dpld/src/branchdb.rs:160-191 | after a failed attempt nothing is called for the site until another branch is seen or the site is recorded |
| WatchedSwitches.MemoryIsOfTheLooks | crates/dpld/src/branchdb.rs:164-191 | over every history with the protocol the watcher's memory is what its looks leave, so that its laws apply |
| Supervisor.SideCars.Ensure | crates/dpld/src/devserver.rs:91-131 | ensuring keeps a healthy child, replaces a reconfigured one, and starts a dead one only as the ladder allows |
| Supervisor.SideCars.Retain | crates/dpld/src/devserver.rs:134-143 | exactly the children to keep are kept, unchanged |
| Supervisor.SideCars.Supervise | crates/dpld/src/devserver.rs:147-171 | one pass ticks every child once and touches no other; what a tick does is what the laws below say |
| Supervisor.SideCars.Restart | crates/dpld/src/jetty.rs:216-225 | an intervention clears the failures and starts the child, for a known site only |
| Supervisor.TriedWhenDue | crates/dpld/src/devserver.rs:147-171 | over any run of passes a child that waits is tried at the first pass at or after its time, and not at all if and only if no pass is that late |
| Supervisor.FailuresWaitTheirRung | crates/dpld/src/devserver.rs:27-33 | a child found dead, or that could not be spawned, as its n-th failure in a row with n at most 4, is next tried at the first pass 2, 10, 30 or 60 seconds later (2, 5, 15 or 60 on the backend ladder), by n, and by none before |
| Supervisor.FifthFailureIsTheLast | crates/dpld/src/devserver.rs:216-248 | after the fifth failure in a row no pass tries it |
| Supervisor.FailuresNeverPassTheCap | crates/dpld/src/devserver.rs:216-248 | in any run whatever the failure count stays at most five, below five while the child is up |
| Supervisor.GivenUpMeansLeftAlone | crates/dpld/src/devserver.rs:147-171 | a child at the cap is never started again without an intervention |
| Supervisor.LoopsAreAccountedFor | crates/dpld/src/devserver.rs:147-171 | while every start dies young, failures count the starts and each start waited its turn |
| Supervisor.CrashLoopsAreBounded | crates/dpld/src/devserver.rs:91-171 | a fresh child that never lasts is started at most five times, each after its backoff, the fifth at least the whole ladder after the first |
| Supervisor.CrashLoopsAfterRestart | crates/dpld/src/jetty.rs:188-225 | the same after an intervention, its own start being the first of five |
| Supervisor.DueMeansStarted | crates/dpld/src/jetty.rs:188-214 | a child that is down, below the cap and past its wait is started by the next pass or ensure |
| Supervisor.LastingIsForgiven | crates/dpld/src/devserver.rs:147-248 | a child that lasted 30 seconds is forgiven: seen up its failures are none, seen dead it has one and waits the first rung |
| Octane.AppServers.Ensure | crates/dpld/src/appserver.rs:168-231 | an unchanged setup keeps process and port; a changed one is replaced, or dropped when it cannot start; a port comes back exactly when a server is there |
| Octane.AppServers.Retain | crates/dpld/src/appserver.rs:234-244 | exactly the servers to keep are kept, unchanged |
| Octane.AppServers.Supervise | crates/dpld/src/appserver.rs:261-315 | one pass treats every server once and adds or drops none |
| Octane.AppServers.SuperviseOne | crates/dpld/src/appserver.rs:261-315 | the imperative pass over one server is the pass the laws are about |
| Octane.AppServers.Reload | crates/dpld/src/appserver.rs:318-331 | asking for a reload reloads a live server and restarts a dead one, for a known site only |
| Octane.AppServers.Restart | crates/dpld/src/appserver.rs:333-351 | a restart keeps the server's place and port and forgets its failures |
| Octane.RestartsTakeTwoSeconds | crates/dpld/src/appserver.rs:333-351 | a restarted server, whatever it went through before, is down with a clean slate on its port, and tried at the first pass two seconds later or more and by none before |
| Octane.CrashesWaitTheirRung | crates/dpld/src/appserver.rs:258-315 | a crash found by a pass as the n-th in a row with n at most 4 is next tried at the first pass 2, 5, 15 or 60 seconds later, by n, and by none before |
| Octane.NoChangeIsLost | crates/dpld/src/appserver.rs:258-351 | after any history of passes, crashes, restarts, watch settings and requested reloads that find the tree as last seen, and a pass that looked at the tree, a change is pending or the last reload or baseline was at the fingerprint just seen |
| Octane.StepKeepsUpToDateIff | crates/dpld/src/appserver.rs:258-351 | of the events, exactly those that find the tree as last seen, or a change pending, keep the workers known to be up to date |
| Octane.UndoneEditIsMissed | crates/dpld/src/appserver.rs:318-331 | a reload requested after an edit that is then undone leaves the workers on the edit with nothing pending |
| Octane.WatchingAnewStartsOver | crates/dpld/src/appserver.rs:168-194 | watching that comes on again remembers the tree at its first look and reloads nothing until it changes; turned on when on it changes nothing |
| Octane.ReloadsDoNotOverlap | crates/dpld/src/appserver.rs:561-568 | the watcher reloads only with none in flight, only when a change has settled, never at a baseline, and once |
| Octane.BurstOnlyMarks | crates/dpld/src/appserver.rs:561-568 | while saves keep landing nothing is reloaded and the change stays noted |
| Octane.QuietReloadsOnce | crates/dpld/src/appserver.rs:258-315 | once quiet, a noted change is reloaded exactly once, at the first pass with no reload in flight |
| Octane.BurstReloadsOnce | crates/dpld/src/appserver.rs:258-315 | a burst of any length followed by quiet gives exactly one reload, at the last fingerprint |
| Octane.ReloadsAreCounted | crates/dpld/src/appserver.rs:258-331 | the reloads a server reports are those done to it, over every run |
| Octane.RunFollowsTheLadder | crates/dpld/src/appserver.rs:373-404 | while no reload fails, an Octane process behaves as a supervised child in every run |
| Octane.FailuresStayCapped | crates/dpld/src/appserver.rs:258-351 | in every run of passes, requested reloads, restarts and watch settings the failure count stays at most five, below five while the server is up |
| Octane.LaunchedStaysCapped | crates/dpld/src/appserver.rs:168-351 | so in every run from a server's launch on |
| Octane.FiveStartsPerRestart | crates/dpld/src/appserver.rs:258-351 | in every such run whose starts all die young there are at most five starts, and five more for each restart, whoever asked for it |
| Octane.OctaneCrashLoopsAreBounded | crates/dpld/src/appserver.rs:258-315 | as long as no reload in flight fails and each can be spawned, a server whose starts all die young is started at most five times, each after its backoff, over at least 82 seconds |
| Octane.FailedReloadsHaveNoBound | crates/dpld/src/appserver.rs:267-315 | for every number there is a run of passes alone, all starts young, with that many starts through failed automatic reloads, whether they exit badly or cannot be spawned |
| Fpm.FpmManager.Ensure | crates/dpld/src/fpm.rs:173-271 | a running master is reused, a dead one reaped, and one is started only if the ladder allows and it can be spawned; a port comes back exactly when a master runs |
| Fpm.FpmManager.Supervise | crates/dpld/src/fpm.rs:421-455 | exactly the exited masters move to the failed map with one more failure |
| Fpm.FpmManager.RespawnFailed | crates/dpld/src/fpm.rs:466-479 | exactly the failed keys that are due and can be spawned come back, with their history |
| Fpm.FpmManager.ApplyStats | crates/dpld/src/fpm.rs:376-409 | a round of scrapes clears failures only of masters whose port answered, and of all of them as ports are distinct; nothing else changes |
| Fpm.FpmManager.Retain | crates/dpld/src/fpm.rs:495-508 | exactly the wanted masters keep running; the failed map is untouched |
| Fpm.FpmManager.RestartAll | crates/dpld/src/fpm.rs:293-303 | every master stops; the failed map is untouched |
| Fpm.RunKeepsValid | crates/dpld/src/fpm.rs:173-492 | in every reachable state live and failed keys are disjoint, live ones below five failures, failed ones between one and five |
| Fpm.GaveUpIsForever | crates/dpld/src/fpm.rs:173-303 | a key at the cap is never started again by any sequence of operations |
| Fpm.AtMostFiveStarts | crates/dpld/src/fpm.rs:421-492 | with deaths seen by ticks and no answered scrape, a key is started at most five times |
| Fpm.UnseenDeathsHaveNoBound | crates/dpld/src/fpm.rs:188-196 | deaths first seen by requests allow any number of starts |
| Fpm.StoppedPoolsHaveNoBound | crates/dpld/src/fpm.rs:495-508 | a pool dropped and asked for again is started any number of times |
| Fpm.StartsRespectTheLadder | crates/dpld/src/fpm.rs:482-492 | no operation starts a key at the cap or inside its backoff window, and a start keeps the failure count |
| Fpm.DueIsRevived | crates/dpld/src/fpm.rs:466-492 | a startable dead key below the cap is running after a tick if and only if its backoff is over |
| Fpm.DeathsWaitTheirRung | crates/dpld/src/fpm.rs:421-492 | a master whose death a tick sees as the n-th in a row is revived by a later tick if and only if n is at most 4 and 2, 5, 15 or 60 seconds, by n, have passed and it can be spawned |
| Fpm.AnsweringForgives | crates/dpld/src/fpm.rs:376-455 | the next death of a pool that answered counts as its first, any other's as one more |
| Fingerprint.HashBytes | crates/dpld/src/appserver.rs:664-671 | the hash loop computes the wrap-around fold, a zero seed standing for the offset |
| Fingerprint.Fingerprint | crates/dpld/src/appserver.rs:618-660 | the stack-driven walk adds up the stamps of exactly the watched files, each once, as long as the project has at most 20000 entries; else of those among as many entries as the budget allows |
| Fingerprint.OneFileMovesItByItsShare | crates/dpld/src/appserver.rs:605-660 | creating, deleting or editing one file moves the fingerprint if and only if that file's stamp changes, and by the difference |
| Fingerprint.PuttingItBackRestoresIt | crates/dpld/src/appserver.rs:605-660 | adding and removing a file, or editing it back, restores the fingerprint |
| Fingerprint.OrderDoesNotMatter | crates/dpld/src/appserver.rs:605-660 | directory listing order is irrelevant |
| Saves.WatchesIff | crates/dpld/src/appserver.rs:590-658 | a file is watched exactly if it is `.env`, `composer.lock` or `artisan` at the root, or a `.php` file reached from one of the seven watched directories through listed directories that are neither hidden nor one of the five skipped ones |
| Saves.ShareIsChain | crates/dpld/src/appserver.rs:660-683 | a file adds to the sum the hash of its place, its name, its size in eight little-endian bytes and its modification time as eight bytes of seconds and four of nanoseconds, one after another |
| Saves.ChainsMeetIff | crates/dpld/src/appserver.rs:664-671 | hashing the same words from two seeds gives the same only where one hash on the way is 0 and the other the offset, which `hash_of` takes for the same |
| Saves.SaveMovesItIff | crates/dpld/src/appserver.rs:660-683 | a save that changes one byte of what is hashed of a watched file changes the fingerprint if and only if the hashes do not meet in that way further on |
| Saves.NanosecondsMoveIt | crates/dpld/src/appserver.rs:673-683 | a save that changes one byte of the nanoseconds always changes the fingerprint |
| Saves.SecondsMoveItIff | crates/dpld/src/appserver.rs:673-683 | one that changes one byte of the seconds changes it unless one hash after the seconds is 0 and the other the offset |
| Saves.SizeMovesItIff | crates/dpld/src/appserver.rs:673-683 | one that changes one byte of the size changes it unless the hashes after the size or after the seconds are so |
| Saves.SizeAloneMovesIt | crates/dpld/src/appserver.rs:673-683 | of a file without a modification time a change of one byte of its size always changes the fingerprint |
| Saves.CreatingMovesItIff | crates/dpld/src/appserver.rs:618-660 | creating or deleting a watched file changes the fingerprint if and only if its share is not 0 |
| Saves.RenamingMovesItIff | crates/dpld/src/appserver.rs:618-683 | renaming a watched file by one byte changes the fingerprint if and only if the hashes do not meet |
| Xdebug.Parse | crates/dpl-core/src/xdebug.rs:52-80 | parsing gives the one canonical mode of the set named, or the error for an unknown name or a combined `off` |
| Xdebug.AcceptedIff | crates/dpl-core/src/xdebug.rs:50-84 | a list is accepted exactly if it names only the seven modes, with `off` alone; the unknown-name error is for exactly the lists with another name |
| Xdebug.OneModeIsRead | crates/dpl-core/src/xdebug.rs:50-84 | a mode by itself is read in any case and with any white space about it |
| Xdebug.NothingNamedIsOff | crates/dpl-core/src/xdebug.rs:50-60 | a list of nothing but commas and white space means `off` |
| Xdebug.HasIsMembership | crates/dpl-core/src/xdebug.rs:93-95 | a parsed mode has exactly the parts its spelling names |
| Xdebug.EqualIffSameSet | crates/dpl-core/src/xdebug.rs:30-36 | two accepted spellings are equal if and only if they name the same set of modes |
| Xdebug.ReparsingIsIdentity | crates/dpl-core/src/xdebug.rs:52-85 | parsing the canonical text gives the same mode |
| Text.TrimTakesTheEdges | crates/dpl-core/src/xdebug.rs:55 | trimming takes away all white space at both ends and nothing else |
| Text.LessIff | crates/dpl-core/src/sites.rs:511 | names are ordered by the first character in which they differ, or else by length |
| Xdebug.MasterDirsAreDistinct | crates/dpld/src/fpm.rs:783-796 | for one PHP binary two masters share a directory if and only if mode, profiler and preload hash are equal |
| Xdebug.MasterDirSays | crates/dpld/src/fpm.rs:782-796 | the directory spells, between dashes, `fpm`, exactly the modes, `spx` with the profiler, and the preload hash in sixteen hexadecimal digits that read back as it |
| Sites.Resolve | crates/dpl-core/src/sites.rs:439-513 | the expansion is strictly sorted by name and holds, under every name, exactly the first link or else the first parked folder that claims it |
| Sites.ResolveOne | crates/dpl-core/src/sites.rs:520-576 | on a tidy configuration the early-return lookup gives the site the full expansion has under that name |
| Sites.ShortcutAgrees | crates/dpl-core/src/sites.rs:515-576 | for every slash-free query the shortcut and the expansion agree, also on there being no such site |
| Sites.ShortcutFindsTheRow | crates/dpl-core/src/sites.rs:515-576 | the shortcut's answer is the very row of the expanded list |
| Sites.ShortcutAgreesIff | crates/dpl-core/src/sites.rs:515-576 | on tidy parked folders the shortcut is right about every slash-free query if and only if each name that links claim is neither empty nor dotted, is itself a key, and that link expands as the first claimant does |
| Sites.LookupAgreesIff | crates/dpl-core/src/sites.rs:515-576 | for any links and folders, the shortcut is right about every slash-free query if and only if it reaches the links so and the first folder listed under each name no link claims is spelled in lower case |
| Sites.CapitalisedLinkIsMissed | crates/dpl-core/src/sites.rs:450-456 | a link key with capitals is listed but not found by the shortcut |
| Sites.CapitalisedFolderIsMissed | crates/dpl-core/src/sites.rs:481-490 | a folder with capitals is listed but not found where the disk tells capitals apart |
| Sites.HiddenLinkIsMissed | crates/dpl-core/src/sites.rs:520-525 | an empty or dotted link key is listed and never found |
| Sites.TableHoldsEverySite | crates/dpl-core/src/sites.rs:439-513 | the table of sites has every site and nothing else, under its own name |
| Sites.OtherSitesStay | crates/dpl-core/src/sites.rs:439-513 | changing, adding or removing one link leaves every other site as it was |
| Sites.BranchDbChangesNoSite | crates/dpld/src/registry.rs:1610-1630 | recording a branch database changes no resolved site, so that it needs no reconcile |
| Sites.SiteIsCalledAfterItsFolder | crates/dpl-core/src/sites.rs:430-435 | a folder is called by its last component in lower case, whatever it is in |
| Sites.HiddenFolderIsNoSite | crates/dpl-core/src/sites.rs:476-490 | a folder whose name begins with a dot is neither listed nor found, unless a link claims the name |
| Sites.PoolSize | crates/dpl-core/src/config.rs:124-132 | a pool may have as many children as configured, at least one, and forty by default |
| Settings.FullRoutesAsConfigured | crates/dpld/src/registry.rs:412-534 | after a full reconcile every link that claims its name is routed with the binary of its pin if that is installed, else of the configured default or the default binary; with its own Xdebug mode or the configured one; with its profiler, preload script and TLS flag; from its `public` folder if it has one; and parked folders by the defaults alone |
| Settings.FastRoutesAsConfigured | crates/dpld/src/registry.rs:557-654 | so is the site the single-site path looks up |
| Settings.FullRunsAsConfigured | crates/dpld/src/registry.rs:481-517 | after a full reconcile a link has an Octane server only if it asks for one, and always if one can start; a dev server and a tunnel exactly if it asks for them; each with what the link asks for |
| Settings.FullRunsParked | crates/dpld/src/registry.rs:412-534 | a parked folder is routed by the defaults with nothing beside php-fpm |
| Settings.FastRunsAsConfigured | crates/dpld/src/registry.rs:557-654 | after the single-site path the looked-up link has its Octane and dev servers so |
| Settings.PinnedSitesIgnoreTheDefault | crates/dpld/src/registry.rs:424-433 | another default binary changes no route whose pin is installed |
| Settings.RowsKeepTheirTags | crates/dpl-core/src/sites.rs:439-513 | every listed site has its configured tags and the primary top-level domain, `test` if none is configured; a parked one is watched |
| Reconcile.EnsureOneMore | crates/dpld/src/registry.rs:449-458 | ensuring the sites' masters one after another, repeats included, is ensuring the set of their keys |
| Reconcile.FullSettles | crates/dpld/src/registry.rs:412-546 | a full reconcile leaves exactly the backends called for that can start; repeating it would change none of them |
| Reconcile.FastPathAgrees | crates/dpld/src/registry.rs:557-654 | from a settled state with unchanged pool settings, after a change of one site, the fast path leaves the same routes up to port numbers, the same live masters, Octane servers and dev servers as a full reconcile |
| Reconcile.ChangedSettingsRestartEveryMaster | crates/dpld/src/registry.rs:435-458 | when the pool settings changed no master keeps its old process, and those that ran and are still called for come back with a clean history if they can be spawned |
| Reconcile.RepairStartsAnew | crates/dpld/src/registry.rs:1028-1038 | after a repair every master, Octane server and dev server is a new one, and the tunnels are as a reconcile alone would leave them |
| Reconcile.OneLinkIsOneSite | crates/dpld/src/registry.rs:557-560 | setting or removing one link changes the table at that name only, and the fast path's lookup is the new entry |
| Reconcile.OneLinkFastPathAgrees | crates/dpld/src/registry.rs:548-654 | the agreement from configuration to backends, including a removed link that uncovers a parked folder; exactly the configured sites are then routed |
| Reconcile.FastSettles | crates/dpld/src/registry.rs:557-654 | the fast path leaves a settled state, so single changes can follow one another |
| Reconcile.ChangeSettles | crates/dpld/src/registry.rs:548-654 | what every single-site mutation owes: from a settled state it leaves a settled state, the backends and the served sites of a full reconcile, all of them configured, and settled tunnels exactly if the site's share stays |
| Reconcile.SettledServesConfigured | crates/dpld/src/registry.rs:392-408 | in a settled state as many sites are counted as serving as the listing marks so |
| Reconcile.DeletedFolderIsStillCounted | crates/dpld/src/registry.rs:392-408 | for every startable parked folder, reconciled and then deleted, the cheap count and the listing's differ |
| Reconcile.TunnelsAgreeIff | crates/dpld/src/registry.rs:507-517 | on settled tunnels the fast path and a full reconcile leave the same tunnels if and only if the changed site asks for what it asked for before; a full reconcile settles them |
| Reconcile.SameShareIsKept | crates/dpld/src/registry.rs:507-517 | a change that leaves a link's share alone leaves what the site asks for alone |
| Reconcile.UnsharedTunnelStays | crates/dpld/src/registry.rs:766-774 | a shared site unlinked, linked anew or given a spec keeps its tunnel, which a full reconcile stops |
| Registry.Registry.ReconcilePools | crates/dpld/src/registry.rs:449-458 | the ensure loop and the retain leave a master for every key called for that is live or startable, and no other |
| Registry.Registry.ReconcileOctane | crates/dpld/src/registry.rs:481-494 | the loop leaves exactly the Octane servers called for and reports exactly their ports |
| Registry.Registry.ReconcileDev | crates/dpld/src/registry.rs:496-505 | the loop leaves exactly the dev servers called for |
| Registry.Registry.ReconcileTunnels | crates/dpld/src/registry.rs:507-517 | the loop leaves exactly the tunnels called for |
| Registry.Registry.ReconcileRoutes | crates/dpld/src/registry.rs:519-534 | the table is rebuilt with one route a site and its upstream |
| Registry.Registry.Reconcile | crates/dpld/src/registry.rs:412-546 | the whole object ends in the state a full reconcile means, settled, settings refreshed, and every link's and parked folder's route and backends as the configuration asks, setting by setting, a site being served exactly with an Octane port or a master for its own key; the sites served are all configured, so that the two counts agree |
| Registry.Registry.ReconcileSite | crates/dpld/src/registry.rs:557-654 | the whole object ends in the state the single-site reconcile means, with the site's route and backends as its link or the defaults ask, or no route; only an unknown pin refreshes the detection |
| Registry.Registry.Link | crates/dpld/src/registry.rs:714-741 | linking sets one default link under the lower-cased name, handled as a full reconcile would have but for a tunnel it had, or refuses and changes nothing |
| Registry.PlainLinkAsksForNothing | crates/dpld/src/registry.rs:714-741 | the default link asks for nothing: the site has the configured PHP and Xdebug mode and nothing else set |
| Registry.Registry.Relink | crates/dpld/src/registry.rs:743-764 | moving a site changes its path and no other setting, handled as a full reconcile would have |
| Registry.Registry.Unlink | crates/dpld/src/registry.rs:766-774 | unlinking removes that link only, handled as a full reconcile would have but for its tunnel, or changes nothing |
| Registry.Registry.SetSecure | crates/dpld/src/registry.rs:1632-1649 | the flag changes on that link only, handled as a full reconcile would have, or nothing does |
| Registry.Registry.SetBranchDb | crates/dpld/src/registry.rs:1610-1630 | only the database, branch and port of that link change, and neither sites nor backends do |
| Registry.Registry.SuperviseAppservers | crates/dpld/src/registry.rs:1277-1279 | a supervision pass is one event of the runs over which routes and ports are followed |
| Registry.Registry.ReloadOctane | crates/dpld/src/registry.rs:1282-1290 | so is a requested reload, for a site that has a server |
| Registry.Registry.RestartOctane | crates/dpld/src/registry.rs:1293-1301 | so is a restart, for a site that has a server |
| Registry.Registry.ApplySpec | crates/dpld/src/registry.rs:1452-1546 | the link at a directory ends as the spec says, the rest of the configuration as it was; the warnings are exactly those for what was degraded or is not installed, and the change is handled as a full reconcile would have but for a tunnel it had |
| Registry.Registry.RepairBackends | crates/dpld/src/registry.rs:1028-1038 | php-fpm, Octane and dev servers are torn down and brought back as a full reconcile of the reloaded configuration, every site as configured; the state is settled and the two counts agree |
| Registry.Registry.ResolveRequest | crates/dpld/src/registry.rs:246-262 | a request is answered exactly for the sites counted as serving, with the site's TLS flag and document root, its Octane port if it has one, and the live master's port or 0 |
| Registry.Registry.ServingCount | crates/dpld/src/registry.rs:398-408 | the count is the routed sites with a live backend plus the proxies |
| Registry.Registry.SiteInfos | crates/dpld/src/registry.rs:264-390 | the listing is ordered, has every site and proxy, and its serving rows are the proxies and the listed sites with a live backend; they number what the cheap count says if and only if every served site is still configured |
| Registry.Registry.LinkRowSays | crates/dpld/src/registry.rs:264-390 | a link's row has its host under the primary top-level domain, its path, TLS flag, mode, database and branch, and says it serves exactly if it is counted |
| Registry.Registry.ParkedRowSays | crates/dpld/src/registry.rs:264-390 | a parked folder's row has its host and folder, the configured mode, no TLS and no database |
| Registry.Registry.ProxyRowSays | crates/dpld/src/registry.rs:264-390 | a proxy's row has its host and target and always serves |
| Routing.RunsStayInStep | crates/dpld/src/registry.rs:483-647 | over every run a route has upstream port p exactly when the supervised server of that site has port p |
| Routing.InStepFromTheStart | crates/dpld/src/registry.rs:483-647 | so from an empty state on, whatever is done |
| Routing.PortsAreStable | crates/dpld/src/appserver.rs:168-194 | a site's port never changes while its setup stays the same, barring a teardown of all backends |
| Routing.ServersKeepPorts | crates/dpld/src/appserver.rs:511-519 | supervision, reloads, crashes and restarts change no port, setup or route |
| Spec.Export | crates/dpld/src/registry.rs:1551-1574 | the capture is of the first link, in key order, at that directory, or there is none |
| Spec.ApplyingIsIdempotent | crates/dpld/src/registry.rs:1452-1546 | applying a spec again changes nothing, even on another branch, unless a database was attached with no branch to record and one is checked out now |
| Spec.CaptureRestoresIff | crates/dpld/src/registry.rs:1551-1574 | capturing and applying gives the same configuration if and only if the link holds nothing a spec cannot carry |
| Spec.CaptureRestoresWhatWasApplied | crates/dpld/src/registry.rs:1452-1574 | the capture of what a spec produced restores exactly it, live-branch marker included |
| Spec.OthersAreLeftAlone | crates/dpld/src/registry.rs:1520-1543 | applying touches no other link |
| Spec.OffMeansTheDefault | crates/dpld/src/registry.rs:1461-1471 | a spec with Xdebug off leaves the site on the default mode |
| Spec.WarningsHaveReasons | crates/dpld/src/registry.rs:1452-1546 | each warning is given exactly once and exactly for its reason: a mode list that does not parse, a runtime that is not known, a preload script that is no file, a dev script with no package.json or not among its scripts, a PHP version that is not installed |
| Spec.LiveBranchIsKept | crates/dpld/src/registry.rs:1513-1543 | the live branch recorded is none without a database, the one recorded before for the same database, or else the one checked out |
| Spec.AppliedSettingBySetting | crates/dpld/src/registry.rs:1452-1546 | every setting of the applied link is the spec's, except those that would not work, which are left out; the default port is not written down and nothing is shared |
| Hosts.KeptText | crates/dpl-helper/src/main.rs:355-367 | the loop with its block flag keeps exactly the lines outside the managed blocks |
| Hosts.HostsFile.SyncHosts | crates/dpl-helper/src/main.rs:348-387 | one invalid name or an unreadable file changes nothing; otherwise the file becomes the kept text and one block |
| Hosts.BlockReadsBack | crates/dpl-helper/src/main.rs:345-379 | whatever the file held, the block reads back as exactly the hosts given |
| Hosts.BlockIsRead | crates/dpl-helper/src/main.rs:371-379 | a reader of hosts files takes from the block each host, in order, at 127.0.0.1, and the markers as comments |
| Hosts.BlockIsMarked | crates/dpl-helper/src/main.rs:331-379 | the block stands between the two marker lines, and there is none without hosts |
| Hosts.OrdinaryHostsAreValid | crates/dpl-helper/src/main.rs:336-343 | a name of letters, digits and dashes under a top-level domain, within 253 characters, is accepted |
| Hosts.StrayCharactersAreRefused | crates/dpl-helper/src/main.rs:336-343 | a name with anything that ends a host's line or field, or quotes something, is refused |
| Hosts.OddHostsAreRefused | crates/dpl-helper/src/main.rs:336-343 | so is one that is empty, over 253 characters, or begins with a dot or a dash |
| Hosts.OutsideSurvives | crates/dpl-helper/src/main.rs:355-368 | lines outside survive in order up to line endings and trailing blanks |
| Hosts.LastSyncWinsIff | crates/dpl-helper/src/main.rs:345-387 | syncing one list and then another (or clearing) equals syncing the second alone if and only if no kept line ends in a stray carriage return |
| Hosts.PlainFilesHaveNone | crates/dpl-helper/src/main.rs:357-365 | a file without carriage returns meets that condition |
| Hosts.DoubleReturnIsLostLater | crates/dpl-helper/src/main.rs:355-368 | every file with a line ending in two carriage returns fails the condition and is changed again by the next sync |
| Hosts.StrayReturnExample | crates/dpl-helper/src/main.rs:355-368 | for one, two short lines |
| FastCgi.LenRoundTripsIff | crates/dpld/src/fastcgi.rs:132-142 | a length decodes to itself, by section 3.4 of the FastCGI 1.0 specification, if and only if it is below 2^31 |
| FastCgi.PairsRoundTrip | crates/dpld/src/fastcgi.rs:124-142 | every list of pairs with lengths below 2^31 decodes to itself |
| FastCgi.RecordsRoundTrip | crates/dpld/src/fastcgi.rs:92-111 | every sequence of records, padded or not, splits apart again as section 3.3 lays it out |
| FastCgi.Connection.WriteRecord | crates/dpld/src/fastcgi.rs:92-111 | one record is appended, or content over 65535 bytes refused with nothing written |
| FastCgi.Connection.WriteStream | crates/dpld/src/fastcgi.rs:113-122 | the records carry the payload in order, none empty and each of 32 KiB but the last |
| FastCgi.Connection.WriteRequest | crates/dpld/src/fastcgi.rs:44-58 | begin, parameters, terminator, body, terminator, and nothing else is sent |
| FastCgi.RequestRoundTrips | crates/dpld/src/fastcgi.rs:44-58 | a peer splits the message into those records, of types 4 and 5 and 32 KiB each but the last of a stream, and reads exactly the pairs and the body |
| FastCgi.PeerReadsTheRequest | crates/dpld/src/fastcgi.rs:32-58 | an application that goes by that specification's numbers (version 1, types 1, 4 and 5, responder role 1, no keep-alive) reads from a whole request exactly the pairs and the body |
| FastCgi.Connection.ReadResponse | crates/dpld/src/fastcgi.rs:60-90 | the read loop gives the response the remaining bytes mean, or the error for an early end |
| FastCgi.Connection.Request | crates/dpld/src/fastcgi.rs:32-90 | one exchange sends what an application by section 8 of the FastCGI 1.0 specification reads as exactly the pairs and the body, and returns what the bytes that come back mean |
| FastCgi.ResponseIsStdout | crates/dpld/src/fastcgi.rs:60-90 | the response is the concatenation of STDOUT contents up to the first END_REQUEST, whatever the padding and whatever follows |
| FastCgi.ResponseIsTypeSix | crates/dpld/src/fastcgi.rs:60-90 | by its numbers the response is the contents of the records of type 6 up to the first of type 3 |
| FastCgi.SuccessMeansEnded | crates/dpld/src/fastcgi.rs:60-90 | the reader succeeds only on such a sequence of records |
| NodeShell.QuotedIsOneWord | crates/dpl-core/src/node.rs:409-413 | the shell reads a quoted word back as exactly that word, whatever it holds |
| NodeShell.LineMeansWhatItShould | crates/dpl-core/src/node.rs:372-401 | by sections 2.2.1, 2.2.2 and 2.3 of the Shell Command Language the line is the script after `.`, the version switch, and the command and arguments after `exec` |
| NodeShell.LinesAreDistinct | crates/dpl-core/src/node.rs:389-398 | two calls that differ in script, version, command or arguments build different lines |
| NodeShell.NormalizeRange | crates/dpl-core/src/node.rs:109-119 | the loop takes the first run of digits |
| NodeShell.FirstNumberIsTheFirstRun | crates/dpl-core/src/node.rs:109-119 | what is taken is the first run of digits, whole |
| NodeShell.PinnedInvocation | crates/dpl-core/src/node.rs:334-400 | with no manager, pin, usable version or script the command runs directly; fnm gets it after `--`; the shell line for nvm tokenises to sourcing, switching and this command |
| Mail.ReadBody | crates/dpld/src/mail.rs:214-232 | the read loop gives the unstuffed body up to a lone dot and stops just past it |
| Mail.StuffedReadsBack | crates/dpld/src/mail.rs:214-232 | for any lines and any following input the reader stops just past the terminator, holding each line less trailing carriage returns |
| Mail.BodyIsExactIff | crates/dpld/src/mail.rs:214-232 | a body dot-stuffed per section 4.5.2 of RFC 5321 is stored with its original lines if and only if none ends in a carriage return |
| Mail.AddressIsFound | crates/dpld/src/mail.rs:274-282 | the address between the first angle brackets is extracted, whatever surrounds them |
| Mail.AddressAfterColon | crates/dpld/src/mail.rs:274-282 | without brackets it is what follows the first colon, less white space |
| Mail.VerbIsTheFirstWord | crates/dpld/src/mail.rs:76-128 | a line is taken for the command it begins with, in capitals or not |
| Mail.SanitizeMailbox | crates/dpld/src/mail.rs:201-211 | a mailbox name is non-empty, not `null`, at most 64 characters and all harmless |
| Mail.HarmfulMakesNoDifference | crates/dpld/src/mail.rs:201-211 | a harmful character anywhere in a user name, white space included, and case make no difference to the mailbox |
| Mail.MailboxOfHarmless | crates/dpld/src/mail.rs:201-211 | a lower-case name of harmless characters is its own mailbox, cut at 64, unless empty or `null` |
| Mail.SanitizingIsIdempotent | crates/dpld/src/mail.rs:201-211 | what sanitising leaves, sanitising again leaves alone |
| Mail.Authenticate | crates/dpld/src/mail.rs:140-177 | each exchange sends one challenge for each line its mechanism calls for, reads exactly those, and names the user they give |
| Mail.PlainNamesItsUser | crates/dpld/src/mail.rs:134-196 | by RFC 4616 PLAIN names the user between the two NULs of its response, given at once or as the one further line |
| Mail.LoginNamesItsUser | crates/dpld/src/mail.rs:134-177 | LOGIN names the user it is given at once or as the first further line, and always reads a password |
| Mail.OtherMechanismsNameNobody | crates/dpld/src/mail.rs:134-177 | any other mechanism reads nothing further and names nobody |
| Mail.Handle | crates/dpld/src/mail.rs:68-132 | the session loop stores and replies exactly what the session means |
| Mail.OneItem | crates/dpld/src/mail.rs:68-132 | a message or an authentication is taken as one item: its lines never act as commands |
| Mail.StoreHoldsWhatWasSent | crates/dpld/src/mail.rs:68-132 | every stored message has its original lines, the recipients since the last MAIL FROM or RSET in order, and the mailbox of the last successful AUTH; the replies are those to the items, in order |
| Mail.OneReplyATurn | crates/dpld/src/mail.rs:68-177 | besides the greeting there is exactly one reply for each time the client speaks: a command, an answer to a challenge, a whole body |

## Left out

- Spawning, signalling and reaping of processes, log files, launchd, TLS and certificates: they appear only as started, exited and could not be spawned.
- A psql call that fails after taking effect, and a daemon killed between the last statement of a switch and its record: a failed call is taken to change nothing and recording to be atomic with the last statement.
- `attach`, `detach` and `drop_branch`, and `link`, `unlink`, `relink` and `apply_spec`, while a switch is in progress: they do not take `OPS`, and are outside the interleaved runs; attaching is the initial state of a run.
- BranchProtocol.RunRefines: calls that name a port other than the recorded one are outside its runs, and it says nothing of the branches of sites that share a database, are attached to a database named as another's parked branch, or were attached with a parked copy of the live branch about, nor of branches whose parked names collide, because it is false for them, as BranchHazards.ForeignPortMisrecords, SharedBaseLosesABranch, NestedBaseIsTaken, ReattachingLosesABranch and CollidingNamesMixBranches show.
- Fpm.FpmManager.ApplyStats: of several masters on one port, which one a scrape heals is left open (the source takes the first in key order).
- Fpm.FpmManager.RespawnFailed: returns the keys it brought back, of which the source returns the number.
- Fpm.AtMostFiveStarts: excludes deaths first seen by a request and masters stopped while running, because the bound is false for them, as Fpm.UnseenDeathsHaveNoBound and Fpm.StoppedPoolsHaveNoBound show.
- Octane.OctaneCrashLoopsAreBounded: excludes failed reloads, because the bound is false with them, as Octane.FailedReloadsHaveNoBound shows; Octane.FiveStartsPerRestart bounds the starts between restarts.
- Reconcile.FastPathAgrees: leaves tunnels out, for which it is false, as Reconcile.UnsharedTunnelStays shows and Reconcile.TunnelsAgreeIff says exactly when; the caches of project metadata and installed extensions are not modelled.
- Registry.Registry.Reconcile: leaves out the metadata caches and handing the list of hosts to the helper, whose own work is in Hosts; a master or server started during the pass does not exit during it.
- `set_runtime`, `set_profile`, `set_preload`, `set_dev`, `set_xdebug`, `set_share` and the bulk imports set fields of links and then reconcile as `SetSecure` and `Link` do.
- Registry.Registry.RepairBackends: the sweep of php-fpm processes left by a crashed daemon is left out.
- Mail.SanitizeMailbox: its contract says which characters a mailbox may have; which of the user name's are kept is in Mail.HarmfulMakesNoDifference and Mail.MailboxOfHarmless.
- Registry.Registry.SiteInfos: rows carry the fields that name, place and rate a site, not the framework, Node and dev-server columns.
- Sites.Resolve: folder names that are not valid UTF-8 are left out of listings (the source skips them), and lower-casing is ASCII.
- Xdebug.Parse: lower-casing is ASCII; no character outside ASCII lower-cases into a mode name. Errors do not carry their message.
- Mail.Handle: upper-casing of verbs and lower-casing of user names is ASCII; a reply is its code, without its text; the envelope headers written to disk are left out; base64 decoding is an input.
- NodeShell.PinnedInvocation: shell expansions and operators that never occur unquoted in the line are rejected by the token rules rather than modelled.
- FastCgi.Connection.WriteRequest: writes are taken to succeed; timeouts are left out.
- Processes of one server, dev server, tunnel or master are values in their supervisor's map, so aliasing of a child handle is not modelled.
- Saving the configuration is taken to succeed.
- DNS replies, tags, the dumps buffer, service instances, IPC framing, framework detection, HTTP clients and the CLI: easier than what is here, or presentation.
