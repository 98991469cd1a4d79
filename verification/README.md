# A verified model of mamori's core

mamori keeps a typed configuration reconciled against many backends. This project models the
parts of it that carry protocol state, in Dafny, and proves what they promise over every input
and every run.

| file | what it is |
|---|---|
| `Values.dfy` | values, errors, field specs, the change relation |
| `Chain.dfy` | precedence chains: the live walk and its remembered, seeded and merged form |
| `Resolve.dfy` | one-shot resolution, batched against one by one |
| `Intake.dfy`, `IntakeLaws.dfy`, `IntakeMeaning.dfy` | how a source outcome moves observed values, blocks and the debounced batch; what every step keeps; what an update and a refresh amount to |
| `Engine.dfy`, `EngineLaws.dfy`, `EngineRuns.dfy` | the engine as a step function; what every step keeps; what that means over whole runs |
| `EngineMeaning.dfy` | building, gating, pinning and refreshing, said without the functions that do them |
| `EngineWitness.dfy` | a run showing that the premise on versions is needed |
| `Reconciler.dfy` | the engine as an object with fields, its methods proved against the step function |
| `Dispatch.dfy` | the drop-oldest queue, producer and consumer interleaved |
| `Control.dfy` | the control channel, its replies and the reentrancy mark |
| `ServerLifecycle.dfy` | the config server's start, serve and close |
| `Decimal.dfy`, `Canonical.dfy`, `CanonicalBuffer.dfy` | the canonical encoder, as a function and as it grows a buffer |
| `CanonicalLaws.dfy`, `CanonicalTypes.dfy` | what the encoding shows of a value; when that identifies it |
| `Bootstrap.dfy` | the bootstrap cache |
| `Schedule.dfy`, `Clock.dfy` | the fake clock: what falls due when, and the object |
| `Poll.dfy` | the polling adapter and its backoff |
| `Pointer.dfy` | JSON Pointer selection |
| `RefChain.dfy` | source tags: chains and refs |

`dafny verify dfyconfig.toml` checks everything.

## How the model is built

- A **run** of the engine is a list of events: a source update, the debounce timer, a refresh,
  Pin, PinCurrent, Unpin. Everything the engine cannot decide for itself - clock readings,
  provider answers, the PreApply gate's answer - is part of the event, so a claim about every
  run is a claim about every answer. Decode, derive, validate and hashing are opaque
  deterministic functions. `Reconciler.Watcher` holds the same state in fields that its methods
  update in place; `Reconciler.Watcher.Run` is proved to reach the state the run gives.
- Two fields exist only to state claims: the untrimmed log of accepted configurations with what
  the gate was shown and answered, and what had been observed when the last flush attempted with
  nothing blocked was refused.
- The queue, the control channel and the server are **step systems**: every lock, channel,
  atomic and WaitGroup operation is a step of its own, and a claim holds for every interleaving.
- Integers are unbounded except where the width is the point (`Poll.int64`, `Pointer.MAX_INT`).
- Equality of applied versions is over spec paths, a missing entry reading as the empty
  version: the PreApply rollback also writes derived paths into that map.

## What turned out to need a condition

- **Gate coverage** rests on versions. The candidate diff looks at versions only
  (`reconciler.go:1361`) while change detection falls back to bytes (`value.go:31-36`).
  `EngineRuns.CoveredIff` gives the exact condition, `EngineRuns.SoundCovers` the promise of
  sources that meets it, and `EngineWitness.UnversionedChangeRidesIn` a run in which an
  unversioned source breaks it.
- **Reentrancy**: a command issued from inside a callback is refused exactly when some frame on
  the stack runs under the mark (`Control.OwnCallRefusedIffGuarded`). PreApply, derive and
  OnError do. A provider called by a refresh, a decode hook and a validator also run on that
  goroutine, and do not: `Control.StuckBehindOwnCall` is a run in which the reconciler ends up
  waiting on its own channel.
- **Being answered without a shutdown**: the comment above `sendPin` says the loop returns once
  the context is done. A Pin, PinCurrent or Unpin can wait for good in three other ways: the
  loop also returns when every source has closed its channel (`reconciler.go:845-851`), the
  reconciler may be waiting on a context-less command of its own, and a callback may end it
  before it has replied. `Control.AnswerableIffNotStuck` says that these are all, and
  `Control.StuckOnceSourcesEnd`, `Control.StuckBehindOwnCall` and `Control.StuckWithDeadHandler`
  are runs to each.
- **Leaked listeners**: a bind error makes `Serve` return without looking at `closed` again.
  `ServerLifecycle.LeakIffTwoListeners` says when that can leak one.
- **Batching** is invisible except for failures of a whole scheme
  (`Resolve.SchemeFailureBypassesPolicy`; `Resolve.BatchCallFails` and `Resolve.NoProviderFails`
  are inputs).
- **Canonical bytes** identify values up to the depth bound and not one level beyond
  (`CanonicalTypes.BeyondBoundCollides`); at top level, a nil byte slice and the bytes `nil`
  coincide (`CanonicalTypes.TopLevelCollision`). Inside an interface the encoder writes what the
  dynamic type prints, which leaves out most of its package's path: different types that print
  alike collide (`CanonicalTypes.TwoVersionsCollide`), and
  `CanonicalTypes.InjectiveIffPrintedDifferently` says that nothing else does.
- **Queue depth**: `WithQueueDepth` takes 0, which makes the channel unbuffered and `enqueue` a
  loop that goes round until OnChange is done (`Dispatch.Spins`). What is delivered and in which
  order holds at every depth; that the reconciler never waits holds from 1 on
  (`Dispatch.BoundedIffBuffered`).
- **Advancing the clock backwards** undoes nothing (`Schedule.GoingBack`,
  `Schedule.BackAndForthDiffers`).

## Model

| member | source | states |
|---|---|---|
| `Chain.ResolveChain` | resolve.go:126-139 | The live walk returns the value of the first position that is not a not-found, stops at the first other error with that position's provider error, and reports absence exactly when every position is absent. |
| `Values.ChangedMeans` | value.go:31-36 | Two values differ exactly when their identities do: the version of a value that has one, the bytes of one that has none. So bytes under one version are never compared, and gaining or losing a version is a change. |
| `Chain.UnregisteredStops` | resolve.go:171-178 | A ref whose scheme has no provider stops the walk as invalid once everything before it was absent; it never falls through. |
| `Chain.RecomputeWinner` | reconciler.go:1075-1093 | The loop over remembered states computes `Recompute`: unseen and not-found positions are skipped, the first value wins, the first other error stops the walk; an absent one-element chain keeps its own error. |
| `Chain.SeedChainSources` | reconciler.go:1149-1184 | The seeding loop records exactly the positions a live walk reaches, in order, and leaves the rest unseen. |
| `Chain.MergeSources` | reconciler.go:1774-1779 | The refresh merge replaces exactly the positions the fresh walk reached and keeps what the others had reported. |
| `Chain.SeedReached` | reconciler.go:1149-1184 | A position is recorded with its own outcome whenever every position before it fell through. |
| `Chain.SeedUnreached` | reconciler.go:1149-1184 | No position below a deciding one is looked at. |
| `Chain.MergedWalk` | reconciler.go:1757-1786 | For every chain, every outcome and every earlier memory, the merged state is decided exactly where the fresh live walk is. |
| `Chain.SeedAgreesWithLiveWalk` | reconciler.go:1075-1184 | Seeding and then recomputing gives the live walk's winner, value and error class, for every chain length and every assignment of outcomes. |
| `Chain.RefreshMergeAgrees` | reconciler.go:1757-1786 | After a refresh merge the winner is the fresh live walk's, whatever was remembered, and every position below the deciding one is kept as it was. |
| `Chain.MergeKeepsFallback` | reconciler.go:1774-1779 | If the position that answered later disappears, the value a lower position had reported before the refresh takes over. |
| `Resolve.Group` | resolve.go:43-52 | Every single-ref field is in the group of its scheme and nowhere else; every other field is a chain. |
| `Resolve.ResolveOnes` | resolve.go:66-77 | Resolving a group field by field fills exactly its slots, each as the field's own resolution says, or fails with the error of one of them. |
| `Resolve.ResolveBatchScheme` | resolve.go:250-281 | A batch call fills exactly its scheme's slots from the reply, or fails with the call's wrapped error or with the error of one of the fields. |
| `Resolve.ResolveAll` | resolve.go:37-80 | For every order of visiting the schemes: success exactly when every field is fine, and then every slot is what `Meant` - which asks no function of the resolver - leaves that field: the first ref that answers anything but not-found decides, an error becomes the default only under onfail:"default" and is else the deciding ref's provider error, absence is the default's turn, then optional's, then not-found. A failure is the error of some field or of some field's whole scheme. Where every scheme has a provider and successful batches agree with Resolve, success and slots are those of resolving each field alone. |
| `Resolve.AloneMeans` | resolve.go:87-218 | For every world and field: a value at the deciding ref is set, found and marked; an error there gives the default - not found - exactly under onfail:"default", and otherwise that ref's provider error, whatever default the field has; with all refs absent the default comes first, then Unset where optional, else the first ref's not-found. |
| `Resolve.SlotMeans` | resolve.go:250-306 | The same for a field's share of a batch: absent exactly when the reply leaves its ref out, and a reply that does not decode is an error under the field's policy, not an absence. |
| `Resolve.MeantOnce` | resolve.go:206-306 | That rule leaves every field exactly one outcome. |
| `Resolve.VisitScheme` | resolve.go:54-71 | One scheme: refused outright without a provider, else resolved in one batch or one by one; it fills exactly its slots or fails with the error of one of its fields or of the whole scheme. |
| `Resolve.BatchedAsAlone` | resolve.go:87-97 | A field's share of an honest batch reply is what resolving it alone gives, through decode failures, defaults and onfail policies. |
| `Resolve.BatchingIsInvisible` | resolve.go:250-306 | For a field whose scheme works and whose batch is honest, batching changes neither success nor its slot. |
| `Resolve.SchemeFailureBypassesPolicy` | resolve.go:54-58 | When each field alone would resolve, the load fails if and only if some single-ref field's scheme has no provider or its batch call failed: no onfail policy is asked. |
| `Resolve.BatchCallFails` | resolve.go:256-260 | A field that resolves alone, in a scheme whose batch call fails: the load fails. |
| `Resolve.NoProviderFails` | resolve.go:54-58 | A field whose onfail:"default" covers it alone, in a scheme without a provider: the load fails. |
| `Resolve.SlotsKeepSensitivity` | resolve.go:283-306 | Every slot filled for a sensitive field is marked sensitive. |
| `IntakeLaws.DebounceBound` | reconciler.go:742-769 | Within a batch the deadline is at most each member's join time plus the window of the field it is, and no sooner than the batch's start plus some member's window; the timer is due then, or at once if that had passed when it was armed. |
| `IntakeLaws.UnblockRearms` | reconciler.go:816-836 | Lifting a block puts every field whose observed version is not applied into the batch with the timer armed, and never postpones or drops anyone already in it. |
| `IntakeLaws.OnUpdateKeeps` | reconciler.go:844-931 | Whatever a source delivers and whatever the field's policy: the batch and its timer stay consistent, only onfail:"fail" fields block and each has its error on record, and no unapplied change is left unexcused. |
| `IntakeLaws.OthersNeverBlock` | reconciler.go:919-929 | A field without onfail:"fail" is never in the blocked set, so dropping it from there never needs a re-arm. |
| `IntakeMeaning.WindowMeans` | reconciler.go:964-978 | A field's window is the smallest override on its chain, and the default exactly when no ref has one. |
| `IntakeMeaning.RecomputeMeans` | reconciler.go:1075-1093 | The first remembered position that is neither unseen nor a not-found decides, by its value or its error; without one the field is absent, a lone ref with its own error. |
| `IntakeMeaning.UpdateMeans` | reconciler.go:844-931 | For every update: the reported position holds its outcome and every other one is kept; the field follows the first position that decides now - it observes its value unless that is no change, or its default under onfail:"default", or keeps what it had - and it is blocked exactly if that position failed under onfail:"fail"; no other field is touched. |
| `IntakeMeaning.UpdateJoinsNow` | reconciler.go:742-814 | A field whose observed value an update changed is in the batch, joined at the update's own time; whoever else it lets in joins at that time too, and nobody's earlier join moves. |
| `IntakeMeaning.ByWatchFollows` | reconciler.go:880-929 | For every winner and policy the loop's reaction is that one, and a stop under onfail:"fail" is the only thing that blocks. |
| `IntakeMeaning.MergeMeans` | reconciler.go:1149-1184 | After a seeding walk and its merge, a position holds the fresh outcome exactly if everything before it fell through, and the old one otherwise. |
| `IntakeMeaning.RefreshMeans` | reconciler.go:1757-1826 | For every field of a refresh over all fields: its positions hold the fresh outcome as far as the live walk reaches and the old one elsewhere; it observes the live walk's marked value unless that is no change, its default under onfail:"default", and otherwise what it had; it is blocked exactly if the live walk stopped under onfail:"fail". |
| `IntakeLaws.RefreshActsAsWatch` | reconciler.go:1781-1826 | For every winner and every policy, a refresh leaves exactly the observed values, blocks, health and delivered errors that a watch update with the same outcome leaves. |
| `IntakeLaws.HealthFollowsWinner` | reconciler.go:1202-1257 | A terminal failure is recorded and delivered exactly once, wrapping the winner's own error, as stale or under the deciding ref's scheme; anything else clears the error silently, and only a value or a masking default renews the last success. |
| `IntakeLaws.RefreshKeepsBlockInv` | reconciler.go:1754-1836 | A forced re-resolve of every field keeps every block tied to an onfail:"fail" field with a recorded error. |
| `IntakeLaws.OnUpdateKeepsSound` | reconciler.go:779-786 | If sources deliver non-empty versions that stand for fixed bytes per path, so do all observed and remembered values. |
| `IntakeLaws.RefreshKeepsSound` | reconciler.go:1745-1813 | The same across a refresh. |
| `EngineLaws.DiffLists` | reconciler.go:1356-1369 | The candidate diff mentions a spec field exactly when its observed version differs from its applied one, with exactly those versions. |
| `EngineLaws.DerivedOnce` | reconciler.go:352-392 | A declared derived path appears at most once in a Change. |
| `EngineLaws.DerivedAvoidsSpecs` | reconciler.go:352-392 | No derived entry ever names a spec path. |
| `EngineLaws.RollBackRestores` | reconciler.go:1482-1494 | Undoing a refused candidate's fields restores the applied version of every spec path, although derived paths are written too. |
| `EngineLaws.BlockedHasReason` | reconciler.go:1392-1403 | The reason is the error recorded for the first blocked path in spec order. |
| `EngineLaws.BlockedFlushGivesReason` | reconciler.go:1282-1294 | A flush attempt while anything is blocked always returns a recorded reason. |
| `EngineLaws.FlushErrorMovesNothing` | reconciler.go:1428-1499 | An error result leaves Get, the last good configuration, version, history, pin, batch and every spec's applied version unchanged, and the next diff against any observed values is the same as before. |
| `EngineLaws.FlushSuccessAppliesAll` | reconciler.go:1428-1590 | A flush with pending work that returns nil had nothing blocked and leaves every applied version equal to its observed one. |
| `EngineLaws.AcceptedEntry` | reconciler.go:1496-1499 | An accepted candidate extends the log by a configuration that built from its values and was shown against its predecessor, with a gate answer in which neither the hook nor its context gave an error. |
| `EngineLaws.RetainWindow` | reconciler.go:1906-1923 | The bounded history is always the newest part of everything ever accepted. |
| `EngineLaws.PinFindsRetained` | reconciler.go:1844-1851 | Pin(v) finds v exactly when it is current or one of the newest prior snapshots the history keeps, and finds what was accepted as v. |
| `EngineLaws.FlushKeepsBook` | reconciler.go:1428-1590 | Every flush keeps log, version, last good configuration, history window and served configuration consistent. |
| `EngineLaws.StepKeeps` | reconciler.go:727-955 | Every event - source update, timer, refresh, Pin, PinCurrent, Unpin - keeps the whole engine invariant. |
| `EngineLaws.LoadEstablishes` | reconcile.go:349-495 | A load that decoded, derived, validated and passed the gate establishes the invariant. |
| `EngineRuns.RunKeeps` | reconciler.go:727-955 | Every run of every length keeps the engine invariant. |
| `EngineRuns.NoStrandedChange` | reconciler.go:771-836 | In every reachable state an unapplied spec field is in the batch with the timer armed, or an onfail:"fail" field blocks, or its observed value is the very one the last unblocked flush attempt was refused with. |
| `EngineRuns.OnlyTheGateExtendsTheLog` | reconciler.go:1428-1570 | Only a timer or a refresh in whose gate answer neither the hook nor its context gave an error adds to the log of accepted configurations, by exactly one validated entry built from the observed values. |
| `EngineRuns.CoveredIff` | reconciler.go:1356-1369 | A version diff shows the gate every change of bytes if and only if equal versions mean equal bytes on every spec path. |
| `EngineRuns.SoundCovers` | value.go:31-36 | Sources with non-empty versions that stand for fixed bytes meet that condition. |
| `EngineRuns.GateCoverage` | reconciler.go:1282-1590 | Over every run, Get serves only configurations of the log; every one of those built from its values and was answered without a hook error or an expired context where there is a gate, the initial load's included; and on every acceptance each spec field whose bytes differ from the superseded snapshot was in the Fields the gate was shown. |
| `EngineRuns.InitialShowsAll` | reconcile.go:409-480 | The initial load shows the gate every resolved field. |
| `EngineRuns.EntriesCompose` | reconciler.go:1870-1880 | The Fields lists recorded since any snapshot compose to the move from its applied versions to those of any later one. |
| `EngineRuns.UnpinDiffIsNet` | reconciler.go:1670-1682 | The coalesced diff lists a spec path exactly as the net composition of every Fields list since the pinned snapshot, retained or evicted. |
| `EngineRuns.UnpinCoalesces` | reconciler.go:1670-1682 | Unpin emits at most one Change, from the configuration Get was serving to the live one, with exactly the net entries for spec paths. |
| `EngineRuns.UnpinAfterAnyRun` | reconciler.go:1622-1682 | The same after every run that ends pinned, however many flushes happened meanwhile. |
| `EngineRuns.PinnedFreezesGet` | reconciler.go:1536-1565 | While pinned, no update, flush or refresh moves what Get serves or emits a Change. |
| `EngineRuns.MovesAreAnnounced` | reconciler.go:1496-1590 | In every reachable state: an update never moves Get; a flush that is accepted while not pinned moves it with exactly one Change, from what was served, with the Fields the gate saw; otherwise nothing moves or is announced; Pin(v) serves v if retained and emits nothing. |
| `EngineRuns.ChangesTellAll` | reconciler.go:1565-1590 | Over every run without pins the emitted Changes lead step by step from the configuration first served to the one served now. |
| `EngineRuns.UpdatesNeverPostpone` | reconciler.go:742-786 | No update moves the deadline of a pending batch later: it stays within the window of every member's own field from the moment that member joined. |
| `EngineMeaning.BuildMeans` | reconciler.go:1296-1354 | A candidate is `c` if and only if there are configurations from the zero one that set each observed spec path to its bytes in spec order, and then configurations in which every derive takes one to the next, ending in `c` which validates; and the error is that of the first step that fails, in its own class. |
| `EngineMeaning.GateDecides` | preapply.go:140-160 | With nothing blocked, a candidate that builds and something to show: the flush fails if and only if the hook or its context gave an error, with the hook's own first, wrapped, and with nothing moved; otherwise the candidate is the next version. |
| `EngineMeaning.GateDecidesStep` | reconciler.go:1482-1499 | The same for the timer and for a refresh as steps of a run, on the event's own gate answer: the candidate is served as the next version, or only the error is reported. |
| `EngineMeaning.UnbuiltStep` | reconciler.go:1282-1436 | A timer or refresh over a candidate that does not build reports that error and changes nothing but that; with anything blocked nothing is reported. |
| `EngineMeaning.LoadMeans` | reconcile.go:349-495 | A load fails with the candidate's error, or exactly if the gate refuses, with the gate's; otherwise it serves the candidate as version 1 with nothing pinned, pending, blocked or reported. |
| `EngineMeaning.FireMeans` | reconciler.go:933-943 | The timer leaves no batch and no timer, a refresh leaves both as they were, and what either accepts carries its own time and its own gate answer and is the newest snapshot retained. |
| `EngineMeaning.UpdateStepMeans` | reconciler.go:844-931 | An update's step of a run is exactly IntakeMeaning.UpdateMeans and UpdateJoinsNow, and touches neither what is served nor what is accepted. |
| `EngineMeaning.RefreshStepMeans` | reconciler.go:1736-1838 | A refresh's step of a run does to every field what IntakeMeaning.RefreshMeans says; the flush after it touches none of that. |
| `EngineMeaning.PinCurrentPins` | reconciler.go:1622-1650 | From every reachable kind of state, PinCurrent pins exactly what Get serves, at the version of its log entry, and replies with that version and no error; nothing else moves. |
| `EngineMeaning.PinAtPins` | reconciler.go:1652-1668 | Pin(v) pins the configuration accepted as v and replies v if v is current or among the newest prior ones kept; otherwise nothing moves and the reply is that v is not retained. |
| `EngineMeaning.PinHolds` | reconciler.go:1619-1689 | After any run: from a PinCurrent, or a Pin of a version still kept, until the next pin command, Get serves the configuration pinned and no Change is emitted, whatever updates, flushes and refreshes come in between. |
| `EngineMeaning.DerivedMeans` | reconciler.go:352-392 | A Change lists, outside the specs, exactly the declared derive paths that read differently in the two configurations, with the hash of the old reading and then of the new. |
| `EngineMeaning.UnpinListsDerived` | reconciler.go:1870-1880 | Unpin's Change lists derived paths exactly so between the configuration Get was serving and the live one. |
| `EngineWitness.UnversionedChangeRidesIn` | reconciler.go:1356-1369 | A concrete run with an unversioned provider in which changed bytes reach an accepted configuration without being shown to the gate. |
| `Reconciler.Watcher.AddPending` | reconciler.go:760-769 | The batch fields become those of the specification's `AddPending`: the first join sets the base, later ones only shrink the window. |
| `Reconciler.Watcher.Unblock` | reconciler.go:816-836 | The loop over specs re-adds exactly the held-back fields and arms the timer once, only if the block was really there. |
| `Reconciler.Watcher.HandleUpdate` | reconciler.go:844-931 | The update case: record, recompute, classify and react; new state as specified, nothing outside its frame changes. |
| `Reconciler.Watcher.HandleChainNotFound` | reconciler.go:1202-1229 | As the loop calls it: the block is lifted first, re-arming what it held back; then tolerated absence clears the error and keeps the old value, and any other is reported. |
| `Reconciler.Watcher.HandleChainNotFoundAtRefresh` | reconciler.go:1202-1229 | As a refresh calls it: the same, with a plain delete for the block. |
| `Reconciler.Watcher.ReportTerminalError` | reconciler.go:1238-1257 | A terminal error is recorded and delivered once, as stale when the last success is too old. |
| `Reconciler.Watcher.Build` | reconciler.go:1296-1354 | Decode in spec order, derive in order, validate: the result is the candidate, or the first error, that EngineMeaning.BuildMeans characterises. |
| `Reconciler.Watcher.DiffAndAdvance` | reconciler.go:1356-1369 | One pass lists the version diff and advances the applied versions by it. |
| `Reconciler.Watcher.BlockedErr` | reconciler.go:1392-1403 | The scan returns the first blocked spec's recorded error. |
| `Reconciler.Watcher.RollBack` | reconciler.go:1486-1488 | Every listed path goes back to its old version. |
| `Reconciler.Watcher.RecordSnapshot` | reconciler.go:1906-1923 | The newest snapshots are retained, the oldest dropped beyond the bound. |
| `Reconciler.Watcher.Publish` | reconciler.go:1496-1590 | Version, last good configuration and history move together; a pin holds Get and OnChange back. |
| `Reconciler.Watcher.GateAndApply` | reconciler.go:1428-1590 | Diff, gate, then publish or roll back: the state whose gate outcome EngineMeaning.GateDecides characterises. |
| `Reconciler.Watcher.Flush` | reconciler.go:1428-1590 | The whole new state and the result as specified, for each early return and for the gate's answer. |
| `Reconciler.Watcher.HandleTimer` | reconciler.go:933-943 | The timer case flushes and drops the batch and the timer whatever came of it. |
| `Reconciler.Watcher.PinCurrent` | reconciler.go:1622-1650 | Freezes at whatever is being served, pinned or live: the new state and reply of which EngineMeaning.PinCurrentPins says what is pinned. |
| `Reconciler.Watcher.PinAt` | reconciler.go:1652-1668 | Freezes at a retained version, or changes nothing and says it is not retained. |
| `Reconciler.Watcher.Unpin` | reconciler.go:1670-1682 | Serves the live configuration and emits the coalesced Change if there is one. |
| `Reconciler.Watcher.RefreshField` | reconciler.go:1757-1826 | Seed, merge, recompute and react for one field, with no debounce bookkeeping: the state of which IntakeMeaning.RefreshFieldMeans says which outcomes it holds and what it observes. |
| `Reconciler.Watcher.RefreshNow` | reconciler.go:1736-1838 | Re-resolves every field in order, then flushes all of them; the result is the flush's, the new state that of EngineMeaning.RefreshStepMeans. |
| `Reconciler.Watcher.Handle` | reconciler.go:838-955 | One turn of the loop's select: the object's state becomes that of the step function, for every event. |
| `Reconciler.Watcher.Run` | reconciler.go:727-955 | Handling any list of events leaves the object in the state of the corresponding run, so every law about runs holds of the object. |
| `Dispatch.Delivery` | reconciler.go:1927-1942 | For every depth and every interleaving: delivered followed by queued is an in-order subsequence of emitted, everything else settled was dropped once and in order, the queue never exceeds its depth, every dropped event is older than every queued one, the newest is never dropped, and depth 0 drops nothing. |
| `Dispatch.Drained` | reconciler.go:707-722 | Once the queue is closed and emptied, everything emitted was delivered or counted as dropped, and the last event was delivered. |
| `Dispatch.NeverWaits` | reconciler.go:1927-1942 | The producer always has a step of its own and the consumer's steps never cost it one; buffered, each of its own steps brings it nearer the end, with at most one drop per event. |
| `Dispatch.BoundedIffBuffered` | reconcile.go:151-153 | The producer is done within three steps of its own, whatever the consumer does, if and only if the depth is at least 1. |
| `Dispatch.Spins` | reconciler.go:1927-1942 | At depth 0 with nobody receiving, the loop goes round for any number of rounds. |
| `Dispatch.CloseWaitsForTheLoop` | reconciler.go:719-725 | The queue is never closed with an event in hand. |
| `Dispatch.Queue.Enqueue` | reconciler.go:1927-1942 | The loop with any consumer interference: the event gets in last, at most one event is dropped, the oldest still queued, and only if a buffered queue was full. |
| `Control.RunKeeps` | pin.go:132-157 | Every interleaving of callers and reconciler keeps the mark equal to what the callback stack calls for and every call's reply count right. |
| `Control.UnwindClears` | preapply.go:185-188 | However deeply armed frames nest, unwinding them all restores the unmarked state. |
| `Control.OwnCallRefusedIffGuarded` | pin.go:132-136 | A command issued on the reconciler goroutine is refused if and only if some callback on its stack runs under the mark; otherwise that goroutine is left waiting on its own channel. |
| `Control.NeverWaitsForItself` | pin.go:132-157 | With only PreApply, derive and OnError callbacks, in any nesting, no reachable state has the reconciler waiting on its own control channel, and it can always go on. |
| `Control.RepliesExactlyOnce` | reconciler.go:1619-1689 | A delivered command has exactly one reply once the reconciler is done with it, unless a callback killed the reconciler meanwhile; only the reconciler's own goroutine is ever refused as reentrant. |
| `Control.ClosedMeansNoReply` | pin.go:137-156 | The closed answer is given only if no reply had been sent; once one has been, a caller without a context of its own gets that reply. |
| `Control.ShutdownFreesEveryCaller` | pin.go:137-156 | Once the watcher's context is done every waiting caller has a step of its own towards its answer, and no other step takes it further away. |
| `Control.AnswerableIffNotStuck` | pin.go:132-157 | In every reachable state and for every command still waiting: some run without a shutdown answers it if and only if its caller has a context of its own, or the shutdown has begun, or its reply has been sent, or the reconciler is neither gone nor parked on a command of its own that has no context. |
| `Control.StuckRun` | pin.go:132-157 | Otherwise no run without a cancel, however long, answers it. |
| `Control.StuckOnceSourcesEnd` | reconciler.go:844-851 | A run from the start to the first such state: every source closes its channel, the loop returns, and a Pin is issued. |
| `Control.StuckBehindOwnCall` | reconciler.go:1754-1757 | A run to the second: a provider called by the reconciler issues a Pin under no mark, and the reconciler waits on its own channel, with everyone after it. |
| `Control.StuckWithDeadHandler` | pin.go:137-156 | A run to the third: a callback ends the reconciler goroutine while it handles the command. |
| `ServerLifecycle.RunKeeps` | server/transport.go:387-478 | Every interleaving of one Serve and any number of Close calls keeps the protocol invariant. |
| `ServerLifecycle.NoAddAfterClose` | server/resolve.go:520-531 | No step adds to either WaitGroup once closed is set, and closed stays set. |
| `ServerLifecycle.WaitsFollowClose` | server/resolve.go:558-575 | A teardown, and so a Wait, only ever runs once closed is set. |
| `ServerLifecycle.EverythingReclaimed` | server/resolve.go:433-575 | Once Serve and all Closes have returned both counters are zero, and if no bind failed every bound listener is closed. |
| `ServerLifecycle.CloseWaitsForTeardown` | server/resolve.go:433-480 | No Close returns before the winning Close's teardown has finished. |
| `ServerLifecycle.OneListenerNeverLeaks` | server/transport.go:398-412 | With at most one listener even a failed bind leaks nothing. |
| `ServerLifecycle.BindFailureLeaks` | server/transport.go:398-412 | With two or more listeners there is a run in which a bind failure after a completed Close leaves a listener open for good. |
| `ServerLifecycle.LeakIffTwoListeners` | server/transport.go:398-412 | A leak is possible if and only if at least two listeners are configured. |
| `ServerLifecycle.NoDeadlock` | server/transport.go:562-596 | Once a Close has been called, until everything has returned some thread can take a step. |
| `CanonicalBuffer.AppendElemBytes` | derivedversion.go:223-228 | The byte loop appends exactly the bytes. |
| `CanonicalBuffer.AppendLenBytes` | derivedversion.go:213-217 | Length prefix, colon, bytes. |
| `CanonicalBuffer.CollectEntries` | derivedversion.go:162-173 | One encoded entry per map entry, in the order visited. |
| `CanonicalBuffer.AppendMap` | derivedversion.go:162-180 | Entries are encoded on their own, sorted, and appended in that order. |
| `CanonicalBuffer.AppendCanonical` | derivedversion.go:101-209 | The buffer-growing encoder, over every kind, appends exactly the encoding that the laws below are about, at every depth. |
| `CanonicalLaws.UniquelyDecodable` | derivedversion.go:101-209 | Of any two values, of whatever types, at any depth and before any remainder that starts with a terminator, equal bytes mean equal meanings and equal remainders. |
| `CanonicalLaws.MeaningDeterminesBytes` | derivedversion.go:162-180 | Values that mean the same have the same bytes: the encoding does not depend on map iteration order. |
| `CanonicalLaws.EncodingIsExact` | derivedversion.go:101-209 | Same bytes if and only if same meaning, for every pair of values: dynamic types by the name they print, maps as bags, whatever lies below the bound cut off. |
| `CanonicalTypes.InjectiveWithinBound` | derivedversion.go:101-209 | For values of one static type nested within the depth bound, where no types that print alike have values that read alike: same bytes if and only if equal - maps as bags of entries, secrets up to nil versus empty, floats up to a NaN's payload, channels and functions by kind. |
| `CanonicalTypes.InjectiveIffNoConfusion` | derivedversion.go:123-135 | For given declarations: injective within the bound if and only if no two types that print alike have values that read alike. |
| `CanonicalTypes.InjectiveIffPrintedDifferently` | derivedversion.go:123-135 | Injective within the bound, however the types are declared, if and only if the types an interface may hold print differently. |
| `CanonicalTypes.SameNameCollides` | derivedversion.go:123-135 | Two types that print alike with values that read alike: the two interfaces have the same bytes and are different values. |
| `CanonicalTypes.TwoVersionsCollide` | derivedversion.go:123-135 | The same struct declared by a/v1 and by b/v1 is such a pair. |
| `CanonicalTypes.ShownAlikeIsEqual` | derivedversion.go:101-209 | Without such pairs, values of one type that are shown alike are equal in full: integers, floats and both parts of a complex number included. |
| `CanonicalTypes.NothingCut` | derivedversion.go:101-106 | Within the bound the depth cut-off hides nothing. |
| `CanonicalTypes.BeyondBoundCollides` | derivedversion.go:101-106 | One level past the bound any two values are encoded alike. |
| `CanonicalTypes.TopLevelCollision` | derivedversion.go:72-88 | Among top-level byte slices the unframed form confuses exactly the nil slice and the bytes "nil". |
| `Canonical.SortDetermined` | derivedversion.go:173-173 | Sorting the encoded entries gives the same sequence exactly for the same bag of entries. |
| `Bootstrap.BootstrapRecords` | bootstrapstore.go:57-78 | One record per field that was set, in order, carrying its value; none for an absent field. |
| `Bootstrap.RestoreBootstrap` | bootstrapstore.go:169-226 | Used only when the backend was unavailable or rate-limiting; otherwise refused, each refusal for its own cause, the expired one naming the first record whose lease has ended by now. When used, each field holds its last record's bytes, version, expiry and metadata, sensitive if the record or the field is, and is unset where no record names it. |
| `Bootstrap.RoundTrip` | bootstrapstore.go:57-226 | Writing the records of a resolved set and restoring them under the same schema gives back the same values and absences, or refuses the whole set exactly when some lease has expired. |
| `Bootstrap.Origin.constructor` | bootstrapstore.go:254-270 | The unconfirmed set starts as the restored paths not carrying a default, and the flag is on exactly if there are any. |
| `Bootstrap.Origin.MarkReconciled` | bootstrapstore.go:297-309 | The set only shrinks; the flag is on exactly while a restored non-default path is unreconciled, never turns back on, and its end triggers one rewrite. |
| `Bootstrap.Origin.MarkAll` | bootstrapstore.go:297-309 | After any sequence of reconciliations the flag is on exactly if some restored non-default path is not among them, with at most one rewrite in all. |
| `Schedule.AdvanceSplits` | clock.go:270-323 | Advancing by a and then by b makes the same events happen in the same order as advancing by a+b and leaves the same timers and tickers. |
| `Schedule.GoingBack` | clock.go:270-323 | Advancing to an instant and then back to an earlier one agrees with advancing to the earlier one if and only if nothing falls due in the stretch gone back over. |
| `Schedule.BackAndForthDiffers` | clock.go:270-323 | A clock with one timer where the two differ. |
| `Schedule.FiresExactlyOnce` | clock.go:282-296 | A pending timer due within the advance fires in it exactly once, at its deadline; a later one does not fire and stays pending. |
| `Schedule.TimersConserved` | clock.go:282-296 | Firings plus still-pending timers equal the timers pending before, identity by identity. |
| `Schedule.TickTimes` | clock.go:298-313 | A ticker ticks at every multiple of its interval up to the target and at none beyond; its next tick is the first one after. |
| `Schedule.AdvanceLeavesOnlyLater` | clock.go:282-313 | Every timer left pending and every running ticker's next tick lie strictly after the new now. |
| `Schedule.SortStable` | clock.go:315-315 | Events of one instant keep the order they were collected in. |
| `Schedule.SortSorts` | clock.go:315-315 | The events come out in chronological order, none lost or added. |
| `Schedule.SortedAndStableIsUnique` | clock.go:315-315 | Any two sorted sequences with the same events in the same order at each instant are equal, so every stable sort agrees. |
| `Clock.AdvanceSplitsOnChannels` | clock.go:270-323 | Two advances leave in every channel what one advance leaves. |
| `Clock.FakeClock.constructor` | clock.go:106-111 | Starts at the given instant or the fixed epoch, with nothing registered. |
| `Clock.FakeClock.NewTimer` | clock.go:121-135 | A non-positive delay fires at once and never becomes pending; any other is pending and releases exactly the blocked callers whose count it completes. |
| `Clock.FakeClock.NewTicker` | clock.go:141-152 | A non-positive interval is refused; otherwise the first tick is one interval away. |
| `Clock.FakeClock.StopTimer` | clock.go:246-256 | Reports whether the timer was pending; it no longer is, and the others keep their order. |
| `Clock.FakeClock.StopTicker` | clock.go:258-266 | Exactly the named ticker is stopped. |
| `Clock.FakeClock.BlockUntil` | clock.go:188-196 | Returns at once exactly when enough timers are pending; otherwise the caller is blocked, and stays so only while they are not. |
| `Clock.FakeClock.GiveUp` | clock.go:198-215 | A caller whose context ends reports success exactly if its count had been reached first, and is no longer registered. |
| `Clock.FakeClock.NotifyBlockers` | clock.go:222-233 | Releases and removes exactly the blocked callers whose count has been reached. |
| `Clock.Notified` | clock.go:222-233 | After a notification a caller is released if and only if its count has been reached, and still waits otherwise. |
| `Clock.FakeClock.CollectTicks` | clock.go:298-313 | The nested loop terminates, collects every due tick in order and leaves each running ticker's next tick after the target. |
| `Clock.FakeClock.BeginAdvance` | clock.go:271-317 | The part under the lock: time moves, what is due leaves the clock and is queued to fire; valid whatever other advances are still firing. |
| `Clock.FakeClock.FireNext` | clock.go:319-322 | One event outside the lock, with anything before and after it: a timer always finds its channel empty, a tick into a full one is dropped. |
| `Clock.BackedFire` | clock.go:285-290 | Whatever happens between two events, the channel of the timer whose turn it is is empty, so no send blocks. |
| `Clock.FakeClock.Advance` | clock.go:270-323 | With nothing in between, state, events and channels are those the schedule describes; over the clock's whole life, in any interleaving, every timer fires at most once. |
| `Poll.Backoff.constructor` | backoff.go:28-37 | A ceiling below the base is raised to it; a non-positive base disables backoff. |
| `Poll.Backoff.Delay` | backoff.go:52-71 | The result is exactly min(base*2^(streak-1), ceiling) with every doubling within int64, and the number of rounds is bounded by the ratio of ceiling to base. |
| `Poll.DelayShape` | backoff.go:46-71 | The delay never shrinks as the streak grows and stays between base and ceiling. |
| `Poll.JitterBound` | poll.go:134-146 | For every draw a positive delay stays positive and within the fraction asked for. |
| `Poll.JitterMeans` | poll.go:134-146 | Exactly: nothing to spread leaves the delay alone; otherwise it is moved by the drawn share of the fraction and cut to a whole number, or left alone where that would not be positive. |
| `Poll.PollWatch` | poll.go:22-131 | For every sequence of outcomes the loop sends exactly what the history of outcomes calls for, and every wait is the one that history calls for. |
| `Poll.EveryFailureSent` | poll.go:100-119 | Every error that is not a not-found is emitted, in order, and no not-found ever is. |
| `Poll.RetainedIsLastSent` | poll.go:120-127 | The value compared against is always the last success emitted. |
| `Poll.OnlyChangesSent` | poll.go:120-127 | Two successes emitted one after the other always differ. |
| `Poll.NoChangeMissed` | poll.go:120-127 | The last emitted success never differs from the newest one resolved. |
| `Poll.StreakMeans` | poll.go:100-120 | The streak is the length of the run of failures the history ends in; a not-found ends it. |
| `Poll.NeverPastExpiry` | poll.go:77-93 | With no backoff in force the poller comes back no later than a retained value's future expiry, by nine tenths of what is left of it. |
| `Poll.BackoffGoverns` | poll.go:58-76 | With backoff configured and a failure last, the retry delay alone decides the wait. |
| `Poll.WaitMeans` | poll.go:58-93 | Otherwise the wait is the jittered interval, cut to nine tenths, rounded up, of what is left of a retained value's lease if that lease is still ahead, and never lengthened by it. |
| `Pointer.UnescapeToken` | jsonpointer.go:95-120 | The single pass computes the unescaping of section 3 of RFC 6901, or refuses a malformed escape. |
| `Pointer.UnescapesIff` | jsonpointer.go:95-120 | A token unescapes exactly if every tilde in it is followed by 0 or 1. |
| `Pointer.UnescapeEscape` | jsonpointer.go:95-120 | Unescaping undoes escaping on every string. |
| `Pointer.EscapeUnescape` | jsonpointer.go:95-120 | Escaping undoes unescaping on every slash-free token that unescapes. |
| `Pointer.ArrayIndex` | jsonpointer.go:133-153 | Accepts exactly the canonical decimal numerals that fit an int, with their value; everything else is invalid. |
| `Pointer.Descend` | jsonpointer.go:42-74 | One step is structural: a member, an element, not-found for what a container lacks, invalid for anything else. |
| `Pointer.SelectPointer` | jsonpointer.go:23-39 | The loop unescapes and descends token by token and stops at the first failure; a string found yields its contents, null the empty string, anything else its own bytes. |
| `Pointer.SelectIsLookup` | jsonpointer.go:23-39 | For every document and every non-empty token list, selecting by the built pointer is structural lookup. |
| `Pointer.LookupMeans` | jsonpointer.go:42-74 | Lookup finds a node exactly if there are nodes from the document to it in which each token is a member name of, or the index of an element in, the one before. |
| `Pointer.EveryPointerIsBuilt` | jsonpointer.go:23-39 | Every pointer whose tokens unescape is the one built from those tokens. |
| `Pointer.MalformedToken` | jsonpointer.go:27-36 | A malformed token is reported only once every step before it has succeeded. |
| `Pointer.AbsenceMeans` | jsonpointer.go:42-74 | Not-found exactly when the walk reaches a container that could hold the next value and does not; every other failure is invalid. |
| `RefChain.SplitChain` | ref.go:169-183 | The scan cuts at exactly the commas followed by a scheme. |
| `RefChain.SchemeStartMeans` | ref.go:119-119 | A scheme starts exactly where, past any blanks, a letter opens a run of name characters that a colon ends. |
| `RefChain.SchemeLocal` | ref.go:119-119 | Whether a scheme starts at a place depends only on the text up to the next comma, trailing white space aside. |
| `RefChain.PartsAreChain` | ref.go:169-183 | Every split yields parts with no separator inside them, all but the first starting a scheme. |
| `RefChain.SplitJoined` | ref.go:169-183 | Joining any such parts with commas and splitting gives them back. |
| `RefChain.JoinedParts` | ref.go:169-183 | Joining the parts of any text gives the text. |
| `RefChain.CutLossless` | ref.go:79-105 | Scheme, path, key and query text, written out with their marks, are the whole text, and none holds the mark that would have ended it. |
| `RefChain.CutUnique` | ref.go:79-105 | Any proper pieces written out are cut back into exactly those pieces. |
| `RefChain.ParsedRefIsItsText` | ref.go:74-106 | A parsed ref's fields are the pieces of its raw text. |
| `RefChain.ParseRefMeans` | ref.go:74-106 | Text made of proper pieces parses to exactly those pieces, or fails with its query's error. |
| `RefChain.ParseRefRefuses` | ref.go:74-86 | Such pieces exist exactly if something stands before a first colon; all other text is invalid. |
| `RefChain.ParseRefs` | ref.go:149-164 | Trim, refuse the empty tag, split, parse each part in order up to the first failure. |
| `RefChain.ParseChainMeans` | ref.go:149-164 | A tag parses to a chain exactly if it is not blank and every one of its parts parses, each to its own ref. |
| `RefChain.RejoinParses` | ref.go:149-183 | Joining the raw refs of any chain that parsed, and parsing again, gives the same chain. |

## Left out

- Providers, SDK clients, file watching, exec and env: a provider is an arbitrary outcome.
- AES-GCM, JSON parsing, decompression, SHA-256 and FNV: sealing and opening are inverse, one level of JSON parses or does not, hashes are opaque functions.
- Struct walking, mapstructure, YAML, TOML and field validation: opaque functions on configurations.
- HTTP handlers, SSE framing, TLS, peer credentials, socket files, the admin endpoint, authentication, policy, redaction.
- `resolverState.apply` and `readiness` in the config server: single-snapshot updates and a fold over them would only add easy members.
- CLI, renderers, schema emitters, diff model, logging, metrics, tracing, Status and Report.
- Cache, Failover, Prefix, Audit and RateLimit middleware.
- Goroutine identities are given as positive numbers; parsing them from stack text is not modelled.
- The engine's runs do not include the bootstrap file. `Bootstrap.Origin` takes reconciliations one by one; which events cause one differs between watch and refresh in the source (`reconciler.go:1788-1813` never marks), and no agreement between the two is claimed. Nor is it claimed that a rewrite on the last reconciliation holds accepted values only: it persists observed ones.
- The engine's runs do not end: the loop's own return on a done context or on exhausted sources is part of `Control.dfy` only. Delivery of an emitted Change is the subject of `Dispatch.dfy`.
- A tolerated runtime not-found keeps the old value, so no claim says that Watch equals Load there.
- The PreApply timeout is an answer from the gate that came with an expired context; no duration is modelled.
- EngineRuns.GateCoverage: assumes that versions are non-empty and that, per path, equal versions mean equal bytes; `EngineRuns.CoveredIff` states what is needed exactly.
- Canonical encoder: a float is the decimal text `strconv` writes for it; that this text tells two floats apart, NaN payloads aside, is strconv's promise and not proved. Field names are taken to be identifiers.
- Clock.FakeClock.Advance: is the uninterrupted case; interleavings are covered by what its two steps, BeginAdvance and FireNext, keep. Instants are integers, without the range of `time.Time`.
- Dispatch.Queue.Enqueue: at depth 0 it is the loop that ends, so it is given a round by which a receiver waits; that it need not end is Dispatch.Spins.
- Poll.Backoff.Delay: the failure counter is unbounded; its own wrap-around after 2^63 failures is not modelled.
- Poll.JitterBound: real arithmetic; floating-point rounding is not modelled.
- Poll.PollWatch: covers any finite number of rounds; cancellation cuts the run short after a prefix of them.
- Pointer.SelectPointer: demands the leading slash that its caller guarantees.
- RefChain.ParseRefs: strings are code points, so invalid UTF-8 is not covered; `url.ParseQuery` is a parameter.
- Reconciler.Watcher: callbacks are not run from inside its methods; what they may do there is the subject of `Control.dfy`.
