# OpenCTI lookup: a verified model

The service answers "is this value a known indicator?" for a log stream. In front of a slow source
of truth it keeps a sorted array of 64-bit fingerprints, shared between worker processes by
generation and amended by a live event stream, and behind that a bounded payload cache with request
collapsing and a circuit breaker. This project models those parts and proves what they promise.

- `Generations`, `GenerationSafety`, `GenerationTheorems`, `GenerationProgress`: the lock, the state file, the segment
  directory and any number of workers as a transition system, its invariant, and its guarantees over
  every run. `SharedState`, `Loader` and `Reconcile` are the objects; each of their methods is
  proved to be the protocol step it implements.
- `Packed`, `Overlay`, `Membership`: the packed array with its two overlay sets, and the plain set
  it stands for. `Stream` and `StreamConsumer`: events, reconnects and replays.
- `Text`, `Defang`, `Urls`, `Indicators`: normalization of ASCII text. `DefangLaws` shows that defanging
  undoes every spelling, `IndicatorReadings` what each kind of text reads as when written out, and
  `IndicatorLaws` and `UrlIdempotence` which results are fixed points. `Bootstrap` loads the set;
  `NoFalseNegative` joins normalization, bootstrap and overlay into the argument the fast path rests on.
- `PayloadCaching`, `SingleFlight`, `FlightObjects`, `Backends`, `BackendObjects`, `Breaker`: the
  live path, from the cache to the client.
- `Mapper`, `Budget`, `WazuhEvent`: ranking, memory arithmetic and event framing.

`dafny verify dfyconfig.toml` checks everything. Functions that are data to the model (the
fingerprint, the ranges of an address, IPv6 parsing, date parsing, upstream's answers, the clock) are
parameters, so every result holds for all of them; fingerprint collisions are therefore covered.
No proof leans on automatic induction: lemmas over recursive definitions carry `{:induction false}`.

## Where the code and its promises part

Each has a lemma with a witness, or the exact condition under which the promise holds.

- Normalizing a domain is not idempotent for a text whose defanged form, cut of trailing dots, ends
  in a line break: `$` in the domain expression matches before a final line break
  (`IndicatorLaws.DomainIdempotentIff`, `LineBreakIsDroppedLate`).
- That breaks the fast path too: a listed lookupable domain with an undisturbed key is dismissed by the
  membership tier exactly when it ends in a line break and nothing else listed is read as it
  (`NoFalseNegative.DomainDismissedIff`, `FalseNegativeExists`).
- A URL is looked up live by its raw host, but the set is keyed on normalized values that can be looked up.
  A URL whose listed host is not lookupable or not its own canonical form is dismissed
  (`NoFalseNegative.UrlHostDismissedIff`); `http://a_b.com` is one (`UrlFalseNegativeExists`).
- The header of `indicators.py` says that `HXXP://Evil.COM/a/` and `http://evil.com/a` resolve to one key.
  Scheme and host are folded, but the path is kept byte for byte, so they do not
  (`IndicatorReadings.HeaderExampleDiffers`); `Urls.EquivalentUrlsMerge` and `DefangLaws.SchemesShareKey` say
  what does share a key.
- A URL without a scheme, written `//host...`, loses its host at a second normalization unless its path
  or query holds `://` (`UrlIdempotence.IdempotentIff`); `//a://x` is one (`SchemelessLosesItsHost`).
- `backends/shared_state.py:11-16` says the builder releases the lock after publishing and that losers
  build their own copy. The builder keeps the lock for life and losers never build
  (`GenerationTheorems.BuilderKeepsTheLock`, `LosersNeverBuild`), so a dead builder is not replaced until a
  new process starts (`NoFailoverWithoutAStart`).
- The comment at `opencti/stream.py:300-301` says a rebuild folds the overlay in. `adopt_overlay`
  carries all of it over, so it never shrinks (`Overlay.OverlayNeverShrinks`), and once full it stays
  full (`Overlay.OverlayStaysFull`) and asks for a rebuild at every event (`Consumer.ConsumeOnce`).
- For the same reason the full reload of `reconcile.py:9-12` repairs the set only where the last event about
  a fingerprint agrees with upstream (`Overlay.RebuildRepairsIff`, `StaleRemovalSurvivesReload`).
- `adopt_overlay` can lose an add when the adopting set has a tombstone of its own
  (`Overlay.AdoptingIff`); every set swapped in is fresh, so no run gets there (`Overlay.RunMembership`).
- A leftover segment under the next name blocks every non-empty build (`GenerationTheorems.BuildSucceedsIff`,
  `LeftoverStays`), and a builder killed at the wrong moment leaves one (`BlockedBuildIsReachable`).
- A connection dropped before any event id arrived resumes wherever the stream is by then, which loses
  events exactly when something they changed is not touched again (`Stream.ConvergesIff`,
  `DropBeforeFirstIdLosesEvents`); so workers that start at different places do not always converge, as
  `opencti/stream.py:24` says they do (`WorkersAgreeIff`).
- A failed half-open probe does not open the breaker again (`Breaker.FailedProbeDoesNotReopen`).
- A cap of zero still drains one value before it is looked at (`Bootstrap.TruncatedIff`), and a
  membership budget of less than 8 bytes means no cap at all (`Budget.TinyBudgetIsUncapped`).
- Memory is not conserved when an entry is larger than the payload budget by more than the bytes left over
  after the last packed entry allow (`Budget.ConservationIff`, `Budget.OversizedEntryOvershoots`).

## Model

| member | source | states |
|---|---|---|
| GenerationTheorems.AttachedMapsPublished | src/opencti_lookup/membership_loader.py:39-95 | in every reachable world of any number of workers, crashes, failovers and rebuilds, a worker attached at generation g maps exactly the sorted array published for g |
| GenerationTheorems.PublishedIsFixed | src/opencti_lookup/backends/shared_state.py:95-145 | between any two moments of a run the array on record for a generation never changes, and its segment name holds the same words or nothing |
| GenerationTheorems.OneBuilder | src/opencti_lookup/backends/shared_state.py:67-87 | at most one process builds, publishes or may do so, and it holds the lock |
| GenerationTheorems.PublishRaisesByOne | src/opencti_lookup/backends/shared_state.py:137-145 | a publish raises the published generation by exactly one and no other step moves it |
| GenerationTheorems.LosersNeverBuild | src/opencti_lookup/membership_loader.py:143-163 | a process that lost the election follows for the rest of its life, never building or holding the lock for it |
| GenerationTheorems.BuilderKeepsTheLock | src/opencti_lookup/membership_loader.py:130-141 | a builder stays the builder and keeps the lock for the rest of its life |
| GenerationTheorems.NoFailoverWithoutAStart | src/opencti_lookup/main.py:142-177 | once every living process follows, nothing is published until a new process starts |
| GenerationTheorems.AdoptionIsMonotone | src/opencti_lookup/membership_loader.py:180-195 | while a process lives its adopted generation never falls, it maps something else only with a strictly higher one, and never passes the published one |
| GenerationTheorems.FailoverSweepIsSafe | src/opencti_lookup/membership_loader.py:48-55 | the sweep before a first build removes only generations below the published one, never the one to be built, and no file without the prefix |
| GenerationTheorems.RebuildSweepIsSafe | src/opencti_lookup/reconcile.py:161-169 | the sweep after a rebuild removes only generations at least two below the one it published |
| GenerationTheorems.FailureChangesNothingServed | src/opencti_lookup/membership_loader.py:80-95 | a failed build, publish or attach leaves the record, the segments and every served array unchanged |
| GenerationTheorems.BuildSucceedsIff | src/opencti_lookup/backends/membership.py:163-171 | a build whose upstream answers succeeds exactly when it is empty or its segment name is free |
| GenerationTheorems.LeftoverStays | src/opencti_lookup/membership_loader.py:52-59 | a segment left under the next generation's name is swept by no one, so only an exit or a publish gets past it |
| GenerationTheorems.BlockedBuildIsReachable | src/opencti_lookup/membership_loader.py:48-59 | a builder killed between making its segment and publishing leaves the next builder failing, for every non-empty array |
| GenerationTheorems.StepKeepsInv | src/opencti_lookup/membership_loader.py:39-195 | every step of every process keeps the protocol invariant and everything published |
| GenerationProgress.NoticedIsServed | src/opencti_lookup/membership_loader.py:143-195 | whoever notices a publish, waiting, giving up or watching, and maps the segment while it is there, serves the array published, whatever others do in between |
| GenerationProgress.BehindCanCatchUp | src/opencti_lookup/membership_loader.py:166-195 | in every reachable world a process behind the published generation can take those two steps, and then serves it |
| GenerationProgress.MissedKeepsWatching | src/opencti_lookup/membership_loader.py:183-188 | a process that found no segment, or nothing in time, goes on watching from the generation it serves |
| GenerationProgress.FirstLoadServes | src/opencti_lookup/membership_loader.py:38-77 | with the lock free and the next name free or not needed the first load publishes and serves its array; otherwise it gives the lock back and changes nothing published |
| GenerationProgress.FailedLoadIsRetried | src/opencti_lookup/membership_loader.py:132-141 | a first load that fails frees the lock, and whoever tries next, itself included, has it and builds |
| GenerationProgress.DeathFreesTheLock | src/opencti_lookup/backends/shared_state.py:11-16 | so does the death of the holder |
| GenerationProgress.FailedRebuildGoesOn | src/opencti_lookup/reconcile.py:111-118 | a rebuild that fails leaves the builder with the lock, ready for the next |
| GenerationProgress.FailoverSweepLeaves | src/opencti_lookup/membership_loader.py:52-54 | after the sweep before a first build the only segments are the published one and one under the next name |
| GenerationProgress.RebuildSweepLeaves | src/opencti_lookup/reconcile.py:162-169 | after the sweep of a rebuild the only segments are the one it published and the one it superseded |
| SharedState.StateDir.TryBecomeBuilder | src/opencti_lookup/backends/shared_state.py:67-78 | the lock is taken exactly when it is free; otherwise nothing changes |
| SharedState.StateDir.ReleaseBuilder | src/opencti_lookup/backends/shared_state.py:80-87 | only the holder's release frees the lock |
| SharedState.StateDir.Publish | src/opencti_lookup/backends/shared_state.py:95-107 | the record is replaced whole and nothing else changes |
| SharedState.StateDir.ReadNextGeneration | src/opencti_lookup/backends/shared_state.py:137-145 | one above the published generation, or one |
| SharedState.StateDir.SweepStaleSegments | src/opencti_lookup/backends/shared_state.py:147-172 | removes exactly the prefixed segments not kept, reports each once, and changes no contents |
| Loader.Process.TryLock | src/opencti_lookup/membership_loader.py:130-146 | the election at load is the protocol step: the winner builds, the loser waits |
| Loader.Process.SweepStale | src/opencti_lookup/membership_loader.py:52-55 | the first sweep is the protocol step, keeping the target and the previous record |
| Loader.Process.FinishBuild | src/opencti_lookup/membership_loader.py:57-59 | the end of the bootstrap is the protocol step, failure to create the segment included |
| Loader.Process.Publish | src/opencti_lookup/membership_loader.py:60-77 | publishing is the protocol step; a first build goes into service with it |
| Loader.Process.Open | src/opencti_lookup/membership_loader.py:80-95 | attaching is the protocol step, and fails when the segment is gone |
| Loader.Process.Watch | src/opencti_lookup/membership_loader.py:180-195 | one turn of the watcher is the protocol step: only a higher generation is looked at |
| Loader.Process.Fail | src/opencti_lookup/membership_loader.py:137-141 | a failed first load gives the lock back, a failed rebuild keeps serving |
| Loader.Process.EndRebuild | src/opencti_lookup/reconcile.py:133-169 | publish, swap and sweep of a rebuild are the protocol steps in this order, up to the first failure |
| Loader.RebuildSucceeds | src/opencti_lookup/reconcile.py:120-169 | a rebuild works exactly when the corpus loads, its name is free or not needed and the record can be written; then it serves and publishes one generation up and keeps the superseded segment and the one it served |
| Loader.RebuildFails | src/opencti_lookup/reconcile.py:115-118 | a failed rebuild leaves the record, the lock, the builder and every segment as they were |
| Reconcile.Reconciler.Request | src/opencti_lookup/reconcile.py:85-90 | a request during a rebuild is ignored, any other is the next reason |
| Reconcile.Reconciler.Await | src/opencti_lookup/reconcile.py:99-109 | the reason of a turn: stop, the pending reason, a default, or the interval; the trigger is cleared in every case |
| Reconcile.Reconciler.RunTurn | src/opencti_lookup/reconcile.py:98-118 | one turn rebuilds once unless stopped while waiting, counts it as worked or failed, and keeps a stop that arrives meanwhile |
| Reconcile.Reconciler.Run | src/opencti_lookup/reconcile.py:96-118 | the loop leaves machine, process and counters as one rebuild per turn up to the stop |
| Reconcile.RunPublishes | src/opencti_lookup/reconcile.py:136-169 | over any run of the loop the generation rises by the number of rebuilds that worked, and the builder serves what it last published |
| Reconcile.ServedIff | src/opencti_lookup/reconcile.py:96-118 | a turn rebuilds exactly when no wait up to its own was stopped and no rebuild before it |
| Overlay.OverlayIsASet | src/opencti_lookup/backends/membership.py:194-223 | with disjoint overlay sets the read path is membership in ((packed minus tombstones) plus added), and add and remove are the set operations |
| Overlay.RunMembership | src/opencti_lookup/backends/split.py:74-90 | over any run of events and swaps membership is the last event for a touched fingerprint and the current array for every other, and the overlay sets stay disjoint |
| Overlay.OverlayNeverShrinks | src/opencti_lookup/backends/membership.py:225-236 | no event and no swap takes a fingerprint out of the overlay |
| Overlay.OverlayCountsTouched | src/opencti_lookup/backends/membership.py:238-241 | across swaps the overlay size is the number of distinct fingerprints touched since the start |
| Overlay.OverlayStaysFull | src/opencti_lookup/backends/membership.py:238-241 | the overlay never becomes smaller, so once full it stays full through every later event and swap |
| Overlay.RebuildRepairsIff | src/opencti_lookup/reconcile.py:9-12 | a full reload makes the set equal the new array exactly when the last event about every touched fingerprint agrees with it |
| Overlay.StaleRemovalSurvivesReload | src/opencti_lookup/reconcile.py:9-12 | a removal that no reload repairs |
| Overlay.AdoptingIff | src/opencti_lookup/backends/membership.py:225-236 | adopting keeps the overlays disjoint and lets the adopted one win exactly when this set has no tombstone for what the other added |
| Overlay.AdoptingCanLoseAnAdd | src/opencti_lookup/backends/membership.py:225-236 | two overlays for which adopting loses an add |
| Membership.PackValues | src/opencti_lookup/backends/membership.py:141-161 | the chunked build yields a strictly increasing array of exactly the fingerprints of the first max_entries values |
| Membership.GatherBlocks | src/opencti_lookup/backends/membership.py:141-160 | blocks and remainder together are the fingerprints of the capped stream, in order |
| Membership.BisectLeft | src/opencti_lookup/backends/membership.py:205-206 | the first position not below the fingerprint, over the count-sliced buffer |
| Membership.AllocateSegment | src/opencti_lookup/backends/membership.py:166-170 | a page-rounded segment: the data, then zeros |
| Membership.MembershipSet.Build | src/opencti_lookup/backends/membership.py:126-171 | a built set packs exactly the capped fingerprints, with an empty overlay, and no segment for an empty corpus |
| Membership.MembershipSet.Attach | src/opencti_lookup/backends/membership.py:173-186 | an attached set reads the first count words of the segment, with an empty overlay |
| Membership.MembershipSet.Contains | src/opencti_lookup/backends/membership.py:194-206 | overlay and bisection together answer membership in the plain set |
| Membership.MembershipSet.Add | src/opencti_lookup/backends/membership.py:213-217 | the new state: the fingerprint added, no tombstone for it |
| Membership.MembershipSet.Remove | src/opencti_lookup/backends/membership.py:219-223 | the new state: a tombstone, and the fingerprint not added |
| Membership.MembershipSet.AdoptOverlay | src/opencti_lookup/backends/membership.py:225-236 | the new state: both overlays merged, in the source's order |
| Membership.MembershipSet.Close | src/opencti_lookup/backends/membership.py:265-282 | the mapping goes once, the overlay stays, and only the owner unlinks unless told otherwise |
| Packed.Unique | src/opencti_lookup/backends/membership.py:161-161 | sorted without repetition, with the same elements |
| Packed.IncreasingUnique | src/opencti_lookup/backends/membership.py:161-161 | a strictly increasing array is determined by its elements |
| Stream.ReplayIsHarmless | src/opencti_lookup/opencti/stream.py:211-243 | replaying any already applied suffix changes nothing |
| Stream.ReconnectsSettle | src/opencti_lookup/opencti/stream.py:183-243 | whatever the drops and replays, and wherever a connection without a cursor starts, reaching the end of the log leaves the set of one pass from the earliest event sent |
| Stream.ConvergesIff | src/opencti_lookup/opencti/stream.py:211-243 | that is the set of one uninterrupted pass exactly when every fingerprint the missed events change is touched again later |
| Stream.ReconnectsConverge | src/opencti_lookup/opencti/stream.py:211-243 | so nothing is ever lost when connections without a cursor start at the beginning of the log |
| Stream.WorkersAgreeIff | src/opencti_lookup/opencti/stream.py:21-24 | two workers following one log agree exactly when whatever only the earlier one was sent is touched again in what both were sent |
| Stream.DropBeforeFirstIdLosesEvents | src/opencti_lookup/opencti/stream.py:212-212 | a drop before the first id, and a late start, for which that condition fails and an event is lost |
| Stream.LogStanding | src/opencti_lookup/opencti/stream.py:277-290 | events decide the fingerprints they touch whatever the set was before, and leave the others |
| Stream.ExtractedMeans | src/opencti_lookup/opencti/stream.py:128-142 | the values of an indicator event are those of the observables in its extensions |
| Stream.TypedValueCounts | src/opencti_lookup/opencti/stream.py:143-145 | the value of a typed object counts exactly for the five observable types |
| Stream.EventDoes | src/opencti_lookup/opencti/stream.py:50-51 | a delete takes the key of every value it names out, a create, an update or a merge puts it in, whatever the set held, and every other key stays |
| Stream.OtherEventsDoNothing | src/opencti_lookup/opencti/stream.py:249-275 | every other event name, and data that is no object, leaves the set alone |
| Stream.DeletedIsGone | src/opencti_lookup/opencti/stream.py:284-289 | a deleted indicator is no member afterwards, and the same value updated is one |
| Stream.CursorIsLastId | src/opencti_lookup/opencti/stream.py:245-248 | the resume cursor is the id of the last event that has one |
| StreamConsumer.Consumer.Handle | src/opencti_lookup/opencti/stream.py:245-304 | cursor and liveness move for any traffic; the set, the statistics and the rebuild request only for values that can be looked up |
| StreamConsumer.Consumer.ApplyValues | src/opencti_lookup/opencti/stream.py:277-290 | the loop over values does exactly the set operations of the lookupable ones |
| StreamConsumer.Consumer.ConsumeOnce | src/opencti_lookup/opencti/stream.py:236-304 | one connection applies its stretch of the log and leaves the cursor at its last id; with a full overlay it asks for a rebuild at every event applied |
| StreamConsumer.Consumer.FollowAll | src/opencti_lookup/opencti/stream.py:183-209 | the loop over connections, dropped or ended in peace, leaves set and cursor as they make them, and counts the drops |
| StreamConsumer.Consumer.Follow | src/opencti_lookup/opencti/stream.py:183-209 | once the end of the log is reached the set is that of one pass from the earliest event sent |
| Defang.RewriteShrinks | src/opencti_lookup/indicators.py:160-164 | every rewrite shortens the text or keeps its length and removes an x, so the loops end |
| Defang.Defang | src/opencti_lookup/indicators.py:154-165 | the nested loops with their shortcut compute the rewriting |
| Defang.UnmarkedIsUnchanged | src/opencti_lookup/indicators.py:157-159 | skipping the loops when no marker is present changes nothing |
| Defang.DefangedHasNoScheme | src/opencti_lookup/indicators.py:112-116 | no hxxp, hxxps or fxp is left, in any case |
| Defang.DefangedFixpoint | src/opencti_lookup/indicators.py:154-165 | a trimmed text without markers is its own defanged form |
| DefangLaws.SpellingsAreUndone | src/opencti_lookup/indicators.py:112-116 | a text of any length with any of its dots, colons, slashes and ats written as [.], (.), {.}, dot, [:], [/], [@] or [at], in any mixture and case, is defanged to the text meant |
| DefangLaws.OneSpellingIsUndone | src/opencti_lookup/indicators.py:159-164 | the same for one spelling between any two texts |
| DefangLaws.SchemesAreUndone | src/opencti_lookup/indicators.py:112-116 | hxxp, hxxps and fxp before a colon, in any case, become http, https and ftp, with any such spellings behind them |
| DefangLaws.SpellingsShareKey | src/opencti_lookup/indicators.py:243-303 | so every defanged spelling of an indicator has the reading and the key of the plain one |
| DefangLaws.SchemesShareKey | src/opencti_lookup/indicators.py:243-303 | and so has every URL with a defanged scheme |
| DefangLaws.EndsAreDropped | src/opencti_lookup/indicators.py:117-117 | a character at an end is dropped exactly when it is white space, a quote, or an angle, square or round bracket |
| Urls.UrlClosedForm | src/opencti_lookup/indicators.py:211-240 | the canonical URL in closed form, path and query byte for byte, and its hostname is the host reported |
| Urls.EquivalentUrlsMerge | src/opencti_lookup/indicators.py:221-239 | URLs differing only in scheme case, host case, default port or fragment share one form (sections 6.2.2.1 and 6.2.3 of RFC 3986) |
| Urls.UserInfoIsDropped | src/opencti_lookup/indicators.py:215-239 | credentials before the host play no part: the URL shares the form of the one without them |
| Urls.BadPortIsRefused | src/opencti_lookup/indicators.py:224-227 | a port that is not a number up to 65535 makes the URL unparseable |
| Urls.SchemeTells | src/opencti_lookup/indicators.py:213-220 | what stands before the first colon is a scheme exactly when it begins with a letter and holds letters, digits, plus, minus and dots |
| Urls.BlanksAreDropped | src/opencti_lookup/indicators.py:215-216 | tabs and line breaks inside a URL, and blanks before it, play no part |
| Urls.BracketsSetApart | src/opencti_lookup/indicators.py:215-218 | a host part with a square bracket is left to the reading of IPv6 literals, and no other is |
| UrlIdempotence.IdempotentIff | src/opencti_lookup/indicators.py:211-240 | the canonical form is its own canonical form exactly when the text splits into a scheme, or a path or query that holds :// |
| UrlIdempotence.SchemelessLosesItsHost | src/opencti_lookup/indicators.py:213-240 | the exception is real: a text whose empty port is dropped, and whose form has no host at the second reading |
| UrlIdempotence.HostnameOfCanonical | src/opencti_lookup/indicators.py:305-310 | the hostname read from any canonical URL, with a scheme or without, is the host reported with it |
| IndicatorLaws.PaddedFormsShareKey | src/opencti_lookup/indicators.py:258-272 | all zero-padded forms of one IPv4 address normalize to its canonical text and skip reason |
| IndicatorLaws.DottedInjective | src/opencti_lookup/indicators.py:183-185 | distinct addresses have distinct canonical texts |
| IndicatorLaws.Ipv4Idempotent | src/opencti_lookup/indicators.py:257-272 | an IPv4 result is its own canonical form |
| IndicatorLaws.HashIdempotent | src/opencti_lookup/indicators.py:274-279 | a hash result is its own canonical form |
| IndicatorLaws.DomainIdempotentIff | src/opencti_lookup/indicators.py:292-300 | a lookupable domain is its own canonical form exactly when the defanged input, cut of its trailing dots, does not end in a line break |
| IndicatorLaws.LineBreakIsDroppedLate | src/opencti_lookup/indicators.py:122-126 | the exception is real: a whole family of texts that change at the second reading |
| IndicatorLaws.CanonicalDomain | src/opencti_lookup/indicators.py:292-300 | a well-formed lower-case domain text with no scheme marker is read as it stands, its last label deciding |
| IndicatorReadings.NameReads | src/opencti_lookup/indicators.py:122-126 | a name written from labels of letters, digits and inner hyphens is a domain that can be looked up, unless its last label is skipped or is a file extension |
| IndicatorReadings.DomainsAreNames | src/opencti_lookup/indicators.py:122-126 | and every domain result is such a name, but for a final line break |
| IndicatorReadings.DomainFormsShareKey | src/opencti_lookup/indicators.py:292-300 | upper case and trailing dots play no part in a domain |
| IndicatorReadings.QuadIff | src/opencti_lookup/indicators.py:128-132 | four digit texts between dots are an address exactly when each has at most three digits and is at most 255 |
| IndicatorReadings.AddressSkipped | src/opencti_lookup/indicators.py:188-208 | an address can be looked up exactly when private ranges are not skipped or it lies in none, and the first range in order is the reason |
| IndicatorReadings.Ipv6Reads | src/opencti_lookup/indicators.py:264-272 | IPv6 text that parses reads as its compressed form and is skipped for the same reasons |
| IndicatorReadings.HashReads | src/opencti_lookup/indicators.py:274-279 | 32, 40 or 64 hexadecimal digits in any case are an MD5, a SHA-1 or a SHA-256 in lower case |
| IndicatorReadings.HashesAreHex | src/opencti_lookup/indicators.py:274-279 | and nothing else is a hash |
| IndicatorReadings.WrittenUrlReads | src/opencti_lookup/indicators.py:281-290 | a URL written from its parts reads as its canonical form, skipped exactly when the last label of its host is |
| IndicatorReadings.UnparseableIsSkipped | src/opencti_lookup/indicators.py:282-285 | a URL without a host, or with a port that is none, is never looked up |
| IndicatorReadings.SchemelessShareKey | src/opencti_lookup/indicators.py:213-213 | a text with a path or query and no scheme has the reading of the URL that http makes of it |
| IndicatorReadings.PortsWrittenOut | src/opencti_lookup/indicators.py:133-133 | 80, 443 and 21 go with http, https and ftp; every other port is written out without padding |
| IndicatorReadings.HeaderExampleDiffers | src/opencti_lookup/indicators.py:3-5 | HXXP://Evil.COM/a/ and http://evil.com/a do not share a key: the trailing slash is kept |
| Bootstrap.Drain | src/opencti_lookup/bootstrap.py:61-130 | the paging and filtering loops collect the first max(1, cap) lookupable values in order, or all, or fail as upstream did before the cap |
| Bootstrap.BuildMembership | src/opencti_lookup/bootstrap.py:133-186 | the set packs exactly the fingerprints of the drained values under the cap, with an empty overlay; every failure is passed on |
| Bootstrap.UntruncatedIsComplete | src/opencti_lookup/bootstrap.py:157-163 | an untruncated load holds the canonical value of everything listed that can be looked up, and nothing else |
| Bootstrap.RawMeans | src/opencti_lookup/bootstrap.py:105-116 | what a walk lists: each node's own value, or in precise mode the values nested in each indicator |
| Bootstrap.WalkedMeans | src/opencti_lookup/bootstrap.py:61-74 | the walk is the answers up to the first page without a next cursor, and broken exactly by the first failure before that |
| Bootstrap.WalkIsWhole | src/opencti_lookup/bootstrap.py:61-74 | pages that point on, then one without a next page or cursor, are all walked, and nothing answered after them is |
| Bootstrap.WalkBreaks | src/opencti_lookup/bootstrap.py:61-74 | a failure, or an answer that never comes, breaks the walk wherever it happens |
| Bootstrap.KeptAppends | src/opencti_lookup/bootstrap.py:117-130 | every occurrence that can be looked up counts, in the order of the walk |
| Bootstrap.LoadFailsIff | src/opencti_lookup/bootstrap.py:157-163 | a load fails exactly when the walk does before the cap is met, and for that reason |
| Bootstrap.TruncatedIff | src/opencti_lookup/bootstrap.py:157-170 | the flag is raised exactly when the cap was met by something kept; then the first cap values kept are packed, and otherwise all |
| NoFalseNegative.CanonicalIsFixed | src/opencti_lookup/bootstrap.py:84-93 | normalizing a canonical value once more, as the bootstrap does, gives the key lookups use |
| NoFalseNegative.ListedIsMember | src/opencti_lookup/bootstrap.py:102-130 | a key the bootstrap kept stays a member over any run of events and swaps without a removal of its fingerprint |
| NoFalseNegative.MemberIff | src/opencti_lookup/bootstrap.py:102-130 | an undisturbed key is a member exactly when the bootstrap kept it |
| NoFalseNegative.NeverDismissed | src/opencti_lookup/backends/split.py:92-116 | end to end: what upstream lists as the exact canonical value of an input is never dismissed by the membership tier, whatever the flags |
| NoFalseNegative.PagedValueIsNeverDismissed | src/opencti_lookup/backends/split.py:92-116 | the same from the pages: a value in a node of any page upstream answered is never dismissed |
| NoFalseNegative.KnownHostNeverDismissed | src/opencti_lookup/backends/split.py:104-112 | a URL whose host the bootstrap kept is never dismissed while no removal has that host's fingerprint |
| NoFalseNegative.CanonicalHostIsKept | src/opencti_lookup/bootstrap.py:84-93 | listed hosts that are lookupable canonical domains or addresses are kept |
| NoFalseNegative.DismissedIff | src/opencti_lookup/backends/split.py:92-116 | any value with undisturbed keys is dismissed exactly when the bootstrap kept neither it nor the host it falls back to |
| NoFalseNegative.UrlHostDismissedIff | src/opencti_lookup/backends/live.py:69-74 | a URL whose own key is absent and whose host is listed is dismissed exactly when that host is not lookupable or not its own canonical form |
| NoFalseNegative.UrlFalseNegativeExists | src/opencti_lookup/backends/split.py:104-116 | a URL that is dismissed though a live lookup finds it through its listed host |
| NoFalseNegative.DomainDismissedIff | src/opencti_lookup/backends/split.py:101-116 | a listed lookupable domain with an undisturbed key is dismissed exactly when it ends in a line break and nothing else listed is read as it |
| NoFalseNegative.FalseNegativeExists | src/opencti_lookup/backends/split.py:101-116 | and such false negatives exist: a corpus, the set built from it and an input, for every such domain |
| NoFalseNegative.SplitTellsTheTruth | src/opencti_lookup/backends/split.py:92-116 | when whatever upstream would find for a value was kept and not removed, the split lookup says found exactly when upstream knows the value or the URL's host, whatever the flags |
| NoFalseNegative.SettledTellTheTruth | src/opencti_lookup/backends/split.py:92-116 | for addresses, hashes and domains without a final line break it is enough that upstream lists the exact value |
| Backends.KeyInjective | src/opencti_lookup/indicators.py:149-151 | the cache key tells every kind and value apart |
| Backends.LiveTellsTheTruth | src/opencti_lookup/backends/live.py:37-80 | with upstream available and the cache agreeing, a live lookup says found exactly when upstream knows the value or the URL's host, and leaves the cache agreeing |
| Backends.FailuresAreNotCached | src/opencti_lookup/backends/live.py:45-51 | a failure is answered as degraded or raised, leaves no entry behind and is never read as found |
| Backends.FallbackSaysWhatMatched | src/opencti_lookup/backends/live.py:69-78 | a URL answered through its host carries the URL as value and the host as what matched, all else untouched |
| Backends.LiveAnswers | src/opencti_lookup/backends/live.py:37-80 | the payload of the exact value as upstream gave it; for a URL what its host brings; a miss when neither is known; a failure as degraded or raised |
| Backends.UpstreamNotAsked | src/opencti_lookup/backends/live.py:38-43 | a skipped or cached lookup has the same answer whatever upstream would say |
| Backends.AnsweredOnce | src/opencti_lookup/backends/live.py:53-54 | what upstream answered, a miss included, is answered from the cache until it is due |
| Backends.VersionsDoNotMix | src/opencti_lookup/backends/live.py:41-41 | entries made under other settings are not read |
| Backends.NotReadyIsLive | src/opencti_lookup/backends/split.py:96-99 | until the set is ready, and while it is stale, every lookup is the live one whatever the set holds |
| Backends.ColdStartTellsTheTruth | src/opencti_lookup/backends/split.py:96-99 | so a cold start or a lost stream changes no verdict, with no condition on the set |
| Backends.ReadyRoutes | src/opencti_lookup/backends/split.py:92-116 | ready and fresh, a lookup goes on exactly when the set has the value's key or its URL's host's, and is otherwise a miss that leaves the cache alone |
| Backends.SplitAgreesWithLive | src/opencti_lookup/backends/split.py:92-116 | when the set covers what upstream would find, split and live lookups give the same verdict for every value and every flag |
| Backends.SplitDisagreesIff | src/opencti_lookup/backends/split.py:92-116 | in general the verdicts part exactly where the tier dismisses a value upstream would find |
| BackendObjects.LiveBackend.Lookup | src/opencti_lookup/backends/live.py:37-54 | the object does the lookup above and leaves exactly the cache state it says |
| BackendObjects.SplitBackend.Lookup | src/opencti_lookup/backends/split.py:92-116 | the object does the split lookup over its own set and flags |
| BackendObjects.SplitBackend.SwapMembership | src/opencti_lookup/backends/split.py:74-90 | the new set takes over the old one's overlay before serving; the old one lets go of its mapping without unlinking; staleness is kept |
| BackendObjects.SplitBackend.StreamHealth | src/opencti_lookup/backends/split.py:50-68 | stale exactly when disconnected or silent too long, and the cache's life is shortened with it |
| PayloadCaching.UnexpiredIsKept | src/opencti_lookup/cache/payload.py:87-108 | an entry not yet due, not invalidated or cleared is still answered unless max_entries distinct other keys were set or hit since its last use |
| PayloadCaching.GetIsLatest | src/opencti_lookup/cache/payload.py:87-105 | get answers only the payload last set, before the deadline given then by the flag of that moment |
| PayloadCaching.SizeIsBounded | src/opencti_lookup/cache/payload.py:106-108 | no run exceeds the entry ceiling |
| PayloadCaching.CountersAddUp | src/opencti_lookup/cache/payload.py:87-100 | every get is one hit or one miss, hits are the answered ones, expiries are misses |
| PayloadCaching.EntriesAreConserved | src/opencti_lookup/cache/payload.py:87-116 | whatever came in is still held, or was evicted, expired, or taken out by hand |
| PayloadCaching.PayloadCache.Get | src/opencti_lookup/cache/payload.py:87-100 | result and whole new state, recency and counters included |
| PayloadCaching.PayloadCache.Set | src/opencti_lookup/cache/payload.py:102-108 | the whole new state: newest last, deadline by the active lifetime, oldest evicted |
| PayloadCaching.PayloadCache.Invalidate | src/opencti_lookup/cache/payload.py:110-112 | the key is gone and the result says whether it was there |
| PayloadCaching.Empty | src/opencti_lookup/cache/payload.py:59-73 | a ceiling of at least one entry whose accounted bytes fit the budget, or one entry |
| SingleFlight.OneFlightPerKey | src/opencti_lookup/cache/singleflight.py:22-32 | under every interleaving at most one task fetches a key and one flight of it lacks an outcome |
| SingleFlight.NoKeyIsWedged | src/opencti_lookup/cache/singleflight.py:40-44 | a key is in flight exactly while its leader is fetching, whatever failed or was cancelled |
| SingleFlight.JoinersShareTheOutcome | src/opencti_lookup/cache/singleflight.py:23-25 | a joiner that is not itself cancelled gets its flight's outcome: a payload, degraded for a refusal, any other exception as itself |
| SingleFlight.BeginDecides | src/opencti_lookup/cache/singleflight.py:22-30 | a lookup is answered from the cache, else joined to the task fetching its key, and fetches itself only when none does |
| SingleFlight.JoinerIsServed | src/opencti_lookup/cache/singleflight.py:22-44 | nobody waits for ever: however the leader ends, its joiners can wake to that outcome |
| SingleFlight.WokenIsCached | src/opencti_lookup/backends/live.py:46-54 | and so is one a joiner wakes to, which caches it anew |
| SingleFlight.CancelSparesTheFlight | src/opencti_lookup/cache/singleflight.py:23-25 | a cancelled joiner ends with its own cancellation; the flight, its leader and the other joiners go on |
| SingleFlight.ClockAndFlag | src/opencti_lookup/cache/payload.py:79-85 | between lookups the clock moves and the degraded flag changes, and nothing else does |
| SingleFlight.LandedIsCached | src/opencti_lookup/backends/live.py:53-54 | a payload fetched is answered to its leader and, from the cache, to whoever asks next |
| SingleFlight.OutcomesAreFinal | src/opencti_lookup/cache/singleflight.py:32-39 | an outcome once set stays, through every step |
| SingleFlight.FlightsOnlyWhenNeeded | src/opencti_lookup/backends/live.py:41-46 | a flight begins only for a key not in flight and not answerable from the cache: due, or pushed out by max_entries other keys |
| SingleFlight.AnswersAreUpstreams | src/opencti_lookup/backends/live.py:37-54 | with fixed upstream answers every payload answered or cached is upstream's for its key; failures never enter the cache |
| FlightObjects.EventLoop.Begin | src/opencti_lookup/backends/live.py:41-46 | cache check, join or lead as one step of the state machine |
| FlightObjects.EventLoop.Land | src/opencti_lookup/cache/singleflight.py:30-44 | the leader's end as one step: future settled, key dropped, value cached |
| FlightObjects.EventLoop.Wake | src/opencti_lookup/cache/singleflight.py:23-25 | a joiner's end as one step |
| Breaker.RefusesIff | src/opencti_lookup/opencti/client.py:67-76 | refuses exactly when the failures since the last success reached the threshold and less than the reset time has passed since the one that did |
| Breaker.OneWindowPerStreak | src/opencti_lookup/opencti/client.py:85-94 | however many failures follow, a streak has one refusal window |
| Breaker.RefusalsAreClose | src/opencti_lookup/opencti/client.py:67-94 | two refusals without a success between are less than the reset time apart |
| Breaker.SuccessRestores | src/opencti_lookup/opencti/client.py:78-83 | a success restores the whole threshold |
| Breaker.FailedProbeDoesNotReopen | src/opencti_lookup/opencti/client.py:88-90 | a failed half-open probe leaves the breaker letting calls through |
| Breaker.CircuitBreaker.Execute | src/opencti_lookup/opencti/client.py:143-197 | a refused call sends and records nothing; an admitted one retries only a first connection error and records once, unless it is interrupted |
| Mapper.PrimaryIsBest | src/opencti_lookup/opencti/mapper.py:72-154 | a payload is built exactly when an indicator survives; unexpired exactly when a live one does; highest score of its liveness, then smallest date, then first listed |
| Mapper.SurvivorsAre | src/opencti_lookup/opencti/mapper.py:55-84 | who takes part: an absent score is 0; live only drops the revoked, expiry aware those revoked before their time |
| Mapper.PrimaryBeats | src/opencti_lookup/opencti/mapper.py:86-93 | nobody alive while the winner is expired, nobody of its liveness with a higher score, nobody of its score with a date text that comes before |
| Mapper.LabelComesFrom | src/opencti_lookup/opencti/mapper.py:97-108 | every label kept is one an indicator carries, without the white space at its ends and cut to 64 characters |
| Mapper.SortedSorts | src/opencti_lookup/opencti/mapper.py:86-94 | the ranking sorts, permutes, and keeps the order within a rank |
| Mapper.LabelsAreFirst | src/opencti_lookup/opencti/mapper.py:97-107 | the labels kept are distinct, in the order first written, at most 24 and all when fewer, and every label not kept was first written after every kept one |
| Mapper.Labels | src/opencti_lookup/opencti/mapper.py:97-107 | the loops with their early return compute them |
| Budget.ReserveIsKept | src/opencti_lookup/memory.py:87-109 | the smaller limit binds, the reserve is never handed out, and the workers' shares fit |
| Budget.NothingIsWasted | src/opencti_lookup/memory.py:95-101 | and nothing else is held back: the usable bytes are the whole bytes of the fraction, or the override as far as the reserve allows |
| Budget.SharesAreWhole | src/opencti_lookup/memory.py:107-107 | no worker could be given a byte more |
| Budget.SizesAre | src/opencti_lookup/main.py:46-53 | 8 MB or a quarter of the share, whichever is more, unless set; the rest is the set's |
| Budget.AutomaticSizingFits | src/opencti_lookup/main.py:46-53 | automatic payload budgets fit and the membership budget is the rest |
| Budget.ConservationIff | src/opencti_lookup/main.py:46-58 | packed bytes and full caches fit what is usable for every load under the cap exactly when an entry fits its payload budget, or overshoots by no more than the bytes left over |
| Budget.MemoryIsConserved | src/opencti_lookup/cache/payload.py:67-68 | over every run of every worker's cache, packed and held bytes stay within what is usable |
| Budget.OversizedEntryOvershoots | src/opencti_lookup/cache/payload.py:67-68 | one byte too many for an entry breaks conservation, for any number of workers |
| Budget.TinyBudgetIsUncapped | src/opencti_lookup/membership_loader.py:102-102 | a budget below one entry lifts the cap; any other caps the packed bytes within it |
| WazuhEvent.EscapeIsACode | wazuh/custom-opencti.py:226-227 | the two replacements are a code of single characters |
| WazuhEvent.DecodedCoded | wazuh/custom-opencti.py:226-227 | decoding recovers every location and no escaped colon ends the field |
| WazuhEvent.FrameRoundTrip | wazuh/custom-opencti.py:217-228 | every line reads back as its location, or none, and its body |
| WazuhEvent.FrameInjective | wazuh/custom-opencti.py:217-228 | no two events share a line |
| WazuhEvent.LineTellsTheSender | wazuh/custom-opencti.py:217-228 | a line without location is the manager's or agent 000's, any other tells the agent's number, name and address |
| WazuhEvent.LineAsWritten | wazuh/custom-opencti.py:217-228 | the line as it is written, for the manager and for an agent whose location needs no escaping |
| WazuhEvent.LocationTellsTheNumber | wazuh/custom-opencti.py:226-226 | a number without a bracket can be read off the location |

## Left out

- Assumed of the machine: one state directory per segment namespace, a state file that is never
  deleted (`clear` has no caller) and always well-formed, an exclusive lock released by the death of
  its holder, and mappings that survive an unlink.
- Loader.Process.EndRebuild: does not interleave other processes between publish, swap and sweep,
  because the source has no await there; the transition system in `Generations` does interleave them.
- Reconcile.Reconciler.Run: does not model the machine being touched by other processes between two
  turns; the transition system does.
- SharedState.StateDir.SweepStaleSegments: does not model an unlink that fails, which the source skips,
  or a machine without /dev/shm, where it sweeps nothing.
- Membership.MembershipSet.Attach: does not model a record whose count exceeds the segment; the invariant of
  the protocol (`GenerationSafety.HostInv`) shows that none is ever published.
- StreamConsumer.Consumer.Handle: does not model payloads whose extensions are of the wrong type, for which
  the source raises after the cursor has moved.
- Stream.ReconnectsConverge: does not cover a connection without a cursor that starts past the beginning
  of the log; ConvergesIff does.
- NoFalseNegative.NeverDismissed: does not cover URL and IPv6 results, because normalizing a canonical
  URL again through defanging can change it (nested markers, a strippable end exposed by dropping the
  fragment) and IPv6 text is a parameter here; DismissedIff says for every value when it is dismissed, in
  terms of what the bootstrap kept.
- BackendObjects.LiveBackend.Lookup: does not overlap with other lookups; FlightObjects.EventLoop does.
- BackendObjects.SplitBackend.Lookup: does not overlap with other lookups; FlightObjects.EventLoop does.
- Backends.LiveTellsTheTruth: does not interleave lookups; SingleFlight.AnswersAreUpstreams does.
- Budget.MemoryIsConserved: does not count overlays, page rounding, or the second segment that exists
  while a rebuild runs; an entry is taken to be as large as the setting says.
- Mapper.PrimaryIsBest: does not model the plain text fields of the payload, which are copied and cut
  to length one by one.
- Non-ASCII text and IDNA, IPv6 parsing, and URLs with a host in square brackets.
- The original text a Normalized value carries along, and unshared ("solo") membership.
- HTTP, SSE and GraphQL transport, JSON decoding, sleeps, backoff and jitter; upstream is its answers.
- numpy, shared_memory, resource_tracker and flock internals, and blake2b, which is any function here.
- Routes, authentication, metrics, logging, settings parsing, and the Redis settings.
- `extract_indicators` and `dig` of the Wazuh integration, and its request code.
- `__len__` and `stats` of the set, which are not cardinalities.
