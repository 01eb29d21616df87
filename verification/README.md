# torpeek, verified

torpeek takes frames from videos inside torrents without downloading them whole. This project models the parts
of it whose correctness is an argument rather than a glance, and proves those arguments: the torrent pool as a
protocol, the edits of the results tree that a crash may cut short, the arithmetic between bytes and pieces, the
pairing of two sets of frames, the replay of a run's events, and the budgets around all of it. `dafny verify
dfyconfig.toml` checks everything.

## How it is laid out

| files | what they hold |
|---|---|
| PoolModel, PoolInvariant, PoolSafety, PoolTheorems, PoolLedger | the pool as a state machine whose steps interleave freely, what every state keeps, and the results for every run |
| PoolProgress | where each kind of source is sent, and what its attach comes to when its steps work out |
| Pools, PortPools, PoolRefinement | the same lock sections as the methods they are, over mutable fields, and why the two accounts agree |
| Text, PortSets | the port set as an operator types it, read and printed |
| ResultsTree, FrameDeletion, FileClearing | the disk, which keeps every state it has been in, and what is done to it |
| Resume, Reruns | one run over what earlier ones left, and any number of runs and deletions |
| Paths, Manifest | lexical path rules and the relocation of recorded frames |
| Intervals, Geometry, Provenance, Reach, ReachMeans, RunReach | canonical ranges, bytes against pieces, the claim log, and the strip drawn from it, over one run and over many |
| Pairing | mutual nearest pairing of two arms |
| HubHistory, Hub | the collapsed replay and the fan-out |
| Availability | the swarm's coverage of a file |
| Budget, TopUps, Eviction | what stops a run, what finishing it is priced at, what leaves the cache |
| Sorting, Sets, Int64 | stable sorting, finite-set helpers, the range of int64 |

How the source's forms were carried over: an object whose methods change it is a class (`Provenance.Torrent`,
`ResultsTree.Disk`, `Hub.Hub`, `Pools.Pool`, `PortPools.PortPool`, `Eviction.Engine`, `TopUps.TopUp`,
`Budget.BudgetTracker`), a loop is a method with invariants, an expression is a function. The pool appears twice:
once as classes, one method a lock section, and once as a state machine, because its promises are about
interleavings no single method can state; `PoolRefinement` ties the two together. In the state machine the fields
`place`, `arrived`, `lost` and `late` are bookkeeping that no step reads, and how a source is routed is a parameter,
`World.way`: the refusals at addTo and attachShared are proved to do their work wherever a source was sent, and what
rests on the routing of `routeFor` asks for it (`Routed`).

Where the code does not meet what one would expect of it, the code was kept and the difference was proved: one
lemma gives the input, another says exactly when it happens.

| what happens | the input | exactly when |
|---|---|---|
| addTo returns with a private torrent on a client with DHT | PoolTheorems.WindowOutlastsTheAdd | PoolTheorems.ExposedPastTheAddIff |
| a torrent stays in the shared client with nobody to drop it | PoolTheorems.ALostWaitLeavesAStray | PoolTheorems.DoorLeavesAStrayIff |
| received bytes are in no figure of the pool | PoolLedger.AFailedAttachIsNeverBilled | PoolLedger.BytesAreLostIff |
| a listed file is left with nothing to serve | FrameDeletion.AGapIsReached | FrameDeletion.IntactIffSomethingIsLeft |
| a stopped run drops records it held | Resume.AHaltForgetsLaterFrames | Resume.LostIffHeldPastTheStop, Reruns.OneChangeKeepsIff |
| an offer does not cover the least that finishing costs | TopUps.PastTheBoundTheOfferFallsShort, TopUps.RoundingUpCanWrap | TopUps.OfferCoversIff; beyond the least cost's own bound, TopUps.BeyondTheLeastCost |
| the order of files decides which limit is named | TopUps.OrderPicksTheReason | TopUps.ReadingMeans, TopUps.LastReasonStands |
| the order of files decides which ceiling is shown | TopUps.ATieGoesToTheFirst | TopUps.CeilingIsTheFirstLargest |
| a live set is removed | Eviction.ASnapshotCanBeLate | Eviction.EvictFromSnapshot |

In particular `onlineRoute.blind` (internal/swarm/policy.go:27-33) says no private torrent stays on a client with
DHT past the add call in which its flag became readable. That holds of every add that goes on to read the flag;
an add whose context ends first, or in the same moment, returns with the torrent still in, and it is the close
that follows that takes it off.

## Model

| member | source | states |
|---|---|---|
| PoolTheorems.AttachSharedIsADoor | internal/swarm/pool.go:462-498 | From any state, reached or not, attachShared leaves no private torrent in the shared client that was not there before, whatever sent the source to it. |
| PoolTheorems.SharedAddIsADoor | internal/swarm/pool.go:488-498 | The add that attachShared makes would refuse such a torrent by itself, had anything let the attach get that far. |
| PoolTheorems.OnlyBlindMagnetsHaveDht | internal/swarm/policy.go:72-93 | As routeFor routes, in every reachable state a client of an attach's own has DHT on only where the configuration allows it and only for a magnet that names no tracker or whose trackers stayed silent. |
| PoolProgress.WayIsDecided | internal/swarm/policy.go:72-93 | Each of the five ways a source can be sent, exactly by the source and the configuration; and the blind ones are the magnets without trackers. |
| PoolProgress.TrackersAreAskedFirst | internal/swarm/pool.go:387-435 | In every reachable state an attach is on a probe, DHT off, or past it on a blind client, DHT on, exactly where its source is a magnet with trackers and the configuration has DHT. |
| PoolProgress.ASilentProbeComesToDht | internal/swarm/pool.go:405-419 | From any reachable state, whatever every other attach, detach and close does in between: a magnet with trackers whose probe gets nothing from them comes to a client of its own with DHT on. |
| PoolProgress.APublicSilentMagnetIsAttached | internal/swarm/pool.go:405-419 | And if it is public and its steps work out it is attached there. |
| PoolProgress.APublicProbeJoinsTheShared | internal/swarm/pool.go:429-498 | One whose probe finds it public comes to the door, and where start, add and wait work out is attached with its torrent in the shared client. |
| PoolProgress.APublicTorrentJoinsTheShared | internal/swarm/pool.go:340-345 | A public .torrent goes straight to the door and in. |
| PoolProgress.TheDoorIsDecided | internal/swarm/pool.go:462-527 | The door lets an attach in exactly when its torrent is known to be public, the pool is open, there is a shared client or a port to start one on, and start, add and wait work out. |
| PoolProgress.AloneIsAttached | internal/swarm/pool.go:347-427 | Every other way to a client of its own ends attached to it, with DHT on for a magnet without trackers and off for a private .torrent, for trackers where there is no DHT, and for a magnet its probe finds private. |
| PoolProgress.ABlindPrivateMagnetIsRefused | internal/swarm/session.go:592-619 | A magnet without trackers that turns out private is thrown out, its client closed, its port and its hold given back. |
| PoolProgress.AFailureEndsIt | internal/swarm/session.go:188-306 | An attach to a client of its own whose start, add or wait does not work out comes to its end, its client, port and hold given back. |
| PoolProgress.ADetachFinishes | internal/swarm/pool.go:641-668 | A detach comes to its end in five steps where the client is its own, and three where it is the shared one. |
| PoolProgress.ADropTakesItOut | internal/swarm/pool.go:641-668 | Letting go of a torrent of the shared client takes it and no other out of the client it is in, the one Close is taking down included. |
| PoolProgress.WithoutASetPortsAreAsConfigured | internal/swarm/session.go:166-179 | Over every run without a port set each client asks for the port that is pinned, or for none in particular, and nobody holds a lease. |
| PoolTheorems.PrivateTorrentsStayOffDht | internal/swarm/pool.go:60-73 | Wherever each source was routed, after any events in any order: the shared client, and the one Close is taking down, hold only public torrents; a private torrent is on a client with DHT only inside the window of a magnet, and then it is that attach's own torrent; an attached private torrent has a client of its own with DHT off. |
| PoolTheorems.StatedPrivateIsNeverExposed | internal/swarm/session.go:525-543 | Wherever it was routed, a .torrent that says private is refused before the add: in no reachable state is it on a client with DHT. |
| PoolTheorems.WindowClosesInTwoSteps | internal/swarm/session.go:576-619 | From any reachable state in that window, after any events at all among which the attach takes two steps, whatever their outcomes and whatever comes before, between and after them, the torrent is off the client with DHT. |
| PoolTheorems.WindowOutlastsTheAdd | internal/swarm/session.go:581-585 | A run in which addTo has returned an error and the private torrent is still in the client with DHT: the wait lost to a cancelled context drops nothing. |
| PoolTheorems.ExposedPastTheAddIff | internal/swarm/session.go:520-619 | An add returns with its private torrent still on a client with DHT exactly when it was waiting for metadata there and the wait was cut short. |
| PoolTheorems.PortsAreConserved | internal/swarm/pool.go:362-547 | In every reachable state the free queue and the ports that are out (leased to attaches, to the shared client, to the closing one) are together a permutation of the configured set. |
| PoolTheorems.APortIsRefusedIff | internal/swarm/ports.go:201-218 | In every reachable state an attach in need of a port is turned away exactly when every port of the set is out. |
| PoolTheorems.NoTwoClientsOnOnePort | internal/swarm/session.go:166-180 | Over a managed set, no two live clients are ever bound to one port, the shared one and the closing one included, and each of them all is bound to a port of the set. |
| PoolTheorems.AllPortsComeBack | internal/swarm/pool.go:641-668 | An attach that is over, failed or detached, holds no lease; and once all are over and the shared client is down the free queue is the configured set in some order. |
| PoolTheorems.AParsedSetWillDo | internal/swarm/ports.go:58-112 | Any port set read without an error meets what these results ask of a set: it names a port, and none twice. |
| PoolTheorems.HoldsAreExclusive | internal/swarm/pool.go:273-290 | At any time at most one attach or attachment is at work on an infohash, and held lists exactly the infohashes some attach is at work on. |
| PoolTheorems.PiecesGoUnderTheHold | internal/swarm/pool.go:641-668 | Whenever a piece subtree is about to be removed its infohash is held by the very attach removing it and no other attach is at work on it; that attach's own client no longer has the torrent, nor has the shared one unless a torrent was left behind there. |
| PoolTheorems.AttachesOnlyMoveOn | internal/swarm/pool.go:387-452 | No event takes an attach back: each leaves it where it is or moves it further on, the one restart of a silent probe included, and never changes what it was asked for. |
| PoolTheorems.DetachedForGood | internal/swarm/pool.go:636-639 | Whatever follows, an attachment that has been let go of is never attached again, and one that is past removing its pieces never removes them again. |
| PoolTheorems.StraysComeFromLostWaits | internal/swarm/pool.go:462-498 | As long as no attach loses its wait at the shared client's door, every torrent in the shared client belongs to the one attach that holds it. |
| PoolTheorems.DoorLeavesAStrayIff | internal/swarm/pool.go:462-498 | Where every torrent of the shared client is somebody's, attachShared leaves one that is nobody's exactly when it gets to the add, the add works and the wait is lost. |
| PoolTheorems.ALostWaitLeavesAStray | internal/swarm/session.go:581-585 | A run after which nothing is held and a torrent is in the shared client all the same. |
| PoolSafety.EveryRunKeeps | internal/swarm/pool.go:154-171 | The whole invariant (each attach, the shared client, holds, registered clients, ports, ledger) holds after every run. |
| PoolSafety.DoorKeeps | internal/swarm/pool.go:462-527 | attachShared keeps it as one step, with and without a spare port, when the client starts, fails to start or is already up, and when the add fails or is cancelled. |
| PoolSafety.OpStepKeeps | internal/swarm/session.go:188-306 | Every other step of an attach or a detach keeps it. |
| PoolLedger.EveryByteIsCountedOnce | internal/swarm/pool.go:224-236 | In every reachable state the bytes that ever arrived are those Downloaded reports, plus those on clients not yet registered or settled, plus those on clients whose attach failed, plus those that came after a client's figure was taken. |
| PoolLedger.ArrivedGrowsBy | internal/swarm/session.go:681-696 | And what arrived is exactly what was sent to clients that still had a torrent, the one Close is taking down included. |
| PoolLedger.FigureMovesByTheGain | internal/swarm/pool.go:296-332 | Each event changes Downloaded by exactly what it adds: arrivals where the pool is watching, and a client's whole figure when it is registered or, as a probe, handed in. A detach and a close change nothing. |
| PoolLedger.DownloadedNeverFalls | internal/swarm/pool.go:206-236 | Downloaded after any run is no more than after any continuation of it. |
| PoolLedger.BytesAreLostIff | internal/swarm/session.go:218-306 | Bytes leave every account exactly when a failed attach closes a client, not the probe, that had received any. |
| PoolLedger.AFailedAttachIsNeverBilled | internal/swarm/session.go:225-235 | A run in which a torrent is added, five useful bytes of it arrive while its metadata is awaited, the wait is cancelled, the client is closed, and Downloaded is zero. |
| Budget.ExhaustedOnlyClimbs | internal/core/budget.go:271-285 | However the pool runs on and the run's meter and clock advance, the stop reason only climbs: completed, traffic, time, roof. |
| Budget.ExhaustedNamesTheWorst | internal/core/budget.go:271-285 | A run goes on exactly while no ceiling that is set has been met; otherwise the answer names a met one, the client's before the clock's and the clock's before the traffic's. |
| Budget.TheRoofStopsEveryRun | internal/core/budget.go:271-285 | Over any run of the pool the roof is the answer exactly once what all its clients received has met it, and from then on. |
| Budget.BudgetTracker.Warn | internal/core/budget.go:298-370 | One warning a call at most, each kind once ever, the roof's first; which one is exactly decided by what is due and what has been given. |
| PoolRefinement.EventsAreSections | internal/swarm/pool.go:180-332 | Every event of the protocol does to held, alone, the shared client's figure, retired and closed exactly what the lock section it stands for does as Pools writes it: reserve, release, aloneOn, retire, retireClient, Close; and every other event nothing. |
| PoolRefinement.DownloadedIsTheTotal | internal/swarm/pool.go:224-236 | In every reachable state what the protocol calls Downloaded is the total the class's loop is proved to compute. |
| PoolRefinement.AcquireInStep | internal/swarm/ports.go:201-218 | A port pool and the protocol's queue that agree still agree after Acquire, which refuses exactly when the protocol does and leases the same port. |
| PoolRefinement.ReleaseInStep | internal/swarm/ports.go:269-275 | And after a release. |
| Pools.ListingAdds | internal/swarm/pool.go:296-317 | Registering a client adds its figure to the total, and retiring it then takes none of it away. |
| Pools.CloseRetired | internal/swarm/pool.go:652-658 | Closing a client whose figure has been taken, which zeroes its counters, leaves the total and everything else the mutex guards where they were. |
| Pools.ProbeGoes | internal/swarm/pool.go:319-332 | A probe that is retired and then closed leaves all it had received in the total. |
| Pools.Pool.AloneOn | internal/swarm/pool.go:296-302 | Registering a client adds all it has received to the total. |
| Pools.Pool.Retire | internal/swarm/pool.go:312-317 | Retiring a registered client takes it off the list and leaves the total where it was. |
| Pools.Pool.CloseLocked | internal/swarm/pool.go:180-198 | Closing hands back the shared client once, with its figure already in the total, which does not move. |
| Pools.Pool.Downloaded | internal/swarm/pool.go:224-236 | The loop's answer is the bytes of closed clients, of the shared one and of every client listed, each once, whatever order the map is walked in. |
| PortPools.PortPool.Acquire | internal/swarm/ports.go:201-218 | A managed pool refuses exactly when its queue is empty and otherwise leases the front port to a fresh lease; an unmanaged one always leases port 0. |
| PortPools.PortLease.Release | internal/swarm/ports.go:269-275 | The first release puts the port at the back of the queue and off its holder; any later one changes nothing. |
| PortPools.AllBackIsAPermutation | internal/swarm/ports.go:237-244 | With no port out, the queue is the configured set in some order. |
| PortSets.ParsePortSet | internal/swarm/ports.go:58-112 | The loops compute the reading the lemmas below characterise, refusals included. |
| PortSets.ParsedIsTheSetNamed | internal/swarm/ports.go:58-127 | A spec is accepted exactly when it is not blank, every entry is one, and no port is named twice; the result is then the ports named, ascending, each once and within 1 to 65535. |
| PortSets.RefusalIsTheFirst | internal/swarm/ports.go:58-112 | A refused spec is blank, or the refusal is that of its first entry that is not one or names a port an entry before it names, and then of the first such port. |
| PortSets.EntryRefusal | internal/swarm/ports.go:80-102 | A refused entry is refused for its lower port, else its upper, else their order. |
| PortSets.PortMeans | internal/swarm/ports.go:117-126 | A port is a number from 1 to 65535, and what is refused says whether it was no number or out of range. |
| PortSets.SpacesAroundADash | internal/swarm/ports.go:80-102 | A range means the same with spaces around its dash. |
| PortSets.SpacesAroundAPort | internal/swarm/ports.go:74-90 | An entry means the same with spaces around it. |
| PortSets.String | internal/swarm/ports.go:150-166 | The nested loops print the runs of the set. |
| PortSets.RunsAreMaximal | internal/swarm/ports.go:143-166 | The printed ranges ascend, do not touch and list the set in order, and no other such list of ranges does. |
| PortSets.ParseUndoesPrint | internal/swarm/ports.go:143-166 | Reading what was printed gives back the set, for every non-empty port set. |
| PortSets.PrintedAlikeIsTheSame | internal/swarm/ports.go:143-166 | Two port sets printed alike are the same set. |
| Text.AtoiReadsItoa | internal/swarm/ports.go:117-126 | Reading a printed number gives it back, for every number below two to the 63. |
| Text.AtoiReads | internal/swarm/ports.go:117-126 | A number is read exactly from digits behind a sign or none, is what the digits are worth, and fits int64. |
| Text.TrimSpaceTakes | internal/swarm/ports.go:58-112 | What is trimmed is space, all of it at either end, and nothing else. |
| Text.SplitUndoesJoin | internal/swarm/ports.go:78-166 | Splitting at the separator undoes joining with it. |
| ResultsTree.CheckUsable | internal/cache/cache.go:311-327 | The loop says yes exactly when every captured point has a frame on disk with something in it and there is one such point. |
| ResultsTree.Disk.WriteAtomic | internal/output/writer.go:215-243 | At every step of an atomic write, and after it, the artefact is the old one or the new one whole. |
| ResultsTree.Disk.RemoveFrames | internal/core/delete.go:309-319 | However far the removal of a frames directory gets, only frames under it go; success means all of them and the directory. |
| ResultsTree.WithoutIndex | internal/core/delete.go:472-482 | The loop gives the other indices, sorted, each as often as it was listed. |
| FrameDeletion.DeleteFrame | internal/core/delete.go:101-191 | Each outcome with the exact disk it leaves, and every state on the way is before the edit, after the record, after the manifest or after the frame, with no other file's sheet touched. |
| FrameDeletion.FrameStepIs | internal/core/delete.go:101-191 | A finished delete has taken the one frame and its record and, exactly when nothing of the file is kept, its listing; the rest of the tree is as it was. |
| FrameDeletion.KeptIsTheRest | internal/core/delete.go:123-132 | What goes is the first record of that number, and the kept ones are the others, unchanged and in order. |
| FrameDeletion.CrashLeavesRunIntact | internal/core/delete.go:56-191 | A crash after any step leaves every file the record calls complete loadable and usable, given that no other record names the frame and something that can be shown, or nothing at all, is left of the file. |
| FrameDeletion.IntactIffSomethingIsLeft | internal/core/delete.go:161-167 | The finished delete leaves the run intact exactly when the file was not listed, or nothing is kept, or a captured record is. |
| FrameDeletion.AGapIsLeftListed | internal/core/delete.go:161-167 | A listed file with one frame and one failed point: the code asks only whether any record is kept, and leaves it listed with nothing to serve. |
| FrameDeletion.AGapIsReached | internal/core/engine.go:1056-1057 | A run takes two frames and lists the file, the second is deleted, a later run takes its point again and fails, and the merged record still lists the file: the run is intact until its one frame is deleted, and then it is not. |
| FrameDeletion.RerunStaysAHit | internal/core/cached.go:209-230 | A live rerun served from disk before is served from disk after exactly when it does not ask for the file or a captured frame of it is left. |
| FrameDeletion.SurvivorsAreUntouched | internal/core/delete.go:123-191 | At every step other files' manifests, kept records, other frames and the selection are as they were. |
| FrameDeletion.SheetTiles | internal/core/delete.go:436-449 | The sheet's tiles are all the records in plan order, renumbered from 0, each beside the moment it was asked for. |
| FileClearing.ClearFile | internal/core/delete.go:266-348 | Nil means the file is gone, directory and all; ErrClearIncomplete means the record no longer lists it; any other error means nothing changed, and a frame recorded outside the run is always refused; every state passed is on the way. |
| FileClearing.AfterClearIs | internal/core/delete.go:266-348 | The disk a finished clear leaves, in full: nothing of the file, no frame below its frames directory, and everything else as it was. |
| FileClearing.RemoveEmptied | internal/core/delete.go:365-385 | Success only when the directory is gone and nothing is in it, and it goes only when nothing is left in it. |
| FileClearing.CrashLeavesRunIntact | internal/core/delete.go:213-348 | At any point of a clear, part of the frames removed included, every file still listed is loadable and usable and the other files are untouched. |
| FileClearing.HomesAreApart | internal/output/writer.go:75-77 | Its hypothesis on the other files' frames holds whenever every frame is below its own file's directory, since no two files share a slug. |
| FileClearing.RetryConverges | internal/core/delete.go:240-265 | From any point a clear can stop, a clear that succeeds ends on the same disk as one that never stopped. |
| FileClearing.StopsCompose | internal/core/delete.go:240-265 | A stop on the way from a stop on the way is itself on the way, so any number of interrupted clears is finished by one more. |
| FileClearing.ClearCanBeUndone | internal/core/delete.go:266-300 | A cleared file is still selected and no longer listed, and no other file's listing changes. |
| Resume.CapturePoints | internal/core/engine.go:752-1011 | The loop writes one record for each point before the first it does not get past, in order: of a point that is reused the earlier one, of a frame written its landing, shift, place and very byte ranges, of any other that there is none and why; it fails only at a frame that cannot be written and stops short only where it was told to; produced counts the records with a frame; complete exactly when it reached the end and every point has one. |
| Resume.ReusableFrames | internal/core/engine.go:1190-1212 | The loop finds by number exactly the points with a frame on disk taken at the moment the plan has for them now, the last of those with one number. |
| Resume.HeldRecordsAreCarried | internal/core/engine.go:752-782 | Over any earlier records, however they are numbered: the new ones are numbered 0, 1, 2 in order, and every reusable earlier record that is the last of its number and lies before the stop is carried under that number unchanged, byte ranges and all. |
| Resume.LostIffHeldPastTheStop | internal/core/engine.go:784-788 | Over any earlier records: a reusable one is among the new ones exactly when its number is before the stop and no other reusable record of its number comes after it. |
| Resume.OneEachStands | internal/core/engine.go:1190-1212 | Where no number is repeated, holes or not, every reusable earlier record is kept exactly when its number is before the stop, and then sits under it. |
| Resume.AHaltForgetsLaterFrames | internal/core/engine.go:784-788 | A halted run that drops a reusable record of a later point. |
| Reruns.OneChangeKeepsIff | internal/core/delete.go:76-82 | A captured record with its frame on disk survives a change (a run whole or stopped short, a run that fails, a deletion, a clear) exactly when the change is neither its own deletion, nor a run stopped before its point, nor a clear; its frame is then still on disk and a run has not taken its point again. |
| Reruns.CapturedStaysCaptured | internal/core/engine.go:752-1000 | Over any number of such changes in any order, holes left by deletions included, a captured record stays the very record it was as long as every change spares it. |
| Reruns.KeptMembers | internal/core/delete.go:123-132 | A deletion leaves no number repeated and exactly the records of other numbers, with the numbers they had. |
| Reruns.DeletingIsAChange | internal/core/delete.go:101-191 | Wherever DeleteFrame has got to on the disk, the file is as it was or as after that deletion. |
| Resume.MergeIndices | internal/core/engine.go:1164-1178 | The union of both lists, ascending, each once. |
| Manifest.FramesMoveWithTheirTree | internal/manifest/manifest.go:296-386 | Recording a frame against one directory and resolving it against another yields its image under the move, whatever is on disk, for every frame at most one directory down; deeper, exactly when the image is there or no namesake one directory down is. |
| Manifest.RelativeIsIdempotent | internal/manifest/manifest.go:296-314 | Recording twice is recording once. |
| Manifest.RecordedRelativeIffInside | internal/core/delete.go:514-521 | An absolute frame is recorded relative exactly when it lies inside the directory. |
| Manifest.RecordedAsItsTail | internal/manifest/manifest.go:296-314 | A frame inside the directory is recorded as what follows it, and any other as it was. |
| Manifest.LocalResolvesInside | internal/manifest/manifest.go:338-386 | A local record never resolves outside the directory its manifest was read from. |
| Manifest.CopyServesItsOwnFrames | internal/manifest/manifest.go:338-386 | An old absolute record resolves to the copy's own frame whenever that is on disk, the original present or not. |
| Manifest.MapFramePaths | internal/manifest/manifest.go:400-412 | Every path is rewritten, a missing one left missing, and nothing else changes. |
| Paths.CleanTwice | internal/core/delete.go:514-521 | Cleaning a path twice is cleaning it once. |
| Paths.CleanLeadsThere | internal/core/delete.go:514-521 | A cleaned path leads where the path does from anywhere, with no "." and with ".." only at the front of a relative one. |
| Paths.WithinMeans | internal/core/delete.go:514-521 | An absolute path is inside a clean directory exactly when, cleaned, it goes on from its elements, and is then relative to it as what follows. |
| Paths.RelLeadsBack | internal/core/delete.go:514-521 | A relative path joined onto the base leads back to the target, and there is one exactly when both are rooted, or neither is and the base does not go up further than the target. |
| Paths.JoinLocal | internal/manifest/manifest.go:357-386 | A local path joined onto a clean directory stays below it, as its own cleaned elements. |
| Intervals.CanonicalFormIsUnique | internal/swarm/torrent.go:208-252 | Two canonical lists over the same points are the same list, so neither the order nor the repetition of claims can show. |
| Intervals.Coalesce | internal/swarm/torrent.go:319-347 | The in-place loop keeps the points of any list of ranges, and of proper ones gives the canonical form; coalescePieceRanges is the same loop. |
| Intervals.LengthsCountPoints | internal/swarm/torrent.go:185-252 | The lengths of a canonical list add up to the number of its points. |
| Sorting.SortIsStable | internal/web/compare.go:473-477 | Sorting leaves what has one key in the order it came. |
| Geometry.WindowIsWholePieces | internal/swarm/fetch.go:115-123 | A window is a whole number of pieces, at least one, and rounded up by less than one. |
| Geometry.WindowHoldsTheRead | internal/swarm/fetch.go:195-200 | What a read is given: if it starts inside the file exactly the pieces holding a byte of it, its length or the least whole number of pieces covering the profile's window long, whichever is more, and cut at the file's end; and if not, the one piece just past the file when there is one. |
| Geometry.RequestedPieces | internal/swarm/fetch.go:150-192 | A read that starts inside the file is given exactly the pieces holding the bytes it reads. |
| Geometry.RangesStayInTheTorrent | internal/swarm/fetch.go:150-192 | Whatever is asked, the range names pieces of the torrent; past the end of the file at most the one piece after it. |
| Geometry.PieceMeetsFile | internal/swarm/fetch.go:298-322 | The pieces from a file's first to its last are exactly those that share a byte with it. |
| Geometry.ClaimComesBack | internal/swarm/fetch.go:298-322 | Pieces clipped to a file's bytes and expanded again are exactly the pieces of the range that meet the file. |
| Geometry.SpanExpands | internal/web/listing.go:772-787 | A recorded byte range expands to exactly the pieces its bytes inside the file lie in. |
| Geometry.WeightIsBounded | internal/swarm/fetch.go:333-343 | The weights of distinct pieces add up to at most the torrent's length, and to all of it exactly when every piece is there. |
| Provenance.FilesDoNotMix | internal/swarm/torrent.go:254-311 | However the captures of several files interleave, each file's log is what it would be alone. |
| Provenance.Torrent.Claim | internal/swarm/fetch.go:195-240 | A claim orders exactly those pieces, adds them to the distinct total and one order to the history; or, for a file there is not, fails and adds nothing. |
| Provenance.Torrent.EndClaimLog | internal/swarm/torrent.go:297-311 | The ranges reported are canonical, and hold exactly the bytes of the file that lie in a piece ordered for it since its log was opened. |
| Provenance.OrderedSinceIs | internal/swarm/torrent.go:254-295 | Which orders those are: the ones placed for the file after its log was last opened, while nothing has closed it. |
| Provenance.Torrent.Claimed | internal/swarm/torrent.go:185-189 | The count of distinct pieces and their weight, at most the torrent and equal to it exactly when all were ordered. |
| Provenance.Torrent.ClaimedRanges | internal/swarm/torrent.go:228-252 | The canonical ranges over exactly the distinct pieces, their lengths adding up to the count. |
| Provenance.LoggedBytesAreTheClaims | internal/swarm/fetch.go:270-322 | The bytes logged lie in exactly the claimed pieces that meet the file. |
| Reach.ReachOf | internal/web/listing.go:717-770 | The strip is the canonical form of the pieces some captured frame records a byte of, counted from the file's first, inside its stretch, with their number and those of the frames captured and located; it is withheld exactly when there is nothing to say. |
| Reach.Capture | internal/core/engine.go:794-913 | The captures of several files interleaved over one torrent in any way: each captured frame of a file was settled at one place, and lies in exactly the pieces ordered for the file while that frame's log was open. |
| Reach.CaptureAndReach | internal/web/listing.go:717-770 | End to end, from any such interleaving over one torrent to the strip: it shows exactly the pieces of the file ordered while the logs of its captured points were open, with their number, and is withheld exactly when there are none. |
| ReachMeans.ShownIs | internal/web/listing.go:717-770 | What it shows, told from the actions alone: the pieces with a byte of the file that a read was given between the opening of the log of some captured point and its settling. |
| RunReach.CaptureRecordsItsOwn | internal/core/engine.go:913-946 | What a run records and did not carry over is a frame its capture settled, when each frame the loop is given carries the moment, the shift and the byte ranges of one. |
| RunReach.EveryRecordHasItsRun | internal/core/engine.go:913-946 | Over any number of runs and deletions, every captured record of the file was settled by some run, whatever carried it since. |
| RunReach.ReachOverRuns | internal/web/listing.go:717-770 | The strip of a set that took several runs is their union: a piece is in it exactly when some run ordered it for a point whose record has been kept since; it is withheld exactly when there is none. |
| Reach.OrderedForIsItsOwn | internal/swarm/torrent.go:254-311 | What the strip of a file rests on is the same with every other file's actions left out. |
| Reach.ReadsInsideShowWhole | internal/web/listing.go:717-770 | For scripts whose reads start inside the file, what the strip shows is the orders themselves, every piece and no other. |
| Pairing.NearestIndex | internal/web/compare.go:567-579 | The binary search finds a point no other is nearer than, the lower of two equally near. |
| Pairing.NearestIsMonotone | internal/web/compare.go:567-579 | A later moment is never nearest to an earlier point. |
| Pairing.PairNearest | internal/web/compare.go:536-560 | The loop lists every mutual pair within tolerance, ascending on both sides, and no other. |
| Pairing.MutualPairsDoNotCross | internal/web/compare.go:536-560 | Pairs never cross and no point serves twice. |
| Pairing.PairingIsSymmetric | internal/web/compare.go:536-560 | Swapping the arms gives the same pairs transposed, in the same order. |
| Pairing.PairingIsUnique | internal/web/compare.go:536-560 | There is one pairing of two arms at a tolerance. |
| Pairing.SomethingIsPaired | internal/web/compare.go:536-560 | If any two points are within tolerance there is a pair, and one at the least distance of all. |
| Pairing.PositionsClimb | internal/web/compare.go:473-493 | The positions of an arm ascend, by fraction and by time. |
| Pairing.PlacesAre | internal/web/compare.go:479-493 | A point's place is its moment as a share of its own film, or the moment itself where the comparison goes by time or the film does not say how long it is. |
| Pairing.AscendingIsStable | internal/web/compare.go:470-477 | An arm's points are taken in the order of their moments, those of one moment in the order they were listed. |
| Pairing.HalfStepIsHalfTheMean | internal/web/compare.go:522-530 | Twice the half step times the number of gaps is the sum of the gaps. |
| Pairing.ToleranceIsTheCoarser | internal/web/compare.go:495-520 | The tolerance is the larger of the two half steps, and never below a hundredth of a film or a second. |
| Pairing.Compare | internal/web/compare.go:412-459 | The comparison shows the pairing of the two arms, each position with the mean of its two points' shares and their distance, and counts what it leaves out of each. |
| Pairing.ComparisonIsSymmetric | internal/web/compare.go:412-459 | Naming the arms the other way round gives the mirrored comparison, moment for moment. |
| HubHistory.AppendingInPlaceCollapses | internal/web/hub.go:154-167 | Overwriting a heartbeat in place, or appending, is the reference collapse of the longer log. |
| HubHistory.BacklogAndTheRest | internal/web/hub.go:75-92 | A collapsed log followed by more messages collapses as the whole log does. |
| Hub.BacklogAndTheRestAgree | internal/web/hub.go:75-177 | For every client still connected and every run kept since it connected, the backlog of the run it was handed and what it was told of the run since collapse to what a page that connects now is handed; of a run that began later it has been told everything. |
| Hub.StringsAgree | internal/web/hub.go:75-177 | And for the strings: those handed for a run and those sent of it since spell records that collapse to what a page that connects now is handed. |
| HubHistory.CollapseShowsTheLatest | internal/web/hub.go:40-47 | For every file that ever had a heartbeat the replay shows its latest. |
| HubHistory.CollapsePlaces | internal/web/hub.go:40-47 | The replay has one heartbeat a file, at the place of its first, and everything else where it was. |
| HubHistory.CollapseIs | internal/web/hub.go:40-47 | The replay from the log alone: in order, every message that is no heartbeat and, where its first was, each file's last. |
| Hub.Append | internal/web/hub.go:154-167 | The history after a message is the collapse of everything published to the run, and progressAt finds each file's heartbeat in it. |
| Hub.Hub.Publish | internal/web/hub.go:122-134 | An open hub adds the message to its run's log if the run is kept, says it to everyone under that run's name, and keeps exactly the clients whose queues had room; a closed one does nothing. |
| Hub.Hub.Begin | internal/web/hub.go:105-118 | A run's history opens once, at the end of the order, with its first message. |
| Hub.Hub.Drop | internal/web/hub.go:138-152 | One run's log goes and its place in the order closes up. |
| Hub.Hub.Subscribe | internal/web/hub.go:75-93 | A new client is told everything from now on, and the strings it is handed are the head and then, run by run in order, one for each record of the run's history, that record's message, and no more; on a closed hub its queue is closed. |
| Hub.Hub.Broadcast | internal/web/hub.go:169-177 | Everyone connected has been told everything since connecting without a gap, everyone dropped was told a prefix and had the queue closed once. |
| Hub.Hub.Close | internal/web/hub.go:180-191 | Nobody stays connected, and each queue has been closed once. |
| Hub.TakeNext | internal/web/hub.go:58-62 | The pump takes from any client, dropped ones included, the message said next to it, and everything the hub keeps it still keeps. |
| Availability.OverRange | internal/swarm/availability.go:77-104 | The loop gives the least count over the pieces of the clamped range, and zero for a range that holds nothing. |
| Availability.OverIsTheScarcestTouched | internal/swarm/availability.go:70-104 | A stretch is exactly as reachable as the scarcest piece some byte of it lies in. |
| Availability.OverIsTheLeastHeld | internal/swarm/availability.go:77-104 | Any range is cut to the torrent first, and one with no byte left is held by nobody; a piece the sample has no count for is too. |
| Availability.OverFileIsTheLeastHeld | internal/swarm/availability.go:106-121 | The same of any stretch of a file, at any offset: the part of it that is in the file. |
| Availability.Coarse | internal/swarm/availability.go:163-180 | As many buckets as asked for, or as the pieces spanned when those are fewer, each the availability of its stretch. |
| Availability.SpansNoMoreThanItsBytes | internal/swarm/availability.go:168-171 | A file spans at most as many pieces as it has bytes, so no bucket can be empty. |
| Availability.BucketsPartitionTheFile | internal/swarm/availability.go:163-180 | Every byte of the file is in exactly one bucket, no other byte is in any, and every bucket has a byte. |
| Availability.BucketsAreEven | internal/swarm/availability.go:163-180 | No bucket is more than a byte longer than another. |
| Availability.CoarseHidesNothing | internal/swarm/availability.go:154-180 | Each bucket shows the scarcest piece touching it, and the least bucket is OverFileRange of the whole file. |
| Availability.EmptyBucketIffMissingPiece | internal/swarm/availability.go:154-180 | Some bucket is zero exactly when some piece of the file is held by nobody. |
| Availability.Known | internal/swarm/availability.go:132-142 | A sample says something exactly when a peer is connected and some piece is held. |
| Eviction.Engine.MarkLive | internal/core/engine.go:162-166 | The refcounts count exactly the runs writing each directory, one more here. |
| Eviction.Engine.UnmarkLive | internal/core/engine.go:168-176 | One fewer, down to none, over any sequence of calls. |
| Eviction.Engine.LiveDirs | internal/core/engine.go:182-190 | Exactly the directories some run is writing. |
| Eviction.Evict | internal/cache/evict.go:162-207 | What goes is a prefix of the oldest-first candidates, no longer than needed and stopping at the first failure; Freed is its bytes even then; the rest of the tree is as it was. |
| Eviction.EvictionKeepsThePolicy | internal/cache/evict.go:129-207 | Nothing live or undated goes, nothing newer than a candidate that stays, and what is left is exactly what did not go. |
| Eviction.EndsUnderTheCeiling | internal/cache/evict.go:193-207 | A call that fails at nothing ends under the ceiling or with no candidate left, and the tree weighs less by exactly Freed. |
| Eviction.EvictFromSnapshot | internal/core/engine.go:466-476 | The live directories are read, runs start and stop, then the sets go: with nothing failing a set goes exactly when it is dated, nobody was writing it when the directories were read, and the tree without the ones before it is still over the ceiling. Who is writing it by then is not asked. |
| Eviction.ASnapshotCanBeLate | internal/core/engine.go:474-476 | So a set resumed between the two is removed while somebody is writing it: the three calls in that order do it. |
| TopUps.OfferIsSound | internal/core/budget.go:510-536 | The offer is whole MiB, between what the short files get with no raise and the run cap, and covers the least that finishing costs unless the cap bites. |
| TopUps.OfferIsTheLeast | internal/core/budget.go:510-536 | Where the product and its rounding fit, the offer is exactly the least whole number of MiB no less than the default and than the bytes spent a captured point for each point owed and one more, cut down to 2 GiB; and nothing where nothing is owed. |
| TopUps.FloorIs | internal/core/budget.go:557-562 | The least cost is the bytes spent a captured point for each point owed, rounded down, wherever that fits. |
| TopUps.DefaultIs | internal/core/budget.go:131-146 | With no raise it is 150 MiB a file, one file at least, up to 2 GiB. |
| TopUps.OfferClimbs | internal/core/budget.go:510-536 | The offer grows with the points owed and with the bytes spent. |
| TopUps.OfferCoversIff | internal/core/budget.go:510-562 | The offer covers the least that finishing costs, or the run cap cut it down, exactly when there is nothing to measure by, or the measured product fits and rounding up stays inside int64, or it does not fit and what a run gets with no raise is the cap or is enough by itself. |
| TopUps.BeyondTheLeastCost | internal/core/budget.go:510-562 | Where the least cost does not fit either, the true one is covered exactly when rounding up stays inside int64 and what is left of the product prices at the cap or at that cost to the MiB, the latter only for receipts of two to the 31 points and more. |
| TopUps.OfferKeepsItsFloorIff | internal/core/budget.go:528-536 | The offer is no less than what a run gets with no raise exactly when rounding up stays inside int64, and only a receipt of one captured point can break that. |
| TopUps.PastTheBoundTheOfferFallsShort | internal/core/budget.go:521-562 | Where the product does not fit an offer can fall short: two to the 62 bytes for one point with one to go are answered with the default. |
| TopUps.RoundingUpCanWrap | internal/core/budget.go:528-532 | And where it fits, rounding up can wrap: for one byte less the offer is negative. |
| TopUps.DefaultWithin | internal/core/budget.go:131-146 | With no raise a run gets between 150 MiB and 2 GiB, the cap exactly from the count of files that reaches it. |
| TopUps.ReadingMeans | internal/web/runs.go:726-760 | The figure kept is the largest, with the ceiling of a run that spent it; the roof is the reason exactly when some file was stopped by it. |
| TopUps.OrderDoesNotMatter | internal/web/runs.go:726-760 | The order files are read in changes neither the figure nor whether the roof, or nothing, is to blame. |
| TopUps.LastReasonStands | internal/web/runs.go:741-760 | With no file stopped by the roof, the reason kept, and the limit named with it, are those of the last file that gives any. |
| TopUps.CeilingIsTheFirstLargest | internal/web/runs.go:726-740 | The ceiling kept is that of the first file to show the largest figure. |
| TopUps.OrderPicksTheCeilingOnTies | internal/web/runs.go:726-740 | The order of files changes the ceiling only where files that tie for the largest figure disagree on it. |
| TopUps.ATieGoesToTheFirst | internal/web/runs.go:726-740 | There it does: the first file read decides. |
| TopUps.OrderPicksTheReason | internal/web/runs.go:741-760 | Between a run's own two limits the last file read decides. |
| TopUps.OwedIffShort | internal/web/runs.go:669-683 | Points are owed exactly when some file is short. |
| TopUps.TotalsCount | internal/web/runs.go:669-683 | The totals are counts: of points of the plan no manifest has, of those one has, and of the files with any missing. |
| TopUps.LimitNames | internal/web/runs.go:741-760 | Which limit a reason names, the clock standing in for an old record whose time had run out. |
| TopUps.TopUp.Read | internal/web/runs.go:657-697 | The loop's totals, refused exactly when there is no file, nothing owed or a roof below the least cost; and otherwise, where a raise helps, exactly the offer, cut down to a roof. |
| TopUps.TopUp.Price | internal/web/runs.go:797-828 | Refused exactly when the roof is below the least cost; a raise exactly when traffic or nothing known stopped the run; an offer cut down to the roof still covers the least cost. |

## Left out

- anacrolix's client, sockets, DHT and tracker traffic: a client is its DHT switch, port, torrents and received bytes, and what arrives is part of each event.
- Open's own probe and restart: Pool only reaches Open for sources that are not probed first, so the branch of openOnPort after a successful probe (internal/swarm/session.go:241-256) is not part of this model.
- A configuration with both a pinned port and a port set: leasePort refuses it before anything starts.
- attachShared's lock sections: its check of the flag, its port and its add are one step, since all that others can see of it happens under the pool's lock.
- waitPortFree: closing a client ends its hold on the port, and giving the lease back is a later step.
- InfoHash errors of a source that cannot be parsed: such an attach changes nothing.
- Invalid UTF-8 in a port specification: text is a sequence of characters.
- SaveRun's temporary file: the record is replaced whole or not at all, and a temporary file left in the run's own directory is never read.
- Manifests in the results tree are kept with their paths already resolved; the Manifest module is what justifies it.
- Frames that vanish from the disk other than by a deletion or a clear, between two runs: the next run takes their points again.
- FileSlug: that two files of a torrent never share a directory is a hypothesis, as is that a frame is named by one record.
- Paths are a root and their non-empty elements, so repeated and trailing slashes are not told apart, and symbolic links are not followed.
- Frame widths and heights, timestamps, JSON encoding and content hashes: records are values.
- What becomes of a capture point: decoding, seeking, blank rejection and the swarm are one given outcome a point.
- writeManifest and writeSheet after the capture loop, and a failure there.
- float64 rounding in comparisons and warnings: reals are used. Drift and fraction are rendered on exact values.
- int64 overflow of file offsets and lengths in piece arithmetic and in Coarse: these integers are unbounded. In pricing the wrap is modelled.
- Negative byte counts and record indices outside the torrent as an untrusted record might hold them, beyond what the code clamps.
- Partial removal of a result set: a removal that fails leaves anything at all of its own set and nothing else changed.
- More than two to the 35 short files, whose default allowance would itself leave int64.
- The refusals of topUpFor for records too old to tell, and the wording of every message.
- Hub's order of clients in a broadcast, which Go leaves open, and what a page does with a message.
- internal/core/bus.go, the run queue, HTTP handlers, range headers, ffmpeg and ffprobe, contact sheet drawing, image decoding and the command line: plumbing, display or foreign calls.
