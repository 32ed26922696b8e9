# peerdup: protocol and state models

peerdup keeps directories in sync between daemons on a LAN, with an optional registry (who is
online where) and an optional TCP relay. This project models the parts whose correctness spans
several functions or several machines, and proves what they keep.

`dafny verify dfyconfig.toml` checks everything.

## What is modelled

**Daemons.** `DaemonState` holds the database rows and the libtorrent handle map; `Coordinator`
the reactions to LAN announcements, registry events, rebuilds, activations, status reports,
commands and conflict resolution, each once as a function on the daemon's value and once as
methods of the objects that update it in place. A coroutine is cut where it suspends: a `...Begin`
function runs up to the suspension, `Finish` runs the rest. These modules reason about it:

- `Reactions`: what each whole reaction ends with, in terms of rows, handles, saved files and
  conflicts: remote updates under each strategy, activation, resolution, rebuild, and the frame over
  all other shares.
- `VersionProtocol`: N peers of one local-only, `last_write_wins` share. Announced pairs
  (info hash, number) are never lost from the set of pairs that may still arrive, so loss, delay,
  duplication and reordering are all covered. When every local change happens at a peer whose
  number is the largest, a pair (h, s) held or announced anywhere means that h was the s-th change
  of the run; agreement and convergence follow.
- `ClusterProtocol`: the same for N whole daemons that broadcast, hear announcements, rebuild,
  start, resume, pause and report status. Each such step is a step of the pairs or leaves them
  alone, so agreement and convergence hold for daemons with all their state. An activation and a
  status report carry the exact condition under which they leave the pair alone.
- `Interleavings`: one daemon whose switches, rebuilds and activations do overlap. `WholeReactions`
  shows that it runs every whole reaction when nothing comes in between.
- `HandleAgreement`: runs without overlap; the hash of a torrent handle against the stored hash.

**Files.** `FileTree` is a directory tree with mkdir, rename (files and whole directories), unlink
and rmdir; `Preposition` is the pass that moves local files to where an incoming torrent expects
them, and `Placement` says where each layout entry ends up and what the pass answers. The order in which
a directory is listed and in which directories of equal depth are removed is left open: the results hold
for every order.

**LAN packets.** `Utf8` (section 4 of RFC 3629), `BigEndian` and `LanPacket`: the printer for
version 4 packets and the parser for versions 1 to 4. `LanLayout` says byte by byte what is accepted and
what each field is, and that packets of earlier releases are read as they were meant.

**Registry.** `RateLimiter`, `Registry` (the RPCs and the sweep, each one step), `Presence` (runs
of them: replaying the published events against the announcement table), `Authority` (whose request may
change what, from the request and the tables alone) and `EventBus` (what one bounded subscriber queue
sees of those events).

**Relay.** `RelayPool` (connection handlers interleaving at their awaits), `RelayStream` (frames, the
daemon's handshake, one pipe), `RelayChain` (two directions over shared sockets through any number
of nodes, ending or failing anywhere), `RelayClosing` (what arrives and what such an end loses),
`RelaySession` (pool, streams and nodes as one system) and `RelayEndToEnd` (from application to
application).

**Signed bytes and the watcher.** `Canonical` and `Watcher`.

## Where the code does less than it seems to

These are results about the code as it is; each has a lemma.

- The rate limiter's usual bound "burst + rate * elapsed" fails for every rate and burst
  (`TextbookBoundFails`), because a denied call keeps the old timestamp and is credited again. It
  holds when every denied call comes at the stored timestamp (`UsualBoundWhenPrompt`); the bound with
  one extra token per denied call always holds (`AllowedBound`), and waiting `retry_after` helps
  exactly when the burst is at least 1 (`RetryAfterSuffices`).
- A handle and its row disagree after a switch exactly when the stale `.torrent` file could not be
  unlinked and is loaded again (`SwitchAgreesIff`, `StaleFileBreaksAgreement`), and after a status
  report exactly when the report is older than the handle (`StatusAgreesIff`).
- A failed rebuild drops the handle and the saved file; a resume after it stores the hash of a new
  build under the old number, and equal numbers no longer mean equal contents
  (`FailedRebuildBreaksAgreement`). An activation leaves the pair alone exactly when it adds nothing,
  fails, or loads what is stored (`ActivationKeepsPairIff`).
- A share that is removed and added again while its switch is in flight can have its number go down
  (`ReAddLosesNumbers`); not adding it back is the exact guard (`AddRowKeepsGoodIff`).
- Two peers that change the share at the same number exchange contents without end
  (`ConcurrentWritersSwap`); a change keeps agreement exactly when its number is unused
  (`ChangeKeepsAgreementIff`).
- A move of the pre-positioning pass can take away the file of another layout entry
  (`SharedBasenamesCollide`). All entries are placed exactly when no move takes a file that another
  entry has in place, was given, or has taken (`AllPlacedIff`).
- A name longer than 255 bytes is cut without regard to characters, and then reads as empty unless
  the cut falls between two characters (`NameSurvives`). A version 4 packet re-encodes to itself
  exactly when its name decodes and has at most 255 bytes (`PackUnpack`).
- A pipe that ends closes the socket its opposite reads from. When one application closes its sending
  side, the reply is lost behind a clean end of file (`HalfCloseLosesReply`). Closing spares the
  other direction exactly when that direction is drained there (`CloseSparesIff`), what is behind a
  closed socket stays lost (`LostForever`), and without failures everything sent has arrived at the
  end of file exactly when no socket was closed with bytes behind it (`DeliveredIsPrefix`).
- The relay pairs a connector with the waiter it wants, whomever that waiter wants
  (`OneSidedPairing`); a match pairs both ways exactly when the held entry wants the caller
  (`PairsBothWaysIff`). A waiter whose wait ends removes whatever entry its key has, so a connection
  that replaced it can be lost from the pool (`StaleWaitEvicts`; `EntryLeavesIff` lists every way an
  entry leaves).
- A NUL in a host makes one address sign like two (`NulCollides`). The comment at
  registry/registry/auth/crypto.py:88 says that each address ends in a NUL; the code puts a NUL
  between addresses only, and so does the model.
- A file deleted and created again within one debounce batch is reported as deleted only
  (`Deciding`).

## Model

| member | source | states |
|---|---|---|
| DaemonState.StateDb.SetShareState | daemon/daemon/state/db.py:255-264 | sets state and error of the row, the hash only when one is given, nothing without a row |
| DaemonState.StateDb.IncrementShareSeq | daemon/daemon/state/db.py:266-274 | adds one to the stored number and returns it, 0 without a row |
| DaemonState.StateDb.SetShareSeq | daemon/daemon/state/db.py:276-282 | adopts a number for an existing row |
| DaemonState.StateDb.AddShare | daemon/daemon/state/db.py:202-229 | a new row is syncing, without hash, at number 0; an existing row keeps all of these |
| DaemonState.StateDb.RecordConflict | daemon/daemon/state/db.py:374-387 | appends the conflict under a fresh id |
| DaemonState.StateDb.DropConflict | daemon/daemon/state/db.py:396-401 | removes exactly the conflict with that id |
| DaemonState.LibtorrentSession.AddShare | daemon/daemon/torrent/session.py:156-226 | returns an existing handle as it is, otherwise loads the cached file, builds, or takes the magnet, in that order |
| DaemonState.LibtorrentSession.RemoveShare | daemon/daemon/torrent/session.py:228-238 | forgets the handle and nothing else |
| Coordinator.SyncCoordinator.SwitchToRemoteTorrent | daemon/daemon/sync/coordinator.py:798-834 | refused while one is in flight; otherwise stores the remote hash, replaces the handle and clears the mark even on failure |
| Coordinator.SyncCoordinator.HandleRemoteUpdate | daemon/daemon/sync/peer_handler.py:318-394 | switch or record a conflict and pause, by strategy |
| Coordinator.SyncCoordinator.HandleLanEntry | daemon/daemon/sync/peer_handler.py:220-316 | the five branches on hashes and numbers for one announced share |
| Coordinator.SyncCoordinator.HandleLanPeer | daemon/daemon/sync/peer_handler.py:197-316 | the entries of an announcement take effect one after the other |
| Coordinator.SyncCoordinator.HandleRegistryOnline | daemon/daemon/sync/peer_handler.py:102-195 | an online event with another hash is a remote update; one's own events are ignored |
| Coordinator.SyncCoordinator.RebuildShare | daemon/daemon/sync/torrent_mgr.py:238-299 | new handle from the local files, number plus one, seeding; nothing stored when it fails |
| Coordinator.SyncCoordinator.ActivateShare | daemon/daemon/sync/coordinator.py:710-796 | waits, fails or commits; the number is raised only for a first activation with files |
| Coordinator.SyncCoordinator.HandleStatus | daemon/daemon/sync/coordinator.py:950-998 | a finished download becomes seeding with the reported hash |
| Coordinator.SyncCoordinator.PauseShare | daemon/daemon/sync/coordinator.py:384-390 | sets the state and leaves hash, number and handle alone |
| Coordinator.SyncCoordinator.RemoveShare | daemon/daemon/sync/coordinator.py:354-382 | drops handle and row, refused without a row |
| Coordinator.SyncCoordinator.ResolveConflict | daemon/daemon/sync/coordinator.py:605-648 | deletes the conflict and activates the local or switches to the remote content |
| Reactions.StrangersAreIgnored | daemon/daemon/sync/peer_handler.py:238-252 | an entry for an unknown share, or for a registry share from a peer not on its list, changes nothing |
| Reactions.StaleEntriesOnlyMarkPeer | daemon/daemon/sync/peer_handler.py:257-306 | no hash, the same hash, or a lower number than a share with a hash: only the peer is marked |
| Reactions.AskRecordsAndPauses | daemon/daemon/sync/peer_handler.py:367-374 | an ask share that hears other content records one conflict under a fresh id with both hashes, pauses, and keeps hash, handle and saved file |
| Reactions.OthersFollow | daemon/daemon/sync/peer_handler.py:265-366 | under the other strategies, or without a hash, an unmarked share ends with the entry's hash and number, and with its handle unless the add fails |
| Reactions.AskOutlastsAnnouncements | daemon/daemon/sync/peer_handler.py:197-316 | whole announcements never move an ask share with a hash to other content, nor start a switch of it |
| Reactions.RegistryEventsWithoutNews | daemon/daemon/sync/peer_handler.py:102-195 | one's own events change nothing, events without another hash only mark the peer |
| Reactions.AskAtRegistry | daemon/daemon/sync/peer_handler.py:102-195 | another hash at the registry is one conflict and a pause for an ask share |
| Reactions.OthersFollowRegistry | daemon/daemon/sync/peer_handler.py:102-195 | and the new content, under the old number, for any other |
| Reactions.ActivationLoads | daemon/daemon/sync/coordinator.py:710-764 | the handle, else the saved file, else a peer's hash for a registry share without files, else a build |
| Reactions.KeepRemoteFollows | daemon/daemon/sync/coordinator.py:634-645 | an unmarked share follows the conflict's remote hash, and exactly that conflict is gone |
| Reactions.KeepLocalKeeps | daemon/daemon/sync/coordinator.py:634-645 | an existing handle stays, the number does not fall, the hash is the handle's, the saved file's or what is loaded, and exactly that conflict is gone |
| Reactions.RebuildSeedsNewBuild | daemon/daemon/sync/torrent_mgr.py:238-299 | handle, saved file and row carry the new build under the next number |
| Reactions.OtherSharesUntouched | daemon/daemon/sync/coordinator.py:309-397 | no reaction changes row, handle, saved file or mark of a share it is not about |
| Reactions.IdsStayGood | daemon/daemon/state/db.py:374-401 | every reaction keeps the conflict ids strictly increasing and below the next one |
| VersionProtocol.ReceiveNames | daemon/daemon/sync/peer_handler.py:262-306 | hearing a pair never lowers the number, keeps naming a change, and closes the gap whenever it changes anything |
| VersionProtocol.NumbersNameChanges | daemon/daemon/sync/peer_handler.py:262-306 | in every state of a run each held or announced number names that change of the run |
| VersionProtocol.Agreement | daemon/daemon/sync/peer_handler.py:262-306 | equal numbers mean equal hashes, at peers and in flight, and a hash is empty exactly at number 0 |
| VersionProtocol.TieUnreachable | daemon/daemon/sync/peer_handler.py:283-300 | the branch for equal numbers and different hashes is never taken |
| VersionProtocol.OnlyFinitelyManySwitches | daemon/daemon/sync/peer_handler.py:265-306 | after the last local change at most N * (changes + 1) deliveries change any peer |
| VersionProtocol.QuiescentIffLatestEverywhere | daemon/daemon/sync/peer_handler.py:265-306 | no current pair would change any peer exactly when all peers hold the last change |
| VersionProtocol.NewestPairIsFinal | daemon/daemon/sync/peer_handler.py:265-306 | a peer at the newest number keeps its pair against everything in flight |
| VersionProtocol.ConcurrentWritersSwap | daemon/daemon/sync/peer_handler.py:283-300 | two first changes at number 0, and then for every n a run of announcements and deliveries only that switches n times |
| VersionProtocol.ChangeKeepsAgreementIff | daemon/daemon/sync/torrent_mgr.py:281-282 | a change keeps agreement exactly when its number is unused |
| ClusterProtocol.ActivationKeepsPairIff | daemon/daemon/sync/coordinator.py:710-764 | an activation or resume leaves the pair alone exactly when it adds nothing, fails, or loads the stored hash under a number already given |
| ClusterProtocol.HandleKeepsPair | daemon/daemon/torrent/session.py:170-216 | so it does when there is a handle that agrees with the row, or a saved file of the stored torrent |
| ClusterProtocol.StatusKeepsPairIff | daemon/daemon/sync/coordinator.py:958-964 | a status leaves the pair alone exactly when it stores nothing or the stored hash |
| ClusterProtocol.LanIsReceive | daemon/daemon/sync/peer_handler.py:197-316 | a whole LAN reaction does to the stored pair what Receive does |
| ClusterProtocol.RebuildIsChange | daemon/daemon/sync/torrent_mgr.py:259-299 | a rebuild is a change, or nothing when it fails |
| ClusterProtocol.FirstActivationIsChange | daemon/daemon/sync/coordinator.py:710-796 | a first activation with files is a change to number 1 |
| ClusterProtocol.DaemonsRefinePairs | daemon/daemon/sync/coordinator.py:798-834 | broadcast, LAN reaction, rebuild, start, resume, pause and status of a daemon are steps of the pairs or leave them alone |
| ClusterProtocol.DaemonsAgree | daemon/daemon/sync/peer_handler.py:197-316 | on whole daemons equal numbers mean equal hashes and no entry in flight ties with a row |
| ClusterProtocol.DaemonsSettle | daemon/daemon/sync/peer_handler.py:265-306 | on whole daemons, once the content rests, at most N * (changes + 1) steps change any pair |
| ClusterProtocol.DaemonsQuiescentIff | daemon/daemon/sync/peer_handler.py:265-306 | on whole daemons, no current pair would change anything exactly when all hold the last content |
| ClusterProtocol.ResumeAfterFailedRebuild | daemon/daemon/sync/torrent_mgr.py:259-282 | after a failed rebuild a resume stores a new build's hash under the old number |
| ClusterProtocol.FailedRebuildBreaksAgreement | daemon/daemon/sync/coordinator.py:392-397 | two daemons that held one pair then hold different contents under its number |
| Interleavings.StepKeepsOne | daemon/daemon/sync/coordinator.py:809-832 | every step keeps at most one switch in flight per share and its mark |
| Interleavings.StepMovesForward | daemon/daemon/sync/coordinator.py:752-764 | every step, whatever it does to other shares, keeps a share's hash and number from going back, unless it adds that share back during its switch |
| Interleavings.SharesOnlyMoveForward | daemon/daemon/state/db.py:255-282 | between any two moments between which a share keeps its row its number does not go down, its hash does not become empty, and an empty hash means number 0, in every run in which it was not added back during its own switch before |
| Interleavings.OneSwitchInFlight | daemon/daemon/sync/coordinator.py:809-832 | at most one switch per share is in flight in every run |
| Interleavings.AddRowKeepsGoodIff | daemon/daemon/sync/coordinator.py:309-352 | adding a row keeps this exactly when no switch for the share is in flight |
| Interleavings.ReAddLosesNumbers | daemon/daemon/sync/coordinator.py:809-832 | remove, re-add and two announcements during a switch take a number from 5 to 3 |
| WholeReactions.UninterruptedIsWhole | daemon/daemon/sync/coordinator.py:798-834 | every whole reaction is a run of its stretches that leaves no switch or job behind |
| HandleAgreement.SwitchAgreesIff | daemon/daemon/sync/torrent_mgr.py:137-183 | a switch keeps handle and row equal exactly when it fails or no stale file is loaded |
| HandleAgreement.LanAllAgrees | daemon/daemon/sync/peer_handler.py:197-316 | a whole announcement keeps handles and rows equal |
| HandleAgreement.ActivateAgrees | daemon/daemon/sync/coordinator.py:710-796 | activation keeps them equal, also when an existing handle is returned |
| HandleAgreement.RunsAgree | daemon/daemon/torrent/session.py:213-238 | every run of non-overlapping reactions keeps every handle's hash equal to the stored one |
| HandleAgreement.StaleFileBreaksAgreement | daemon/daemon/sync/torrent_mgr.py:156-181 | with a file that cannot be unlinked the row says the new and the handle the old hash |
| HandleAgreement.StatusAgreesIff | daemon/daemon/sync/coordinator.py:958-964 | a status report keeps the agreement exactly when it is not finished, not for a download, or carries the handle's hash |
| FileTree.RenameTree | daemon/daemon/sync/torrent_mgr.py:404 | a rename, of a file or of a directory with all below it, leaves a tree |
| FileTree.RenameDescends | daemon/daemon/sync/torrent_mgr.py:404 | every file after a rename is one file from before, no two the same one |
| FileTree.CleanupKeepsExactlyFullDirs | daemon/daemon/sync/torrent_mgr.py:447-457 | after the deepest-first pass a directory survives exactly when it has a file somewhere below |
| FileTree.Disk.Move | daemon/daemon/sync/torrent_mgr.py:404 | performs the rename in place or, when it is impossible, nothing |
| FileTree.Disk.RemoveDirs | daemon/daemon/sync/torrent_mgr.py:421-430 | tries rmdir in the order given, ignoring failures |
| FileTree.SortDeepestFirst | daemon/daemon/sync/torrent_mgr.py:421-421 | lists a set of directories once each, deepest first |
| Preposition.ContentsAreConserved | daemon/daemon/sync/torrent_mgr.py:388-457 | the tree stays a tree and every final file is one initial file, no two the same one |
| Preposition.NoRecheckNoChange | daemon/daemon/sync/torrent_mgr.py:349-459 | when it returns False no file changed |
| Preposition.NoStaleFileLeft | daemon/daemon/sync/torrent_mgr.py:432-445 | afterwards no tracked path outside the layout is a file |
| Preposition.NoEmptyDirLeft | daemon/daemon/sync/torrent_mgr.py:447-457 | afterwards a directory under the share root is there exactly when a file is below it |
| Preposition.RootStays | daemon/daemon/sync/torrent_mgr.py:414-431 | the share's own directory is never removed or moved away |
| Preposition.UnrelatedFilesUntouched | daemon/daemon/sync/torrent_mgr.py:388-445 | for any layout, an untracked file at no layout path and of no layout key is unchanged |
| Placement.AllPlacedIff | daemon/daemon/sync/torrent_mgr.py:375-445 | with distinct unblocked targets every entry in place or matched ends placed if and only if no move takes a file that another entry has in place, was given, or has taken |
| Placement.EntriesArePlaced | daemon/daemon/sync/torrent_mgr.py:375-445 | with distinct basenames every entry stays in place or ends with the content of a matching local file, and any other target is as it was |
| Placement.SharedBasenamesCollide | daemon/daemon/sync/torrent_mgr.py:388-416 | a tree and a layout for which every run leaves an entry that matched a local file without it |
| Placement.RecheckIff | daemon/daemon/sync/torrent_mgr.py:385-459 | with distinct basenames the answer is true exactly when some entry is not in place and matches a local file, or a tracked path outside the layout is a file, both in the initial tree |
| Placement.NothingToDoNoRecheck | daemon/daemon/sync/torrent_mgr.py:385-459 | for any layout: every entry in place or matched by nothing, and no stale file, gives false |
| Preposition.BuildIndex | daemon/daemon/sync/torrent_mgr.py:375-384 | the index of every file under the root by name and size, later ones winning |
| Preposition.PlaceEntries | daemon/daemon/sync/torrent_mgr.py:389-416 | the moves, entry by entry, and the directories they left |
| Preposition.ClimbFrom | daemon/daemon/sync/torrent_mgr.py:415-420 | the left directories and those above them up to the root |
| Preposition.UnlinkStale | daemon/daemon/sync/torrent_mgr.py:432-445 | removes the stale files and says whether there was one |
| Preposition.PrepositionFiles | daemon/daemon/sync/torrent_mgr.py:349-459 | the whole pass, whose final tree and result the lemmas above speak about |
| Utf8.DecodeEncode | daemon/daemon/lan/discovery.py:93 | every text survives encoding and decoding |
| Utf8.EncodeDecode | daemon/daemon/lan/discovery.py:123-193 | what decodes is the encoding of what it decodes to |
| Utf8.CutDecodes | daemon/daemon/lan/discovery.py:93 | a cut encoding decodes exactly when the cut falls between characters |
| LanPacket.PackShares | daemon/daemon/lan/discovery.py:98-102 | the entries of the share list, refused when a number does not fit 32 bits |
| LanPacket.PackPacket | daemon/daemon/lan/discovery.py:79-107 | the signed version 4 packet, refused exactly when a field does not fit |
| LanPacket.UnpackPacket | daemon/daemon/lan/discovery.py:110-193 | accepts exactly the packets of a known version whose length is what the header and name length call for and whose signature verifies, and returns their fields |
| LanPacket.UnpackPack | daemon/daemon/lan/discovery.py:79-193 | parsing a printed packet gives it back, zero hashes as unknown |
| LanPacket.NameSurvives | daemon/daemon/lan/discovery.py:93 | a name up to 255 bytes comes back; a longer one as its 255-byte prefix on a character boundary, else empty |
| LanPacket.PackUnpack | daemon/daemon/lan/discovery.py:110-193 | an accepted version 4 packet prints back to the same body exactly when its name decodes and has at most 255 bytes |
| LanLayout.AcceptedFields | daemon/daemon/lan/discovery.py:110-193 | a packet is accepted exactly when version, length and signature fit, and every field is the bytes at its offset, for all four versions |
| LanLayout.UnpackOldPack | daemon/daemon/lan/discovery.py:110-193 | a signed packet as versions 1 to 3 print it is read with its ids, its name from version 2 on, its hashes in version 3, and number 0 |
| LanLayout.PackedLayout | daemon/daemon/lan/discovery.py:57-108 | where each field of a printed version 4 packet lies |
| RateLimiter.Limiter.IsAllowed | registry/registry/servicer/registry.py:66-92 | answers and updates one key's bucket; other keys are untouched |
| RateLimiter.KeysAreIndependent | registry/registry/servicer/registry.py:66-92 | whatever other keys do, a key's bucket is the one its own calls leave and its next answer comes from that |
| RateLimiter.Conservation | registry/registry/servicer/registry.py:76-92 | passed calls, the bucket's worth and what spilled equal burst, elapsed time and re-credited time |
| RateLimiter.AnswersOfOwnCalls | registry/registry/servicer/registry.py:69-92 | what a key is answered among the calls of all keys is what its own calls alone would be answered |
| RateLimiter.OffAllowsAll | registry/registry/servicer/registry.py:66-67 | with a rate of 0 nothing is denied and no bucket is kept |
| RateLimiter.StateInRange | registry/registry/servicer/registry.py:76-92 | every stored bucket's tokens stay between 0 and the burst over every call sequence |
| RateLimiter.AllowedBound | registry/registry/servicer/registry.py:76-92 | of any calls of any keys, a key's allowed ones are at most burst + rate * elapsed + its denied ones |
| RateLimiter.UsualBoundWhenPrompt | registry/registry/servicer/registry.py:76-92 | they are at most burst + rate * elapsed when every denied call came at the stored timestamp |
| RateLimiter.TextbookBoundFails | registry/registry/servicer/registry.py:88-92 | for every rate and burst some ordered calls exceed burst + rate * elapsed |
| RateLimiter.DenialIsFreeIff | registry/registry/servicer/registry.py:88-92 | a denial makes credit exactly when time has passed since the stored timestamp |
| RateLimiter.SpacedCallsPass | registry/registry/servicer/registry.py:82-92 | calls 60 / rpm seconds apart are never denied |
| RateLimiter.RetryAfterSuffices | registry/registry/servicer/registry.py:88-92 | waiting retry_after gets a denied caller admitted exactly when the burst is at least 1 |
| Registry.ClampTtl | registry/registry/ttl.py:24-25 | the nearest value in 60 to 600 |
| Registry.RegistryServicer.RegisterPeer | registry/registry/servicer/registry.py:254-293 | a valid signature registers or renames the peer, any other changes nothing |
| Registry.RegistryServicer.SetSharePolicy | registry/registry/servicer/registry.py:919-964 | only the owner, and one POLICY_UPDATED event |
| Registry.RegistryServicer.CreateNewShare | registry/registry/servicer/registry.py:338-369 | the owner becomes a read-write member; an existing share is refused |
| Registry.RegistryServicer.AddPeerToShare | registry/registry/servicer/registry.py:429-469 | only the owner, only a registered peer; publishes nothing |
| Registry.RegistryServicer.RemovePeerFromShare | registry/registry/servicer/registry.py:484-518 | removes membership and announcement and publishes REMOVED; the owner cannot remove itself |
| Registry.RegistryServicer.AnnouncePeer | registry/registry/servicer/registry.py:528-646 | order of the checks, when the limiter is charged, the new row, and UPDATED exactly when the old row had not expired |
| Registry.RegistryServicer.Sweep | registry/registry/ttl.py:54-101 | removes exactly the expired rows and publishes OFFLINE for those with a membership |
| Presence.StepKeepsInv | registry/registry/servicer/registry.py:348-369 | owners are members, members are registered, rows have memberships, and the replayed events are the rows, after every RPC and sweep |
| Presence.OnlyOwnersChangeMembers | registry/registry/servicer/registry.py:429-518 | a membership changes only by the registered owner of the share, or when the share is created |
| Authority.AnnounceStatus | registry/registry/servicer/registry.py:532-569 | which answer an announcement gets, exactly |
| Authority.EntitledIsRecorded | registry/registry/servicer/registry.py:575-629 | a registered member's own signed announcement that the limiter passes writes its row, expiring after the requested seconds inside 60 to 600 and the nearer bound outside, and publishes one event with the sent and the seen address |
| Authority.OthersAreRefused | registry/registry/servicer/registry.py:532-569 | any other announcement changes no table, and the limiter is charged exactly for the entitled |
| Authority.OnlyMembersAnnounceThemselves | registry/registry/servicer/registry.py:532-556 | a step that writes a member's row or reports it online or updated is that member's own signed announcement, past the limiter |
| Authority.OnlineMeansAnnounced | registry/registry/servicer/registry.py:528-646 | in every run, who is listed as online sent a signed announcement as a member less than 600 seconds before, with the listed addresses |
| Authority.OnlySignedRegistrations | registry/registry/servicer/registry.py:254-293 | the peer table changes exactly by a signed registration |
| Authority.OnlySignedCreations | registry/registry/servicer/registry.py:338-369 | a share is created exactly by a signed request of a registered peer, who owns and joins it |
| Authority.OwnersWord | registry/registry/servicer/registry.py:429-518 | what adding, removing and a policy change do at the owner's word, and that anyone else's changes nothing |
| Presence.ReplayIsSnapshotIff | registry/registry/servicer/registry.py:125-155 | in every reachable state the replay of a share is its snapshot exactly when no expired row waits for a sweep |
| Presence.SweepSettles | registry/registry/ttl.py:54-101 | right after a sweep the replay of every share is its snapshot |
| Presence.FirstBeat | registry/registry/servicer/registry.py:561-598 | an admitted announcement starts a heartbeat: its row expires after the clamped time to live and the limiter owes it nothing |
| Presence.HeartbeatStaysOnline | registry/registry/servicer/registry.py:572-629 | a member that announces in time, 60 / rpm seconds apart, is never denied and publishes UPDATED each time and nothing else, whatever else runs |
| Presence.SilenceIsReportedOnce | registry/registry/ttl.py:54-101 | after the last announcement the first sweep at or past expiry publishes one OFFLINE and nothing else is published |
| EventBus.Fanout.PublishEvent | registry/registry/events.py:27-36 | puts the event into every queue of the share that has room |
| EventBus.Fanout.SubscribeTo | registry/registry/events.py:38-53 | registers an empty queue at the end of the share's list |
| EventBus.SubscriberSees | registry/registry/events.py:27-36 | a subscriber sees an ordered subsequence of what it was offered, all of it exactly when nothing was dropped |
| EventBus.ListeningIff | registry/registry/events.py:38-60 | the listeners of a share are exactly the queues that were subscribed to it and have not left |
| EventBus.OfferedIsPublished | registry/registry/events.py:27-60 | a queue is offered exactly what is published while it is subscribed |
| EventBus.LosslessWatcherKnows | registry/registry/events.py:27-60 | a lossless subscriber that starts from what was known when it subscribed knows the replay of the whole log |
| RelayPool.RelayServer.HandleClient | relay/relay/server.py:106-129 | match, refuse or register, with the frames written |
| RelayPool.RelayServer.GiveUp | relay/relay/server.py:151-153 | a waiter whose wait ended removes the entry of its key, whoever's it is |
| RelayPool.RelayServer.EnterPipes | relay/relay/server.py:126-136 | the connector's own "connected" comes last before the pipes |
| RelayPool.RelayServer.ForwardChunk | relay/relay/server.py:236-242 | one turn of a pipe takes the next bytes of one connection's input and writes them to its partner |
| RelayPool.HandedOverOnce | relay/relay/server.py:106-129 | the pool is never over capacity, and a waiter is handed to one connector of the same share that wants it |
| RelayPool.ToldIffHanded | relay/relay/server.py:126-129 | a waiter is told "connected" exactly when a connector was given it |
| RelayPool.OutputShape | relay/relay/server.py:106-136 | the output of a refused connection is the refusal, of a waiter "waiting", at most one "connected" and raw bytes, of a connector "connected" and raw bytes |
| RelayPool.RawBytesAreThePartners | relay/relay/server.py:133-136 | the raw bytes written to either end of a pair are a prefix of what the other end sent after its hello |
| RelayPool.MutualWaitersArePaired | relay/relay/server.py:108-123 | two connections in the pool never want each other |
| RelayPool.EntryLeavesIff | relay/relay/server.py:108-153 | an entry leaves exactly by a match, by its peer joining again, or by a wait of its peer ending |
| RelayPool.PairsBothWaysIff | relay/relay/server.py:108-111 | a match pairs both ways exactly when the held entry wants the caller |
| RelayPool.PhaseMoves | relay/relay/server.py:106-167 | a waiter returns only while it waits, one whose wait has ended or whose connection is gone stays so even when it is matched, and a lost connection leaves its entry |
| RelayPool.OneSidedPairing | relay/relay/server.py:109-111 | a waiter can be paired with a peer it did not ask for |
| RelayPool.StaleWaitEvicts | relay/relay/server.py:151-153 | in any pool with room an ended wait can leave two connections that want each other both held |
| RelayStream.FrameIsExact | daemon/daemon/relay/client.py:182-186 | reading gives a body and a rest exactly when the stream is that frame and that rest |
| RelayStream.RecvFrame | daemon/daemon/relay/client.py:182-186 | takes the first frame and nothing after it, or fails at the end of file |
| RelayStream.RecvHello | relay/relay/server.py:171-185 | the same with the size limit of a hello |
| RelayStream.SendFrame | relay/relay/server.py:227-230 | appends one frame |
| RelayStream.OpenBridge | daemon/daemon/relay/client.py:61-101 | sends the hello, and succeeds exactly when the replies end in "connected", leaving the stream at the first raw byte |
| RelayStream.TunnelIff | daemon/daemon/relay/client.py:72-92 | the handshake succeeds exactly on "connected", or "waiting" and "connected", and the tunnel is exactly what follows |
| RelayStream.HandshakeMeetsRelay | daemon/daemon/relay/client.py:72-92 | against everything the relay can have written, the handshake succeeds exactly after "connected" and leaves exactly the raw bytes written |
| RelayStream.TunnelShowsPartner | daemon/daemon/relay/client.py:72-92 | from a connection cut at any byte a daemon gets a prefix of what its partner sent after its own hello |
| RelayStream.Pipe | relay/relay/server.py:233-250 | writes a prefix of what it reads, all of it without a failure, and always closes |
| RelayChain.MoveConserves | relay/relay/server.py:236-242 | a turn of a pipe keeps the bytes between the two ends, also when the reader's socket is gone |
| RelayClosing.DeliveredIsPrefix | daemon/daemon/relay/client.py:150-174 | in every interleaving of both directions what arrives is a prefix of what was sent, and at an end of file without failures all of it exactly when no socket was closed under the direction with bytes behind it |
| RelayClosing.LostForever | relay/relay/server.py:245-250 | bytes behind a closed socket never arrive, whatever happens afterwards |
| RelayClosing.CloseSparesIff | relay/relay/server.py:245-250 | the end of a pipe loses nothing of the other direction exactly when that direction is drained there |
| RelayClosing.CompleteInOrder | daemon/daemon/relay/client.py:157-174 | when every socket is closed only after the other direction has ended and drained there, an end of file without failures means all that was sent |
| RelayClosing.HalfCloseLosesReply | daemon/daemon/relay/client.py:157-174 | one side closes its sending, and the whole reply is lost behind a clean end of file |
| RelayClosing.StepsShrink | daemon/daemon/relay/client.py:157-174 | every step of either direction but a send uses up work, so the transfer ends |
| RelayClosing.NeverStuck | daemon/daemon/relay/client.py:157-174 | after the sender closed some step is possible until the far end of file |
| RelaySession.TrafficKeepsInv | relay/relay/server.py:133-136 | every move on a pair's line keeps its bytes and those of the two relay connections the same |
| RelayEndToEnd.EndToEnd | daemon/daemon/relay/client.py:61-174 | in every reachable state the relay finds behind the hello what the sender's daemon wrote, the receiver's daemon finds behind the status frames what the relay moved, the receiving application has a prefix of what the sending one wrote, and at a clean end of file all of it under the exact condition |
| Canonical.CanonicalIgnoresOrder | registry/registry/auth/crypto.py:84-97 | the order of the addresses does not matter |
| Canonical.CanonicalIff | registry/registry/auth/crypto.py:84-97 | for NUL-free hosts the bytes are equal exactly when the addresses are, up to order |
| Canonical.CanonicalLayout | registry/registry/auth/crypto.py:92-97 | the bytes are host:port:flag of every address, a missing flag being 0, in code point order, joined by NUL, in UTF-8 |
| Canonical.MessageLayout | daemon/daemon/identity.py:70-84 | the share's 32 bytes, the peer's 32 bytes, the addresses, and the time to live in four bytes, the highest first |
| Canonical.NulCollides | registry/registry/auth/crypto.py:84-97 | for every pair of addresses one address with a NUL in its host gives the same bytes |
| Canonical.DaemonBytes | daemon/daemon/identity.py:87-91 | the daemon's bytes are those of the addresses it sends |
| Canonical.RegistryBytes | registry/registry/auth/crypto.py:92-97 | the registry's bytes are those of the addresses it received |
| Canonical.MessageIff | daemon/daemon/identity.py:70-84 | for 32-byte ids the signed message determines share, peer, addresses and time to live |
| Canonical.SortedUnique | registry/registry/auth/crypto.py:95 | a list of texts has one sorted order |
| Watcher.ShareHandler.DebounceEvent | daemon/daemon/watcher/fs.py:94-109 | a later event replaces an earlier one and re-arms the timer, except after a delete |
| Watcher.ShareHandler.CollectReady | daemon/daemon/watcher/fs.py:111-120 | takes what is past its deadline and notes whether anything is left |
| Watcher.ShareHandler.ReportReady | daemon/daemon/watcher/fs.py:122-136 | reports each collected path once |
| Watcher.ShareHandler.FinishFlush | daemon/daemon/watcher/fs.py:138-140 | re-arms the timer when something was left |
| Watcher.NothingForgotten | daemon/daemon/watcher/fs.py:94-140 | in every interleaving something pending means a waiting timer or a flush about to look or re-arm, and a timer firing now collects all of it |
| Watcher.Deciding | daemon/daemon/watcher/fs.py:97-100 | a batch is decided by a delete if it has one, otherwise by its latest event |
| Watcher.EventRestartsWait | daemon/daemon/watcher/fs.py:94-109 | an event is due half a second after it was read and re-arms the timer, unless a delete of its path is pending |
| Watcher.FlushRearmsIff | daemon/daemon/watcher/fs.py:111-140 | a flush takes exactly what is due, and its end arms the timer exactly when something was not |
| Watcher.EveryBatchOnce | daemon/daemon/watcher/fs.py:111-140 | in every interleaving each collected batch is reported once or in the hands of one flush, as its deciding event |
| Watcher.AtRestAllReported | daemon/daemon/watcher/fs.py:111-140 | when no timer waits and every flush has ended, every event belongs to a batch reported once |

## Left out

- libtorrent, SQLAlchemy, watchdog, gRPC, sockets and the event loop: handle maps, table rows, file
  maps and byte sequences stand for them, and their failures are inputs of the operations.
- base58, Ed25519 and hex: identifiers are their 32 raw bytes, hashes their 20 raw bytes, and
  verifying a signature is an arbitrary predicate. JSON bodies are read by an arbitrary function that
  knows the relay's three status objects.
- ClusterProtocol.DaemonsAgree: a reaction is one step; an announcement that arrives during a switch
  takes the number without the content (daemon/daemon/sync/coordinator.py:809-812), which
  `Interleavings` covers without claiming agreement. Removing and adding the share, a change of its
  strategy, and an activation or status outside the exact conditions are not part of these runs.
- Interleavings.SharesOnlyMoveForward: numbers are unbounded; the 32-bit limit of the announcement
  format shows only in `LanPacket.PackPacket`, which then refuses.
- HandleAgreement.RunsAgree: covers reactions that do not overlap and switches that unlink the old file.
- Convergence of registry-driven switches: registry announcements carry no number, so two peers can
  exchange hashes.
- "Paused stays paused": a LAN announcement can switch a paused share, so it is not claimed.
- Restarts of a daemon between the steps of a run: agreement starts from peers without files.
- Adding libtorrent peers, rate limits, the watched-share tasks, the file index rows, copies kept
  under the rename strategy, the relay attempt after a peer stays unconnected, the deferral of
  rebuilds (daemon/daemon/sync/torrent_mgr.py:185-236).
- Placement.AllPlacedIff: layouts with pairwise distinct targets that neither a directory nor a file in
  the place of a parent blocks; permissions, symbolic links and `..` in a layout are not modelled.
- Presence.StepKeepsInv: each RPC is one step, so two announcements of one member between the two
  database sessions of an RPC are not modelled; events are those published while the registry's event
  loop runs; the info hash of an event can differ from the snapshot's when an announcement carries none.
- EventBus.LosslessWatcherKnows: says nothing about a subscriber whose queue was full, and starts at the
  subscription; events between a snapshot and the subscription are lost to the stream.
- RelayPool.MutualWaitersArePaired: connections that are still held but have lost their pool entry are
  outside it, as `StaleWaitEvicts` shows.
- RelayClosing.DeliveredIsPrefix: a write to a socket whose other end is gone is lost silently or ends the
  pipe by a failure, as the network decides; which of the two is left open.
- RelayStream.OpenBridge: its two timeouts are not told apart from an end of file; hello contents,
  timestamp and signature checks, and the local accept are left out.
- Canonical.MessageIff: share ids of a length other than 32 bytes are not covered; the registry decodes
  any length.
- Watcher: directory moves are not expanded into their files; exceptions while reporting are swallowed
  by the source and do not change the state, so they are not steps.
- Control service, command lines, installers, configuration, metrics, audit log, health and activity
  RPCs: I/O and formatting.
