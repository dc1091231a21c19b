# Verified models of the Handdraw server

The Handdraw server relays local drawing sessions, runs collaborative editing over a durable
document, moves documents in and out as portable archives, stores their assets, and keeps projects
and boards in PostgreSQL. This project states in Dafny what those parts do and proves what they
promise. `dafny verify dfyconfig.toml` checks all of it.

- **Local sharing** (`relay_*.dfy`, `relay.dfy`). The relay is one mutex-guarded object with two
  cross-linked indexes, a byte budget, four kinds of deadline and one-slot mailboxes. `RelayState`
  gives every locked operation as a function of the state, `LocalRelay.Relay` is the object whose
  methods are proved against it, `RelaySweep` and `RelayInvariant` show that the sweep does not depend
  on map order and that every operation keeps the representation invariant, `RelayRuns`, `RelayTokens`
  and `RelayLifetime` speak of whole runs, and `RelayDelivery` and `RelayRound` show exactly when
  coalesced, snapshot-dropping delivery is as good as sending every state. `RelayAnswers` says over the
  fields of the state exactly when each operation succeeds, what it changes and what each socket is
  told; `RelayInvites` that every viewer came with the invite.
- **Collaboration** (`collab_*.dfy`, `presence*.dfy`, `idle.dfy`). `CollabState` is the protocol as a
  transition system over the committed history; a CRDT state is a set of operations and a merge is
  their union. `CollabSafety` proves commit before publication and the room registry, `CollabCoverage`
  when replicas cover their room, `CollabAnswers` exactly when an update is committed, published and
  acknowledged and who is admitted, `CollabServer.Server` is the object. `Presence` and `Idle` are the
  presence IDs and clocks of a room and the inactivity timer of a session, `PresenceAnswers` what each
  presence message leads to.
- **Import and export** (`note_*.dfy`, `document.dfy`, `snapshot.dfy`, `premium.dfy`, `renaming.dfy`,
  `transfer*.dfy`). A note is parsed into literal characters and structural references; the renaming
  laws follow from the parse of a renamed note being the renamed parse. `NotePlaces` and `NoteRenamed`
  say without the parser, by position, which references those are, and `NoteChecked` what makes a note
  valid. `SnapshotCheck` decides validity, `Renaming` and `Transfer` prove that an import keeps it and
  that export and import undo each other, `Premium` what a document may gain without the right to insert.
- **Asset storage** (`storage.dfy`, `transfer_run.dfy`). Every bucket operation may fail, with or
  without its effect. Staging, finalizing and removal are proved for all failures, and interrupted
  import runs converge.
- **Projects and boards** (`board_tx.dfy`, `board_db.dfy`, `board_alone.dfy`). Interleaved transactions
  with row locks under READ COMMITTED: references, revisions, deletion and waiting under every
  schedule, and which rows let an operation go through.
- **Listing** (`pagination.dfy`, `cursor.dfy`, `utf8.dfy`, `base64url.dfy`). Keyset pages, the filter
  behind them, and signed cursors.

Where the code does something other than its comments suggest, the model follows the code. Six
places where a promise holds only under a condition are stated with that condition, and each with
inputs that miss it:

- A commit whose author's notice fails returns before the update is fanned out
  (`CollabCoverage.CoverageOverRun`, `CollabCoverage.NoticeErrorSkipsFanOut`).
- An idle notice owed after a change of tier, whose clock was read before the user's next activity,
  is refused and ends an active session (`Idle.NoticeExactly`, `Idle.ActivityOvertakesNotice`).
- The relay's 64-bit revision comes round (`RelayDelivery.DeliveredOverRun`,
  `RelayRound.CounterComesRound`).
- A cursor whose payload has more than 3039 bytes, or whose filter is not valid UTF-8, is issued but
  refused (`Cursor.CursorRoundTrip`, `Cursor.IssuedButRefused`, `Cursor.StrayByteIsRefused`).
- An archive may be accepted and then refused at its import, because its document is more than the
  codec holds (`Transfer.ImportKeepsValidity`, `TransferBulk.AcceptedButRefused`).
- An export without its assets cannot be imported if the document refers to any
  (`Transfer.ExportIsImportable`, `Transfer.ExportedButRefused`).

## Model

| member | source | states |
|---|---|---|
| LocalRelay.Relay.constructor | app/local_sharing/service/relay.go:50-56 | a new relay is empty and satisfies the representation invariant |
| LocalRelay.Relay.SendEvent | app/local_sharing/service/relay.go:378 | a plain send finds the slot free |
| LocalRelay.Relay.Offer | app/local_sharing/service/relay.go:376-387 | afterwards the new event waits, whatever waited before and whether or not the reader takes it meanwhile; no send blocks |
| LocalRelay.Relay.Tell | app/local_sharing/service/relay.go:402-407 | the mailbox is drained and the reason is sent into a free slot |
| LocalRelay.Relay.Broadcast | app/local_sharing/service/relay.go:389-398 | every peer of the room, in any order, is offered the room's current state, hosts without the snapshot |
| LocalRelay.Relay.End | app/local_sharing/service/relay.go:400-417 | the room and its peers leave both indexes, its bytes are returned, and each of its peers is told the reason once |
| LocalRelay.Relay.DetachPeer | app/local_sharing/service/relay.go:419-436 | a host takes its room along; a viewer leaves alone, is told why, and the others are sent the new state |
| LocalRelay.Relay.SweepRooms | app/local_sharing/service/relay.go:448-456 | ranging over the rooms in any order while deleting from the map ends exactly the overdue rooms |
| LocalRelay.Relay.SweepPeers | app/local_sharing/service/relay.go:458-462 | ranging over the peers in any order while deleting, with host peers taking their rooms along, reaches one result |
| LocalRelay.Relay.SweepAll | app/local_sharing/service/relay.go:448-463 | for every iteration order the sweep ends with the state `Swept`, which is defined without any order |
| RelaySweep.SweptInPhases | app/local_sharing/service/relay.go:448-463 | visiting all rooms and then all peers of the start state gives `Swept` |
| RelayInvariant.SweptByPhases | app/local_sharing/service/relay.go:448-463 | the same when the second phase visits only the peers that the first one left |
| RelayInvariant.SweepIsExact | app/local_sharing/service/relay.go:448-463 | a sweep keeps exactly the rooms before their deadlines with an unexpired host and exactly their unexpired peers; survivors are otherwise unchanged and strictly before every deadline |
| RelayInvariant.SweptKeepsValid | app/local_sharing/service/relay.go:448-463 | the sweep keeps the representation invariant |
| LocalRelay.Relay.FindLive | app/local_sharing/service/relay.go:65-78 | an invalid id is refused before the sweep; otherwise the room found is live after it |
| LocalRelay.Relay.Grants | app/local_sharing/service/relay.go:80-90 | the actor's grant is replaced by the new token, and the admission reports it |
| LocalRelay.Relay.CountRooms | app/local_sharing/service/relay.go:111-117 | the number of rooms the actor hosts |
| LocalRelay.Relay.Create | app/local_sharing/service/relay.go:93-144 | every refusal and the new room, for every state; the invariant holds afterwards (100 rooms, 2 per host) |
| LocalRelay.Relay.Join | app/local_sharing/service/relay.go:147-173 | every refusal and the grant issued; a viewer is never made host; the invariant holds afterwards (25 grants) |
| LocalRelay.Relay.Renew | app/local_sharing/service/relay.go:176-191 | only an existing grant is renewed, in its role; the invariant holds afterwards |
| LocalRelay.Relay.Revoke | app/local_sharing/service/relay.go:194-210 | only the host ends its room, and nothing of it is left; the invariant holds afterwards |
| LocalRelay.Relay.FindGrant | app/local_sharing/service/relay.go:212-225 | the search over the grants in any order finds the one grant the token is good for |
| RelayInvariant.AdmittedIsGrant | app/local_sharing/service/relay.go:212-225 | a token names at most one grant of a room, so the search order does not show |
| LocalRelay.Relay.Attach | app/local_sharing/service/relay.go:228-266 | every refusal and the new subscription; the invariant holds afterwards (25 sockets, 5 peers, one host) |
| LocalRelay.Relay.Seat | app/local_sharing/service/relay.go:255-263 | the peer enters both indexes with an empty mailbox, a host brings the room online, and everyone is sent the state |
| LocalRelay.Relay.Reauthenticate | app/local_sharing/service/relay.go:269-288 | only the socket's deadline changes, and only for its own actor and role; the invariant holds afterwards |
| LocalRelay.Relay.Publish | app/local_sharing/service/relay.go:291-322 | every refusal and the replaced source, revision, deadline and byte count; the invariant holds afterwards (32 MiB in all) |
| LocalRelay.Relay.Activity | app/local_sharing/service/relay.go:325-346 | every refusal and the new idle deadline; the invariant holds afterwards |
| LocalRelay.Relay.ShowPresence | app/local_sharing/service/relay.go:349-374 | every refusal; presence only fills empty mailboxes of others and moves no deadline; the invariant holds afterwards |
| LocalRelay.Relay.TellOthers | app/local_sharing/service/relay.go:364-371 | the loop over the peers in any order offers the presence to the others whose slot is free |
| LocalRelay.Relay.Detach | app/local_sharing/service/relay.go:439-446 | an attached peer is removed, an unknown one changes nothing; the invariant holds afterwards |
| LocalRelay.Relay.Close | app/local_sharing/service/relay.go:469-477 | every room ends in any order, the relay stays closed and empty, and each peer is told once |
| RelayInvariant.CreateKeepsValid | app/local_sharing/service/relay.go:93-144 | creation keeps both indexes linked and all limits |
| RelayInvariant.JoinKeepsValid | app/local_sharing/service/relay.go:147-173 | joining keeps the invariant, in particular distinct tokens and the roles |
| RelayInvariant.AttachKeepsValid | app/local_sharing/service/relay.go:228-266 | attaching keeps the invariant: one host peer exactly when the room is online |
| RelayInvariant.PublishKeepsValid | app/local_sharing/service/relay.go:291-322 | publishing keeps the byte count equal to the sum of the stored snapshots |
| RelayInvariant.RemoveKeepsValid | app/local_sharing/service/relay.go:419-436 | removing a peer keeps the invariant, and with a host its whole room goes |
| RelayInvariant.CloseKeepsValid | app/local_sharing/service/relay.go:469-477 | closing keeps the invariant |
| RelayRuns.StepKeepsValid | app/local_sharing/service/relay.go:17-48 | every operation and every read by a socket keeps the representation invariant |
| RelayRuns.QuietStep | app/local_sharing/service/relay.go:269-288 | what operations other than publication, activity, creation and attachment can do: drop rooms and peers, and send current states or presence to those left |
| RelayLifetime.RunKeepsValid | app/local_sharing/service/relay.go:17-48 | every state reachable under a clock that does not go back satisfies the invariant |
| RelayLifetime.StepLasts | app/local_sharing/service/relay.go:25-48 | no step changes the host or invite of a room, or the actor and role of a grant or peer that it leaves |
| RelayLifetime.PeerKeepsIdentity | app/local_sharing/service/relay.go:25-48 | over every run a peer that is still attached has the room, actor and role it had |
| RelayLifetime.RoomKeepsIdentity | app/local_sharing/service/relay.go:25-48 | over every run a room that is still there has its host and invite, and its grants their actors and roles |
| RelayLifetime.RoomStaysGone | app/local_sharing/service/relay.go:93-133 | over every run the id of a room that is gone does not come back |
| RelayTokens.StepGrants | app/local_sharing/service/relay.go:80-90 | every step keeps grants as they are, drops them, or issues exactly the token it brings along |
| RelayLifetime.ToldOnce | app/local_sharing/service/relay.go:400-446 | a peer is sent its reason in the very step that takes it out of the index, once |
| RelayLifetime.ToldForGood | app/local_sharing/service/relay.go:400-446 | over every later run a removed peer has exactly that one reason and gets no event |
| RelayLifetime.OverRefusesActors | app/local_sharing/service/relay.go:65-78 | a room that is ended, expired or left by its host refuses Join, Renew, Revoke and Attach |
| RelayLifetime.OverRefusesPeers | app/local_sharing/service/relay.go:269-374 | and its peers are refused Reauthenticate, Publish, Activity and Presence |
| RelayLifetime.OverStays | app/local_sharing/service/relay.go:448-463 | whatever happens next, such a room stays so |
| RelayLifetime.OverForGood | app/local_sharing/service/relay.go:65-90 | over every run with a monotone clock such a room is never revived |
| RelayLifetime.NewTokenSupersedes | app/local_sharing/service/relay.go:80-90 | once an actor was given a new token, the one before it is admitted to no room at any time after any later run |
| RelayLifetime.TokenStaysGone | app/local_sharing/service/relay.go:212-225 | over every run a token that is in no grant any more is never in one again |
| RelayLifetime.SupersededTokenIsUseless | app/local_sharing/service/relay.go:228-288 | with such a token neither Attach nor Reauthenticate succeeds |
| RelayLifetime.OnlyActivityMovesIdle | app/local_sharing/service/relay.go:176-191 | no step but a publication or an activity frame moves the idle deadline |
| RelayLifetime.IdleStaysWithoutActivity | app/local_sharing/service/relay.go:176-191 | over every run without publications and activity frames the idle deadline of a room stays |
| RelayLifetime.InteractionLastsThirtyMinutes | app/local_sharing/service/relay.go:291-346 | an activity or a publication keeps its room from idling out for thirty minutes, to the instant |
| RelayLifetime.NewRoomWaitsTenSeconds | app/local_sharing/service/relay.go:93-133 | a new room waits ten seconds for its host, to the instant |
| RelayLifetime.TokenLastsFiveMinutes | app/local_sharing/service/relay.go:80-90 | a token is good for exactly five minutes, for the actor and role it was issued to |
| RelayAnswers.CreateAnswers | app/local_sharing/service/relay.go:93-144 | from any state, exactly when a room is created and which error comes otherwise, counting only the rooms that are not overdue; the new room field by field |
| RelayAnswers.JoinAnswers | app/local_sharing/service/relay.go:147-173 | from any state, a grant is issued exactly for the room's own invite of 64 characters to a signed-in actor, while the room is up and online, to its host, to a holder of a grant, or below 25 grants; the error otherwise, and the role: host for the host, viewer for others |
| RelayAnswers.RenewAnswers | app/local_sharing/service/relay.go:176-191 | a grant is renewed exactly if there is one, in its role; the error otherwise |
| RelayAnswers.RevokeAnswers | app/local_sharing/service/relay.go:194-210 | a room is revoked exactly by its host; the error otherwise, and nothing of the room is left |
| RelayAnswers.AttachAnswers | app/local_sharing/service/relay.go:228-266 | exactly when a socket is attached, over the unexpired grants, the sockets and whether the room is online; the error otherwise |
| RelayAnswers.AttachSeats | app/local_sharing/service/relay.go:228-266 | what an attachment leaves: the peer with its grant's actor, role and deadline in both indexes, and the room online for a host |
| RelayAnswers.ReauthenticateAnswers | app/local_sharing/service/relay.go:269-288 | a socket's deadline moves exactly with an unexpired token of its own actor and role, to that token's; the error otherwise |
| RelayAnswers.PublishAnswers | app/local_sharing/service/relay.go:291-322 | exactly a host's socket publishes, well-formed JSON of 1 byte to 8 MiB, while all sources together stay within 32 MiB; the error otherwise |
| RelayAnswers.PublishReplaces | app/local_sharing/service/relay.go:291-322 | a publication replaces the source and revision of its room and starts its half hour anew, and leaves other rooms' sources and deadlines |
| RelayAnswers.ActivityAnswers | app/local_sharing/service/relay.go:325-346 | exactly the four kinds of interaction, by any attached socket, start the half hour anew; the error otherwise |
| RelayAnswers.PresenceAnswers | app/local_sharing/service/relay.go:349-374 | presence reaches exactly the other sockets of the room whose mailbox is free, and nothing else changes; the error otherwise |
| RelayAnswers.RefusedActors | app/local_sharing/service/relay.go:93-210 | whoever is refused by Create, Join, Renew or Revoke has changed nothing but what was overdue |
| RelayAnswers.RefusedSockets | app/local_sharing/service/relay.go:228-288 | the same for Attach and Reauthenticate |
| RelayAnswers.RefusedFrames | app/local_sharing/service/relay.go:291-374 | the same for Publish, Activity and Presence |
| RelayAnswers.SweepTells | app/local_sharing/service/relay.go:448-463 | the reason that each socket removed by a sweep is told: its room's idle or host deadline, or else an expired token, its own or its host's |
| RelayAnswers.RevokeTells | app/local_sharing/service/relay.go:194-210 | everyone in a revoked room is told that its host revoked it |
| RelayAnswers.DetachTells | app/local_sharing/service/relay.go:419-446 | a host that disconnects takes everyone in its room along, a viewer only itself, and those are told so |
| RelayAnswers.CloseTells | app/local_sharing/service/relay.go:469-477 | closing tells everyone that the relay stopped |
| RelayInvites.ViewersWereInvited | app/local_sharing/service/relay.go:147-173 | over every run of an empty relay, whoever holds a viewer's grant of a room asked at some step to join it with the room's own invite |
| RelayDelivery.StepDelivered | app/local_sharing/inbound/api/server.go:290-308 | delivery is kept by every operation and dequeue, except a frame taken when the counter has come round since the viewer's last one, and that one breaks it |
| RelayDelivery.DeliveredOverRun | app/local_sharing/inbound/api/server.go:284-316 | over every schedule delivery holds all the way exactly if no viewer takes a frame after a positive multiple of 2^64 publications that changed the source |
| RelayDelivery.CoalescedDelivery | app/local_sharing/inbound/api/server.go:284-316 | dropping the snapshot at an unchanged revision is correct in every such interleaving: each viewer holds exactly the bytes published by its last state frame, and without a waiting state event they are the latest |
| RelayDelivery.FewPublications | app/local_sharing/service/relay.go:317-317 | the counter has come round for nobody in a room with fewer than 2^64 publications |
| RelayRound.CounterComesRound | app/local_sharing/service/relay.go:317-317 | the exception is real: on a run from an empty relay with 2^64 publications between two frames the viewer is left with its old source |
| CollabServer.Server.constructor | internal/collaboration/inbound/ws/server.go:90-90 | a new server has no rooms and satisfies the invariant for any store |
| CollabServer.Server.Configure | internal/collaboration/inbound/ws/server.go:78-90 | limits not given are 25 connections and 5 peers, others must be from 1 to these; otherwise there is no server |
| CollabServer.Server.Serve | internal/collaboration/inbound/ws/server.go:108-120 | a socket is counted in while the server is open and below its limit |
| CollabServer.Server.Join | internal/collaboration/inbound/ws/server.go:154-184 | every branch: closed, new room, failed or full room, a room behind the loaded document aborts; the invariant holds afterwards |
| CollabServer.Server.Leave | internal/collaboration/inbound/ws/server.go:186-211 | the last member takes the room out of the registry; the invariant holds afterwards |
| CollabServer.Server.AbortRoom | internal/collaboration/inbound/ws/server.go:232-237 | the room fails for good and every member is stopped, in any order |
| CollabServer.Server.StopAll | internal/collaboration/inbound/ws/server.go:214-223 | the loop over sockets stops all of them, in any order |
| CollabServer.Server.Close | internal/collaboration/inbound/ws/server.go:214-223 | no socket is admitted any more and all are stopped |
| CollabServer.Server.SyncStep | internal/collaboration/inbound/ws/protocol.go:342-354 | the first sync step is answered with what the client's state vector lacks of the room's document |
| CollabServer.Server.StartSync | app/collaboration/service/collaboration.go:92-105 | an update is applied only to the revision the room holds; otherwise the room aborts |
| CollabServer.Server.Save | app/collaboration/infra/db/documents.go:62-83 | compare-and-swap: the version is appended exactly if the revision is the expected one |
| CollabServer.Server.SendToOthers | internal/collaboration/inbound/ws/protocol.go:384-397 | every other ready member, in any order, is sent the raw update or stopped |
| CollabServer.Server.FinishSync | internal/collaboration/inbound/ws/protocol.go:367-403 | commit, publication, fan-out and acknowledgement for every outcome, including an uncertain commit; the invariant holds afterwards |
| CollabServer.Server.SaveCheckpoint | internal/collaboration/inbound/ws/protocol.go:266-274 | the checkpoint is answered with a committed revision that contains every update acknowledged to that client |
| CollabSafety.NextKeeps | internal/collaboration/inbound/ws/server.go:154-211 | every step keeps: rooms hold committed versions, one registered room per board with 1 to the limit of members, joined peers are members of the registered room, failed rooms serve nobody |
| CollabSafety.RunKeeps | internal/collaboration/inbound/ws/protocol.go:360-403 | the invariant holds after every run, with commits by other servers and uncertain commits in between |
| CollabSafety.CommitBeforePublication | internal/collaboration/inbound/ws/protocol.go:367-377 | in every run the document of every room is a version of the committed history, and the room is the registered one |
| CollabSafety.SavedMeansContained | internal/collaboration/inbound/ws/protocol.go:266-274 | `saved` with revision n: every update acknowledged to that client is contained in committed version n |
| CollabSafety.RevisionMovesByOne | app/collaboration/service/collaboration.go:117-150 | a commit either leaves the room's document or moves it by exactly one revision, to the merge just committed |
| CollabSafety.FinishSends | internal/collaboration/inbound/ws/protocol.go:367-403 | at the end of a commit a client is sent or acknowledged only the update, and only once the room holds it; failed, conflicting and rejected commits reach nobody |
| CollabSafety.OnlyCommittedIsSent | internal/collaboration/inbound/ws/protocol.go:342-403 | in every run and for every step, all that a client learns from the server or has acknowledged is in the committed version its serving room holds |
| CollabSafety.HistoryGrows | app/collaboration/infra/db/documents.go:62-83 | committed versions are never rewritten |
| CollabAnswers.CommitsExactly | app/collaboration/service/collaboration.go:106-150 | a version is committed exactly if the update has news, the version is the expected one and the transaction commits; it is the union of document and update, and no other board's history changes |
| CollabAnswers.AbortsExactly | internal/collaboration/inbound/ws/protocol.go:367-374 | the room aborts exactly on a conflict or on any failure but a rejection |
| CollabAnswers.ServesExactly | internal/collaboration/inbound/ws/protocol.go:367-378 | a commit that went through is what the room serves from then on, at the next revision; otherwise its document is the same |
| CollabAnswers.OtherRoomsStay | internal/collaboration/inbound/ws/protocol.go:360-403 | a commit leaves every other room as it is |
| CollabAnswers.RegistryStays | internal/collaboration/inbound/ws/protocol.go:360-403 | a commit leaves the registry, the limits and the closing alone |
| CollabAnswers.PublishedToAll | internal/collaboration/inbound/ws/protocol.go:384-397 | once committed and with its author noticed, an update reaches every running ready member that still has access, and the other ready members are stopped |
| CollabAnswers.AcknowledgedExactly | internal/collaboration/inbound/ws/protocol.go:379-403 | the author is acknowledged exactly if its notice, where one is due, and the acknowledgement were written; otherwise it is stopped |
| CollabAnswers.OthersLeftAlone | internal/collaboration/inbound/ws/protocol.go:367-403 | everyone the update is not sent to is left as it was, and so are all but the author when the update is rejected, has no news, or the notice fails |
| CollabAnswers.RejectionStopsAuthor | internal/collaboration/inbound/ws/protocol.go:367-374 | a rejected update costs its author the connection and nobody anything else |
| CollabAnswers.BeginsExactly | internal/collaboration/inbound/ws/protocol.go:324-367 | an update starts exactly in a serving room whose document is the committed one; in one that is behind, the room aborts |
| CollabAnswers.FirstSyncAnswers | internal/collaboration/inbound/ws/protocol.go:342-354 | after its first sync step a running client holds all of the room's document and its own operations, and only those |
| CollabAnswers.CheckpointAnswers | internal/collaboration/inbound/ws/protocol.go:266-274 | a checkpoint is answered exactly by a serving room, with the revision it serves |
| CollabAnswers.ConnectsExactly | internal/collaboration/inbound/ws/server.go:108-120 | a socket is counted in exactly while the server is open and below its limit |
| CollabAnswers.OpensRoom | internal/collaboration/inbound/ws/server.go:154-184 | the first member opens its board's room with the version it read |
| CollabAnswers.JoinsExactly | internal/collaboration/inbound/ws/server.go:154-184 | later ones get in exactly while the room serves, has a place and is not behind the version they read; one that read a newer version than a room with a place makes it abort |
| CollabAnswers.ClosedRefuses | internal/collaboration/inbound/ws/server.go:154-162 | after the server is closed nobody joins |
| CollabAnswers.ClosesExactly | internal/collaboration/inbound/ws/server.go:214-223 | closing stops every socket and leaves rooms, documents and history alone |
| CollabAnswers.ClosedForGood | internal/collaboration/inbound/ws/server.go:214-223 | over every run a closed server stays closed |
| CollabAnswers.ReadyExactly | internal/collaboration/inbound/ws/protocol.go:227-252 | a member becomes ready exactly in a serving room, when that could be written to it |
| CollabAnswers.LeavesExactly | internal/collaboration/inbound/ws/server.go:186-211 | whoever leaves is gone, and its room exactly with its last member |
| CollabAnswers.LoadsLatest | app/collaboration/service/collaboration.go:74-89 | what is read before joining is the latest version there is |
| CollabSafety.FailedForGood | internal/collaboration/inbound/ws/server.go:172-176 | no step revives a failed room or lets a member in |
| CollabSafety.FailedRoomStaysFailed | internal/collaboration/inbound/ws/server.go:154-237 | over every run a room that failed never serves again: it gains no member, and no step sends, acknowledges or checkpoints anything to a client in it or admits it |
| CollabCoverage.CoverageIsExact | internal/collaboration/inbound/ws/protocol.go:376-398 | every step keeps every running, synced client covering its room, except a commit whose author's notice fails, and that one exactly if no other client lacked the update |
| CollabCoverage.CoverageOverRun | internal/collaboration/inbound/ws/protocol.go:376-398 | over every run coverage holds all the way exactly if no commit on it skips its fan-out while another running client lacks the update |
| CollabCoverage.ReplicaCoverage | internal/collaboration/inbound/ws/protocol.go:342-398 | in such runs a running client whose first sync step was answered holds everything its room serves, although only raw updates are sent |
| CollabCoverage.NoticeErrorSkipsFanOut | internal/collaboration/inbound/ws/protocol.go:379-382 | the exception is real: a run from the start in which two clients connect, join and sync and the notice of a commit fails leaves the other client without the update |
| PresenceRoom.Members.BroadcastPresence | internal/collaboration/inbound/ws/presence.go:104-119 | every admitted member but the source, in any order, is shown the presence or stopped |
| PresenceRoom.Members.IdTaken | internal/collaboration/inbound/ws/presence.go:84-88 | whether another member holds the presence ID |
| PresenceRoom.Members.Examine | internal/collaboration/inbound/ws/presence.go:59-92 | the checks on one entry in the order of the source |
| PresenceRoom.Members.HandleAwareness | internal/collaboration/inbound/ws/presence.go:11-102 | entries take effect one by one, a refused one ends the socket and keeps what came before; the invariant holds afterwards |
| PresenceRoom.Members.HandleLeave | internal/collaboration/inbound/ws/server.go:198-204 | a member with a presence leaves a tombstone one clock later; the invariant holds afterwards |
| PresenceRoom.Members.HandleReady | internal/collaboration/inbound/ws/protocol.go:240-252 | a member that becomes ready is shown everyone else's presence; the invariant holds afterwards |
| Presence.IdsAreOwned | internal/collaboration/inbound/ws/presence.go:80-88 | in every run two members never hold the same nonzero presence ID |
| Presence.ClocksIncrease | internal/collaboration/inbound/ws/presence.go:90-101 | in every run the broadcasts of a member keep one ID and have strictly increasing clocks through its tombstone, never past 2^53-1 |
| Presence.PresenceNamesItsAuthor | internal/collaboration/inbound/ws/presence.go:88-101 | in every run a broadcast object names the account its socket was admitted for, whatever the client sent |
| Presence.ViewsAreCurrent | internal/collaboration/inbound/ws/presence.go:104-131 | in every run a served member shows, by presence ID, the latest presence of every other member, and an ID it shows as present is a member's |
| Presence.NextKeeps | internal/collaboration/inbound/ws/presence.go:11-119 | every step keeps all of these |
| PresenceAnswers.TakenExactly | internal/collaboration/inbound/ws/presence.go:44-99 | an entry is taken exactly if its numbers are in range, the ID is the member's own or its first, nobody else has it, and it says something new; it then shows the object with the account of the member as its user, or that the presence is gone |
| PresenceAnswers.SkippedExactly | internal/collaboration/inbound/ws/presence.go:59-92 | it is passed over exactly if it removes a presence that is not the member's or is not ahead of the member's own clock |
| PresenceAnswers.NewsIsShown | internal/collaboration/inbound/ws/presence.go:11-119 | a message of one such entry reaches every served member that can be reached, stops those that cannot, and changes nothing else |
| PresenceAnswers.OtherEntriesStop | internal/collaboration/inbound/ws/presence.go:44-99 | a message of any other entry that is not passed over stops its sender and does nothing else |
| PresenceAnswers.RefusedStops | internal/collaboration/inbound/ws/presence.go:11-42 | a message that is not allowed, too long, short of entries or followed by bytes stops its sender |
| PresenceAnswers.HighestClockWins | internal/collaboration/inbound/ws/presence.go:44-102 | of several objects under the member's own ID, in any order, the one with the highest clock is shown at the end, the first of those; if none is ahead nothing changes |
| PresenceAnswers.ReadyShows | internal/collaboration/inbound/ws/protocol.go:227-252 | a member that becomes ready shows exactly the presences of the others, by ID |
| PresenceAnswers.LeaveTells | internal/collaboration/inbound/ws/server.go:198-204 | whoever leaves with a presence is shown as gone, one clock later, to every served member that can be reached; whoever leaves without one is not noticed |
| PresenceAnswers.EnterExactly | internal/collaboration/inbound/ws/server.go:154-184 | a member enters once, a room that has not failed, with nothing shown |
| Idle.IdleTimer.constructor | internal/collaboration/model/idle.go:13-19 | the deadline starts one tier after now |
| Idle.IdleTimer.Touch | internal/collaboration/model/idle.go:28-37 | an active timer restarts, an expired one is unchanged; on success the whole tier is left |
| Idle.IdleTimer.SetTier | internal/collaboration/model/idle.go:40-49 | the deadline counts from the last interaction; expired and unsupported cases change nothing |
| Idle.ActiveExactly | internal/collaboration/model/idle.go:25-49 | under a nondecreasing clock a timer is active exactly if at no event, nor now, the user had been idle for the tier then in force; then it shows the last interaction and tier |
| Idle.ExpiredForGood | internal/collaboration/model/idle.go:25-49 | once expired, a timer never becomes active again |
| Idle.RunValid | internal/collaboration/inbound/ws/server.go:269-283 | in every run a running session's timer has the tier of its access record and a deadline one tier after the last report |
| Idle.NoticeExactly | internal/collaboration/inbound/ws/protocol.go:280-301 | in every run a pending notice ends its session exactly if its clock reading is not before the deadline, or another goroutine took it and an activity was recorded after it |
| Idle.OwnNoticeIsSent | internal/collaboration/inbound/ws/protocol.go:303-322 | in every run a notice of an active session by its own reader validates and carries the tier and deadline |
| Idle.NoActiveSessionEndsOnOneTier | internal/collaboration/inbound/ws/server.go:294-298 | while the tier does not change no notice ends an active session |
| Idle.ActivityOvertakesNotice | internal/collaboration/inbound/ws/server.go:294-298 | a run from the start: the maintenance loop finds a new tier and reads the clock, the user acts, and the notice ends an active session |
| Idle.ThrottleCostsUnderASecond | internal/collaboration/inbound/ws/protocol.go:303-322 | reporting at most once a second costs a user less than a second of the tier |
| Idle.SessionExpiresForGood | internal/collaboration/inbound/ws/server.go:256-301 | over every run a session past its deadline, with no activity begun before it, is never active again |
| Idle.OnlyEarlierActivityRevives | internal/collaboration/inbound/ws/protocol.go:303-322 | a step makes a running session past its deadline active exactly if it records, unthrottled, an activity that was begun before the deadline, and the new deadline is still ahead |
| Idle.HelloExactly | internal/collaboration/inbound/ws/protocol.go:215-242 | a session becomes ready exactly on a supported tier with its first notice written within it; the deadline counts from the access check |
| Idle.CheckExactly | internal/collaboration/inbound/ws/server.go:269-301 | in every run a recheck ends the session exactly if the last interaction is as long ago as the tier answered allows, or on another tier also if there is no such tier or the old deadline had passed; otherwise the deadline counts from that interaction, and exactly a change owes a notice |
| Idle.ActivityExactly | internal/collaboration/inbound/ws/protocol.go:303-322 | an activity ends the session exactly if it began past the deadline; within a second of the last one it is not recorded, and else the deadline counts from it and a notice is owed |
| Idle.TickExactly | internal/collaboration/inbound/ws/server.go:303-349 | in every run a tick ends the session exactly if the last interaction is as long ago as the tier allows |
| Idle.PeerSession.constructor | internal/collaboration/inbound/ws/protocol.go:215-242 | a session that becomes ready has sent a valid notice |
| Idle.PeerSession.CheckAccess | internal/collaboration/inbound/ws/server.go:269-283 | the access record and the timer change together, or the session ends |
| Idle.PeerSession.ActivityNotice | internal/collaboration/inbound/ws/protocol.go:303-322 | refused, throttled or recorded |
| Idle.PeerSession.IdleNotice | internal/collaboration/inbound/ws/protocol.go:280-301 | a notice that does not validate ends the session |
| NoteRemapLines.RemapNote | app/transfer/service/archive.go:211-290 | the loop over lines with its field, fence and prose buffer computes the renaming of the note's structural references |
| NoteRemapLines.Flush | app/transfer/service/archive.go:218-241 | the loop over code spans renames the text around them and copies them |
| NoteRemap.RemapIdentity | app/transfer/service/archive.go:211-290 | the identity renaming returns the body unchanged |
| NoteRemap.RemapFusion | app/transfer/service/archive.go:211-290 | renaming by f and then by g is renaming by g after f, for every f that keeps the shape of references and every g |
| NoteRemap.NoteStable | app/transfer/service/archive.go:211-290 | a renamed note has the same literal text in the same places, and its structural references are exactly the images of the original ones, in order |
| NoteRemap.RemapChangesReferencesOnly | app/transfer/service/archive.go:211-290 | the length is kept, and every change is within the 27 characters of a reference |
| NoteRemapLines.CodeAndFieldsUnchanged | app/transfer/service/archive.go:244-286 | fenced lines, fences, rules and frontmatter fields other than pages and elements keep each line |
| NoteRemapLines.InlineCodeUnchanged | app/transfer/service/archive.go:218-238 | inline code keeps its text |
| NoteRemapLines.ProseIsRenamedAsAWhole | app/transfer/service/archive.go:262-284 | prose between fences is renamed as one text, so a tag may span lines |
| NoteRenamed.RemapExactly | app/transfer/service/archive.go:211-290 | by position, for every note: the 31 characters from each of the note's places on are the new identifier of those that stood there, and every other character is as it was. The places are the leftmost references of lines of the two frontmatter fields, and the page attributes of Shape tags in prose outside inline code |
| NoteRenamed.FieldLineRenamed | app/transfer/service/archive.go:252-258 | a line of the fields `pages` or `elements`, told by the line that started the field, has exactly its leftmost references renamed |
| NoteRenamed.StretchRenamed | app/transfer/service/archive.go:218-284 | a stretch of prose, from where prose starts to the next fence or the end, has exactly the page attributes of its Shape tags outside inline code renamed |
| NoteRenamed.LineKinds | app/transfer/service/archive.go:244-286 | every line outside these is kept |
| NotePlaces.LineRenamed | app/transfer/service/archive.go:212-212 | in a line, a reference is renamed exactly if no reference that is renamed overlaps it from the left |
| NotePlaces.TextRenamed | app/transfer/service/archive.go:213-225 | in a text, the identifier of a page attribute is renamed exactly if a Shape tag opens before it and no closing bracket stands between, and one follows |
| NotePlaces.ProseRenamed | app/transfer/service/archive.go:226-242 | in prose the same, if no inline code stands in the tag |
| NoteRenamed.MarkerExactly | app/transfer/service/archive.go:266-266 | a line opens or closes a fence exactly if it starts, behind white space, with three backticks or tildes |
| NoteRenamed.ClosesExactly | app/transfer/service/archive.go:269-273 | and closes an open one exactly if it does so with the same character |
| NoteRenamed.RuleExactly | app/transfer/service/archive.go:221-250 | a rule is a line of three hyphens and otherwise white space |
| NoteRenamed.LinesExactly | app/transfer/service/archive.go:220-220 | the lines of a note are its text, cut behind every line feed |
| NoteCheck.ValidateNote | internal/document/model/scene.go:378-416 | the loop over lines and the two searches accept exactly the valid notes |
| NoteCheck.ValidNoteRemapped | app/transfer/service/archive.go:180-182 | a valid note stays valid when its page references are renamed to valid identifiers |
| NoteChecked.ValidNoteExactly | internal/document/model/scene.go:378-416 | a note is valid exactly if it has at most 1 MiB and no null character, and in its lines outside fences, without their inline code, every component is a Shape or an Embed and the last page of every Shape tag that no earlier match reaches is an identifier; all told by position |
| NoteChecked.VisibleExactly | internal/document/model/scene.go:378-402 | what is looked at are the lines outside fences, told by where fences open and close, without the characters in inline code |
| NoteChecked.CheckedExactly | internal/document/model/scene.go:374-374 | what is checked of a Shape tag is the value of its last page attribute before a closing bracket, up to the next quote |
| SnapshotCheck.CheckOrder | internal/document/model/document.go:95-105 | the order loop accepts exactly the lists that have every key once and nothing else |
| SnapshotCheck.WalkUp | internal/document/model/document.go:132-143 | the walk to the parents, with its visited set, succeeds only if it reaches the root, and fails only if the hierarchy is not closed or has a cycle |
| SnapshotCheck.WalksDecide | internal/document/model/document.go:127-144 | all walks end exactly if every parent exists and depths can be given that grow from parent to child |
| SnapshotCheck.CheckFolders | internal/document/model/document.go:127-144 | the folder loop accepts exactly the closed acyclic hierarchies of valid folders |
| SnapshotCheck.CheckScene | internal/document/model/scene.go:14-136 | the element order is a permutation, deleted images need no file, files match the scope |
| SnapshotCheck.CheckPages | internal/document/model/document.go:107-115 | exactly the valid pages pass |
| SnapshotCheck.CheckNotes | internal/document/model/document.go:117-125 | exactly the valid notes pass |
| SnapshotCheck.Validate | internal/document/model/document.go:90-157 | the whole check accepts exactly the valid documents |
| Premium.NothingInserted | internal/document/model/premium.go:28-67 | a change accepted without the right to insert adds no live premium occurrence |
| Premium.OccurrencesNeverGrow | internal/document/model/premium.go:28-67 | along any run of such changes the premium occurrences never grow |
| Premium.ProvenanceKept | internal/document/model/premium.go:42-48 | in any accepted change a live element whose predecessor had a catalog identifier keeps it |
| Premium.ProvenanceKeptOverRun | internal/document/model/premium.go:42-48 | over any run of accepted changes it keeps it as long as it lives |
| Premium.RightNeededExactly | internal/document/model/premium.go:57-62 | a change acceptable with the right is acceptable without it exactly if every premium occurrence was there before |
| Premium.TakingAwayIsAccepted | internal/document/model/premium.go:28-67 | once a document was accepted, leaving it as it is or taking elements away never needs the right |
| Premium.FirstVersionExactly | internal/document/model/premium.go:28-67 | a first version is accepted with the right exactly if its live elements carry known catalog identifiers or none and its catalog vector graphics have the pinned bytes; without it, if besides none of them is premium |
| Renaming.RenamedValid | app/transfer/service/archive.go:167-196 | renaming pages, order, files, notes, folders and assignments by distinct valid names gives a valid document again |
| Renaming.AcyclicKept | app/transfer/service/archive.go:184-192 | the renamed folder tree has no cycle |
| Renaming.NotesKept | app/transfer/service/archive.go:180-182 | the renamed notes are valid |
| Renaming.OrderKept | app/transfer/service/archive.go:167-178 | the renamed page order is a permutation of the renamed pages |
| Renaming.PagesInPlace | app/transfer/service/archive.go:167-178 | page i of the order becomes the new name of page i, with its name, elements, order and view as they were and its files referring to the new assets |
| Renaming.FoldersInPlace | app/transfer/service/archive.go:184-192 | each folder stands under its new name, with the new name of its parent |
| Renaming.NotesInPlace | app/transfer/service/archive.go:180-196 | each note stands under its new name with the new page identifiers at its places, and each assignment of a note under its new name |
| Renaming.NoteUndone | app/transfer/service/archive.go:180-182 | renaming a note and renaming it back gives the note |
| Renaming.RenamedUndone | app/transfer/service/archive.go:167-196 | the renamed document, renamed back, is the original: page order, elements, files, folder tree, notes and assignments |
| Transfer.CheckMedia | app/transfer/service/archive.go:83-92 | the loop over the assets in any order accepts exactly valid media |
| Transfer.DecodeImport | app/transfer/service/archive.go:63-99 | an archive is accepted exactly if it is within the limits, its media are valid and its document is valid for them |
| Transfer.ImportKeepsValidity | app/transfer/service/archive.go:113-206 | an accepted archive becomes a valid document; its import is denied exactly if its premium content is not permitted, and else invalid exactly if the codec refuses that document |
| Transfer.TooMuchTextIsRefused | app/transfer/service/archive.go:203-206 | an accepted archive whose notes hold more than the codec's 16 MiB is always refused at import |
| TransferBulk.AcceptedButRefused | app/transfer/service/archive.go:63-206 | the failure is real: an archive of seventeen notes of 1 MiB is accepted, and every import of it is found invalid |
| Transfer.UnentitledImport | app/transfer/service/archive.go:198-201 | without the right to insert, an import is let through exactly if the imported document has no premium occurrence |
| Transfer.CatalogAssetsStayPremium | app/transfer/service/archive.go:133-148 | an asset shown as a catalog occurrence, or with catalog bytes, is premium in the plan whatever the archive calls it |
| Transfer.PremiumExactly | app/transfer/service/archive.go:133-165 | exactly which assets are premium in the plan: as an earlier pass committed, and otherwise those with catalog bytes, those shown under a catalog identifier pinned to their bytes, and those of an element with a catalog identifier unless they are vector graphics |
| Transfer.ReplayPlansTheSame | app/transfer/service/archive.go:113-165 | a second plan of the same archive has the same objects and document, whatever premium flags were committed in between |
| Transfer.ExportIsImportable | app/transfer/service/archive.go:358-446 | an export is accepted for import exactly if assets were included, where there are any, and each is valid media |
| Transfer.ExportHolds | app/transfer/service/archive.go:358-446 | what an export is read as: the document, with exactly the referenced assets where assets are included, each with its upload's media type and the bytes stored under its identifier |
| Transfer.ExportedExactly | app/transfer/service/archive.go:358-446 | there is an export exactly with at most 100 referenced assets, and if they are included at most 48 MB of them, all readable, and at most 64 MB in all |
| Transfer.TotalSplits | app/transfer/service/archive.go:372-384 | what is counted against the 48 MB: the sizes of the referenced uploads, added up in any grouping |
| Transfer.MediaExactly | app/transfer/service/archive.go:101-111 | media are valid exactly if they are what an upload of their size, digest and media type has to be |
| Transfer.SoundExportIsImportable | app/transfer/service/archive.go:358-446 | with sound storage, that is objects of the size, digest and media type of their uploads, whatever is exported with its assets, or refers to none, is accepted for import |
| Transfer.ExportedButRefused | app/transfer/service/archive.go:358-446 | the exception is real: a page with a picture, exported without assets, is refused on import |
| Transfer.ExportThenImport | app/transfer/service/archive.go:63-206 | with sound storage, exported with assets, imported and renamed back, a document is the original; the import is planned exactly if it is permitted and the codec holds it |
| TransferPlan.ShownIn | app/transfer/service/archive.go:138-147 | whether a scene shows the asset as a catalog occurrence |
| TransferPlan.MarkPremium | app/transfer/service/archive.go:138-148 | the loops over pages and elements in any order decide the premium flag |
| TransferPlan.PlanObjects | app/transfer/service/archive.go:133-165 | one object per asset, each once, with the prepared flag where there is one, in whatever order |
| TransferPlan.RenamePages | app/transfer/service/archive.go:167-178 | the loop over the page order fills the renamed pages and their order |
| TransferPlan.Rekey | app/transfer/service/archive.go:180-196 | the loops over notes, folders and assignments give each entry its new key, in any order |
| TransferPlan.ImportPlan | app/transfer/service/archive.go:113-206 | the plan is the renamed document and one object for each asset, or a denial, or invalid where the codec refuses |
| TransferPlan.CollectReferences | app/transfer/service/archive.go:365-371 | the set of referenced assets |
| TransferPlan.ExportPlan | app/transfer/service/archive.go:358-446 | every limit and the archive written |
| Storage.KeysAreDistinct | internal/asset/infra/s3/storage.go:61-68 | different assets, digests or stages have different keys |
| Storage.Bucket.constructor | internal/asset/infra/s3/storage.go:44-53 | an empty bucket is honest |
| Storage.Bucket.Read | internal/asset/infra/s3/storage.go:80-106 | only verified content is returned, and only an absent object is reported missing |
| Storage.Bucket.Put | internal/asset/infra/s3/storage.go:108-138 | for every failure: the object is as before or newly holds the given verified bytes; nothing is overwritten; every object hashes to its key |
| Storage.Bucket.Stage | internal/asset/infra/s3/storage.go:141-143 | the same for the staged object |
| Storage.Bucket.RemoveKey | internal/asset/infra/s3/storage.go:170-191 | success means the object is absent |
| Storage.Bucket.Finalize | internal/asset/infra/s3/storage.go:146-163 | success means a verified final object and no staged one; a final object that is there is kept; only the two keys change |
| Storage.Bucket.Remove | internal/asset/infra/s3/storage.go:194-223 | only keys of the asset are removed; success means none is left; without failures it succeeds exactly up to 200 keys and removes up to 300 |
| TransferRun.PublishOne | app/transfer/service/transfer.go:151-158 | staging and finalizing one object changes only its two keys |
| TransferRun.Publish | app/transfer/service/transfer.go:151-159 | whatever fails, only the plans' keys change; success publishes all; without failures there is success |
| TransferRun.RecoveryConverges | app/transfer/service/transfer.go:134-162 | after any number of interrupted runs, one that succeeds leaves exactly what a single undisturbed run would have left |
| TransferRun.CompleteCopies | app/transfer/service/transfer.go:127-132 | a plan has a copy of every asset, whatever its order and flags |
| TransferRun.RunImport | app/transfer/service/transfer.go:112-163 | exactly when the run is denied, found invalid or complete: it completes if both passes are permitted, the codec holds the document and no operation of the bucket fails; success publishes exactly the objects of the plan committed first, and its document; a denied or invalid import writes nothing |
| BoardDb.Database.constructor | internal/board/infra/db/board.go:13-18 | empty tables satisfy the invariant |
| BoardDb.Database.LockProject | internal/board/infra/db/project.go:90-112 | the lock is granted only on a live project of the workspace with the expected revision; otherwise the transaction ends |
| BoardDb.Database.LockBoard | internal/board/infra/db/board.go:132-149 | the lock is granted only on a live board of the workspace with the expected revision and an open status |
| BoardDb.Database.BoardExists | internal/board/infra/db/project.go:147-154 | whether a live board of the workspace is in the project |
| BoardTx.EmptyEverywhere | internal/board/infra/db/project.go:147-154 | a project without live boards of its own workspace has none of any workspace |
| BoardDb.Database.WriteRow | internal/board/infra/db/board.go:173-194 | the write of each operation, computed from the latest version of the locked row; the invariant holds afterwards |
| BoardDb.Database.CommitRow | internal/board/infra/db/board.go:196-226 | the write becomes visible and the locks are released; the invariant holds afterwards |
| BoardDb.Database.Statement | internal/board/infra/db/board.go:20-66 | the next statement of a transaction, or a wait for a lock that another one holds; the invariant holds afterwards |
| BoardDb.Database.MustWait | internal/board/infra/db/board.go:132-138 | a transaction waits exactly if another one holds the row it locks next |
| BoardDb.Database.Open | internal/board/infra/db/board.go:34-46 | a transaction begins; the invariant holds afterwards |
| BoardDb.Database.Abort | internal/board/infra/db/board.go:39-62 | a transaction ends without effect; the invariant holds afterwards |
| BoardTx.NextKeeps | internal/board/infra/db/project.go:99-171 | every statement, commit and rollback of any transaction keeps the invariant |
| BoardTx.ProjectsOfLiveBoards | internal/board/infra/db/board.go:20-66 | under every schedule no live board refers to a missing, deleted or foreign project |
| BoardTx.NoRevisionCommitsTwice | internal/board/infra/db/board.go:140-142 | under every schedule no two transactions that expected the same revision of a row both commit |
| BoardTx.NoLostUpdate | internal/board/infra/db/board.go:164-194 | under every schedule a commit changes one row, from its latest committed version at the expected revision, in exactly the fields the operation supplies |
| BoardAlone.AloneGoesThrough | internal/board/infra/db/board.go:20-226 | from any tables, an operation that runs alone ends after five statements; it has done exactly what it says if the rows were as it expects (live, of the workspace, at the revision, in an open status, and no live board of the workspace in a project to be deleted), and otherwise the tables are as they were |
| BoardAlone.GivesUpExactly | internal/board/infra/db/project.go:99-171 | under every schedule, a statement that need not wait gives its transaction up exactly if a row is not as expected, never at the update |
| BoardAlone.CommitsNext | internal/board/infra/db/board.go:39-62 | under every schedule a transaction that has written commits as soon as it goes on |
| BoardTx.UpdatesUnderLockMatch | internal/board/infra/db/board.go:182-194 | under every schedule the update after the lock matches its row, so the not-found branch is not taken |
| BoardTx.DeletingIsFinal | internal/board/infra/db/board.go:200-226 | a board marked for deletion never changes again |
| BoardTx.ProjectDeletionIsFinal | internal/board/infra/db/project.go:132-171 | a deleted project never changes again |
| BoardTx.NoCyclicWait | internal/board/infra/db/board.go:157-164 | under every schedule no cycle of transactions waits for each other |
| BoardTx.NoDeadlock | internal/board/infra/db/board.go:157-164 | under every schedule some open transaction need not wait |
| Pagination.AnswerIsPrefix | internal/board/infra/db/rows.go:79-85 | whatever computes it, an answer to the keyset query is the beginning of the ordered rows behind the position |
| Pagination.List | internal/board/infra/db/board.go:86-130 | a limit out of range is refused and none is 50; the page loop gives the rows behind the position up to the limit, and a next position exactly if more follow |
| Pagination.ListActive | app/board_management/service/board.go:116-142 | the loop gives the views of the active boards of a page, in order, or fails if one cannot be loaded |
| Pagination.WalkShowsEveryBoard | internal/board/infra/db/board.go:108-118 | for every limit from 1 to 100, following the next positions on an unchanging table ends and shows exactly the active boards, each once and in order, in as many pages as the rows need |
| Pagination.EmptyPageIsNotTheLast | app/board_management/service/board.go:126-141 | a page may show nothing although a later one has boards |
| Pagination.BoardTokensReturn | app/board_management/inbound/api/handler.go:405-446 | every cursor of a board listing is made and read back |
| Pagination.ClientSeesEveryBoard | app/board_management/inbound/api/handler.go:366-446 | so the same walk through signed tokens shows exactly the active boards |
| Base64Url.DecodeEncode | pkg/cursor/cursor.go:94-116 | unpadded base64url is undone by its decoder, for all bytes |
| Base64Url.DecodedExactly | pkg/cursor/cursor.go:109-116 | exactly which texts are decoded; what they are decoded to is encoded as the same text but for line breaks and, in a partial group, the last character |
| Cursor.CursorIssued | pkg/cursor/cursor.go:75-97 | a valid position of a valid scope gets a cursor exactly if its year has four digits |
| Cursor.CursorReadUnder | pkg/cursor/cursor.go:75-139 | exactly which scope an issued cursor is read under: its own with the stray bytes of the filter replaced by U+FFFD, if that is valid and the payload, whose length is given by the texts and the time, has at most 3039 bytes |
| Utf8.MendedIsSame | pkg/cursor/cursor.go:83-93 | writing bytes as JSON and reading them changes nothing exactly if they are valid UTF-8 |
| Cursor.CursorRoundTrip | pkg/cursor/cursor.go:75-139 | an issued cursor is read back exactly if the payload has at most 3039 bytes and the filter is valid UTF-8 |
| Cursor.ShortFiltersAreRead | pkg/cursor/cursor.go:75-139 | with a filter of at most 462 bytes a cursor is read back exactly if the filter is valid UTF-8 |
| Cursor.CommentCursorExactly | app/discussion/inbound/api/handler.go:97-124 | in the listing of comments, exactly which bytes of status, valid or not, make the server refuse its own cursor |
| Cursor.IssuedButRefused | app/discussion/inbound/api/handler.go:97-187 | the failure is real: with a status of 479 brackets the next cursor is issued but refused |
| Cursor.StrayByteIsRefused | app/discussion/inbound/api/handler.go:97-187 | so it is with a status of the one byte 0xFF, and that cursor is read under the status U+FFFD instead |
| Cursor.CursorBoundToScope | pkg/cursor/cursor.go:134-136 | no token is good for two scopes |
| Cursor.OnlySignedIsRead | pkg/cursor/cursor.go:118-138 | whatever is read was signed with the key, for this scope and position |
| Cursor.ReadExactly | pkg/cursor/cursor.go:99-139 | exactly which tokens are read for a scope, and as what: a dot between a payload of that scope with a valid position and its code under a key of at least 32 bytes, in at most 4096 bytes |

## Left out

- SnapshotCheck.CheckScene: an element's native fields, geometry and custom data and a scene's view settings are parameters of the check.
- SnapshotCheck.CheckPages: the form of a page's name is a parameter, like the element and view checks of its scene.
- SnapshotCheck.Validate: takes the same element, view-setting and name checks as parameters.
- Transfer.DecodeImport: the native Excalidraw format is not modelled.
- TransferPlan.ExportPlan: the native Excalidraw format is not modelled.
- TransferPlan.ImportPlan: the codec's verdict on a document is a parameter and the same in every pass; the code encodes anew in each, and near its limits the size of the state may differ.
- TransferRun.RunImport: the job's lease and retries and the database functions that commit the plan and publish the document are not modelled; both passes read the same source.
- CollabServer.Server.Configure: the list of allowed origins and the backends are not modelled.
- Idle.PeerSession.CheckAccess: an access check that is refused, a notice of changed capabilities and a failed write end the session too and are not modelled.
- Relay clock readings: an operation of the relay reads its clock more than once while it holds the lock; the model takes one reading for all of them.
- Relay records: rooms and peers of the relay and of the collaboration server are values in maps, keyed by identifier, rather than pointers shared between maps.
- Secrets: identifiers, tokens and invites are parameters assumed to be new, a digest stands for the secret it was made from, and a failing random source is not modelled.
- Reads by a socket happen between locked operations, and inside an offer.
- JSON: whether bytes are well-formed JSON, and the reading and writing of archives and cursor payloads, are parameters, of which the length of a written cursor payload is known; an absent collection of a document and an empty one are not told apart. The texts of documents and notes are sequences of code points, which is all that the source lets in there; a cursor's filter is bytes, valid UTF-8 or not.
- A cursor token whose own bytes are not UTF-8 is refused by its decoding and is not modelled.
- Presence on the client's side: a client is taken to show the last frame of an ID; whether it compares clocks when another member takes over an ID is its own affair.
- The CRDT codec: in the collaboration protocol a state is the set of operations it holds; an update the codec rejects is an outcome of the commit.
- Access checks, socket writes and timeouts of the collaboration server are outcomes that a step is given; an access check that fails ends its socket in the same step.
- Awareness frames: a message that cannot be decoded is one whose entries run out or that is too long.
- Derived identifiers: an import's names are assumed valid, and distinct for the identifiers of the archive at hand, as a hash makes them; TransferRun.RecoveryConverges likewise assumes that no other bytes have the digest of a planned object.
- The job lifecycle around an export run.
- The bucket's listing is assumed to return only keys under the prefix it was asked for, so the check of each listed key is not modelled; transport checksums and content types are not modelled.
- Boards that finish initializing, and boards that a cleanup job removes: both are done by database functions that are not part of this model.
- Unique identifiers of new rows: an insert under an identifier in use ends the transaction at once instead of waiting for the other insert.
- Ordering of identifiers in a listing is by code points; the database's collation may differ.
- HTTP handlers, WebSocket upgrades, access policy, field validation of boards and workspaces, billing, quotas, invitations, discussions and startup wiring.
