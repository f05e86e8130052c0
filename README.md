# Reels battle: session state machine

A Dafny model of the client-side core of a two-sharer "battle" room. Participants
join a room by code and choose a role, sharer or watcher. When the lobby has at least
two sharers and one watcher, someone starts a round. That picks two sharers at
random. Each picked sharer opens a peer media connection to the other listed sharer
by an offer/answer/ICE-candidate exchange. Watchers vote A or B.

All coordination goes through a pub/sub relay. The model covers what one participant's
page does with each relay event and each user action:

- `Lobby` (src/components/BattleLobby.tsx): the sharer and watcher counters and the
  readiness condition that enables "Start Round".
- `Players`: the last-write-wins merge of `lobbyUpdate` payloads into the role map.
- `FisherYates`: the `shuffle` helper. The loop works on an array. `Math.random` is
  replaced by a sequence of draws in [0, 1).
- `Round`: `startRound`'s sharer pool and the two ids it picks.
- `Routing`: how `roundStart` moves the screen (step).
- `Votes`: the tally of `newVote` events.
- `PeerLinks`: the connection table `pcs`, keyed by remote id, and the offers `startShare` sends.
- `Session`: class `Page`, whose fields are the page's state (`step`, `room`, `players`,
  `role`, `sharers`, `streams`, `votes`, `pcs`). It has one method per relay event,
  user action and connection callback. Every `sendEvent` call appends a `Post` to the
  `outbox` field. `Page.Valid()` is the object invariant: the join screen has no room
  yet, a stream is recorded only for a peer with a connection, and every connection's
  peer has been sent an offer or an answer.

The local participant id (`socketId`) is a parameter of every handler. Where the code
reads the order of a record (`Object.values`, `Object.entries`), an `order` parameter
lists the record's keys once each.

## Model

| member | source | states |
|---|---|---|
| Lobby.Values | src/components/BattleLobby.tsx:9-10 | `Object.values` gives one value per entry, namely the entry's role, in visiting order |
| Lobby.CountIsHolders | src/components/BattleLobby.tsx:9-10 | a counter (values filtered by role, then counted) equals the number of ids holding that role, whatever the visiting order |
| Lobby.CountsWithinPlayers | src/components/BattleLobby.tsx:9-10 | sharerCount + watcherCount is at most the number of entries; `null` entries count towards neither |
| Lobby.SharerCount | src/components/BattleLobby.tsx:9 | sharerCount is the number of ids whose role is sharer, whatever the visiting order |
| Lobby.WatcherCount | src/components/BattleLobby.tsx:10 | watcherCount is the number of ids whose role is watcher, whatever the visiting order |
| Lobby.Ready | src/components/BattleLobby.tsx:11 | ready holds iff at least two entries are sharers and at least one is a watcher |
| Players.Merge | src/app/page.tsx:36 | the merged map has exactly the old ids plus the update's ids; ids in the update take its role; every other id keeps its role |
| Players.ApplyLobbyUpdate | src/app/page.tsx:34-37 | a payload without `players` changes nothing; otherwise the map is merged, and no id is ever removed |
| Players.MergeAll | src/app/page.tsx:33-38 | after any sequence of lobbyUpdates, every id known before is still present |
| Players.MergeIdempotent | src/app/page.tsx:36 | applying the same update twice gives the same map as applying it once |
| Players.MergeCommutes | src/app/page.tsx:36 | two updates that agree on their shared ids commute |
| Players.MergeAllLastWins | src/app/page.tsx:33-38 | an id holds the role carried by the last update that mentions it |
| Players.MergeAllUntouched | src/app/page.tsx:33-38 | an id no update mentions keeps its role, or stays absent |
| Players.OrderIrrelevant | src/app/page.tsx:33-38 | mutually consistent updates give the same map in any delivery order |
| Players.AnnouncementsInAnyOrder | src/app/page.tsx:33-38 | {p1: sharer}, {p2: watcher}, {p1: sharer} in any order give {p1: sharer, p2: watcher} |
| FisherYates.SwapIndexInRange | src/app/page.tsx:211 | each swap partner `Math.floor(Math.random() * (i + 1))` lies in 0..i |
| FisherYates.Shuffle | src/app/page.tsx:208-215 | the loop over a copied array returns `Shuffled(arr, draws)`: same length, same multiset; the input is left as it was |
| FisherYates.ShuffledPermutes | src/app/page.tsx:208-215 | the shuffle's result is a permutation of its input |
| FisherYates.ShuffledKeepsDistinct | src/app/page.tsx:208-215 | shuffling a list without repeats gives a list without repeats |
| Round.SharerPool | src/app/page.tsx:126-128 | the pool lists only ids whose role is sharer and is no longer than the record |
| Round.PoolIsSharers | src/app/page.tsx:126-128 | the pool holds every sharer exactly once, so its length is the lobby's sharerCount |
| Round.SelectSharers | src/app/page.tsx:125-130 | in a ready lobby, the two ids picked are distinct sharers: the first two of the shuffled pool |
| Routing.RouteStep | src/app/page.tsx:45-49 | a listed sharer goes to share; a watcher goes to watch; an unlisted sharer or a participant without a role keeps its step |
| Routing.RoundMovesSelected | src/app/page.tsx:41-50 | across a lobby, a roundStart naming sharers sends exactly those to share, every watcher to watch, and leaves everyone else in the lobby |
| Votes.Add | src/app/page.tsx:95 | the named counter grows by exactly one; the other is unchanged |
| Votes.TallyEventsCounts | src/app/page.tsx:93-96 | after any event sequence, each counter has grown by the number of votes for its side |
| Votes.TallyOrderIrrelevant | src/app/page.tsx:93-96 | the tally does not depend on vote order or on the events interleaved with the votes |
| Votes.ThreeVotes | src/app/page.tsx:93-96 | votes A, B, A in any order, mixed with any other events, give A: 2, B: 1 |
| Votes.TallyEventsGrows | src/app/page.tsx:93-96 | counters never decrease |
| PeerLinks.ApplyAnswer | src/app/page.tsx:82 | fails iff there is no entry for the sender; otherwise only that entry's remote description changes |
| PeerLinks.ApplyCandidate | src/app/page.tsx:89 | fails iff there is no entry for the sender; otherwise only that entry gains the candidate, at the end |
| PeerLinks.ShareLinksCover | src/app/page.tsx:135-138 | startShare creates an offering connection for every listed sharer except the local id and for no other id; other entries stay as they were |
| PeerLinks.OfferPostsAddressed | src/app/page.tsx:135-145 | every offer goes from the local id to a listed sharer other than itself; each such sharer gets one; one offer per listed entry that is not the local id |
| Session.JoinAnnouncement | src/app/page.tsx:112-115 | the join announcement records the joiner with no role, on the room joined; for a non-empty code the bridge forwards it |
| Session.JoinAnnouncementAsWritten | src/app/page.tsx:112-115 | the deferred announcement records the joiner with no role, on the room of the render that scheduled it; on the empty room the bridge refuses it |
| Session.JoinAnnouncementLost | src/app/page.tsx:112-115 | as written, the announcement goes out on the empty channel that the join screen's render holds, and the bridge refuses it |
| Session.Page.constructor | src/app/page.tsx:14-20 | a new page is on the join step with empty state and no connections |
| Session.Page.HandleJoin | src/app/page.tsx:108-116 | from the join screen (room still empty), join sets the room, shows role selection, records the local id without a role, and posts the announcement on the join screen's empty room, where the bridge refuses it |
| Session.Page.HandleRole | src/app/page.tsx:118-123 | records the role locally and in the map, publishes it on the room, and moves to the lobby |
| Session.Page.OnLobbyUpdate | src/app/page.tsx:33-38 | the role map becomes the merge of the payload into it; nothing else changes |
| Session.Page.OnRoundStart | src/app/page.tsx:41-50 | sharers becomes the message's list and the step is routed by `RouteStep`; nothing else changes |
| Session.Page.OnOffer | src/app/page.tsx:56-76 | an offer for another id changes nothing; one for the local id replaces the sender's entry with an answering connection and publishes exactly one answer to the sender |
| Session.Page.OnAnswer | src/app/page.tsx:79-83 | an answer for another id changes nothing; one for the local id updates the sender's existing entry, or fails with NoLink and changes nothing |
| Session.Page.OnIceCandidate | src/app/page.tsx:86-90 | the same for candidates: only the sender's existing entry changes, else NoLink |
| Session.Page.OnTrack | src/app/page.tsx:63 | an answering connection records its stream under the peer's id; an offering connection records none |
| Session.Page.OnLocalCandidate | src/app/page.tsx:64-68 | a discovered candidate is published at once to the connection's peer, from the id the callback captured; the end signal publishes nothing |
| Session.Page.OnNewVote | src/app/page.tsx:93-96 | the tally gains one vote for the named side; nothing else changes |
| Session.Page.StartRound | src/app/page.tsx:125-131 | in a ready lobby, publishes one roundStart naming two distinct sharers of the room; local state changes only when it comes back |
| Session.Page.StartShare | src/app/page.tsx:133-147 | once capture is granted, the table and outbox are extended exactly by `ShareLinks` and `OfferPosts`; if capture is refused nothing changes |
| Session.Page.CastVote | src/app/page.tsx:149-151 | publishes one vote and leaves the tally alone |

## Left out

- src/hooks/usePusher.ts is not part of this model. Relay delivery is a sequence of discrete handler calls. The hook keeps only the latest payload per event name, so bursts coalesce; that and message loss are not modelled.
- The effects also re-run when their other dependencies change, replaying the last payload: `roundStart` on `role` or `socketId`, and `offer`, `answer` and `iceCandidate` on `socketId` (src/app/page.tsx:50, 76, 83, 90). Not modelled: each handler call is one delivery.
- src/app/api/event/route.ts is not part of this model. Only its refusal of an empty channel appears, as `Signals.Forwarded`, for the finding below.
- WebRTC and media: connections are `PeerLinks.Link` values. SDP descriptions, candidates and streams are opaque tokens. Track attachment and the STUN configuration are not modelled.
- Session.Page.OnOffer: the handler's awaits (`setRemoteDescription`, `createAnswer`, `setLocalDescription`, `sendEvent`) happen in one step, with the generated answer as a parameter. Events interleaved between the awaits and failures of these calls are not modelled.
- Session.Page.OnTrack: callbacks of a connection that has since been replaced in `pcs` are attributed to the current entry for that peer.
- Session.Page.OnLocalCandidate: as for OnTrack, the callback is attributed to the current entry for its peer.
- Session.Page.StartShare: the loop runs as one step. Events handled between its awaits, and a failed `sendEvent` that would stop the loop, are not modelled. Display capture is a boolean parameter, and each created offer is an entry of `offers`.
- Session.Page.HandleRole: a failed `sendEvent` would leave the step on role selection. The model always moves to the lobby because relay and HTTP failures are not modelled.
- Session.Page.HandleJoin: the `setTimeout(…, 0)` delay is not modelled. The announcement is made in the same step, with the `socketId` given at call time (possibly empty). The channel is the join screen's room, as the captured `sendEvent` has it.
- Session.Page.OnAnswer: `NoLink` stands for the uncaught TypeError that `pcs.current[a.from]` on a missing entry throws inside the effect. With no error boundary (src/app/layout.tsx:10-16) that error tears the page down; the model only reports the failure and keeps the state.
- Session.Page.OnIceCandidate: the same as OnAnswer for `pcs.current[c.from]` on a missing entry.
- FisherYates.Shuffle: `Math.random` is a sequence of draws in [0, 1). That the selection is uniform is a probabilistic property and is not proved.
- Votes: a `which` other than A or B cannot be expressed. The source types it as `'A' | 'B'`.
- UI: the render branches of src/app/page.tsx:154-204, JoinRoom, RoleSelection and the layout are not modelled. The only UI fact used is that "Start Round" is disabled unless the lobby is ready (src/components/BattleLobby.tsx:23-24), which is the readiness precondition of `Session.Page.StartRound`.
- The join screen's six-character code guard and its CSS-only upper-casing are not modelled.

## Findings

| source | as written | input that shows it | evidently intended | confidence | as-written member | corrected member |
|---|---|---|---|---|---|---|
| src/app/page.tsx:112-115 | The deferred announcement calls the `sendEvent` captured by the render that showed the join screen. That render's room is still `''`, so the post's channel is empty and the relay bridge answers 400 (src/app/api/event/route.ts:15). | a fresh page joins "ABC123": the lobbyUpdate for the joiner is posted with channel `""` and is never relayed | post the announcement on the room just joined | not executed; high (closure semantics of the component) | Session.JoinAnnouncementAsWritten, Session.JoinAnnouncementLost, Session.Page.HandleJoin | Session.JoinAnnouncement |
