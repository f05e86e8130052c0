/** The six kinds of message a room's participants exchange over the relay, and the
    posts a participant makes to the relay bridge (src/app/page.tsx). */
module Signals {
  import opened Wrappers
  import opened Lobby

  /** An SDP session description; its contents belong to the peer transport. */
  type Sdp = string

  /** An ICE candidate, equally opaque. */
  type Candidate = string

  /** The two sides a watcher can vote for. */
  datatype Choice = A | B

  /** One message on a room's channel, named after the event it is bound to. */
  datatype Event =
    | LobbyUpdate(players: Option<PlayersMap>)
    | RoundStart(sharerIds: seq<Id>)
    | Offer(to: Id, from: Id, sdp: Sdp)
    | Answer(to: Id, from: Id, sdp: Sdp)
    | IceCandidate(to: Id, from: Id, candidate: Candidate)
    | NewVote(which: Choice)

  /** One call of `sendEvent`: the event posted on `channel`. */
  datatype Post = Post(channel: string, event: Event)

  /** The relay bridge forwards a post only when its channel is non-empty (an empty
      string is falsy); every event name the client posts is non-empty. */
  predicate Forwarded(p: Post) {
    p.channel != ""
  }
}
