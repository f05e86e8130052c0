/** The session state machine of the battle page (src/app/page.tsx): one participant's
    view of its room, updated by relay events and by the participant's own actions.
    The local participant id (`socketId`) is a parameter of every handler, as each
    handler reads it when it runs; every `sendEvent` call is an entry appended to
    `outbox`. */
module Session {
  import opened Wrappers
  import opened Lobby
  import opened Signals
  import opened Players
  import opened FisherYates
  import opened Votes
  import opened Routing
  import opened PeerLinks
  import opened Round

  /** The lobbyUpdate a join publishes: the joining id, with no role yet, on the room
      just joined. */
  function JoinAnnouncement(code: string, socketId: Id): (p: Post)
    ensures p.channel == code
    ensures p.event.LobbyUpdate? && p.event.players.Some?
    ensures p.event.players.value.Keys == {socketId} && p.event.players.value[socketId] == None
    ensures code != "" ==> Forwarded(p)
  {
    Post(code, LobbyUpdate(Some(map[socketId := None])))
  }

  /** The join announcement as the join handler's deferred callback actually posts it:
      that callback runs `sendEvent` as captured by the render that showed the join
      screen, so the channel is that render's room, not the code just joined. */
  function JoinAnnouncementAsWritten(roomAtRender: string, socketId: Id): (p: Post)
    ensures p.channel == roomAtRender
    ensures p.event == JoinAnnouncement(roomAtRender, socketId).event
    ensures roomAtRender == "" ==> !Forwarded(p)
  {
    Post(roomAtRender, LobbyUpdate(Some(map[socketId := None])))
  }

  /** The join screen's render still has the empty room, so the as-written announcement
      goes out on the empty channel, which the relay bridge refuses, while the intended
      one goes out on the room joined and is forwarded. */
  lemma JoinAnnouncementLost(code: string, socketId: Id)
    requires code != ""
    ensures JoinAnnouncementAsWritten("", socketId).channel != JoinAnnouncement(code, socketId).channel
    ensures !Forwarded(JoinAnnouncementAsWritten("", socketId))
    ensures Forwarded(JoinAnnouncement(code, socketId))
  {
  }

  /** The page component's state: its React state hooks and the `pcs` table. */
  class Page {
    var step: Step
    var room: string
    var players: PlayersMap
    var role: Option<Role>
    var sharers: seq<Id>
    var streams: map<Id, MediaStream>
    var votes: Tally
    var pcs: Links
    var outbox: seq<Post>

    /** The object invariant. The join screen is shown only before a room is set.
        Streams are only recorded for peers with a connection. No connection exists
        without an offer or answer having been published to its peer: links are never
        created speculatively, as the page's design requires. */
    ghost predicate Valid()
      reads this
    {
      && (step == Join ==> room == "")
      && streams.Keys <= pcs.Keys
      && forall id :: id in pcs ==> Signalled(outbox, id)
    }

    constructor ()
      ensures Valid()
      ensures step == Join && room == "" && players == map[] && role == None && sharers == []
      ensures streams == map[] && votes == Tally(0, 0) && pcs == map[] && outbox == []
    {
      step, room, players, role, sharers := Join, "", map[], None, [];
      streams, votes, pcs, outbox := map[], Tally(0, 0), map[], [];
    }

    /** `handleJoin`, run from the join screen: enter the room, show role selection,
        record the local id without a role and announce it. The announcement is posted
        as written, on the join screen's room, which is empty, so the relay bridge
        refuses it (see JoinAnnouncementLost). */
    method HandleJoin(code: string, socketId: Id)
      requires Valid()
      requires step == Join
      modifies this
      ensures Valid()
      ensures room == code && step == ChooseRole
      ensures players == Merge(old(players), map[socketId := None])
      ensures outbox == old(outbox) + [JoinAnnouncementAsWritten(old(room), socketId)]
      ensures !Forwarded(outbox[|outbox| - 1])
      ensures role == old(role) && sharers == old(sharers) && streams == old(streams)
      ensures votes == old(votes) && pcs == old(pcs)
    {
      var post := JoinAnnouncementAsWritten(room, socketId);
      room := code;
      step := ChooseRole;
      players := Merge(players, map[socketId := None]);
      SignalledAll(outbox, [post]);
      outbox := outbox + [post];
    }

    /** `handleRole`: record the chosen role locally and in the role map, announce it,
        and move to the lobby. */
    method HandleRole(r: Role, socketId: Id)
      requires Valid()
      modifies this
      ensures Valid()
      ensures role == Some(r) && step == InLobby
      ensures players == Merge(old(players), map[socketId := Some(r)])
      ensures outbox == old(outbox) + [Post(room, LobbyUpdate(Some(map[socketId := Some(r)])))]
      ensures room == old(room) && sharers == old(sharers) && streams == old(streams)
      ensures votes == old(votes) && pcs == old(pcs)
    {
      role := Some(r);
      players := Merge(players, map[socketId := Some(r)]);
      var post := Post(room, LobbyUpdate(Some(map[socketId := Some(r)])));
      SignalledAll(outbox, [post]);
      outbox := outbox + [post];
      step := InLobby;
    }

    /** A `lobbyUpdate` event: merge its players record into the role map. */
    method OnLobbyUpdate(payload: Option<PlayersMap>)
      requires Valid()
      modifies this
      ensures Valid()
      ensures players == ApplyLobbyUpdate(old(players), payload)
      ensures step == old(step) && room == old(room) && role == old(role) && sharers == old(sharers)
      ensures streams == old(streams) && votes == old(votes) && pcs == old(pcs) && outbox == old(outbox)
    {
      players := ApplyLobbyUpdate(players, payload);
    }

    /** A `roundStart` event: record the sharers and route this participant's screen. */
    method OnRoundStart(sharerIds: seq<Id>, socketId: Id)
      requires Valid()
      modifies this
      ensures Valid()
      ensures sharers == sharerIds
      ensures step == RouteStep(old(step), role, sharerIds, socketId)
      ensures room == old(room) && players == old(players) && role == old(role)
      ensures streams == old(streams) && votes == old(votes) && pcs == old(pcs) && outbox == old(outbox)
    {
      sharers := sharerIds;
      step := RouteStep(step, role, sharerIds, socketId);
    }

    /** An `offer` event. One addressed elsewhere is dropped. One addressed to this
        participant replaces any connection with the sender by a new answering one and
        publishes exactly one answer, back to the sender. */
    method OnOffer(to: Id, from: Id, sdp: Sdp, answer: Sdp, socketId: Id)
      requires Valid()
      modifies this
      ensures Valid()
      ensures to != socketId ==> pcs == old(pcs) && outbox == old(outbox)
      ensures to == socketId ==> pcs == old(pcs)[from := AnsweringLink(socketId, sdp, answer)]
      ensures to == socketId ==> outbox == old(outbox) + [Post(room, Answer(from, socketId, answer))]
      ensures step == old(step) && room == old(room) && players == old(players) && role == old(role)
      ensures sharers == old(sharers) && streams == old(streams) && votes == old(votes)
    {
      if to != socketId {
        return;
      }
      pcs := pcs[from := AnsweringLink(socketId, sdp, answer)];
      var post := Post(room, Answer(from, socketId, answer));
      SignalledAll(outbox, [post]);
      assert post in outbox + [post];
      outbox := outbox + [post];
    }

    /** An `answer` event. One addressed elsewhere is dropped. One addressed to this
        participant sets the remote description of the existing connection with the
        sender, and fails, changing nothing, when there is none. */
    method OnAnswer(to: Id, from: Id, sdp: Sdp, socketId: Id) returns (failure: Option<LinkError>)
      requires Valid()
      modifies this
      ensures Valid()
      ensures failure.Some? <==> to == socketId && from !in old(pcs)
      ensures failure.Some? ==> failure.value == NoLink(from)
      ensures to == socketId && from in old(pcs) ==> pcs == ApplyAnswer(old(pcs), from, sdp).value
      ensures !(to == socketId && from in old(pcs)) ==> pcs == old(pcs)
      ensures step == old(step) && room == old(room) && players == old(players) && role == old(role)
      ensures sharers == old(sharers) && streams == old(streams) && votes == old(votes) && outbox == old(outbox)
    {
      failure := None;
      if to != socketId {
        return;
      }
      match ApplyAnswer(pcs, from, sdp)
      case Ok(updated) =>
        pcs := updated;
      case Err(e) =>
        failure := Some(e);
    }

    /** An `iceCandidate` event: as for an answer, but the candidate is added to the
        existing connection with the sender. */
    method OnIceCandidate(to: Id, from: Id, c: Candidate, socketId: Id) returns (failure: Option<LinkError>)
      requires Valid()
      modifies this
      ensures Valid()
      ensures failure.Some? <==> to == socketId && from !in old(pcs)
      ensures failure.Some? ==> failure.value == NoLink(from)
      ensures to == socketId && from in old(pcs) ==> pcs == ApplyCandidate(old(pcs), from, c).value
      ensures !(to == socketId && from in old(pcs)) ==> pcs == old(pcs)
      ensures step == old(step) && room == old(room) && players == old(players) && role == old(role)
      ensures sharers == old(sharers) && streams == old(streams) && votes == old(votes) && outbox == old(outbox)
    {
      failure := None;
      if to != socketId {
        return;
      }
      match ApplyCandidate(pcs, from, c)
      case Ok(updated) =>
        pcs := updated;
      case Err(e) =>
        failure := Some(e);
    }

    /** The `ontrack` callback of the connection with `from`: only connections made by
        the offer handler register it, and it exposes the first inbound stream as the
        stream of `from`. */
    method OnTrack(from: Id, stream: MediaStream)
      requires Valid()
      requires from in pcs
      modifies this
      ensures Valid()
      ensures step == old(step) && room == old(room) && players == old(players) && role == old(role)
      ensures sharers == old(sharers) && votes == old(votes) && pcs == old(pcs) && outbox == old(outbox)
      ensures pcs[from].side == Answering ==> streams == old(streams)[from := stream]
      ensures pcs[from].side == Offering ==> streams == old(streams)
    {
      if pcs[from].side == Answering {
        streams := streams[from := stream];
      }
    }

    /** The `onicecandidate` callback of the connection with `peer`: a discovered
        candidate is published at once, addressed to `peer`, from the id the callback
        captured; the end-of-candidates signal (no candidate) publishes nothing. */
    method OnLocalCandidate(peer: Id, candidate: Option<Candidate>)
      requires Valid()
      requires peer in pcs
      modifies this
      ensures Valid()
      ensures step == old(step) && room == old(room) && players == old(players) && role == old(role)
      ensures sharers == old(sharers) && streams == old(streams) && votes == old(votes) && pcs == old(pcs)
      ensures candidate.None? ==> outbox == old(outbox)
      ensures candidate.Some? ==>
        outbox == old(outbox) + [Post(room, IceCandidate(peer, pcs[peer].self, candidate.value))]
    {
      if candidate.Some? {
        var post := Post(room, IceCandidate(peer, pcs[peer].self, candidate.value));
        SignalledAll(outbox, [post]);
        outbox := outbox + [post];
      }
    }

    /** A `newVote` event: one more vote for the side it names. */
    method OnNewVote(which: Choice)
      requires Valid()
      modifies this
      ensures Valid()
      ensures votes == Add(old(votes), which)
      ensures step == old(step) && room == old(room) && players == old(players) && role == old(role)
      ensures sharers == old(sharers) && streams == old(streams) && pcs == old(pcs) && outbox == old(outbox)
    {
      votes := Add(votes, which);
    }

    /** `startRound`, run by the lobby's button, which is enabled only when the lobby
        is ready: publish a roundStart naming the first two ids of the shuffled sharer
        pool. The local state changes only when that message comes back. */
    method StartRound(order: seq<Id>, draws: seq<real>) returns (ids: seq<Id>)
      requires Valid()
      requires step == InLobby
      requires Enumerates(order, players) && Ready(order, players)
      requires RandomDraws(draws, |order|)
      modifies this
      ensures Valid()
      ensures step == old(step) && room == old(room) && players == old(players) && role == old(role)
      ensures sharers == old(sharers) && streams == old(streams) && votes == old(votes) && pcs == old(pcs)
      ensures |ids| == 2 && ids[0] != ids[1]
      ensures forall id :: id in ids ==> id in players && players[id] == Some(Sharer)
      ensures var shuffled := Shuffled(SharerPool(order, players), draws); |shuffled| >= 2 && ids == shuffled[..2]
      ensures outbox == old(outbox) + [Post(room, RoundStart(ids))]
    {
      ids := SelectSharers(order, players, draws);
      var post := Post(room, RoundStart(ids));
      SignalledAll(outbox, [post]);
      outbox := outbox + [post];
    }

    /** `startShare`, once screen capture is granted (`captured`): for each listed
        sharer other than this participant, in list order, create an offering
        connection with it and publish an offer to it; `offers[k]` is the description
        created for the `k`-th listed sharer. When capture is refused nothing happens. */
    method StartShare(socketId: Id, captured: bool, offers: seq<Sdp>)
      requires Valid()
      requires |offers| == |sharers|
      modifies this
      ensures Valid()
      ensures step == old(step) && room == old(room) && players == old(players) && role == old(role)
      ensures sharers == old(sharers) && streams == old(streams) && votes == old(votes)
      ensures !captured ==> pcs == old(pcs) && outbox == old(outbox)
      ensures captured ==> pcs == ShareLinks(old(pcs), sharers, socketId, offers)
      ensures captured ==> outbox == old(outbox) + OfferPosts(room, sharers, socketId, offers)
    {
      if !captured {
        return;
      }
      var i := 0;
      while i < |sharers|
        invariant step == old(step) && room == old(room) && players == old(players) && role == old(role)
        invariant sharers == old(sharers) && streams == old(streams) && votes == old(votes)
        invariant 0 <= i <= |sharers|
        invariant Valid()
        invariant pcs == ShareLinks(old(pcs), sharers[..i], socketId, offers[..i])
        invariant outbox == old(outbox) + OfferPosts(room, sharers[..i], socketId, offers[..i])
      {
        var other := sharers[i];
        assert sharers[..i + 1][..i] == sharers[..i] && offers[..i + 1][..i] == offers[..i];
        if other != socketId {
          pcs := pcs[other := OfferingLink(socketId, offers[i])];
          var post := Post(room, Offer(other, socketId, offers[i]));
          SignalledAll(outbox, [post]);
          assert post in outbox + [post];
          outbox := outbox + [post];
        }
        i := i + 1;
      }
      assert sharers[..i] == sharers && offers[..i] == offers;
    }

    /** `castVote`: publish a vote; the tally changes only when it comes back. */
    method CastVote(which: Choice)
      requires Valid()
      modifies this
      ensures Valid()
      ensures outbox == old(outbox) + [Post(room, NewVote(which))]
      ensures step == old(step) && room == old(room) && players == old(players) && role == old(role)
      ensures sharers == old(sharers) && streams == old(streams) && votes == old(votes) && pcs == old(pcs)
    {
      var post := Post(room, NewVote(which));
      SignalledAll(outbox, [post]);
      outbox := outbox + [post];
    }
  }
}
