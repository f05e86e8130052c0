/** The table of peer connections (`pcs`), keyed by the remote participant's id, and
    the offers `startShare` publishes. Connections are abstract: only which entry point
    created them, the descriptions they hold and the candidates added to them. */
module PeerLinks {
  import opened Wrappers
  import opened Lobby
  import opened Signals

  /** A handle on an inbound media stream. */
  type MediaStream = nat

  /** Which side created the connection: `startShare` (offering) or the offer handler
      (answering; only these expose the remote stream through `ontrack`). */
  datatype Side = Offering | Answering

  /** One peer connection: its creator, the local id its ICE callback captured, its
      local description, its remote description once set, and the remote ICE
      candidates added to it, in order. */
  datatype Link = Link(side: Side, self: Id, local: Sdp, remote: Option<Sdp>, candidates: seq<Candidate>)

  type Links = map<Id, Link>

  /** `pcs.current[from]` is undefined, so calling a method on it throws. */
  datatype LinkError = NoLink(peer: Id)

  /** The connection `startShare` creates for one other sharer, its offer committed. */
  function OfferingLink(self: Id, offer: Sdp): Link {
    Link(Offering, self, offer, None, [])
  }

  /** The connection the offer handler creates: the offer applied as remote
      description and the generated answer committed as local description. */
  function AnsweringLink(self: Id, offer: Sdp, answer: Sdp): Link {
    Link(Answering, self, answer, Some(offer), [])
  }

  /** `pcs.current[from].setRemoteDescription(sdp)`: fails when there is no entry for
      `from`; otherwise changes that entry's remote description and nothing else. */
  function ApplyAnswer(pcs: Links, from: Id, sdp: Sdp): (r: Result<Links, LinkError>)
    ensures r.Err? <==> from !in pcs
    ensures r.Err? ==> r.error == NoLink(from)
    ensures r.Ok? ==> r.value.Keys == pcs.Keys
    ensures r.Ok? ==> forall id :: id in pcs && id != from ==> r.value[id] == pcs[id]
    ensures r.Ok? ==> r.value[from].remote == Some(sdp)
    ensures r.Ok? ==> r.value[from] == pcs[from].(remote := r.value[from].remote)
  {
    if from in pcs then Ok(pcs[from := pcs[from].(remote := Some(sdp))])
    else Err(NoLink(from))
  }

  /** `pcs.current[from].addIceCandidate(c)`: fails when there is no entry for `from`;
      otherwise appends `c` to that entry's candidates and changes nothing else. */
  function ApplyCandidate(pcs: Links, from: Id, c: Candidate): (r: Result<Links, LinkError>)
    ensures r.Err? <==> from !in pcs
    ensures r.Err? ==> r.error == NoLink(from)
    ensures r.Ok? ==> r.value.Keys == pcs.Keys
    ensures r.Ok? ==> forall id :: id in pcs && id != from ==> r.value[id] == pcs[id]
    ensures r.Ok? ==> r.value[from].candidates == pcs[from].candidates + [c]
    ensures r.Ok? ==> r.value[from] == pcs[from].(candidates := r.value[from].candidates)
  {
    if from in pcs then Ok(pcs[from := pcs[from].(candidates := pcs[from].candidates + [c])])
    else Err(NoLink(from))
  }

  /** The table after `startShare`'s loop: one new offering connection for each listed
      sharer other than `self`, the `k`-th created with offer `offers[k]`. */
  function ShareLinks(pcs: Links, sharers: seq<Id>, self: Id, offers: seq<Sdp>): Links
    requires |offers| == |sharers|
  {
    if sharers == [] then pcs
    else
      var n := |sharers| - 1;
      var before := ShareLinks(pcs, sharers[..n], self, offers[..n]);
      if sharers[n] == self then before else before[sharers[n] := OfferingLink(self, offers[n])]
  }

  /** The offers `startShare` posts on `room`, one per listed sharer other than `self`. */
  function OfferPosts(room: string, sharers: seq<Id>, self: Id, offers: seq<Sdp>): seq<Post>
    requires |offers| == |sharers|
  {
    if sharers == [] then []
    else
      var n := |sharers| - 1;
      OfferPosts(room, sharers[..n], self, offers[..n])
        + (if sharers[n] == self then [] else [Post(room, Offer(sharers[n], self, offers[n]))])
  }

  /** `startShare` creates a connection for every listed sharer except the local id
      and for no other id; every other entry of the table is left as it was. */
  lemma {:induction false} ShareLinksCover(pcs: Links, sharers: seq<Id>, self: Id, offers: seq<Sdp>)
    requires |offers| == |sharers|
    ensures var r := ShareLinks(pcs, sharers, self, offers);
      && (forall id :: id in r <==> id in pcs || (id in sharers && id != self))
      && (forall id :: id in pcs && (id !in sharers || id == self) ==> r[id] == pcs[id])
      && (forall id :: id in sharers && id != self ==>
            r[id].side == Offering && r[id].self == self && r[id].remote == None && r[id].candidates == [])
  {
    if sharers != [] {
      var n := |sharers| - 1;
      ShareLinksCover(pcs, sharers[..n], self, offers[..n]);
      assert sharers == sharers[..n] + [sharers[n]];
      forall id | id in sharers[..n] ensures id in sharers {
      }
    }
  }

  /** Every offer `startShare` posts goes on `room`, from the local id, to a listed
      sharer other than the local id; every such sharer gets one; and there is exactly
      one offer per listed entry that is not the local id. */
  lemma {:induction false} OfferPostsAddressed(room: string, sharers: seq<Id>, self: Id, offers: seq<Sdp>)
    requires |offers| == |sharers|
    ensures var posts := OfferPosts(room, sharers, self, offers);
      && |posts| == |sharers| - multiset(sharers)[self]
      && (forall p :: p in posts ==>
            p.channel == room && p.event.Offer? && p.event.from == self && p.event.to in sharers && p.event.to != self)
      && (forall id :: id in sharers && id != self ==> exists p :: p in posts && p.event == Offer(id, self, p.event.sdp))
  {
    if sharers != [] {
      var n := |sharers| - 1;
      var init := sharers[..n];
      OfferPostsAddressed(room, init, self, offers[..n]);
      assert sharers == init + [sharers[n]];
      assert multiset(sharers) == multiset(init) + multiset{sharers[n]};
      var posts := OfferPosts(room, sharers, self, offers);
      var prior := OfferPosts(room, init, self, offers[..n]);
      forall id | id in sharers && id != self ensures exists p :: p in posts && p.event == Offer(id, self, p.event.sdp) {
        if id in init {
          var p :| p in prior && p.event == Offer(id, self, p.event.sdp);
          assert p in posts;
        } else {
          assert id == sharers[n];
          assert posts[|posts| - 1] == Post(room, Offer(id, self, offers[n]));
        }
      }
    }
  }

  /** The post `e` opens a connection with `id`: an offer or answer addressed to it. */
  predicate OpensLink(e: Event, id: Id) {
    (e.Offer? || e.Answer?) && e.to == id
  }

  /** Some post of `posts` opened a connection with `id`. */
  ghost predicate Signalled(posts: seq<Post>, id: Id) {
    exists p :: p in posts && OpensLink(p.event, id)
  }

  /** Appending posts keeps every connection signalled. */
  lemma SignalledAll(posts: seq<Post>, more: seq<Post>)
    ensures forall id :: Signalled(posts, id) ==> Signalled(posts + more, id)
  {
  }
}
