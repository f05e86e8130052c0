/** The vote tally: each `newVote` event on the channel adds one to a counter. */
module Votes {
  import opened Signals

  datatype Tally = Tally(a: nat, b: nat)

  function Count(t: Tally, c: Choice): nat {
    match c
    case A => t.a
    case B => t.b
  }

  function Other(c: Choice): Choice {
    match c
    case A => B
    case B => A
  }

  /** `setVotes(prev => ({ ...prev, [v.which]: prev[v.which] + 1 }))`. */
  function Add(t: Tally, which: Choice): (r: Tally)
    ensures Count(r, which) == Count(t, which) + 1
    ensures Count(r, Other(which)) == Count(t, Other(which))
  {
    match which
    case A => t.(a := t.a + 1)
    case B => t.(b := t.b + 1)
  }

  /** The sides named by the `newVote` events of a delivery sequence, in order; other
      events are skipped. */
  function VoteChoices(es: seq<Event>): seq<Choice> {
    if es == [] then []
    else
      var last := es[|es| - 1];
      VoteChoices(es[..|es| - 1]) + (if last.NewVote? then [last.which] else [])
  }

  /** The tally after the events of `es` are handled one by one. */
  function TallyEvents(t: Tally, es: seq<Event>): Tally {
    if es == [] then t
    else
      var before := TallyEvents(t, es[..|es| - 1]);
      var last := es[|es| - 1];
      if last.NewVote? then Add(before, last.which) else before
  }

  /** Each counter grows by exactly the number of votes cast for its side, whatever
      else is delivered in between. */
  lemma {:induction false} TallyEventsCounts(t: Tally, es: seq<Event>)
    ensures TallyEvents(t, es) == Tally(t.a + multiset(VoteChoices(es))[A], t.b + multiset(VoteChoices(es))[B])
  {
    if es != [] {
      var init := es[..|es| - 1];
      var last := es[|es| - 1];
      TallyEventsCounts(t, init);
      var tail: seq<Choice> := if last.NewVote? then [last.which] else [];
      assert VoteChoices(es) == VoteChoices(init) + tail;
      assert multiset(VoteChoices(es)) == multiset(VoteChoices(init)) + multiset(tail);
    }
  }

  /** The tally depends only on which votes were delivered, never on their order or
      on the events interleaved with them. */
  lemma TallyOrderIrrelevant(t: Tally, es: seq<Event>, fs: seq<Event>)
    requires multiset(VoteChoices(es)) == multiset(VoteChoices(fs))
    ensures TallyEvents(t, es) == TallyEvents(t, fs)
  {
    TallyEventsCounts(t, es);
    TallyEventsCounts(t, fs);
  }

  /** Votes A, B, A in any order and interleaved with any other events give A: 2, B: 1. */
  lemma ThreeVotes(es: seq<Event>)
    requires multiset(VoteChoices(es)) == multiset{A, B, A}
    ensures TallyEvents(Tally(0, 0), es) == Tally(2, 1)
  {
    TallyEventsCounts(Tally(0, 0), es);
  }

  /** Counters never decrease. */
  lemma {:induction false} TallyEventsGrows(t: Tally, es: seq<Event>)
    ensures TallyEvents(t, es).a >= t.a && TallyEvents(t, es).b >= t.b
  {
    TallyEventsCounts(t, es);
  }
}
