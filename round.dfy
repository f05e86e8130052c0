/** `startRound`: the sharer pool, its shuffle and the two ids picked from it. */
module Round {
  import opened Wrappers
  import opened Lobby
  import opened FisherYates

  /** `Object.entries(players).filter(([, r]) => r === 'sharer').map(([id]) => id)`. */
  function SharerPool(order: seq<Id>, players: PlayersMap): (pool: seq<Id>)
    requires forall id :: id in order ==> id in players
    ensures |pool| <= |order|
    ensures forall id :: id in pool ==> id in order && players[id] == Some(Sharer)
  {
    if order == [] then []
    else (if players[order[0]] == Some(Sharer) then [order[0]] else []) + SharerPool(order[1..], players)
  }

  lemma {:induction false} PoolFilters(order: seq<Id>, players: PlayersMap)
    requires forall i, j :: 0 <= i < j < |order| ==> order[i] != order[j]
    requires forall id :: id in order ==> id in players
    ensures Distinct(SharerPool(order, players))
    ensures |SharerPool(order, players)| == CountRole(Values(order, players), Sharer)
    ensures forall id :: id in order && players[id] == Some(Sharer) ==> id in SharerPool(order, players)
  {
    if order != [] {
      var rest := order[1..];
      PoolFilters(rest, players);
      assert Values(order, players)[1..] == Values(rest, players);
      assert order[0] !in rest by {
        forall k | 0 <= k < |rest| ensures rest[k] != order[0] {
          assert rest[k] == order[k + 1];
        }
      }
      forall id | id in order && players[id] == Some(Sharer) && id != order[0]
        ensures id in SharerPool(rest, players)
      {
        var k :| 0 <= k < |order| && order[k] == id;
        assert rest[k - 1] == id;
      }
    }
  }

  /** The pool holds each sharer of the room exactly once, so it is as long as the
      lobby's sharer counter. */
  lemma PoolIsSharers(order: seq<Id>, players: PlayersMap)
    requires Enumerates(order, players)
    ensures Distinct(SharerPool(order, players))
    ensures forall id :: id in SharerPool(order, players) <==> id in players && players[id] == Some(Sharer)
    ensures |SharerPool(order, players)| == SharerCount(order, players)
  {
    PoolFilters(order, players);
  }

  /** `shuffle(pool).slice(0, 2)`. The button that runs it is enabled only when the
      lobby is ready, so the pool has at least two ids; the two picked ids are distinct
      sharers of the room. */
  method SelectSharers(order: seq<Id>, players: PlayersMap, draws: seq<real>) returns (ids: seq<Id>)
    requires Enumerates(order, players) && Ready(order, players)
    requires RandomDraws(draws, |order|)
    ensures |ids| == 2 && ids[0] != ids[1]
    ensures forall id :: id in ids ==> id in players && players[id] == Some(Sharer)
    ensures RandomDraws(draws, |SharerPool(order, players)|)
    ensures var shuffled := Shuffled(SharerPool(order, players), draws);
      |shuffled| >= 2 && ids == shuffled[..2]
  {
    var pool := SharerPool(order, players);
    PoolIsSharers(order, players);
    var shuffled := Shuffle(pool, draws);
    ShuffledKeepsDistinct(pool, draws);
    assert shuffled[0] in multiset(pool) && shuffled[1] in multiset(pool);
    ids := shuffled[..2];
  }
}
