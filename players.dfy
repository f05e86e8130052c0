/** How incoming `lobbyUpdate` payloads are merged into the role map
    (`setPlayers(prev => ({ ...prev, ...lu.players }))`). */
module Players {
  import opened Wrappers
  import opened Lobby

  /** Object spread: every id of `update` takes the role it carries, every other id
      keeps the role it had, and no id is removed. */
  function Merge(prev: PlayersMap, update: PlayersMap): (r: PlayersMap)
    ensures r.Keys == prev.Keys + update.Keys
    ensures forall id :: id in update ==> r[id] == update[id]
    ensures forall id :: id in prev && id !in update ==> r[id] == prev[id]
  {
    prev + update
  }

  /** The lobbyUpdate handler: a payload without a `players` record changes nothing. */
  function ApplyLobbyUpdate(prev: PlayersMap, payload: Option<PlayersMap>): (r: PlayersMap)
    ensures prev.Keys <= r.Keys
    ensures payload.None? ==> r == prev
    ensures payload.Some? ==> r == Merge(prev, payload.value)
  {
    match payload
    case None => prev
    case Some(update) => Merge(prev, update)
  }

  /** Applying the same update twice is applying it once. */
  lemma MergeIdempotent(prev: PlayersMap, update: PlayersMap)
    ensures Merge(Merge(prev, update), update) == Merge(prev, update)
  {
  }

  /** Two updates that agree on every id they share can be applied in either order. */
  lemma MergeCommutes(prev: PlayersMap, u: PlayersMap, v: PlayersMap)
    requires forall id :: id in u && id in v ==> u[id] == v[id]
    ensures Merge(Merge(prev, u), v) == Merge(Merge(prev, v), u)
  {
  }

  /** The role map after a sequence of lobbyUpdate payloads, in delivery order. */
  function MergeAll(prev: PlayersMap, updates: seq<PlayersMap>): (r: PlayersMap)
    ensures prev.Keys <= r.Keys
  {
    if updates == [] then prev
    else Merge(MergeAll(prev, updates[..|updates| - 1]), updates[|updates| - 1])
  }

  /** Last write wins: an id takes the role carried by the latest update that mentions it. */
  lemma {:induction false} MergeAllLastWins(prev: PlayersMap, updates: seq<PlayersMap>, id: Id, k: nat)
    requires k < |updates| && id in updates[k]
    requires forall k' :: k < k' < |updates| ==> id !in updates[k']
    ensures id in MergeAll(prev, updates) && MergeAll(prev, updates)[id] == updates[k][id]
  {
    var n := |updates| - 1;
    if k < n {
      MergeAllLastWins(prev, updates[..n], id, k);
    }
  }

  /** An id no update mentions keeps exactly what it had before (including being absent). */
  lemma {:induction false} MergeAllUntouched(prev: PlayersMap, updates: seq<PlayersMap>, id: Id)
    requires forall k :: 0 <= k < |updates| ==> id !in updates[k]
    ensures id in MergeAll(prev, updates) <==> id in prev
    ensures id in prev ==> MergeAll(prev, updates)[id] == prev[id]
  {
    if updates != [] {
      MergeAllUntouched(prev, updates[..|updates| - 1], id);
    }
  }

  /** No two updates disagree about an id. */
  predicate Consistent(updates: seq<PlayersMap>) {
    forall i, j, id :: 0 <= i < |updates| && 0 <= j < |updates| && id in updates[i] && id in updates[j]
      ==> updates[i][id] == updates[j][id]
  }

  /** When updates agree with each other, delivery order does not matter: any
      reordering of the same updates yields the same role map. */
  lemma OrderIrrelevant(prev: PlayersMap, us: seq<PlayersMap>, vs: seq<PlayersMap>)
    requires Consistent(us)
    requires multiset(us) == multiset(vs)
    ensures MergeAll(prev, us) == MergeAll(prev, vs)
  {
    var mu, mv := MergeAll(prev, us), MergeAll(prev, vs);
    forall id ensures (id in mu <==> id in mv) && (id in mu ==> mu[id] == mv[id]) {
      SameRole(prev, us, vs, id);
    }
  }

  lemma SameRole(prev: PlayersMap, us: seq<PlayersMap>, vs: seq<PlayersMap>, id: Id)
    requires Consistent(us)
    requires multiset(us) == multiset(vs)
    ensures var mu, mv := MergeAll(prev, us), MergeAll(prev, vs);
      (id in mu <==> id in mv) && (id in mu ==> mu[id] == mv[id])
  {
    if i :| 0 <= i < |us| && id in us[i] {
      var ku := LastMention(us, id, i);
      assert us[ku] in multiset(vs);
      var j :| 0 <= j < |vs| && vs[j] == us[ku];
      var kv := LastMention(vs, id, j);
      assert vs[kv] in multiset(us);
      var i' :| 0 <= i' < |us| && us[i'] == vs[kv];
      MergeAllLastWins(prev, us, id, ku);
      MergeAllLastWins(prev, vs, id, kv);
    } else {
      forall k | 0 <= k < |vs| ensures id !in vs[k] {
        assert vs[k] in multiset(us);
      }
      MergeAllUntouched(prev, us, id);
      MergeAllUntouched(prev, vs, id);
    }
  }

  /** The index of the last update at or after `i` that mentions `id`. */
  lemma LastMention(us: seq<PlayersMap>, id: Id, i: nat) returns (k: nat)
    requires i < |us| && id in us[i]
    ensures i <= k < |us| && id in us[k]
    ensures forall k' :: k < k' < |us| ==> id !in us[k']
    decreases |us| - i
  {
    if j :| i < j < |us| && id in us[j] {
      k := LastMention(us, id, j);
    } else {
      k := i;
    }
  }

  /** Three announcements, one of them repeated, delivered in any order: p1 ends up a
      sharer and p2 a watcher. */
  lemma AnnouncementsInAnyOrder(us: seq<PlayersMap>)
    requires multiset(us) == multiset{map["p1" := Some(Sharer)], map["p2" := Some(Watcher)], map["p1" := Some(Sharer)]}
    ensures MergeAll(map[], us) == map["p1" := Some(Sharer), "p2" := Some(Watcher)]
  {
    var m1, m2: PlayersMap := map["p1" := Some(Sharer)], map["p2" := Some(Watcher)];
    var inOrder := [m1, m2, m1];
    assert Consistent(inOrder) by {
      forall i, j, id | 0 <= i < 3 && 0 <= j < 3 && id in inOrder[i] && id in inOrder[j]
        ensures inOrder[i][id] == inOrder[j][id]
      {
        assert id in inOrder[i].Keys;
      }
    }
    assert MergeAll(map[], inOrder) == Merge(Merge(m1, m2), m1) by {
      assert inOrder[..2] == [m1, m2];
      assert [m1, m2][..1] == [m1];
      assert [m1][..0] == [];
      assert MergeAll(map[], [m1]) == Merge(MergeAll(map[], []), m1);
      assert MergeAll(map[], [m1, m2]) == Merge(MergeAll(map[], [m1]), m2);
    }
    assert Merge(Merge(m1, m2), m1) == map["p1" := Some(Sharer), "p2" := Some(Watcher)];
    OrderIrrelevant(map[], inOrder, us);
  }
}
