/** The lobby screen of a room: how many participants chose each role, and whether
    the "Start Round" button is enabled (src/components/BattleLobby.tsx). */
module Lobby {
  import opened Wrappers

  /** A participant identifier, as assigned by the relay connection. */
  type Id = string

  datatype Role = Sharer | Watcher

  /** Participant id to role; `None` is a participant who joined but has not chosen yet. */
  type PlayersMap = map<Id, Option<Role>>

  /** `order` lists every key of `players` exactly once: the order in which
      `Object.values` and `Object.entries` visit the record. */
  ghost predicate Enumerates(order: seq<Id>, players: PlayersMap) {
    && (forall i, j :: 0 <= i < j < |order| ==> order[i] != order[j])
    && (forall id :: id in order <==> id in players)
  }

  /** `Object.values(players)`, visited in `order`. */
  function Values(order: seq<Id>, players: PlayersMap): (vs: seq<Option<Role>>)
    requires forall id :: id in order ==> id in players
    ensures |vs| == |order|
    ensures forall k :: 0 <= k < |order| ==> vs[k] == players[order[k]]
  {
    if order == [] then [] else [players[order[0]]] + Values(order[1..], players)
  }

  /** `values.filter(v => v === r).length`. */
  function CountRole(vs: seq<Option<Role>>, r: Role): nat {
    if vs == [] then 0 else (if vs[0] == Some(r) then 1 else 0) + CountRole(vs[1..], r)
  }

  /** The ids whose recorded role is `r`: the reference meaning of the two counters. */
  function Holders(players: PlayersMap, r: Role): set<Id> {
    set id | id in players && players[id] == Some(r)
  }

  /** `sharerCount`: the number of entries whose role is sharer. */
  function SharerCount(order: seq<Id>, players: PlayersMap): (n: nat)
    requires Enumerates(order, players)
    ensures n == |Holders(players, Sharer)|
  {
    CountIsHolders(order, players, Sharer);
    CountRole(Values(order, players), Sharer)
  }

  /** `watcherCount`: the number of entries whose role is watcher. */
  function WatcherCount(order: seq<Id>, players: PlayersMap): (n: nat)
    requires Enumerates(order, players)
    ensures n == |Holders(players, Watcher)|
  {
    CountIsHolders(order, players, Watcher);
    CountRole(Values(order, players), Watcher)
  }

  /** The condition that enables the "Start Round" button; `onStart` cannot fire
      without it. It holds iff at least two entries are sharers and at least one is a
      watcher, whatever order the record is visited in. */
  predicate Ready(order: seq<Id>, players: PlayersMap): (r: bool)
    requires Enumerates(order, players)
    ensures r <==> |Holders(players, Sharer)| >= 2 && |Holders(players, Watcher)| >= 1
  {
    SharerCount(order, players) >= 2 && WatcherCount(order, players) >= 1
  }

  /** Counting the filtered values of the record counts exactly the ids holding the
      role, whatever order the record is visited in. */
  lemma {:induction false} CountIsHolders(order: seq<Id>, players: PlayersMap, r: Role)
    requires Enumerates(order, players)
    ensures CountRole(Values(order, players), r) == |Holders(players, r)|
  {
    CountFilteredDistinct(order, players, r);
    assert FilteredIds(order, players, r) == Holders(players, r);
  }

  /** The ids of `order` whose recorded role is `r`. */
  function FilteredIds(order: seq<Id>, players: PlayersMap, r: Role): set<Id>
    requires forall id :: id in order ==> id in players
  {
    set id | id in order && players[id] == Some(r)
  }

  lemma {:induction false} CountFilteredDistinct(order: seq<Id>, players: PlayersMap, r: Role)
    requires forall i, j :: 0 <= i < j < |order| ==> order[i] != order[j]
    requires forall id :: id in order ==> id in players
    ensures CountRole(Values(order, players), r) == |FilteredIds(order, players, r)|
  {
    if order != [] {
      var rest := order[1..];
      CountFilteredDistinct(rest, players, r);
      var vs := Values(order, players);
      assert vs[1..] == Values(rest, players);
      var tail := FilteredIds(rest, players, r);
      assert order[0] !in tail by {
        forall k | 0 <= k < |rest| ensures rest[k] != order[0] {
          assert rest[k] == order[k + 1];
        }
      }
      FilteredIdsCons(order, players, r);
      if players[order[0]] == Some(r) {
        assert |tail + {order[0]}| == |tail| + 1;
      } else {
        assert tail + {} == tail;
      }
    }
  }

  lemma FilteredIdsCons(order: seq<Id>, players: PlayersMap, r: Role)
    requires order != []
    requires forall id :: id in order ==> id in players
    ensures FilteredIds(order, players, r)
         == FilteredIds(order[1..], players, r) + (if players[order[0]] == Some(r) then {order[0]} else {})
  {
  }

  /** Sharers and watchers are never counted twice, and unassigned entries count
      towards neither, so the two counters never exceed the number of entries. */
  lemma CountsWithinPlayers(order: seq<Id>, players: PlayersMap)
    requires Enumerates(order, players)
    ensures SharerCount(order, players) + WatcherCount(order, players) <= |players|
  {
    CountIsHolders(order, players, Sharer);
    CountIsHolders(order, players, Watcher);
    var s, w := Holders(players, Sharer), Holders(players, Watcher);
    assert s !! w;
    assert s + w <= players.Keys;
    SubsetCard(s + w, players.Keys);
  }

  lemma SubsetCard(a: set<Id>, b: set<Id>)
    requires a <= b
    ensures |a| <= |b|
  {
    assert b == a + (b - a);
  }
}
