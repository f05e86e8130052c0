/** Which screen a participant shows, and how a `roundStart` message moves it. */
module Routing {
  import opened Wrappers
  import opened Lobby

  datatype Step = Join | ChooseRole | InLobby | Share | Watch

  /** The roundStart handler's step update for the participant `socketId`: a selected
      sharer goes to Share, any watcher goes to Watch, and everyone else (a sharer who
      was not selected, a participant without a role) keeps the step it had. */
  function RouteStep(step: Step, role: Option<Role>, sharerIds: seq<Id>, socketId: Id): (r: Step)
    ensures role == Some(Sharer) && socketId in sharerIds ==> r == Share
    ensures role == Some(Watcher) ==> r == Watch
    ensures !(role == Some(Sharer) && socketId in sharerIds) && role != Some(Watcher) ==> r == step
  {
    if role == Some(Sharer) && socketId in sharerIds then Share
    else if role == Some(Watcher) then Watch
    else step
  }

  /** The ids of the room that a roundStart sends to the Share screen, when every
      participant waits in the lobby and holds the role the room's map records for it. */
  function Sharing(players: PlayersMap, sharerIds: seq<Id>): set<Id> {
    set id | id in players && RouteStep(InLobby, players[id], sharerIds, id) == Share
  }

  /** A roundStart naming sharers of the room moves exactly those sharers to Share,
      every watcher to Watch, and leaves every other participant in the lobby. */
  lemma RoundMovesSelected(players: PlayersMap, sharerIds: seq<Id>)
    requires forall id :: id in sharerIds ==> id in players && players[id] == Some(Sharer)
    ensures Sharing(players, sharerIds) == set id | id in sharerIds
    ensures forall id :: id in players && players[id] == Some(Watcher) ==>
      RouteStep(InLobby, players[id], sharerIds, id) == Watch
    ensures forall id :: id in players && id !in sharerIds && players[id] != Some(Watcher) ==>
      RouteStep(InLobby, players[id], sharerIds, id) == InLobby
  {
  }
}
