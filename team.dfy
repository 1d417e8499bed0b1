/** The stand-alone team record of backend/models/team.py: plain player names,
    a colour, a board position and a cyclic current-player index. */
module TeamModel {
  import opened Common

  /** What `current_player` reports: the player's name and its index. */
  datatype PlayerRef = PlayerRef(name: string, index: nat)

  class Team {
    const name: string
    const color: string
    const players: seq<string>
    var position: int
    var currentPlayerIndex: int

    /** A team is created with position 0 and the first player up. */
    constructor (name: string, color: string, players: seq<string>)
      ensures this.name == name && this.color == color && this.players == players
      ensures position == 0 && currentPlayerIndex == 0
      ensures Valid()
    {
      this.name := name;
      this.color := color;
      this.players := players;
      position := 0;
      currentPlayerIndex := 0;
    }

    /** The index names a player whenever there is one (it starts at 0 and only
        `AdvancePlayer` changes it). */
    ghost predicate Valid()
      reads this
    {
      0 <= currentPlayerIndex && (|players| > 0 ==> currentPlayerIndex < |players|)
    }

    /** No current player exactly for an empty team; otherwise the player at the
        index, together with that index. */
    function CurrentPlayer(): (p: Option<PlayerRef>)
      reads this
      requires Valid()
      ensures p.None? <==> players == []
      ensures p.Some? ==> p.value.index < |players| && p.value.name == players[p.value.index]
      ensures p.Some? ==> p.value.index == currentPlayerIndex
    {
      if players == [] then None
      else Some(PlayerRef(players[currentPlayerIndex], currentPlayerIndex))
    }

    /** Moves to the next player, wrapping at the end of the list; a no-op for an
        empty team. Name, colour, players and position are untouched. */
    method AdvancePlayer()
      modifies this`currentPlayerIndex
      ensures currentPlayerIndex == NextIndex(old(currentPlayerIndex), |players|)
      ensures |players| > 0 ==> 0 <= currentPlayerIndex < |players|
      ensures old(Valid()) ==> Valid()
      ensures old(Valid()) && |players| > 0 ==>
        currentPlayerIndex == if old(currentPlayerIndex) + 1 < |players| then old(currentPlayerIndex) + 1 else 0
    {
      if players != [] {
        currentPlayerIndex := (currentPlayerIndex + 1) % |players|;
      }
    }
  }
}
