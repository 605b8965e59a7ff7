/** One participant of a game. */
module Players {

  /**
   * A player's name and kind are fixed when it is created (there are no
   * setters); the only change a player ever undergoes is elimination.
   */
  class Player {
    const name: string
    const isComputer: bool
    var isOut: bool

    constructor (name: string, isComputer: bool)
      ensures this.name == name && this.isComputer == isComputer
      ensures !isOut
    {
      this.name := name;
      this.isComputer := isComputer;
      isOut := false;
    }

    /** Eliminates the player; eliminating an eliminated player changes nothing. */
    method PlayerOut()
      modifies this
      ensures isOut
    {
      isOut := true;
    }
  }
}
