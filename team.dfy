/** A team of a baseball division (Team.java): a record of its name, wins,
    losses and remaining games, with its own copy of the games it has left
    against each other team. */
module Teams {
  class Team {
    var name: string
    var w: int
    var l: int
    var r: int
    var matches: array<int>

    /** Stores the scalars and copies matches into a fresh array. */
    constructor (name: string, w: int, l: int, r: int, matches: array<int>)
      ensures GetName() == name && GetW() == w && GetL() == l && GetR() == r
      ensures fresh(GetMatches())
      ensures GetMatches().Length == matches.Length && GetMatches()[..] == matches[..]
    {
      this.name := name;
      this.w := w;
      this.l := l;
      this.r := r;
      this.matches := new int[matches.Length];
      new;
      for i := 0 to matches.Length
        modifies this.matches
        invariant this.matches[..i] == matches[..i]
      {
        this.matches[i] := matches[i];
      }
      assert this.matches[..] == this.matches[..matches.Length];
      assert matches[..] == matches[..matches.Length];
    }

    function GetName(): string
      reads this
    {
      name
    }

    function GetW(): int
      reads this
    {
      w
    }

    function GetL(): int
      reads this
    {
      l
    }

    function GetR(): int
      reads this
    {
      r
    }

    /** The stored array itself, not a copy. */
    function GetMatches(): array<int>
      reads this
    {
      matches
    }
  }

  /** Writing to the array handed to the constructor leaves the team's own
      copy as it was. */
  method WriteAfterConstruction(matches: array<int>, i: int, x: int) returns (t: Team)
    requires 0 <= i < matches.Length
    modifies matches
    ensures t.GetMatches()[..] == old(matches[..])
    ensures matches[i] == x
  {
    t := new Team("", 0, 0, 0, matches);
    matches[i] := x;
  }
}
