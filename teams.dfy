/**
 * Team membership (Team) and a registry of teams (TeamList). Joining a team
 * twice and leaving a team one is not in are no-ops, and the join and leave
 * events are raised only when membership actually changes. Lookups return
 * the first team in list order.
 */
module Teams {
  import opened Seqs
  import opened Minigames

  class Team {
    /** getName(): fixed by each concrete team. */
    const name: string
    var players: seq<Player>
    var displayName: string

    /** The display name starts as the team's name. */
    constructor (name: string)
      ensures this.name == name && players == [] && displayName == name
    {
      this.name := name;
      players := [];
      displayName := name;
    }

    ghost predicate Valid()
      reads this
    {
      NoDup(players)
    }

    /** addPlayer: appends a non-member; `joined` says whether the join event is raised. */
    method AddPlayer(player: Player) returns (joined: bool)
      requires Valid()
      modifies this
      ensures Valid()
      ensures joined == (player !in old(players))
      ensures players == if joined then old(players) + [player] else old(players)
      ensures player in players
      ensures displayName == old(displayName)
    {
      if player in players {
        return false;
      }
      AppendNoDup(players, player);
      players := players + [player];
      return true;
    }

    /** removePlayer: removes a member; `left` says whether the leave event is raised. */
    method RemovePlayer(player: Player) returns (left: bool)
      requires Valid()
      modifies this
      ensures Valid()
      ensures left == (player in old(players))
      ensures players == RemoveFirst(old(players), player)
      ensures player !in players
      ensures displayName == old(displayName)
    {
      RemoveFirstSpec(players, player);
      RemoveFirstNoDup(players, player);
      if player !in players {
        return false;
      }
      players := RemoveFirst(players, player);
      return true;
    }

    function GetPlayers(): seq<Player>
      reads this
    {
      players
    }

    function GetDisplayName(): string
      reads this
    {
      displayName
    }

    method SetDisplayName(name: string)
      modifies this
      ensures displayName == name && players == old(players)
    {
      displayName := name;
    }
  }

  /** getTeam(Player): the first team whose players include the player. */
  function TeamOf(teams: seq<Team>, player: Player): (r: Option<Team>)
    reads teams
    ensures r.None? <==> forall t :: t in teams ==> player !in t.players
    ensures r.Some? ==> r.value in teams && player in r.value.players
    ensures r.Some? ==> forall j :: 0 <= j < IndexOf(teams, r.value) ==> player !in teams[j].players
  {
    if teams == [] then None
    else if player in teams[0].players then Some(teams[0])
    else TeamOf(teams[1..], player)
  }

  /** getTeams(Player): every team whose players include the player, in list order. */
  function TeamsOf(teams: seq<Team>, player: Player): seq<Team>
    reads teams
  {
    if teams == [] then []
    else (if player in teams[0].players then [teams[0]] else []) + TeamsOf(teams[1..], player)
  }

  /** getTeams(Player) holds exactly the teams with the player, and getTeam(Player) is its head. */
  lemma {:induction false} TeamsOfSpec(teams: seq<Team>, player: Player)
    ensures forall t :: t in TeamsOf(teams, player) <==> t in teams && player in t.players
    ensures TeamOf(teams, player) == if TeamsOf(teams, player) == [] then None else Some(TeamsOf(teams, player)[0])
  {
    if teams != [] {
      TeamsOfSpec(teams[1..], player);
      assert forall t :: t in teams <==> t == teams[0] || t in teams[1..] by {
        assert teams == [teams[0]] + teams[1..];
      }
    }
  }

  /** The positions at or after `from` whose team holds the player, in increasing order. */
  ghost function Positions(teams: seq<Team>, player: Player, from: nat): (r: seq<nat>)
    requires from <= |teams|
    reads teams
    ensures forall k :: 0 <= k < |r| ==> from <= r[k] < |teams|
    ensures forall k, l :: 0 <= k < l < |r| ==> r[k] < r[l]
    ensures forall i :: from <= i < |teams| ==> (i in r <==> player in teams[i].players)
    decreases |teams| - from
  {
    if from == |teams| then []
    else (if player in teams[from].players then [from] else []) + Positions(teams, player, from + 1)
  }

  /**
   * getTeams(Player) keeps list order: its k-th team is the team at the k-th
   * position holding the player.
   */
  lemma {:induction false} TeamsOfOrder(teams: seq<Team>, player: Player, from: nat)
    requires from <= |teams|
    ensures var r := TeamsOf(teams[from..], player);
            var idx := Positions(teams, player, from);
            |r| == |idx| && forall k :: 0 <= k < |r| ==> r[k] == teams[idx[k]]
    decreases |teams| - from
  {
    if from < |teams| {
      TeamsOfOrder(teams, player, from + 1);
      var rest, later := TeamsOf(teams[from + 1..], player), Positions(teams, player, from + 1);
      assert teams[from..][1..] == teams[from + 1..];
      assert teams[from..][0] == teams[from];
      if player in teams[from].players {
        OrderCons(teams, teams[from], from, rest, later);
      }
    }
  }

  /** Putting a matching team and its position in front keeps the pairing of teams and positions. */
  lemma OrderCons(teams: seq<Team>, t: Team, i: nat, rest: seq<Team>, later: seq<nat>)
    requires i < |teams| && teams[i] == t
    requires |rest| == |later| && forall k :: 0 <= k < |rest| ==> later[k] < |teams| && rest[k] == teams[later[k]]
    ensures var r, idx := [t] + rest, [i] + later;
            |r| == |idx| && forall k :: 0 <= k < |r| ==> idx[k] < |teams| && r[k] == teams[idx[k]]
  {
  }

  /** getTeam(String): the first team with the name. */
  function TeamNamed(teams: seq<Team>, name: string): (r: Option<Team>)
    ensures r.None? <==> forall t :: t in teams ==> t.name != name
    ensures r.Some? ==> r.value in teams && r.value.name == name
    ensures r.Some? ==> forall j :: 0 <= j < IndexOf(teams, r.value) ==> teams[j].name != name
  {
    if teams == [] then None
    else if teams[0].name == name then Some(teams[0])
    else TeamNamed(teams[1..], name)
  }

  class TeamList {
    var teams: seq<Team>

    constructor ()
      ensures teams == []
    {
      teams := [];
    }

    /** createTeam: a team already in the list is not added again. */
    method CreateTeam(team: Team)
      modifies this
      ensures teams == if team in old(teams) then old(teams) else old(teams) + [team]
      ensures NoDup(old(teams)) ==> NoDup(teams)
    {
      if team in teams {
        return;
      }
      teams := teams + [team];
    }

    method Dispose()
      modifies this
      ensures teams == []
    {
      teams := [];
    }

    function GetTeam(player: Player): Option<Team>
      reads this, teams
    {
      TeamOf(teams, player)
    }

    function GetTeams(player: Player): seq<Team>
      reads this, teams
    {
      TeamsOf(teams, player)
    }

    function GetTeamNamed(name: string): Option<Team>
      reads this
    {
      TeamNamed(teams, name)
    }
  }
}
