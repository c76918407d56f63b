/**
 * The objects of the Pig program: players whose score is updated in place,
 * the game that holds two players and whose turn it is, and the proxy that
 * runs a game against a clock. Each loop is proved against the value-level
 * rules of module Rules.
 */
module Pig {
  import opened Wrappers
  import opened Rules

  /** A player; `kind` stands for the choice between `Player` and its subclass `ComputerPlayer`. */
  class Player {
    const name: string
    const kind: Kind
    var score: int

    constructor (name: string, kind: Kind)
      ensures this.name == name && this.kind == kind && score == 0
    {
      this.name := name;
      this.kind := kind;
      score := 0;
    }

    /** `add_score`: bank points. */
    method AddScore(points: int)
      modifies this
      ensures score == old(score) + points
    {
      score := score + points;
    }

    /** `reset_score`: back to zero. */
    method ResetScore()
      modifies this
      ensures score == 0
    {
      score := 0;
    }
  }

  /** `PlayerFactory.create_player`: a computer player for the tag "computer", a human one for any other tag. */
  method CreatePlayer(playerType: string, name: string) returns (p: Player)
    ensures fresh(p) && p.name == name && p.score == 0
    ensures p.kind == KindOf(playerType)
  {
    p := new Player(name, KindOf(playerType));
  }

  class Game {
    const players: seq<Player>
    var current: int

    /** Two distinct players, and `current` indexes one of them. */
    ghost predicate Valid()
      reads this
    {
      |players| == 2 && players[0] != players[1] && 0 <= current <= 1
    }

    /** The scores and the turn index, as a value. */
    ghost function Snapshot(): (s: GameState)
      requires Valid()
      reads this, players
      ensures s.Valid()
    {
      GameState([players[0].score, players[1].score], current)
    }

    function Kinds(): seq<Kind>
      requires |players| == 2
    {
      [players[0].kind, players[1].kind]
    }

    function Names(): seq<string>
      requires |players| == 2
    {
      [players[0].name, players[1].name]
    }

    constructor (player1: Player, player2: Player)
      requires player1 != player2
      ensures Valid() && players == [player1, player2] && current == 0
    {
      players := [player1, player2];
      current := 0;
    }

    /** `switch_turn`. */
    method SwitchTurn()
      requires Valid()
      modifies this`current
      ensures Valid() && current == Switched(old(current))
    {
      current := 1 - current;
    }

    /**
     * `play_turn`: draw faces from `rolls[i..]` until a 1 or a hold, bank the
     * turn total for the active player and pass the turn. When the die or the
     * console runs dry first, nothing changes and the result is None.
     */
    method PlayTurn(rolls: seq<int>, i: nat, answers: seq<string>, j: nat) returns (r: Option<TurnEnd>)
      requires Valid() && i <= |rolls| && j <= |answers|
      modifies this, players[current]
      ensures Valid()
      ensures r == TurnFrom(players[old(current)].kind, old(players[current].score), 0, rolls, i, answers, j)
      ensures r.Some? ==> Snapshot() == AfterTurn(old(Snapshot()), r.value.total)
      ensures r.None? ==> Snapshot() == old(Snapshot())
    {
      var player := players[current];
      ghost var whole := TurnFrom(player.kind, player.score, 0, rolls, i, answers, j);
      var total := 0;
      var k, m := i, j;
      r := None;
      while k < |rolls|
        invariant i <= k <= |rolls| && j <= m <= |answers|
        invariant r == None
        invariant TurnFrom(player.kind, player.score, total, rolls, k, answers, m) == whole
        decreases |rolls| - k
      {
        var roll := rolls[k];
        k := k + 1;
        if roll == 1 {
          total := 0;
          r := Some(TurnEnd(total, true, k, m));
          break;
        }
        total := total + roll;
        var d := Decide(player.kind, player.score, total, answers, m);
        if d.None? {
          break;
        }
        m := d.value.answersEnd;
        if !d.value.roll {
          r := Some(TurnEnd(total, false, k, m));
          break;
        }
      }
      assert r == whole;
      if r.Some? {
        player.AddScore(total);
        SwitchTurn();
      }
    }

    /**
     * `play_game`: play turns until the player who just moved, found at
     * `players[current_player - 1]`, has won.
     */
    method PlayGame(rolls: seq<int>, answers: seq<string>) returns (outcome: Outcome)
      requires Valid()
      modifies this, players
      ensures Valid()
      ensures var run := PlayFrom(Kinds(), Names(), old(Snapshot()), 0, rolls, 0, answers, 0);
              outcome == run.outcome && Snapshot() == run.final
    {
      ghost var run := PlayFrom(Kinds(), Names(), Snapshot(), 0, rolls, 0, answers, 0);
      var i: nat, j: nat := 0, 0;
      ghost var n: nat := 0;
      while true
        invariant Valid() && i <= |rolls| && j <= |answers|
        invariant PlayFrom(Kinds(), Names(), Snapshot(), n, rolls, i, answers, j) == run
        decreases |rolls| - i
      {
        var r := PlayTurn(rolls, i, answers, j);
        if r.None? {
          return Suspended;
        }
        i, j, n := r.value.rollsEnd, r.value.answersEnd, n + 1;
        var mover := players[Mover(current)];
        if IsWinner(mover.score) {
          return Win(mover.name, mover.score);
        }
      }
    }
  }

  /** The timed variant: wraps a game and reads the elapsed time before every turn. */
  class Proxy {
    const game: Game

    constructor (game: Game)
      ensures this.game == game
    {
      this.game := game;
    }

    /**
     * `Proxy.play_game`: `clock[n]` is the elapsed time read before the n-th
     * turn. Past the limit the highest score wins and no turn is played.
     */
    method PlayGame(clock: seq<real>, rolls: seq<int>, answers: seq<string>) returns (outcome: Outcome)
      requires game.Valid()
      modifies game, game.players
      ensures game.Valid()
      ensures var run := TimedFrom(game.Kinds(), game.Names(), old(game.Snapshot()), 0, clock, rolls, 0, answers, 0);
              outcome == run.outcome && game.Snapshot() == run.final
    {
      ghost var run := TimedFrom(game.Kinds(), game.Names(), game.Snapshot(), 0, clock, rolls, 0, answers, 0);
      var n: nat, i: nat, j: nat := 0, 0, 0;
      while true
        invariant game.Valid() && n <= |clock| && i <= |rolls| && j <= |answers|
        invariant TimedFrom(game.Kinds(), game.Names(), game.Snapshot(), n, clock, rolls, i, answers, j) == run
        decreases |rolls| - i
      {
        if n == |clock| {
          return Suspended;
        }
        if clock[n] > TimeLimit {
          var w := DeclareWinner(game.Names(), [game.players[0].score, game.players[1].score]);
          return TimeUp(w.0, w.1);
        }
        var r := game.PlayTurn(rolls, i, answers, j);
        if r.None? {
          return Suspended;
        }
        i, j, n := r.value.rollsEnd, r.value.answersEnd, n + 1;
        var mover := game.players[Mover(game.current)];
        if IsWinner(mover.score) {
          return Win(mover.name, mover.score);
        }
      }
    }
  }
}
