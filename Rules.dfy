/**
 * The rules of Pig as values: the computer's policy, the human's answer,
 * one turn over a stream of die faces, whole games (plain and timed) and the
 * timed game's tie-breaking winner selection.
 *
 * The die, the console and the wall clock are oracles: a turn reads die
 * faces from `rolls` starting at cursor `i`, human answers from `answers`
 * starting at cursor `j`, and the timed game reads one elapsed-time reading
 * from `clock` before each turn. When the die or the console runs dry before
 * a turn is over, the turn is abandoned and nothing is committed; a console
 * that runs dry stands for `input()` failing at end of input. A timed game
 * whose clock runs dry stops between turns.
 */
module Rules {
  import opened Wrappers

  /** A player whose score reaches this has won (Pig.py:88). */
  const WinningScore := 100
  /** The computer stops rolling once its turn total reaches this (Pig.py:39). */
  const TurnCap := 25
  /** Seconds a timed game may run before the next turn is refused (Pig.py:107). */
  const TimeLimit: real := 60.0

  predicate IsDieFace(v: int) { 1 <= v <= 6 }

  /** Every value the die can produce lies in 1..6 (Pig.py:13). */
  predicate AllDieFaces(rolls: seq<int>) {
    forall k :: 0 <= k < |rolls| ==> IsDieFace(rolls[k])
  }

  function Sum(s: seq<int>): int {
    if s == [] then 0 else s[0] + Sum(s[1..])
  }

  // ---------------------------------------------------------------------
  // Players and their decisions

  /** The two player variants: `Player` (console) and `ComputerPlayer`. */
  datatype Kind = Human | Computer

  /** The variant the factory builds for a type tag: only "computer" is special. */
  function KindOf(playerType: string): (k: Kind)
    ensures k == Computer <==> playerType == "computer"
  {
    if playerType == "computer" then Computer else Human
  }

  /** The computer's target for a turn: `min(25, 100 - score)`. */
  function Target(score: int): (t: int)
    ensures t <= TurnCap && t <= WinningScore - score
    ensures t == TurnCap || t == WinningScore - score
  {
    if TurnCap <= WinningScore - score then TurnCap else WinningScore - score
  }

  /**
   * The computer keeps rolling exactly while the turn total is under the cap
   * and banking it would still leave the player short of a win.
   */
  function ComputerDecides(score: int, turnTotal: int): (roll: bool)
    ensures roll <==> turnTotal < TurnCap && score + turnTotal < WinningScore
    ensures turnTotal >= Target(score) ==> !roll
    ensures score >= WinningScore && turnTotal >= 0 ==> !roll
  {
    turnTotal < Target(score)
  }

  function LowerChar(c: char): char {
    if 'A' <= c <= 'Z' then (c as int + 32) as char else c
  }

  /** Letter-case folding of a console line, character by character. */
  function Lower(s: string): (r: string)
    ensures |r| == |s|
    ensures forall k :: 0 <= k < |s| ==> r[k] == LowerChar(s[k])
  {
    if s == [] then [] else [LowerChar(s[0])] + Lower(s[1..])
  }

  /** A human rolls on when the line typed is "r" in either case, and holds on anything else. */
  function HumanDecides(line: string): (roll: bool)
    ensures roll <==> line == "r" || line == "R"
  {
    Lower(line) == "r"
  }

  /** What a player answered, and where the answer stream stands afterwards. */
  datatype Decision = Decision(roll: bool, answersEnd: nat)

  /**
   * `decides_to_roll` of either variant. The computer reads no input; a
   * human consumes one answer, and has none to give once `answers` is used up.
   */
  function Decide(kind: Kind, score: int, turnTotal: int, answers: seq<string>, j: nat): (d: Option<Decision>)
    requires j <= |answers|
    ensures d.Some? ==> j <= d.value.answersEnd <= |answers|
    ensures kind == Computer ==> d == Some(Decision(ComputerDecides(score, turnTotal), j))
    ensures kind == Human ==> (d.None? <==> j == |answers|)
    ensures kind == Human && d.Some? ==> d.value == Decision(HumanDecides(answers[j]), j + 1)
  {
    match kind
    case Computer => Some(Decision(ComputerDecides(score, turnTotal), j))
    case Human =>
      if j == |answers| then None else Some(Decision(HumanDecides(answers[j]), j + 1))
  }

  // ---------------------------------------------------------------------
  // One turn

  /** How a finished turn ended: the total to bank, whether it busted, and the cursors after it. */
  datatype TurnEnd = TurnEnd(total: int, busted: bool, rollsEnd: nat, answersEnd: nat)

  /**
   * The loop of `play_turn` from a point where `total` is already on the
   * table and the next face is `rolls[i]`: a 1 busts with total 0, any other
   * face is added and the player is asked whether to go on. None when the
   * die or the console runs dry first.
   */
  function TurnFrom(kind: Kind, score: int, total: int, rolls: seq<int>, i: nat, answers: seq<string>, j: nat)
    : (r: Option<TurnEnd>)
    requires i <= |rolls| && j <= |answers|
    ensures r.Some? ==> i < r.value.rollsEnd <= |rolls| && j <= r.value.answersEnd <= |answers|
    decreases |rolls| - i
  {
    if i == |rolls| then None
    else if rolls[i] == 1 then Some(TurnEnd(0, true, i + 1, j))
    else
      var t := total + rolls[i];
      match Decide(kind, score, t, answers, j)
      case None => None
      case Some(d) =>
        if d.roll then TurnFrom(kind, score, t, rolls, i + 1, answers, d.answersEnd)
        else Some(TurnEnd(t, false, i + 1, d.answersEnd))
  }

  /** A turn busts exactly when its last face is a 1, no earlier face is a 1, and a bust banks nothing. */
  lemma {:induction false} TurnBustDiscards(kind: Kind, score: int, total: int, rolls: seq<int>, i: nat,
                                            answers: seq<string>, j: nat, e: TurnEnd)
    requires i <= |rolls| && j <= |answers|
    requires TurnFrom(kind, score, total, rolls, i, answers, j) == Some(e)
    ensures e.busted <==> rolls[e.rollsEnd - 1] == 1
    ensures e.busted ==> e.total == 0
    ensures forall m :: i <= m < e.rollsEnd - 1 ==> rolls[m] != 1
    decreases |rolls| - i
  {
    if rolls[i] != 1 {
      var t := total + rolls[i];
      var d := Decide(kind, score, t, answers, j).value;
      if d.roll {
        TurnBustDiscards(kind, score, t, rolls, i + 1, answers, d.answersEnd, e);
      }
    }
  }

  /** A turn that ends by holding banks the running total plus every face drawn, none of them a 1. */
  lemma {:induction false} TurnHoldBanksRolls(kind: Kind, score: int, total: int, rolls: seq<int>, i: nat,
                                              answers: seq<string>, j: nat, e: TurnEnd)
    requires i <= |rolls| && j <= |answers|
    requires TurnFrom(kind, score, total, rolls, i, answers, j) == Some(e) && !e.busted
    ensures e.total == total + Sum(rolls[i..e.rollsEnd])
    ensures forall m :: i <= m < e.rollsEnd ==> rolls[m] != 1
    decreases |rolls| - i
  {
    var t := total + rolls[i];
    var d := Decide(kind, score, t, answers, j).value;
    if d.roll {
      TurnHoldBanksRolls(kind, score, t, rolls, i + 1, answers, d.answersEnd, e);
      assert rolls[i..e.rollsEnd][1..] == rolls[i + 1..e.rollsEnd];
    } else {
      assert rolls[i..e.rollsEnd] == [rolls[i]];
    }
  }

  lemma {:induction false} SumOfFacesAtLeastTwo(s: seq<int>)
    requires forall k :: 0 <= k < |s| ==> 2 <= s[k] <= 6
    ensures 2 * |s| <= Sum(s) <= 6 * |s|
  {
    if s != [] {
      SumOfFacesAtLeastTwo(s[1..]);
    }
  }

  /**
   * With a real die, a held turn banks the sum of faces in 2..6, so at least
   * two points per face drawn; a bust banks nothing. Either way no score drops.
   */
  lemma TurnBanksNonNegative(kind: Kind, score: int, rolls: seq<int>, i: nat,
                             answers: seq<string>, j: nat, e: TurnEnd)
    requires i <= |rolls| && j <= |answers| && AllDieFaces(rolls)
    requires TurnFrom(kind, score, 0, rolls, i, answers, j) == Some(e)
    ensures e.total >= 0
    ensures !e.busted ==> e.total >= 2 * (e.rollsEnd - i)
    ensures !e.busted ==> forall m :: i <= m < e.rollsEnd ==> 2 <= rolls[m] <= 6
  {
    TurnBustDiscards(kind, score, 0, rolls, i, answers, j, e);
    if !e.busted {
      TurnHoldBanksRolls(kind, score, 0, rolls, i, answers, j, e);
      var drawn := rolls[i..e.rollsEnd];
      assert forall k :: 0 <= k < |drawn| ==> drawn[k] == rolls[i + k];
      SumOfFacesAtLeastTwo(drawn);
    }
  }

  /**
   * A computer turn that ends by holding has reached the target, and when
   * the target is positive it overshoots it by less than one face.
   */
  lemma {:induction false} ComputerHoldsInBand(score: int, total: int, rolls: seq<int>, i: nat,
                                               answers: seq<string>, j: nat, e: TurnEnd)
    requires i <= |rolls| && j <= |answers| && AllDieFaces(rolls)
    requires total == 0 || total < Target(score)
    requires TurnFrom(Computer, score, total, rolls, i, answers, j) == Some(e) && !e.busted
    ensures Target(score) <= e.total
    ensures 0 < Target(score) ==> e.total < Target(score) + 6
    decreases |rolls| - i
  {
    var t := total + rolls[i];
    if ComputerDecides(score, t) {
      ComputerHoldsInBand(score, t, rolls, i + 1, answers, j, e);
    }
  }

  // ---------------------------------------------------------------------
  // The game's state between turns

  /** The two scores, in player order, and whose turn it is. */
  datatype GameState = GameState(scores: seq<int>, current: int) {
    predicate Valid() { |scores| == 2 && 0 <= current <= 1 }
  }

  /** `switch_turn`: the turn passes to the other player. */
  function Switched(current: int): (next: int)
    requires 0 <= current <= 1
    ensures 0 <= next <= 1 && next != current
  {
    1 - current
  }

  /** Switching twice gives the turn back. */
  lemma SwitchedTwice(current: int)
    requires 0 <= current <= 1
    ensures Switched(Switched(current)) == current
  {
  }

  /** Python list indexing: a negative index counts from the end. */
  function PyIndex(i: int, n: int): (k: int)
    requires -n <= i < n
    ensures 0 <= k < n && (k - i) % n == 0
  {
    if i < 0 then i + n else i
  }

  /** The player who has just moved, `players[current_player - 1]` read with Python's wrap-around. */
  function Mover(current: int): (m: int)
    requires 0 <= current <= 1
    ensures m == PyIndex(current - 1, 2)
  {
    1 - current
  }

  /** The tail of `play_turn`: bank the total for the active player, then switch turns. */
  function AfterTurn(s: GameState, total: int): (r: GameState)
    requires s.Valid()
    ensures r.Valid() && r.current == Switched(s.current) && Mover(r.current) == s.current
    ensures r.scores[s.current] == s.scores[s.current] + total
    ensures r.scores[Switched(s.current)] == s.scores[Switched(s.current)]
  {
    GameState(s.scores[s.current := s.scores[s.current] + total], Switched(s.current))
  }

  /** `is_winner`, on the player's score: won exactly at 100 or more, which is where the computer's target stops being positive. */
  function IsWinner(score: int): (won: bool)
    ensures won <==> WinningScore <= score
    ensures won <==> Target(score) <= 0
  {
    score >= WinningScore
  }

  // ---------------------------------------------------------------------
  // The timed game's winner: max over a name-keyed dict

  /** One key of a Python dict, in insertion order. */
  datatype Entry<K> = Entry(key: K, value: int)

  /** The keys of a dict, in insertion order. */
  function KeysOf<K>(d: seq<Entry<K>>): (ks: seq<K>)
    ensures |ks| == |d|
  {
    if d == [] then [] else [d[0].key] + KeysOf(d[1..])
  }

  /** A dict never holds a key twice. */
  predicate UniqueKeys<K(==)>(d: seq<Entry<K>>) {
    forall a, b :: 0 <= a < b < |d| ==> d[a].key != d[b].key
  }

  /** Dict assignment: an existing key keeps its place and takes the new value; a new key goes last. */
  function Put<K(==)>(d: seq<Entry<K>>, key: K, value: int): (r: seq<Entry<K>>)
    requires UniqueKeys(d)
    ensures UniqueKeys(r) && |d| <= |r| <= |d| + 1
    ensures forall m :: 0 <= m < |d| ==>
              r[m] == if d[m].key == key then Entry(key, value) else d[m]
    ensures (forall m :: 0 <= m < |d| ==> d[m].key != key) ==> |r| == |d| + 1
    ensures |r| == |d| + 1 ==> r[|d|] == Entry(key, value)
  {
    if d == [] then [Entry(key, value)]
    else if d[0].key == key then [Entry(key, value)] + d[1..]
    else
      var rest := Put(d[1..], key, value);
      assert forall m :: 0 <= m < |rest| ==> rest[m].key != d[0].key;
      [d[0]] + rest
  }

  /** A key already in the dict leaves the key order alone; a new key is appended. */
  lemma {:induction false} PutKeys<K>(d: seq<Entry<K>>, key: K, value: int)
    requires UniqueKeys(d)
    ensures key in KeysOf(d) ==> KeysOf(Put(d, key, value)) == KeysOf(d)
    ensures key !in KeysOf(d) ==> KeysOf(Put(d, key, value)) == KeysOf(d) + [key]
  {
    if d != [] && d[0].key != key {
      PutKeys(d[1..], key, value);
      assert Put(d, key, value)[1..] == Put(d[1..], key, value);
    }
  }

  /** `{player.name: player.score for player in players}`. */
  function ScoreTable<K(==)>(names: seq<K>, scores: seq<int>): (d: seq<Entry<K>>)
    requires |names| == |scores|
    ensures UniqueKeys(d) && |d| <= |names|
  {
    if names == [] then []
    else Put(ScoreTable(names[..|names| - 1], scores[..|scores| - 1]), names[|names| - 1], scores[|scores| - 1])
  }

  /** Every key of the score table is the name of a player. */
  lemma {:induction false} ScoreTableKeysAreNames<K>(names: seq<K>, scores: seq<int>)
    requires |names| == |scores|
    ensures forall key :: key in KeysOf(ScoreTable(names, scores)) ==> key in names
  {
    if names != [] {
      var n := |names| - 1;
      ScoreTableKeysAreNames(names[..n], scores[..n]);
      PutKeys(ScoreTable(names[..n], scores[..n]), names[n], scores[n]);
      var ks := KeysOf(ScoreTable(names[..n], scores[..n]));
      var keys := KeysOf(ScoreTable(names, scores));
      assert keys == ks || keys == ks + [names[n]];
      forall key | key in ks
        ensures key in names
      {
        var x :| 0 <= x < n && names[..n][x] == key;
        assert names[x] == key;
      }
    }
  }

  /** Adding the last player keeps the earlier keys and makes the last name a key. */
  lemma ScoreTableStep<K>(names: seq<K>, scores: seq<int>, key: K)
    requires |names| == |scores| && names != []
    ensures key == names[|names| - 1] || key in KeysOf(ScoreTable(names[..|names| - 1], scores[..|scores| - 1])) ==>
              key in KeysOf(ScoreTable(names, scores))
  {
    var n := |names| - 1;
    var before := ScoreTable(names[..n], scores[..n]);
    assert ScoreTable(names, scores) == Put(before, names[n], scores[n]);
    PutKeys(before, names[n], scores[n]);
    var ks := KeysOf(before);
    if names[n] !in ks {
      assert KeysOf(ScoreTable(names, scores)) == ks + [names[n]];
      assert (ks + [names[n]])[|ks|] == names[n];
      if key in ks {
        var x :| 0 <= x < |ks| && ks[x] == key;
        assert (ks + [names[n]])[x] == key;
      }
    }
  }

  /** Every player's name is a key of the score table. */
  lemma {:induction false} ScoreTableNamesAreKeys<K>(names: seq<K>, scores: seq<int>, k: nat)
    requires |names| == |scores| && k < |names|
    ensures names[k] in KeysOf(ScoreTable(names, scores))
  {
    var n := |names| - 1;
    if k < n {
      ScoreTableNamesAreKeys(names[..n], scores[..n], k);
      assert names[..n][k] == names[k];
    }
    ScoreTableStep(names, scores, names[k]);
  }

  function MaxFrom<K>(d: seq<Entry<K>>, best: nat, m: nat): (k: nat)
    requires best < m <= |d|
    requires forall x :: 0 <= x < m ==> d[x].value <= d[best].value
    requires forall x :: 0 <= x < best ==> d[x].value < d[best].value
    ensures k < |d|
    ensures forall x :: 0 <= x < |d| ==> d[x].value <= d[k].value
    ensures forall x :: 0 <= x < k ==> d[x].value < d[k].value
    decreases |d| - m
  {
    if m == |d| then best
    else if d[m].value > d[best].value then MaxFrom(d, m, m + 1)
    else MaxFrom(d, best, m + 1)
  }

  /** `max(d, key=d.get)`: the position of the first entry holding the largest value. */
  function MaxByValue<K>(d: seq<Entry<K>>): (k: nat)
    requires |d| > 0
    ensures k < |d|
    ensures forall x :: 0 <= x < |d| ==> d[x].value <= d[k].value
    ensures forall x :: 0 <= x < k ==> d[x].value < d[k].value
  {
    MaxFrom(d, 0, 1)
  }

  /**
   * `declare_winner`: the name and score of a player with the highest score,
   * the first player on a tie. Two players with one name share one dict key,
   * which keeps the first player's place and the second player's score.
   */
  function DeclareWinner(names: seq<string>, scores: seq<int>): (w: (string, int))
    requires |names| == 2 && |scores| == 2
    ensures names[0] != names[1] ==>
              w == if scores[1] > scores[0] then (names[1], scores[1]) else (names[0], scores[0])
    ensures names[0] == names[1] ==> w == (names[0], scores[1])
  {
    var d := ScoreTable(names, scores);
    assert ScoreTable(names[..1], scores[..1]) == [Entry(names[0], scores[0])];
    assert d == Put([Entry(names[0], scores[0])], names[1], scores[1]);
    assert names[0] != names[1] ==> d == [Entry(names[0], scores[0])] + Put([], names[1], scores[1]);
    assert names[0] == names[1] ==> d == [Entry(names[0], scores[1])];
    var k := MaxByValue(d);
    (d[k].key, d[k].value)
  }

  // ---------------------------------------------------------------------
  // Whole games

  /** How a game loop stopped. Suspended: the die or the console ran dry in the middle of a turn, or the clock between turns. */
  datatype Outcome = Win(name: string, score: int) | TimeUp(name: string, score: int) | Suspended

  /** Where a game loop stopped: the state, the number of turns played, the cursors and the outcome. */
  datatype Run = Run(final: GameState, turns: nat, rollsEnd: nat, answersEnd: nat, outcome: Outcome)

  /** `Game.play_game` from state `s` after `n` turns: play a turn, stop when the mover has won. */
  function PlayFrom(kinds: seq<Kind>, names: seq<string>, s: GameState, n: nat,
                    rolls: seq<int>, i: nat, answers: seq<string>, j: nat): (run: Run)
    requires |kinds| == 2 && |names| == 2 && s.Valid() && i <= |rolls| && j <= |answers|
    ensures run.final.Valid() && n <= run.turns
    decreases |rolls| - i
  {
    match TurnFrom(kinds[s.current], s.scores[s.current], 0, rolls, i, answers, j)
    case None => Run(s, n, i, j, Suspended)
    case Some(e) =>
      var s' := AfterTurn(s, e.total);
      var w := Mover(s'.current);
      if IsWinner(s'.scores[w]) then Run(s', n + 1, e.rollsEnd, e.answersEnd, Win(names[w], s'.scores[w]))
      else PlayFrom(kinds, names, s', n + 1, rolls, e.rollsEnd, answers, e.answersEnd)
  }

  /**
   * `Proxy.play_game` from state `s` after `n` turns: before each turn read
   * the clock; past the limit, declare the highest score the winner instead.
   */
  function TimedFrom(kinds: seq<Kind>, names: seq<string>, s: GameState, n: nat, clock: seq<real>,
                     rolls: seq<int>, i: nat, answers: seq<string>, j: nat): (run: Run)
    requires |kinds| == 2 && |names| == 2 && s.Valid()
    requires n <= |clock| && i <= |rolls| && j <= |answers|
    ensures run.final.Valid() && n <= run.turns <= |clock|
    decreases |rolls| - i
  {
    if n == |clock| then Run(s, n, i, j, Suspended)
    else if clock[n] > TimeLimit then
      var w := DeclareWinner(names, s.scores);
      Run(s, n, i, j, TimeUp(w.0, w.1))
    else
      match TurnFrom(kinds[s.current], s.scores[s.current], 0, rolls, i, answers, j)
      case None => Run(s, n, i, j, Suspended)
      case Some(e) =>
        var s' := AfterTurn(s, e.total);
        var w := Mover(s'.current);
        if IsWinner(s'.scores[w]) then Run(s', n + 1, e.rollsEnd, e.answersEnd, Win(names[w], s'.scores[w]))
        else TimedFrom(kinds, names, s', n + 1, clock, rolls, e.rollsEnd, answers, e.answersEnd)
  }

  /**
   * Starting with nobody at the winning score, a game stops with a win
   * exactly when someone reached it; the winner reported is the player who
   * moved last, with that player's score, and the other player is still short.
   */
  lemma {:induction false} PlayEndsOnlyOnWin(kinds: seq<Kind>, names: seq<string>, s: GameState, n: nat,
                                             rolls: seq<int>, i: nat, answers: seq<string>, j: nat)
    requires |kinds| == 2 && |names| == 2 && s.Valid() && i <= |rolls| && j <= |answers|
    requires !IsWinner(s.scores[0]) && !IsWinner(s.scores[1])
    ensures var run := PlayFrom(kinds, names, s, n, rolls, i, answers, j);
            var w := Mover(run.final.current);
            && (run.outcome.Win? ==>
                  run.outcome == Win(names[w], run.final.scores[w])
                  && IsWinner(run.final.scores[w]) && !IsWinner(run.final.scores[1 - w]))
            && (!run.outcome.Win? ==>
                  run.outcome == Suspended
                  && !IsWinner(run.final.scores[0]) && !IsWinner(run.final.scores[1]))
    decreases |rolls| - i
  {
    match TurnFrom(kinds[s.current], s.scores[s.current], 0, rolls, i, answers, j)
    case None =>
    case Some(e) =>
      var s' := AfterTurn(s, e.total);
      if !IsWinner(s'.scores[Mover(s'.current)]) {
        PlayEndsOnlyOnWin(kinds, names, s', n + 1, rolls, e.rollsEnd, answers, e.answersEnd);
      }
  }

  /** With a real die no score ever goes down over a game, and the turns alternate. */
  lemma {:induction false} PlayScoresNeverDrop(kinds: seq<Kind>, names: seq<string>, s: GameState, n: nat,
                                               rolls: seq<int>, i: nat, answers: seq<string>, j: nat)
    requires |kinds| == 2 && |names| == 2 && s.Valid() && i <= |rolls| && j <= |answers|
    requires AllDieFaces(rolls)
    ensures var run := PlayFrom(kinds, names, s, n, rolls, i, answers, j);
            && run.final.scores[0] >= s.scores[0] && run.final.scores[1] >= s.scores[1]
            && run.final.current == (s.current + run.turns - n) % 2
    decreases |rolls| - i
  {
    match TurnFrom(kinds[s.current], s.scores[s.current], 0, rolls, i, answers, j)
    case None =>
    case Some(e) =>
      TurnBanksNonNegative(kinds[s.current], s.scores[s.current], rolls, i, answers, j, e);
      var s' := AfterTurn(s, e.total);
      if !IsWinner(s'.scores[Mover(s'.current)]) {
        PlayScoresNeverDrop(kinds, names, s', n + 1, rolls, e.rollsEnd, answers, e.answersEnd);
      }
  }

  /**
   * Every turn of a timed game started with the clock within the limit, and
   * a game stopped by the clock plays no turn after the reading that passed
   * the limit and names a player holding the highest score.
   */
  lemma {:induction false} TimedStopsAtLimit(kinds: seq<Kind>, names: seq<string>, s: GameState, n: nat,
                                             clock: seq<real>, rolls: seq<int>, i: nat, answers: seq<string>, j: nat)
    requires |kinds| == 2 && |names| == 2 && s.Valid()
    requires n <= |clock| && i <= |rolls| && j <= |answers|
    ensures var run := TimedFrom(kinds, names, s, n, clock, rolls, i, answers, j);
            && (forall k :: n <= k < run.turns ==> clock[k] <= TimeLimit)
            && (run.outcome.TimeUp? ==>
                  && run.turns < |clock| && clock[run.turns] > TimeLimit
                  && run.outcome == TimeUp(DeclareWinner(names, run.final.scores).0,
                                           DeclareWinner(names, run.final.scores).1)
                  && (run.outcome.score == run.final.scores[0] || run.outcome.score == run.final.scores[1])
                  && (names[0] != names[1] ==>
                        run.outcome.score >= run.final.scores[0] && run.outcome.score >= run.final.scores[1]))
    decreases |rolls| - i
  {
    if n < |clock| && clock[n] <= TimeLimit {
      match TurnFrom(kinds[s.current], s.scores[s.current], 0, rolls, i, answers, j)
      case None =>
      case Some(e) =>
        var s' := AfterTurn(s, e.total);
        if !IsWinner(s'.scores[Mover(s'.current)]) {
          TimedStopsAtLimit(kinds, names, s', n + 1, clock, rolls, e.rollsEnd, answers, e.answersEnd);
        }
    }
  }

  /**
   * While the clock stays within the limit (and has a reading for every
   * turn the die could feed), the timed game plays exactly the plain game.
   */
  lemma {:induction false} TimedWithinLimitIsPlain(kinds: seq<Kind>, names: seq<string>, s: GameState, n: nat,
                                                   clock: seq<real>, rolls: seq<int>, i: nat, answers: seq<string>, j: nat)
    requires |kinds| == 2 && |names| == 2 && s.Valid()
    requires n <= |clock| && i <= |rolls| && j <= |answers|
    requires |clock| - n > |rolls| - i
    requires forall k :: n <= k < |clock| ==> clock[k] <= TimeLimit
    ensures TimedFrom(kinds, names, s, n, clock, rolls, i, answers, j) == PlayFrom(kinds, names, s, n, rolls, i, answers, j)
    decreases |rolls| - i
  {
    match TurnFrom(kinds[s.current], s.scores[s.current], 0, rolls, i, answers, j)
    case None =>
    case Some(e) =>
      var s' := AfterTurn(s, e.total);
      if !IsWinner(s'.scores[Mover(s'.current)]) {
        TimedWithinLimitIsPlain(kinds, names, s', n + 1, clock, rolls, e.rollsEnd, answers, e.answersEnd);
      }
  }

  /**
   * A timed game that ends in a win, whatever the clock holds afterwards,
   * has played exactly the plain game: the proxy's win check is the game's.
   */
  lemma {:induction false} TimedWinIsPlain(kinds: seq<Kind>, names: seq<string>, s: GameState, n: nat,
                                           clock: seq<real>, rolls: seq<int>, i: nat, answers: seq<string>, j: nat)
    requires |kinds| == 2 && |names| == 2 && s.Valid()
    requires n <= |clock| && i <= |rolls| && j <= |answers|
    ensures var run := TimedFrom(kinds, names, s, n, clock, rolls, i, answers, j);
            run.outcome.Win? ==> run == PlayFrom(kinds, names, s, n, rolls, i, answers, j)
    decreases |rolls| - i
  {
    if n < |clock| && clock[n] <= TimeLimit {
      match TurnFrom(kinds[s.current], s.scores[s.current], 0, rolls, i, answers, j)
      case None =>
      case Some(e) =>
        var s' := AfterTurn(s, e.total);
        if !IsWinner(s'.scores[Mover(s'.current)]) {
          TimedWinIsPlain(kinds, names, s', n + 1, clock, rolls, e.rollsEnd, answers, e.answersEnd);
        }
    }
  }

  // ---------------------------------------------------------------------
  // Worked scenarios

  /** A computer with target 25 draws 5, 4 and then a 1: the turn busts and banks nothing. */
  lemma BustScenario()
    ensures TurnFrom(Computer, 0, 0, [5, 4, 1], 0, [], 0) == Some(TurnEnd(0, true, 3, 0))
  {
  }

  /** A computer at 97 rolls a 3, holds at its target of 3 and wins with 100. */
  lemma WinFrom97Scenario()
    ensures PlayFrom([Computer, Computer], ["Player 1", "Player 2"], GameState([97, 50], 0), 0, [3], 0, [], 0)
            == Run(GameState([100, 50], 1), 1, 1, 0, Win("Player 1", 100))
  {
  }

  /** At 61 seconds with scores 40 and 55 the timed game plays no turn and names Player 2 with 55. */
  lemma TimeUpScenario()
    ensures TimedFrom([Human, Computer], ["Player 1", "Player 2"], GameState([40, 55], 0), 0, [61.0], [6, 6], 0, ["r"], 0)
            == Run(GameState([40, 55], 0), 0, 0, 0, TimeUp("Player 2", 55))
  {
  }
}
