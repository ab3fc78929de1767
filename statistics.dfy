/**
 * The play statistics: how many games were played, how many the game
 * guessed right, and how many taught it a new character.
 */
module Statistics {

  datatype Stats = Stats(played: nat, wins: nat, learned: nat)

  /** The counters `load_stats` starts from when no statistics are stored. */
  const Fresh := Stats(0, 0, 0)

  /** How a game ends: a right guess, or a wrong one that was learned from. */
  datatype Outcome = Win | Learn

  /** The counter update after a finished game: one more game played, and
      one more win or one more learned character. */
  function Record(s: Stats, o: Outcome): (r: Stats)
    ensures r.played == s.played + 1
    ensures r.wins == s.wins + (if o == Win then 1 else 0)
    ensures r.learned == s.learned + (if o == Learn then 1 else 0)
  {
    match o
    case Win => s.(played := s.played + 1, wins := s.wins + 1)
    case Learn => s.(played := s.played + 1, learned := s.learned + 1)
  }

  /** Every game played was either won or learned from. */
  predicate Balanced(s: Stats)
  {
    s.played == s.wins + s.learned
  }

  /** A finished game keeps the counters balanced. */
  lemma RecordKeepsBalanced(s: Stats, o: Outcome)
    requires Balanced(s)
    ensures Balanced(Record(s, o)) && Record(s, o).wins <= Record(s, o).played
  {
  }

  /** The counters after the games `os`, in order, from fresh statistics. */
  function Tally(os: seq<Outcome>): Stats
  {
    if os == [] then Fresh else Record(Tally(os[..|os| - 1]), os[|os| - 1])
  }

  /** After N wins and M learned games, in any order: N + M played, N won,
      M learned. */
  lemma {:induction false} TallyCounts(os: seq<Outcome>)
    ensures Tally(os) == Stats(|os|, multiset(os)[Win], multiset(os)[Learn])
    ensures Balanced(Tally(os))
  {
    if os != [] {
      var init, last := os[..|os| - 1], os[|os| - 1];
      assert os == init + [last];
      assert multiset(os) == multiset(init) + multiset{last};
      TallyCounts(init);
    }
  }

  /** The accuracy shown in the status line: the percentage of games won,
      or 0 before any game was played. */
  function Accuracy(s: Stats): (r: real)
    ensures s.played == 0 ==> r == 0.0
    ensures s.played > 0 ==> r * (s.played as real) == 100.0 * (s.wins as real)
    ensures s.wins <= s.played ==> 0.0 <= r <= 100.0
  {
    if s.played > 0 then (s.wins as real) / (s.played as real) * 100.0 else 0.0
  }

  /** The accuracy after N wins and M learned games is N / (N + M) * 100,
      or 0 when no game was played. */
  lemma TallyAccuracy(os: seq<Outcome>)
    ensures var n, m := multiset(os)[Win], multiset(os)[Learn];
      Accuracy(Tally(os)) == if n + m == 0 then 0.0 else (n as real) / ((n + m) as real) * 100.0
  {
    TallyCounts(os);
  }
}
