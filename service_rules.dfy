/**
 * The value-level rules behind `GameDataService`: the rank a score earns,
 * how recording a session changes a player's statistics, and the two
 * filters over the session list (`Where` for one player's sessions,
 * `RemoveAll` for the cascade when a player is deleted).
 */
module ServiceRules {
  import opened Time
  import opened Lists
  import opened Players
  import opened GameSessions

  /** The rank names, lowest tier first. */
  const Ranks: seq<string> := ["Beginner", "Intermediate", "Advanced", "Expert", "Master", "Legend"]

  /** The score a tier needs: reaching `Thresholds[k]` lifts a score above tier k. */
  const Thresholds: seq<int> := [500, 1000, 2500, 5000, 10000]

  /** How many of the thresholds a score reaches: the index of its tier in `Ranks`. */
  function TiersReached(thresholds: seq<int>, score: int): (n: nat)
    ensures n <= |thresholds|
  {
    if thresholds == [] then 0
    else (if score >= thresholds[0] then 1 else 0) + TiersReached(thresholds[1..], score)
  }

  /** A higher score never reaches fewer thresholds. */
  lemma {:induction false} TiersReachedMonotone(thresholds: seq<int>, a: int, b: int)
    requires a <= b
    ensures TiersReached(thresholds, a) <= TiersReached(thresholds, b)
  {
    if thresholds != [] {
      TiersReachedMonotone(thresholds[1..], a, b);
    }
  }

  /** The tier of each score band, unfolded over the five thresholds. */
  lemma TiersOfThresholds(score: int)
    ensures TiersReached(Thresholds, score) ==
      if score >= 10000 then 5
      else if score >= 5000 then 4
      else if score >= 2500 then 3
      else if score >= 1000 then 2
      else if score >= 500 then 1
      else 0
  {
    var t5: seq<int> := [];
    var t4 := [10000] + t5;
    var t3 := [5000] + t4;
    var t2 := [2500] + t3;
    var t1 := [1000] + t2;
    assert Thresholds == [500] + t1;
    assert TiersReached(t4, score) == if score >= 10000 then 1 else 0 by {
      assert t4[1..] == t5;
    }
    assert t3[1..] == t4 && t2[1..] == t3 && t1[1..] == t2 && Thresholds[1..] == t1;
    assert TiersReached(t3, score) == (if score >= 5000 then 1 else 0) + TiersReached(t4, score);
    assert TiersReached(t2, score) == (if score >= 2500 then 1 else 0) + TiersReached(t3, score);
    assert TiersReached(t1, score) == (if score >= 1000 then 1 else 0) + TiersReached(t2, score);
    assert TiersReached(Thresholds, score) == (if score >= 500 then 1 else 0) + TiersReached(t1, score);
  }

  /**
   * The rank a session's score earns, tested highest threshold first.
   * Its tier is the number of thresholds the score reaches.
   */
  function RankFor(score: int): (rank: string)
    ensures rank == Ranks[TiersReached(Thresholds, score)]
  {
    TiersOfThresholds(score);
    if score >= 10000 then "Legend"
    else if score >= 5000 then "Master"
    else if score >= 2500 then "Expert"
    else if score >= 1000 then "Advanced"
    else if score >= 500 then "Intermediate"
    else "Beginner"
  }

  /**
   * A higher session score never earns a lower rank: the lower score's rank
   * is among the ranks up to and including the higher score's.
   */
  lemma RankMonotone(a: int, b: int)
    requires a <= b
    ensures TiersReached(Thresholds, a) <= TiersReached(Thresholds, b)
    ensures RankFor(a) in Ranks[..TiersReached(Thresholds, b) + 1]
  {
    TiersReachedMonotone(Thresholds, a, b);
    var ta := TiersReached(Thresholds, a);
    assert Ranks[..TiersReached(Thresholds, b) + 1][ta] == Ranks[ta];
  }

  /**
   * A player's record after a session with `score` is recorded at `now`:
   * one more game, the score added to the total, the best score kept as
   * the maximum, and the rank set from this session's score.
   */
  function RecordGame(p: Player, score: int, now: DateTime): (r: Player)
    ensures r.playerId == p.playerId && r.playerName == p.playerName
    ensures r.dateRegistered == p.dateRegistered && r.lastPlayed == now
    ensures r.totalGamesPlayed == p.totalGamesPlayed + 1
    ensures r.totalScore == p.totalScore + score
    ensures r.highestScore >= p.highestScore && r.highestScore >= score
    ensures r.highestScore == p.highestScore || r.highestScore == score
    ensures r.rank == Ranks[TiersReached(Thresholds, score)]
  {
    p.(totalGamesPlayed := p.totalGamesPlayed + 1,
       totalScore := p.totalScore + score,
       lastPlayed := now,
       highestScore := if score > p.highestScore then score else p.highestScore,
       rank := RankFor(score))
  }

  /**
   * The rank follows the last session's score, not the best score: a
   * Master who then scores 2000 keeps a best of 6000 but drops to Advanced.
   */
  lemma RankFollowsLastSession(p: Player, now: DateTime)
    requires p.highestScore == 6000 && p.rank == "Master"
    ensures RecordGame(p, 2000, now).highestScore == 6000
    ensures RecordGame(p, 2000, now).rank == "Advanced"
  {
  }

  /** The sessions of one player, in list order. */
  function SessionsOf(ss: seq<GameSession>, playerId: int): (r: seq<GameSession>)
    ensures |r| <= |ss|
    ensures forall s :: s in r <==> s in ss && s.playerId == playerId
  {
    if ss == [] then []
    else (if ss[0].playerId == playerId then [ss[0]] else []) + SessionsOf(ss[1..], playerId)
  }

  /** The sessions of every other player, in list order. */
  function SessionsNotOf(ss: seq<GameSession>, playerId: int): (r: seq<GameSession>)
    ensures |r| <= |ss|
    ensures forall s :: s in r <==> s in ss && s.playerId != playerId
  {
    if ss == [] then []
    else (if ss[0].playerId != playerId then [ss[0]] else []) + SessionsNotOf(ss[1..], playerId)
  }

  /** Filtering is taken piecewise over a concatenation, so list order is kept. */
  lemma {:induction false} SessionsOfAppend(a: seq<GameSession>, b: seq<GameSession>, playerId: int)
    ensures SessionsOf(a + b, playerId) == SessionsOf(a, playerId) + SessionsOf(b, playerId)
  {
    if a != [] {
      assert (a + b)[0] == a[0];
      assert (a + b)[1..] == a[1..] + b;
      SessionsOfAppend(a[1..], b, playerId);
    } else {
      assert a + b == b;
    }
  }

  /** The cascade is taken piecewise over a concatenation, so the kept sessions stay in list order. */
  lemma {:induction false} SessionsNotOfAppend(a: seq<GameSession>, b: seq<GameSession>, playerId: int)
    ensures SessionsNotOf(a + b, playerId) == SessionsNotOf(a, playerId) + SessionsNotOf(b, playerId)
  {
    if a != [] {
      assert (a + b)[0] == a[0];
      assert (a + b)[1..] == a[1..] + b;
      SessionsNotOfAppend(a[1..], b, playerId);
    } else {
      assert a + b == b;
    }
  }

  /** Recording one more session adds it to its own player's sessions only. */
  lemma SessionsOfAppendOne(ss: seq<GameSession>, session: GameSession)
    ensures forall playerId ::
      SessionsOf(ss + [session], playerId) == SessionsOf(ss, playerId) + if playerId == session.playerId then [session] else []
  {
    forall playerId ensures SessionsOf(ss + [session], playerId) ==
      SessionsOf(ss, playerId) + if playerId == session.playerId then [session] else []
    {
      SessionsOfAppend(ss, [session], playerId);
      assert [session][1..] == [];
    }
  }

  /** The cascade splits the list: each session is either the player's or kept. */
  lemma {:induction false} SessionsPartition(ss: seq<GameSession>, playerId: int)
    ensures |SessionsOf(ss, playerId)| + |SessionsNotOf(ss, playerId)| == |ss|
  {
    if ss != [] {
      SessionsPartition(ss[1..], playerId);
    }
  }

  /**
   * After the cascade for `playerId`, that player has no sessions left and
   * every other player has exactly the sessions they had, in the same order.
   */
  lemma {:induction false} SessionsOfAfterCascade(ss: seq<GameSession>, playerId: int, other: int)
    ensures SessionsOf(SessionsNotOf(ss, playerId), other) ==
      if other == playerId then [] else SessionsOf(ss, other)
  {
    if ss != [] {
      SessionsOfAfterCascade(ss[1..], playerId, other);
      var head := if ss[0].playerId != playerId then [ss[0]] else [];
      SessionsOfAppend(head, SessionsNotOf(ss[1..], playerId), other);
    }
  }

  /** The cascade keeps the ids of the remaining sessions in order. */
  lemma {:induction false} SessionsNotOfOrdered(ss: seq<GameSession>, next: int, playerId: int)
    requires IdsOrdered(ss, GameSessions.IdOf, next)
    ensures IdsOrdered(SessionsNotOf(ss, playerId), GameSessions.IdOf, next)
  {
    if ss != [] {
      var rest := SessionsNotOf(ss[1..], playerId);
      OrderedTail(ss, GameSessions.IdOf, next);
      SessionsNotOfOrdered(ss[1..], next, playerId);
      if ss[0].playerId != playerId {
        forall k | 0 <= k < |rest| ensures ss[0].sessionId < rest[k].sessionId {
          assert rest[k] in ss[1..];
        }
        OrderedCons(ss[0], rest, GameSessions.IdOf, next);
      }
    }
  }
}
