/*
 * The table of ongoing games: one game per pair of users, stored under a
 * key built from the two names in lexicographic order.
 */
module Registry {
  import opened Play
  import opened Engine

  /** The separator between the two names of a pair key. */
  const Separator: string := "$$"

  /**
   * Go's <= on strings: lexicographic, comparing characters by code; a
   * proper prefix comes first.
   */
  predicate LexLessEq(a: string, b: string)
    decreases |a|
  {
    |a| == 0 || (|b| > 0 && (a[0] < b[0] || (a[0] == b[0] && LexLessEq(a[1..], b[1..]))))
  }

  /** Any two names are ordered one way or the other. */
  lemma {:induction false} LexTotal(a: string, b: string)
    ensures LexLessEq(a, b) || LexLessEq(b, a)
    decreases |a|
  {
    if |a| > 0 && |b| > 0 && a[0] == b[0] {
      LexTotal(a[1..], b[1..]);
    }
  }

  /** Two names ordered both ways are the same name. */
  lemma {:induction false} LexAntisymmetric(a: string, b: string)
    requires LexLessEq(a, b) && LexLessEq(b, a)
    ensures a == b
    decreases |a|
  {
    if |a| > 0 {
      LexAntisymmetric(a[1..], b[1..]);
      assert a == [a[0]] + a[1..] && b == [b[0]] + b[1..];
    }
  }

  /**
   * getUserPairKey: the smaller name, the separator, the larger name; when
   * userA <= userB the key starts with userA.
   */
  function GetUserPairKey(userA: string, userB: string): (k: string)
    ensures LexLessEq(userA, userB) ==> k == userA + Separator + userB
    ensures !LexLessEq(userA, userB) ==> k == userB + Separator + userA && LexLessEq(userB, userA)
  {
    LexTotal(userA, userB);
    if LexLessEq(userA, userB) then userA + Separator + userB else userB + Separator + userA
  }

  /** The key does not depend on which of the two users is named first. */
  lemma PairKeySymmetric(userA: string, userB: string)
    ensures GetUserPairKey(userA, userB) == GetUserPairKey(userB, userA)
  {
    if LexLessEq(userA, userB) && LexLessEq(userB, userA) {
      LexAntisymmetric(userA, userB);
    }
  }

  predicate NoDollar(s: string) {
    forall i :: 0 <= i < |s| ==> s[i] != '$'
  }

  /** Where the first '$' of k is, or |k| when there is none. */
  function FirstDollar(k: string): (i: nat)
    ensures i <= |k|
  {
    if |k| == 0 || k[0] == '$' then 0 else 1 + FirstDollar(k[1..])
  }

  /** In a key built from a '$'-free first name, the first '$' opens the separator. */
  lemma {:induction false} FirstDollarOfKey(s: string, t: string)
    requires NoDollar(s)
    ensures FirstDollar(s + Separator + t) == |s|
    decreases |s|
  {
    if |s| > 0 {
      assert (s + Separator + t)[1..] == s[1..] + Separator + t;
      FirstDollarOfKey(s[1..], t);
    }
  }

  /** Joining a '$'-free name, the separator and another name can be undone. */
  lemma SplitUnique(s: string, t: string, s': string, t': string)
    requires NoDollar(s) && NoDollar(s')
    requires s + Separator + t == s' + Separator + t'
    ensures s == s' && t == t'
  {
    var k := s + Separator + t;
    FirstDollarOfKey(s, t);
    FirstDollarOfKey(s', t');
    assert s == k[..|s|] && s' == k[..|s'|];
    assert t == k[|s| + 2..] && t' == k[|s'| + 2..];
  }

  /**
   * For names without '$' the key identifies the unordered pair: two pairs
   * share a key only when they are the same two users.
   */
  lemma PairKeyInjective(a: string, b: string, c: string, d: string)
    requires NoDollar(a) && NoDollar(b) && NoDollar(c) && NoDollar(d)
    requires GetUserPairKey(a, b) == GetUserPairKey(c, d)
    ensures (a == c && b == d) || (a == d && b == c)
  {
    if LexLessEq(a, b) {
      if LexLessEq(c, d) {
        SplitUnique(a, b, c, d);
      } else {
        SplitUnique(a, b, d, c);
      }
    } else {
      if LexLessEq(c, d) {
        SplitUnique(b, a, c, d);
      } else {
        SplitUnique(b, a, d, c);
      }
    }
  }

  /** Names that contain '$' can collide: ("$", "$x") and ("$$", "x") share a key. */
  lemma PairKeyCollision()
    ensures GetUserPairKey("$", "$x") == GetUserPairKey("$$", "x") == "$$$$x"
  {
    assert LexLessEq("$", "$x") by {
      assert LexLessEq("", "x");
    }
    assert LexLessEq("$$", "x");
  }

  /** currentGames: the ongoing game of each pair of users, by pair key. */
  class GameRegistry {
    var currentGames: map<string, GameState>

    constructor ()
      ensures currentGames == map[]
    {
      currentGames := map[];
    }

    /**
     * startGame: a new game between userA and userB, registered under their
     * pair key in place of any game the pair already had.
     */
    method StartGame(userA: string, userB: string) returns (game: GameState)
      modifies this
      ensures fresh(game) && fresh(game.board) && fresh(game.board.squares)
      ensures game.Valid() && game.State() == Start(userA, userB) && Good(game.State())
      ensures currentGames == old(currentGames)[GetUserPairKey(userA, userB) := game]
    {
      game := new GameState(userA, userB);
      var key := GetUserPairKey(userA, userB);
      currentGames := currentGames[key := game];
    }

    /** clearGame: the pair's game, if any, leaves the table; nothing else does. */
    method ClearGame(userA: string, userB: string)
      modifies this
      ensures currentGames == old(currentGames) - {GetUserPairKey(userA, userB)}
    {
      var key := GetUserPairKey(userA, userB);
      currentGames := currentGames - {key};
    }
  }

  /**
   * A pair never has two games: starting again, with the users named in
   * either order, replaces the earlier entry.
   */
  lemma RestartReplaces<V>(m: map<string, V>, userA: string, userB: string, first: V, second: V)
    ensures m[GetUserPairKey(userA, userB) := first][GetUserPairKey(userB, userA) := second]
            == m[GetUserPairKey(userA, userB) := second]
  {
    PairKeySymmetric(userA, userB);
  }

  /** Clearing with the users named in either order removes the same entry. */
  lemma ClearEitherOrder<V>(m: map<string, V>, userA: string, userB: string)
    ensures m - {GetUserPairKey(userA, userB)} == m - {GetUserPairKey(userB, userA)}
  {
    PairKeySymmetric(userA, userB);
  }

  /**
   * For '$'-free names, starting or clearing one pair's game leaves every
   * other pair's entry as it was.
   */
  lemma OtherPairsUntouched<V>(m: map<string, V>, a: string, b: string, c: string, d: string, game: V)
    requires NoDollar(a) && NoDollar(b) && NoDollar(c) && NoDollar(d)
    requires !((a == c && b == d) || (a == d && b == c))
    ensures var k := GetUserPairKey(c, d);
            && (k in m[GetUserPairKey(a, b) := game] <==> k in m)
            && (k in m ==> m[GetUserPairKey(a, b) := game][k] == m[k])
            && (k in m - {GetUserPairKey(a, b)} <==> k in m)
  {
    if GetUserPairKey(a, b) == GetUserPairKey(c, d) {
      PairKeyInjective(a, b, c, d);
    }
  }
}
