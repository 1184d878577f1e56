/**
 * The ordering `generateScoreboard` puts the users in:
 * `users.sort((a, b) => deaths[b].totalDeaths - deaths[a].totalDeaths)`.
 * `Array.prototype.sort` is stable, so the result is the unique ordering by
 * non-increasing death count that keeps users with equal counts in their
 * original order. It is modelled by a stable insertion sort.
 */
module Ranking {
  import opened Ledger

  /** The count the comparator reads for a user. */
  function Total(deaths: map<string, UserDeaths>, u: string): nat
  {
    if u in deaths then deaths[u].totalDeaths else 0
  }

  /** Places `u` after every user whose count is at least its own. */
  function Insert(deaths: map<string, UserDeaths>, ranked: seq<string>, u: string): seq<string>
  {
    if ranked == [] then [u]
    else if Total(deaths, ranked[0]) >= Total(deaths, u) then [ranked[0]] + Insert(deaths, ranked[1..], u)
    else [u] + ranked
  }

  /** The users in scoreboard order. */
  function RankUsers(deaths: map<string, UserDeaths>, users: seq<string>): seq<string>
  {
    if users == [] then []
    else Insert(deaths, RankUsers(deaths, users[..|users| - 1]), users[|users| - 1])
  }

  ghost predicate NonIncreasing(deaths: map<string, UserDeaths>, s: seq<string>)
  {
    forall i, j :: 0 <= i < j < |s| ==> Total(deaths, s[i]) >= Total(deaths, s[j])
  }

  /** The users of `s` that have exactly `k` deaths, in their order in `s`. */
  function WithTotal(deaths: map<string, UserDeaths>, s: seq<string>, k: nat): seq<string>
  {
    if s == [] then []
    else WithTotal(deaths, s[..|s| - 1], k) + (if Total(deaths, s[|s| - 1]) == k then [s[|s| - 1]] else [])
  }

  lemma {:induction false} WithTotalPrepend(deaths: map<string, UserDeaths>, u: string, s: seq<string>, k: nat)
    ensures WithTotal(deaths, [u] + s, k) == (if Total(deaths, u) == k then [u] else []) + WithTotal(deaths, s, k)
  {
    if s != [] {
      var s' := [u] + s;
      assert s'[..|s'| - 1] == [u] + s[..|s| - 1];
      WithTotalPrepend(deaths, u, s[..|s| - 1], k);
    } else {
      assert [u] + s == [u];
      assert [u][..0] == [];
    }
  }

  lemma {:induction false} WithTotalNone(deaths: map<string, UserDeaths>, s: seq<string>, k: nat)
    requires forall i :: 0 <= i < |s| ==> Total(deaths, s[i]) != k
    ensures WithTotal(deaths, s, k) == []
  {
    if s != [] {
      WithTotalNone(deaths, s[..|s| - 1], k);
    }
  }

  lemma {:induction false} InsertPermutation(deaths: map<string, UserDeaths>, ranked: seq<string>, u: string)
    ensures multiset(Insert(deaths, ranked, u)) == multiset(ranked) + multiset{u}
  {
    if ranked != [] && Total(deaths, ranked[0]) >= Total(deaths, u) {
      InsertPermutation(deaths, ranked[1..], u);
      assert ranked == [ranked[0]] + ranked[1..];
    }
  }

  /** In a non-increasing list, the first user's count bounds every other user's. */
  lemma HeadBounds(deaths: map<string, UserDeaths>, ranked: seq<string>)
    requires ranked != [] && NonIncreasing(deaths, ranked)
    ensures forall x :: x in ranked[1..] ==> Total(deaths, x) <= Total(deaths, ranked[0])
  {
    forall x | x in ranked[1..] ensures Total(deaths, x) <= Total(deaths, ranked[0]) {
      var m :| 0 <= m < |ranked[1..]| && ranked[1..][m] == x;
      assert ranked[m + 1] == x;
    }
  }

  /** Putting a user in front of a non-increasing list whose counts it bounds keeps it non-increasing. */
  lemma ConsNonIncreasing(deaths: map<string, UserDeaths>, head: string, s: seq<string>)
    requires NonIncreasing(deaths, s)
    requires forall x :: x in s ==> Total(deaths, x) <= Total(deaths, head)
    ensures NonIncreasing(deaths, [head] + s)
  {
    var r := [head] + s;
    forall i, j | 0 <= i < j < |r| ensures Total(deaths, r[i]) >= Total(deaths, r[j]) {
      assert r[j] == s[j - 1];
      if i > 0 {
        assert r[i] == s[i - 1];
      } else {
        assert s[j - 1] in s;
      }
    }
  }

  lemma {:induction false} InsertNonIncreasing(deaths: map<string, UserDeaths>, ranked: seq<string>, u: string)
    requires NonIncreasing(deaths, ranked)
    ensures NonIncreasing(deaths, Insert(deaths, ranked, u))
  {
    if ranked != [] {
      var head := ranked[0];
      var rest := ranked[1..];
      if Total(deaths, head) >= Total(deaths, u) {
        InsertNonIncreasing(deaths, rest, u);
        InsertPermutation(deaths, rest, u);
        HeadBounds(deaths, ranked);
        var r' := Insert(deaths, rest, u);
        forall x | x in r' ensures Total(deaths, x) <= Total(deaths, head) {
          assert x in multiset(r');
        }
        ConsNonIncreasing(deaths, head, r');
      } else {
        HeadBounds(deaths, ranked);
        assert ranked == [head] + rest;
        ConsNonIncreasing(deaths, u, ranked);
      }
    }
  }

  lemma {:induction false} InsertStable(deaths: map<string, UserDeaths>, ranked: seq<string>, u: string, k: nat)
    requires NonIncreasing(deaths, ranked)
    ensures WithTotal(deaths, Insert(deaths, ranked, u), k)
         == WithTotal(deaths, ranked, k) + (if Total(deaths, u) == k then [u] else [])
  {
    if ranked == [] {
      assert [u][..0] == [];
    } else if Total(deaths, ranked[0]) >= Total(deaths, u) {
      var rest := ranked[1..];
      InsertStable(deaths, rest, u, k);
      assert ranked == [ranked[0]] + rest;
      WithTotalPrepend(deaths, ranked[0], Insert(deaths, rest, u), k);
      WithTotalPrepend(deaths, ranked[0], rest, k);
    } else {
      WithTotalPrepend(deaths, u, ranked, k);
      if Total(deaths, u) == k {
        WithTotalNone(deaths, ranked, k);
      }
    }
  }

  /**
   * The scoreboard order is by non-increasing count and holds every user as
   * often as the key list does.
   */
  lemma {:induction false} RankUsersSorted(deaths: map<string, UserDeaths>, users: seq<string>)
    ensures NonIncreasing(deaths, RankUsers(deaths, users))
    ensures multiset(RankUsers(deaths, users)) == multiset(users)
  {
    if users != [] {
      var init := users[..|users| - 1];
      RankUsersSorted(deaths, init);
      InsertNonIncreasing(deaths, RankUsers(deaths, init), users[|users| - 1]);
      InsertPermutation(deaths, RankUsers(deaths, init), users[|users| - 1]);
      assert users == init + [users[|users| - 1]];
    }
  }

  /** Among users with the same count, the scoreboard keeps the key order: the sort is stable. */
  lemma {:induction false} RankUsersStable(deaths: map<string, UserDeaths>, users: seq<string>, k: nat)
    ensures WithTotal(deaths, RankUsers(deaths, users), k) == WithTotal(deaths, users, k)
  {
    if users != [] {
      var init := users[..|users| - 1];
      RankUsersStable(deaths, init, k);
      RankUsersSorted(deaths, init);
      InsertStable(deaths, RankUsers(deaths, init), users[|users| - 1], k);
    }
  }

  /** A user with more deaths than another is ranked above it, whatever the key order. */
  lemma RankPrecedes(deaths: map<string, UserDeaths>, users: seq<string>, i: nat, j: nat)
    requires i < |RankUsers(deaths, users)| && j < |RankUsers(deaths, users)|
    requires Total(deaths, RankUsers(deaths, users)[i]) > Total(deaths, RankUsers(deaths, users)[j])
    ensures i < j
  {
    RankUsersSorted(deaths, users);
  }
}
