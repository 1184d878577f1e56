/**
 * The two texts the bot renders from the ledger: the scoreboard of
 * `generateScoreboard` and the per-user list of `generateUserDeathList`.
 * Both are pure functions of the dictionary; the methods of module Bot that
 * build them with a loop are proved to produce exactly these.
 */
module Render {
  import opened Text
  import opened Ledger
  import opened Ranking

  /** What the scoreboard says when nobody has died yet. */
  const NoDeathsYet := "No hay muertes registradas aún."

  const Header := "| **Rango** | **Nombre de Usuario** | **Total de Muertes** | **Último Personaje Muerto** |\n"
  const Separator := "|-----------|-----------------------|----------------------|-----------------------------|\n"

  /** The scoreboard row for the user ranked `rank` (1-based). */
  function ScoreRow(rank: nat, username: string, e: UserDeaths): string
    requires e.lastDeath.Some?
  {
    var last := e.lastDeath.value;
    "| " + NatToString(rank) + " | " + username + " | " + NatToString(e.totalDeaths) + " | "
      + last.characterName + " (Nivel " + last.level + ", " + last.race + ") |\n"
  }

  /** The users in scoreboard order. */
  function Ranked(t: Table): seq<string>
  {
    RankUsers(t.deaths, t.users)
  }

  /** Every user of a consistent ledger is ranked exactly once, and nobody else is. */
  lemma {:induction false} RankedOnce(t: Table, u: string)
    requires Consistent(t)
    ensures multiset(Ranked(t))[u] == if u in t.deaths then 1 else 0
  {
    RankUsersSorted(t.deaths, t.users);
    DistinctOnce(t.users, u);
  }

  lemma {:induction false} DistinctOnce(s: seq<string>, u: string)
    requires forall i, j :: 0 <= i < j < |s| ==> s[i] != s[j]
    ensures multiset(s)[u] == if u in s then 1 else 0
  {
    if s != [] {
      var init := s[..|s| - 1];
      DistinctOnce(init, u);
      assert s == init + [s[|s| - 1]];
      assert s[|s| - 1] !in init;
    }
  }

  /** One row per ranked user, the i-th showing rank i + 1. */
  function ScoreRows(t: Table): seq<string>
    requires Consistent(t)
  {
    var ranked := Ranked(t);
    RankUsersSorted(t.deaths, t.users);
    assert forall i :: 0 <= i < |ranked| ==> ranked[i] in multiset(t.users);
    seq(|ranked|, i requires 0 <= i < |ranked| => ScoreRow(i + 1, ranked[i], t.deaths[ranked[i]]))
  }

  /** The rows up to rank i + 1 are those up to rank i followed by the row of the (i + 1)-th ranked user. */
  lemma ScoreRowsExtend(t: Table, i: nat)
    requires Consistent(t) && i < |Ranked(t)|
    ensures |ScoreRows(t)| == |Ranked(t)|
    ensures Ranked(t)[i] in t.deaths && t.deaths[Ranked(t)[i]].lastDeath.Some?
    ensures Concat(ScoreRows(t)[..i + 1])
         == Concat(ScoreRows(t)[..i]) + ScoreRow(i + 1, Ranked(t)[i], t.deaths[Ranked(t)[i]])
  {
    RankUsersSorted(t.deaths, t.users);
    assert Ranked(t)[i] in multiset(t.users);
    assert ScoreRows(t)[..i + 1][..i] == ScoreRows(t)[..i];
  }

  /** `generateScoreboard()`. */
  function ScoreboardText(t: Table): string
    requires Consistent(t)
  {
    if t.users == [] then NoDeathsYet else Header + Separator + Concat(ScoreRows(t))
  }

  /** The sentinel is printed exactly when the dictionary is empty. */
  lemma ScoreboardEmpty(t: Table)
    requires Consistent(t)
    ensures ScoreboardText(t) == NoDeathsYet <==> t.deaths == map[]
  {
    if t.users != [] {
      assert t.users[0] in t.deaths;
      assert |ScoreboardText(t)| >= |Header| > |NoDeathsYet|;
    } else {
      assert t.deaths.Keys == {};
    }
  }

  /** Which message the user list gives for a user with no entry. */
  function NoDeathsFor(username: string): string
  {
    "No hay muertes registradas para el usuario: " + username
  }

  /** The line for the n-th death (1-based) of a user. */
  function DeathLine(n: nat, d: Death): string
  {
    NatToString(n) + ". **" + d.characterName + "** - \U{2620}\U{FE0F} *" + d.time + "* - Nivel "
      + d.level + ", " + d.race + " - *" + d.cause + "*\n"
  }

  /** One numbered line per death, in the order they were added. */
  function DeathLines(ds: seq<Death>): seq<string>
  {
    seq(|ds|, i requires 0 <= i < |ds| => DeathLine(i + 1, ds[i]))
  }

  /** `generateUserDeathList(username)`. */
  function DeathListText(t: Table, username: string): string
  {
    if username !in t.deaths then NoDeathsFor(username)
    else Concat(DeathLines(t.deaths[username].deathDetails))
  }

  /** The user list is empty text only for a known user with no deaths in its history. */
  lemma DeathListEmpty(t: Table, username: string)
    ensures DeathListText(t, username) == ""
        <==> username in t.deaths && t.deaths[username].deathDetails == []
  {
    if username in t.deaths {
      var lines := DeathLines(t.deaths[username].deathDetails);
      ConcatEmpty(lines);
      if lines != [] {
        assert lines[0] != "";
      }
    } else {
      assert NoDeathsFor(username) == "No hay muertes registradas para el usuario: " + username;
      assert "No hay muertes registradas para el usuario: "[0] == 'N';
    }
  }

  lemma {:induction false} ConcatFirst(parts: seq<string>)
    requires parts != [] && parts[0] != ""
    ensures Concat(parts) != "" && Concat(parts)[0] == parts[0][0]
  {
    if |parts| > 1 {
      ConcatFirst(parts[..|parts| - 1]);
    }
  }

  /**
   * In a consistent ledger the "no deaths" message is given exactly for
   * unknown users: a known user's list starts with the digit of its first line.
   */
  lemma DeathListUnknown(t: Table, username: string)
    requires Consistent(t)
    ensures DeathListText(t, username) == NoDeathsFor(username) <==> username !in t.deaths
  {
    if username in t.deaths {
      var lines := DeathLines(t.deaths[username].deathDetails);
      assert lines[0] == DeathLine(1, t.deaths[username].deathDetails[0]);
      ConcatFirst(lines);
      assert IsDigit(Concat(lines)[0]);
      assert NoDeathsFor(username) == "No hay muertes registradas para el usuario: " + username;
      assert "No hay muertes registradas para el usuario: "[0] == 'N';
    }
  }
}
