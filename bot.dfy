/**
 * The bot's state and its message handler: the module-level `deaths`
 * dictionary with the functions that change and read it (`addDeath`,
 * `generateScoreboard`, `generateUserDeathList`) and the `messageCreate`
 * handler that dispatches chat commands to them.
 *
 * Sending to a chat channel is output: the handler returns the text it would
 * send instead of sending it.
 */
module Bot {
  import opened Text
  import opened Ledger
  import opened Ranking
  import opened Render
  import opened Command

  /** The title put before the scoreboard in the reply to `!deaths`. */
  const ScoreboardTitle := "\U{2620}\U{FE0F} **Tabla de Clasificación de Muertes** \U{2620}\U{FE0F}\n\n"

  /** The confirmation sent after a death was added by command. */
  function AddedMessage(r: Report): string
  {
    "Muerte añadida para **" + r.username + "**: " + r.death.characterName + " (Nivel " + r.death.level
      + ", " + r.death.race + ") - " + r.death.cause + " a las " + r.death.time
  }

  class DeathTracker {
    /** `deaths`: user name to that user's entry. */
    var deaths: map<string, UserDeaths>
    /** The keys of `deaths` in insertion order, as `Object.keys` lists them. */
    var users: seq<string>
    /** Every `addDeath` call made so far, in order. */
    ghost var log: seq<Report>

    /** The dictionary is what the calls made so far produce, and so it is consistent. */
    ghost predicate Valid()
      reads this
    {
      Table(deaths, users) == Replay(log)
    }

    function State(): Table
      reads this
    {
      Table(deaths, users)
    }

    /** `const deaths = {}`. */
    constructor ()
      ensures Valid()
      ensures deaths == map[] && users == [] && log == []
    {
      deaths := map[];
      users := [];
      log := [];
    }

    /** `addDeath(username, characterName, level, race, time, cause)`, without the announcement. */
    method AddDeath(username: string, characterName: string, level: string, race: string, time: string, cause: string)
      requires Valid()
      modifies this
      ensures Valid()
      ensures log == old(log) + [Report(username, Death(characterName, level, race, time, cause))]
      ensures username in deaths
      ensures deaths[username].totalDeaths
           == (if username in old(deaths) then old(deaths[username].totalDeaths) else 0) + 1
      ensures deaths[username].lastDeath == Some(Death(characterName, level, race, time, cause))
      ensures deaths[username].deathDetails
           == (if username in old(deaths) then old(deaths[username].deathDetails) else [])
              + [Death(characterName, level, race, time, cause)]
      ensures forall v :: v != username ==> (v in deaths <==> v in old(deaths))
      ensures forall v :: v != username && v in old(deaths) ==> deaths[v] == old(deaths[v])
      ensures users == if username in old(deaths) then old(users) else old(users) + [username]
    {
      ghost var before := State();
      if username !in deaths {
        deaths := deaths[username := NewEntry];
        users := users + [username];
      }
      var entry := deaths[username];
      entry := entry.(totalDeaths := entry.totalDeaths + 1);
      var deathInfo := Death(characterName, level, race, time, cause);
      entry := entry.(lastDeath := Some(deathInfo));
      entry := entry.(deathDetails := entry.deathDetails + [deathInfo]);
      deaths := deaths[username := entry];

      ghost var r := Report(username, deathInfo);
      assert State() == Step(before, r);
      StepEffect(before, r);
      ReplayAppend(log, r);
      log := log + [r];
    }

    /** `generateScoreboard()`: the header, the separator, then one row per user in rank order. */
    method Scoreboard() returns (text: string)
      requires Valid()
      ensures Consistent(State()) && text == ScoreboardText(State())
    {
      ReplayConsistent(log);
      if |users| == 0 {
        return NoDeathsYet;
      }
      var ranked := RankUsers(deaths, users);
      RankUsersSorted(deaths, users);
      ghost var rows := ScoreRows(State());
      text := Header;
      text := text + Separator;
      ghost var head := text;
      var i := 0;
      while i < |ranked|
        invariant 0 <= i <= |ranked| == |rows|
        invariant text == head + Concat(rows[..i])
      {
        ScoreRowsExtend(State(), i);
        var username := ranked[i];
        var userDeaths := deaths[username];
        AppendAssoc(head, Concat(rows[..i]), ScoreRow(i + 1, username, userDeaths));
        text := text + ScoreRow(i + 1, username, userDeaths);
        i := i + 1;
      }
      assert rows[..i] == rows;
    }

    /** `generateUserDeathList(username)`: one numbered line per recorded death. */
    method UserDeathList(username: string) returns (text: string)
      requires Valid()
      ensures text == DeathListText(State(), username)
    {
      if username !in deaths {
        return NoDeathsFor(username);
      }
      var userDeaths := deaths[username].deathDetails;
      text := "";
      var i := 0;
      while i < |userDeaths|
        invariant 0 <= i <= |userDeaths|
        invariant text == Concat(DeathLines(userDeaths)[..i])
      {
        text := text + DeathLine(i + 1, userDeaths[i]);
        i := i + 1;
        assert DeathLines(userDeaths)[..i][..i - 1] == DeathLines(userDeaths)[..i - 1];
      }
      assert DeathLines(userDeaths)[..i] == DeathLines(userDeaths);
    }

    /**
     * The `messageCreate` handler: records a well-formed `!adddeath`, answers
     * a malformed one with the usage text and changes nothing, answers
     * `!deaths` with the scoreboard, and ignores everything else. The result
     * is the reply sent to the message's channel, if any.
     */
    method HandleMessage(content: string) returns (reply: Option<string>)
      requires Valid()
      modifies this
      ensures Valid()
      ensures Parse(content).AddDeath? ==>
        && log == old(log) + [Parse(content).report]
        && reply == Some(AddedMessage(Parse(content).report))
      ensures !Parse(content).AddDeath? ==>
        deaths == old(deaths) && users == old(users) && log == old(log)
      ensures Parse(content).BadFormat? ==> reply == Some(Usage)
      ensures Parse(content).ShowDeaths? ==>
        Consistent(State()) && reply == Some(ScoreboardTitle + ScoreboardText(State()))
      ensures Parse(content).Ignored? ==> reply == None
    {
      match Parse(content)
      case AddDeath(r) =>
        AddDeath(r.username, r.death.characterName, r.death.level, r.death.race, r.death.time, r.death.cause);
        reply := Some(AddedMessage(r));
      case BadFormat =>
        reply := Some(Usage);
      case ShowDeaths =>
        var board := Scoreboard();
        reply := Some(ScoreboardTitle + board);
      case Ignored =>
        reply := None;
    }
  }
}
