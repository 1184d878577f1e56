/**
 * The in-memory death ledger of the bot: the module-level `deaths`
 * dictionary, keyed by user name, and the update `addDeath` makes to it.
 *
 * The dictionary is modelled as a value, `Table`: the map itself and the
 * sequence of its keys in first-insertion order (what `Object.keys` yields
 * for ordinary string keys). `Step` is one `addDeath` call on that value, and
 * `Replay` folds a whole history of calls; the class in module Bot is proved
 * to keep its fields equal to `Replay` of the calls made on it.
 */
module Ledger {

  datatype Option<T> = None | Some(value: T)

  /** The `deathInfo` object built by `addDeath`; `level` stays the text it was given. */
  datatype Death = Death(characterName: string, level: string, race: string, time: string, cause: string)

  /** A user's entry in `deaths`. */
  datatype UserDeaths = UserDeaths(totalDeaths: nat, lastDeath: Option<Death>, deathDetails: seq<Death>)

  /** The arguments of one `addDeath` call. */
  datatype Report = Report(username: string, death: Death)

  /** The `deaths` dictionary together with its key order. */
  datatype Table = Table(deaths: map<string, UserDeaths>, users: seq<string>)

  /** The dictionary at start-up. */
  const EmptyTable := Table(map[], [])

  /** The entry `addDeath` creates for a user it has not seen. */
  const NewEntry := UserDeaths(0, None, [])

  /** A user's entry agrees with its history: the count is its length, the last death its last element. */
  ghost predicate Tallied(e: UserDeaths)
  {
    && e.deathDetails != []
    && e.totalDeaths == |e.deathDetails|
    && e.lastDeath == Some(e.deathDetails[|e.deathDetails| - 1])
  }

  /** The key order lists every key of the map once, and every entry is tallied. */
  ghost predicate Consistent(t: Table)
  {
    && (forall u :: u in t.deaths <==> u in t.users)
    && (forall i, j :: 0 <= i < j < |t.users| ==> t.users[i] != t.users[j])
    && (forall u :: u in t.deaths ==> Tallied(t.deaths[u]))
  }

  /**
   * One `addDeath(username, characterName, level, race, time, cause)`: create
   * the entry if the user is new, count one more death, make it the last
   * death and append it to the history.
   */
  function Step(t: Table, r: Report): Table
  {
    var prev := if r.username in t.deaths then t.deaths[r.username] else NewEntry;
    Table(
      t.deaths[r.username := UserDeaths(prev.totalDeaths + 1, Some(r.death), prev.deathDetails + [r.death])],
      if r.username in t.deaths then t.users else t.users + [r.username])
  }

  /** The dictionary after the given `addDeath` calls, in order, from start-up. */
  function Replay(rs: seq<Report>): Table
  {
    if rs == [] then EmptyTable else Step(Replay(rs[..|rs| - 1]), rs[|rs| - 1])
  }

  /** How many of the calls were made for user `u`. */
  function CallsFor(rs: seq<Report>, u: string): nat
  {
    if rs == [] then 0
    else CallsFor(rs[..|rs| - 1], u) + (if rs[|rs| - 1].username == u then 1 else 0)
  }

  /** The deaths reported for user `u`, in call order. */
  function DeathsOf(rs: seq<Report>, u: string): seq<Death>
  {
    if rs == [] then []
    else DeathsOf(rs[..|rs| - 1], u) + (if rs[|rs| - 1].username == u then [rs[|rs| - 1].death] else [])
  }

  /** Replaying one more call is one more step. */
  lemma ReplayAppend(rs: seq<Report>, r: Report)
    ensures Replay(rs + [r]) == Step(Replay(rs), r)
  {
    assert (rs + [r])[..|rs|] == rs;
  }

  /**
   * One call changes only the reported user's entry: one more death, that
   * death as the last one, appended to the history. A new user is added at
   * the end of the key order.
   */
  lemma StepEffect(t: Table, r: Report)
    ensures var t' := Step(t, r); var u := r.username;
      && u in t'.deaths
      && t'.deaths[u].totalDeaths == (if u in t.deaths then t.deaths[u].totalDeaths else 0) + 1
      && t'.deaths[u].lastDeath == Some(r.death)
      && t'.deaths[u].deathDetails == (if u in t.deaths then t.deaths[u].deathDetails else []) + [r.death]
      && (forall v :: v != u ==> (v in t'.deaths <==> v in t.deaths))
      && (forall v :: v != u && v in t.deaths ==> t'.deaths[v] == t.deaths[v])
      && t'.users == (if u in t.deaths then t.users else t.users + [u])
  {
  }

  /** `addDeath` keeps the ledger consistent. */
  lemma StepConsistent(t: Table, r: Report)
    requires Consistent(t)
    ensures Consistent(Step(t, r))
  {
    var t' := Step(t, r);
    var u := r.username;
    if u !in t.deaths {
      forall i, j | 0 <= i < j < |t'.users| ensures t'.users[i] != t'.users[j] {
        if j == |t.users| {
          assert t.users[i] in t.deaths;
        }
      }
    }
  }

  /** Every dictionary reachable from start-up is consistent. */
  lemma {:induction false} ReplayConsistent(rs: seq<Report>)
    ensures Consistent(Replay(rs))
  {
    if rs != [] {
      ReplayConsistent(rs[..|rs| - 1]);
      StepConsistent(Replay(rs[..|rs| - 1]), rs[|rs| - 1]);
    }
  }

  /**
   * After any sequence of calls, a user has an entry exactly when some call
   * named it; its count is the number of those calls and its history is their
   * deaths in call order.
   */
  lemma {:induction false} ReplayHistory(rs: seq<Report>, u: string)
    ensures u in Replay(rs).deaths <==> CallsFor(rs, u) > 0
    ensures u !in Replay(rs).deaths ==> DeathsOf(rs, u) == []
    ensures u in Replay(rs).deaths ==>
      && Replay(rs).deaths[u].totalDeaths == CallsFor(rs, u)
      && Replay(rs).deaths[u].deathDetails == DeathsOf(rs, u)
  {
    if rs != [] {
      ReplayHistory(rs[..|rs| - 1], u);
    }
  }

  /** The last death of a user is the one from the latest call that named it. */
  lemma {:induction false} ReplayLastDeath(rs: seq<Report>, k: nat)
    requires k < |rs|
    requires forall j :: k < j < |rs| ==> rs[j].username != rs[k].username
    ensures rs[k].username in Replay(rs).deaths
    ensures Replay(rs).deaths[rs[k].username].lastDeath == Some(rs[k].death)
  {
    if k < |rs| - 1 {
      ReplayLastDeath(rs[..|rs| - 1], k);
    }
  }
}
