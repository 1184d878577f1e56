/**
 * `addDeath` decides whether a user is new with `!deaths[username]`. On a
 * plain object that lookup also finds the members every object inherits from
 * `Object.prototype`, so for a user named `constructor`, `toString`,
 * `__proto__`, ... no entry is created. The next two statements still run on
 * the inherited value: `totalDeaths += 1` writes `NaN` and `lastDeath` is set
 * to the new record. Then `deathDetails.push` is called on `undefined`, the
 * call throws a TypeError and the death is never recorded.
 *
 * For `__proto__` the inherited value is `Object.prototype` itself, so those
 * two writes give every object an inherited `totalDeaths` (`NaN`, falsy) and
 * an inherited `lastDeath` (the record, truthy). From then on a user named
 * `lastDeath` is lost in the same way. For every other inherited member the
 * writes land on a function object, which plain objects do not inherit from.
 *
 * This module models the lookup as written, with those writes; module Ledger
 * models the intended own-key test.
 */
module PrototypeKeys {
  import opened Ledger
  import opened Render

  /** The property names a plain object inherits from an untouched `Object.prototype`. */
  const Inherited: set<string> := {
    "constructor", "__proto__", "hasOwnProperty", "isPrototypeOf", "propertyIsEnumerable",
    "toLocaleString", "toString", "valueOf",
    "__defineGetter__", "__defineSetter__", "__lookupGetter__", "__lookupSetter__"
  }

  /**
   * What the code as written works on: the dictionary, and the names that
   * writes through `deaths["__proto__"]` have added to `Object.prototype`
   * with a truthy value.
   */
  datatype World = World(table: Table, polluted: set<string>)

  /** The state after one call, and whether the call threw a TypeError. */
  datatype Outcome = Outcome(world: World, threw: bool)

  /** What `deaths[username]` evaluates to. */
  datatype Property = Own(entry: UserDeaths) | InheritedMember | Missing

  function Get(w: World, u: string): Property
  {
    if u in w.table.deaths then Own(w.table.deaths[u])
    else if u in Inherited || u in w.polluted then InheritedMember
    else Missing
  }

  /** `!deaths[username]`: only a missing property is falsy. */
  predicate Falsy(p: Property)
  {
    p.Missing?
  }

  /**
   * The truthy names that the writes of `totalDeaths` and `lastDeath` add to
   * `Object.prototype` when `deaths[u]` is an inherited member.
   */
  function Pollution(u: string): set<string>
  {
    if u == "__proto__" then {"lastDeath"} else {}
  }

  /** The code as written, at start-up. */
  const Start := World(EmptyTable, {})

  /**
   * `addDeath` as written, with JavaScript's property lookup: on an
   * inherited member the writes before the `push` happen and the call throws.
   */
  function AddDeathAsWritten(w: World, r: Report): Outcome
  {
    var u := r.username;
    var t := w.table;
    var t1 := if Falsy(Get(w, u)) then Table(t.deaths[u := NewEntry], t.users + [u]) else t;
    match Get(World(t1, w.polluted), u)
    case Own(e) =>
      var e' := UserDeaths(e.totalDeaths + 1, Some(r.death), e.deathDetails + [r.death]);
      Outcome(World(Table(t1.deaths[u := e'], t1.users), w.polluted), false)
    case InheritedMember => Outcome(World(t1, w.polluted + Pollution(u)), true)
    case Missing => assert false; Outcome(w, true)
  }

  /** The state after the given calls as written, each thrown call abandoned where it threw. */
  function ReplayAsWritten(rs: seq<Report>): World
  {
    if rs == [] then Start else AddDeathAsWritten(ReplayAsWritten(rs[..|rs| - 1]), rs[|rs| - 1]).world
  }

  /**
   * A call throws exactly when the user has no own entry and the name is
   * inherited; a call that throws leaves the dictionary as it was.
   */
  lemma AsWrittenThrows(w: World, r: Report)
    ensures AddDeathAsWritten(w, r).threw
        <==> r.username !in w.table.deaths && (r.username in Inherited || r.username in w.polluted)
    ensures AddDeathAsWritten(w, r).threw ==> AddDeathAsWritten(w, r).world.table == w.table
  {
  }

  /**
   * For a user with an own entry, or a name that is not inherited in the
   * current state, the code as written is the ledger step and touches
   * nothing else.
   */
  lemma AsWrittenAgrees(w: World, r: Report)
    requires r.username in w.table.deaths || (r.username !in Inherited && r.username !in w.polluted)
    ensures AddDeathAsWritten(w, r) == Outcome(World(Step(w.table, r), w.polluted), false)
  {
  }

  /**
   * A history in which no user name is an `Object.prototype` member is
   * recorded exactly as the ledger intends, and pollutes nothing.
   */
  lemma {:induction false} ReplayAsWrittenAgrees(rs: seq<Report>)
    requires forall i :: 0 <= i < |rs| ==> rs[i].username !in Inherited
    ensures ReplayAsWritten(rs) == World(Replay(rs), {})
  {
    if rs != [] {
      ReplayAsWrittenAgrees(rs[..|rs| - 1]);
      AsWrittenAgrees(ReplayAsWritten(rs[..|rs| - 1]), rs[|rs| - 1]);
    }
  }

  /**
   * The discrepancy: on the empty dictionary, reporting a death for user
   * `constructor` throws and records nothing, while the intended step
   * records it as that user's first death.
   */
  lemma ConstructorNameIsLost(d: Death)
    ensures AddDeathAsWritten(Start, Report("constructor", d)) == Outcome(Start, true)
    ensures var t := Step(EmptyTable, Report("constructor", d));
      "constructor" in t.deaths && t.deaths["constructor"].totalDeaths == 1 && t.users == ["constructor"]
  {
  }

  /**
   * The follow-on: after a report for user `__proto__`, a report for user
   * `lastDeath`, a name an untouched `Object.prototype` does not have, also
   * throws, and the dictionary stays empty; the intended ledger records both.
   */
  lemma PrototypeReportLosesLastDeath(d1: Death, d2: Death)
    ensures "lastDeath" !in Inherited
    ensures var rs := [Report("__proto__", d1), Report("lastDeath", d2)];
      && AddDeathAsWritten(ReplayAsWritten(rs[..1]), rs[1]).threw
      && ReplayAsWritten(rs).table == EmptyTable
      && Replay(rs).users == ["__proto__", "lastDeath"]
  {
    var rs := [Report("__proto__", d1), Report("lastDeath", d2)];
    assert "__proto__" in Inherited;
    assert rs[..1] == [rs[0]] && rs[..1][..0] == [];
    assert ReplayAsWritten(rs[..1]) == World(EmptyTable, {"lastDeath"});
    assert Replay(rs[..1]).users == ["__proto__"];
  }

  /**
   * `generateUserDeathList(username)` as written: the same `!deaths[username]`
   * test, so an inherited member skips the message for an unknown user and
   * `deathDetails.forEach` on `undefined` throws (`None`).
   */
  function DeathListAsWritten(w: World, u: string): Option<string>
  {
    match Get(w, u)
    case Missing => Some(NoDeathsFor(u))
    case Own(e) => Some(DeathListText(w.table, u))
    case InheritedMember => None
  }

  /**
   * The list as written throws exactly for a name with no own entry that is
   * inherited in the current state, and otherwise is the list of module Render.
   */
  lemma DeathListAsWrittenAgrees(w: World, u: string)
    ensures DeathListAsWritten(w, u).None?
        <==> u !in w.table.deaths && (u in Inherited || u in w.polluted)
    ensures DeathListAsWritten(w, u).Some? ==> DeathListAsWritten(w, u).value == DeathListText(w.table, u)
  {
  }

  /**
   * Where the announcement of `addDeath` asks for the list, right after a
   * call that did not throw, the user has an own entry, so the list as
   * written never throws there and is the list of module Render.
   */
  lemma AnnouncedListAgrees(w: World, r: Report)
    requires !AddDeathAsWritten(w, r).threw
    ensures DeathListAsWritten(AddDeathAsWritten(w, r).world, r.username)
         == Some(DeathListText(AddDeathAsWritten(w, r).world.table, r.username))
  {
  }

  /** On the empty dictionary the list as written throws for `constructor` instead of saying it has no deaths. */
  lemma ConstructorListThrows()
    ensures DeathListAsWritten(Start, "constructor") == None
    ensures DeathListText(EmptyTable, "constructor") == NoDeathsFor("constructor")
  {
  }
}
