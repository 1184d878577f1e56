/**
 * The chat commands the bot reacts to. A message starting with `!adddeath`
 * is split on `|`, every piece is trimmed, the piece holding the keyword is
 * dropped, and exactly six fields must remain:
 * username, characterName, level, race, time and cause. A message equal to
 * `!deaths` asks for the scoreboard. Anything else is ignored.
 */
module Command {
  import opened Text
  import opened Ledger

  const AddDeathKeyword := "!adddeath"
  const DeathsCommand := "!deaths"

  /** The reply to an `!adddeath` message with the wrong number of fields. */
  const Usage := "Formato incorrecto. Usa: `!adddeath | username | characterName | level | race | time | cause`"

  datatype Command =
    | AddDeath(report: Report)
    | BadFormat
    | ShowDeaths
    | Ignored

  /** `content.split('|').map(arg => arg.trim()).slice(1)`. */
  function Arguments(content: string): (args: seq<string>)
    ensures |args| == CountChar(content, '|')
  {
    var pieces := Split(content, '|');
    seq(|pieces| - 1, i requires 0 <= i < |pieces| - 1 => Trim(pieces[i + 1]))
  }

  /** What the message handler does with a message. */
  function Parse(content: string): Command
  {
    if StartsWith(content, AddDeathKeyword) then
      var args := Arguments(content);
      if |args| != 6 then BadFormat
      else AddDeath(Report(args[0], Death(args[1], args[2], args[3], args[4], args[5])))
    else if content == DeathsCommand then ShowDeaths
    else Ignored
  }

  /**
   * An `!adddeath` message is accepted exactly when it has six separators,
   * and answered with the usage text otherwise; `!deaths` is recognised only
   * as the whole message.
   */
  lemma ParseArity(content: string)
    ensures Parse(content).AddDeath? <==> StartsWith(content, AddDeathKeyword) && CountChar(content, '|') == 6
    ensures Parse(content).BadFormat? <==> StartsWith(content, AddDeathKeyword) && CountChar(content, '|') != 6
    ensures Parse(content).ShowDeaths? <==> content == DeathsCommand
  {
    if content == DeathsCommand {
      assert |AddDeathKeyword| > |content|;
    }
  }

  /** A field as it can come out of the parser: no separator, no surrounding white space. */
  predicate CleanField(s: string)
  {
    '|' !in s && IsTrimmed(s)
  }

  predicate CleanReport(r: Report)
  {
    && CleanField(r.username)
    && CleanField(r.death.characterName) && CleanField(r.death.level) && CleanField(r.death.race)
    && CleanField(r.death.time) && CleanField(r.death.cause)
  }

  /** Every field the parser produces is clean. */
  lemma ParseFieldsClean(content: string)
    requires Parse(content).AddDeath?
    ensures CleanReport(Parse(content).report)
  {
    var pieces := Split(content, '|');
    forall i | 1 <= i < |pieces| ensures '|' !in Trim(pieces[i]) {
      TrimInside(pieces[i]);
    }
  }

  /**
   * The pieces between the separators of the message the usage text
   * describes, `!adddeath | username | characterName | level | race | time | cause`.
   */
  function MessagePieces(r: Report): seq<string>
  {
    [ "!adddeath ", " " + r.username + " ", " " + r.death.characterName + " ", " " + r.death.level + " ",
      " " + r.death.race + " ", " " + r.death.time + " ", " " + r.death.cause ]
  }

  /** The `!adddeath` message for a report, in the format of the usage text. */
  function AddDeathMessage(r: Report): string
  {
    Join(MessagePieces(r), '|')
  }

  lemma MessageStartsWithKeyword(r: Report)
    ensures StartsWith(AddDeathMessage(r), AddDeathKeyword)
  {
    var pieces := MessagePieces(r);
    var rest := Join(pieces[1..], '|');
    assert AddDeathMessage(r) == "!adddeath " + ['|'] + rest;
    assert ("!adddeath " + ['|'] + rest)[..9] == "!adddeath";
  }

  lemma MessageSplits(r: Report)
    requires CleanReport(r)
    ensures Split(AddDeathMessage(r), '|') == MessagePieces(r)
  {
    var pieces := MessagePieces(r);
    forall i | 0 <= i < |pieces| ensures '|' !in pieces[i] {
    }
    SplitJoin(pieces, '|');
  }

  lemma TrimPaddedField(x: string)
    requires CleanField(x)
    ensures Trim(" " + x + " ") == x
    ensures Trim(" " + x) == x
  {
    TrimPadded(" ", x, " ");
    TrimPadded(" ", x, "");
    assert " " + x + "" == " " + x;
  }

  lemma ArgumentsOfPieces(content: string, pieces: seq<string>)
    requires Split(content, '|') == pieces
    ensures |Arguments(content)| == |pieces| - 1
    ensures forall i :: 0 <= i < |pieces| - 1 ==> Arguments(content)[i] == Trim(pieces[i + 1])
  {
  }

  /** The fields the parser reads from the message are the trimmed pieces. */
  lemma MessageArguments(r: Report)
    requires CleanReport(r)
    ensures |Arguments(AddDeathMessage(r))| == 6
    ensures forall i :: 0 <= i < 6 ==> Arguments(AddDeathMessage(r))[i] == Trim(MessagePieces(r)[i + 1])
  {
    MessageSplits(r);
    ArgumentsOfPieces(AddDeathMessage(r), MessagePieces(r));
  }

  /** The six fields of a report, in command order. */
  function Fields(r: Report): seq<string>
  {
    [r.username, r.death.characterName, r.death.level, r.death.race, r.death.time, r.death.cause]
  }

  /** Trimming each piece after the keyword gives back the field written into it. */
  lemma PiecesTrimToFields(r: Report)
    requires CleanReport(r)
    ensures forall i :: 0 <= i < 6 ==> Trim(MessagePieces(r)[i + 1]) == Fields(r)[i]
  {
    var pieces, fields := MessagePieces(r), Fields(r);
    forall i | 0 <= i < 6 ensures Trim(pieces[i + 1]) == fields[i] {
      assert CleanField(fields[i]);
      TrimPaddedField(fields[i]);
      assert pieces[i + 1] == if i < 5 then " " + fields[i] + " " else " " + fields[i];
    }
  }

  /** The fields of the report are the arguments of its message. */
  lemma MessageFields(r: Report)
    requires CleanReport(r)
    ensures Arguments(AddDeathMessage(r)) == Fields(r)
  {
    MessageArguments(r);
    PiecesTrimToFields(r);
  }

  /** Writing a report in the documented format and parsing it gives the report back. */
  lemma ParseAddDeathMessage(r: Report)
    requires CleanReport(r)
    ensures Parse(AddDeathMessage(r)) == AddDeath(r)
  {
    MessageStartsWithKeyword(r);
    MessageFields(r);
  }
}
