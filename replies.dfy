/**
 * The texts the bot sends: its three fixed messages and the one-line
 * description of a match, "<radiant> -- <dire> (<spectators> зрителей)".
 */
module Replies {
  import opened Matches

  /** Sent by both match commands when no live match qualifies. */
  const NoMatchesText: string := "Нет матчей, которые могли бы быть интересны:("

  /** The reply to /start. */
  const WelcomeText: string :=
    "Привет, я бот, который предоставит тебе информацию о лайв играх Dota2 популярных лиг.\n"
    + "    Для того, чтобы получить информацию о возможностях бота, введи команду /help"

  /** The reply to /help. */
  const HelpText: string :=
    "Доступные команды:\n"
    + "    /all_matches - Показать все текущие матчи\n"
    + "    /get_the_most_watched_match - Показать самый популярный матч\n"
    + "    /help - Показать эту помощь"

  /** What closes every match line. */
  const SpectatorsSuffix: string := " зрителей)"

  /** One outgoing message, before it is turned into text. */
  datatype Reply =
    | NoMatches
    | Welcome
    | Help
    | MatchLine(radiant: string, dire: string, spectators: int)

  /** The line that describes one match. */
  function LineOf(m: Match): Reply
  {
    MatchLine(m.radiant, m.dire, m.spectators)
  }

  predicate IsDigit(c: char)
  {
    '0' <= c <= '9'
  }

  predicate AllDigits(s: string)
  {
    forall i :: 0 <= i < |s| ==> IsDigit(s[i])
  }

  function DigitChar(d: nat): (c: char)
    requires d < 10
    ensures IsDigit(c)
  {
    ('0' as int + d) as char
  }

  function DigitValue(c: char): (d: nat)
    requires IsDigit(c)
    ensures d < 10
  {
    c as int - '0' as int
  }

  /** The decimal digits of a natural number, without leading zeros. */
  function Decimal(n: nat): (s: string)
    ensures |s| >= 1 && AllDigits(s)
    ensures s[0] == '0' ==> s == "0"
  {
    if n < 10 then [DigitChar(n)]
    else Decimal(n / 10) + [DigitChar(n % 10)]
  }

  /** The number a string of decimal digits denotes. */
  function DecimalValue(s: string): nat
    requires AllDigits(s)
  {
    if s == [] then 0
    else DecimalValue(s[..|s| - 1]) * 10 + DigitValue(s[|s| - 1])
  }

  /** Python's str() of an integer: a minus sign before the digits of a
      negative number. */
  function IntText(n: int): (s: string)
    ensures IsIntText(s)
    ensures s[0] == '-' <==> n < 0
    ensures var d := if n < 0 then s[1..] else s; d[0] == '0' ==> d == "0"
  {
    if n < 0 then
      var d := Decimal(-n);
      assert ("-" + d)[1..] == d;
      "-" + d
    else Decimal(n)
  }

  /** A string IntText can produce: an optional minus sign and some digits. */
  predicate IsIntText(s: string)
  {
    if |s| > 0 && s[0] == '-' then |s| > 1 && AllDigits(s[1..])
    else |s| > 0 && AllDigits(s)
  }

  /** Reads an integer back from its text. */
  function IntValue(s: string): int
    requires IsIntText(s)
  {
    if s[0] == '-' then -(DecimalValue(s[1..]) as int) else DecimalValue(s)
  }

  lemma {:induction false} DecimalRoundTrip(n: nat)
    ensures DecimalValue(Decimal(n)) == n
  {
    if n >= 10 {
      var s := Decimal(n);
      assert s[..|s| - 1] == Decimal(n / 10);
      DecimalRoundTrip(n / 10);
    }
  }

  /** The spectator count in a line reads back as the number that was sent. */
  lemma IntTextRoundTrip(n: int)
    ensures IsIntText(IntText(n)) && IntValue(IntText(n)) == n
  {
    if n < 0 {
      assert IntText(n)[1..] == Decimal(-n);
      DecimalRoundTrip(-n);
    } else {
      DecimalRoundTrip(n);
    }
  }

  /** The text of one match line. */
  function LineText(radiant: string, dire: string, spectators: int): (t: string)
    ensures |t| > |radiant| + 4 + |SpectatorsSuffix|
    ensures t[..|radiant| + 4] == radiant + " -- "
    ensures t[|t| - |SpectatorsSuffix|..] == SpectatorsSuffix
  {
    radiant + " -- " + dire + " (" + IntText(spectators) + SpectatorsSuffix
  }

  /** The text of a reply, as handed to the chat. */
  function Render(r: Reply): string
  {
    match r
    case NoMatches => NoMatchesText
    case Welcome => WelcomeText
    case Help => HelpText
    case MatchLine(radiant, dire, spectators) => LineText(radiant, dire, spectators)
  }

  /** A match line is read back piece by piece: the radiant team name, the
      separator, the dire team name, and the spectator count between " (" and
      the closing suffix. */
  lemma LineTextReadBack(radiant: string, dire: string, spectators: int)
    ensures var t := LineText(radiant, dire, spectators);
      var a := |radiant| + 4;
      var b := a + |dire|;
      && |t| == b + 2 + |IntText(spectators)| + |SpectatorsSuffix|
      && t[..|radiant|] == radiant
      && t[|radiant|..a] == " -- "
      && t[a..b] == dire
      && t[b..b + 2] == " ("
      && t[|t| - |SpectatorsSuffix|..] == SpectatorsSuffix
      && IsIntText(t[b + 2..|t| - |SpectatorsSuffix|])
      && IntValue(t[b + 2..|t| - |SpectatorsSuffix|]) == spectators
  {
    var t := LineText(radiant, dire, spectators);
    var a := |radiant| + 4;
    var b := a + |dire|;
    var num := IntText(spectators);
    assert t == radiant + " -- " + dire + " (" + num + SpectatorsSuffix;
    assert t[b + 2..|t| - |SpectatorsSuffix|] == num;
    IntTextRoundTrip(spectators);
  }

  /** A match line can never be mistaken for the no-matches message: one ends
      in ')' and the other in '('. */
  lemma {:induction false} LineIsNeverNoMatches(radiant: string, dire: string, spectators: int)
    ensures LineText(radiant, dire, spectators) != NoMatchesText
  {
    var t := LineText(radiant, dire, spectators);
    assert t[|t| - 1] == ')';
    assert NoMatchesText[|NoMatchesText| - 1] == '(';
  }
}
