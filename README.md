# Live Dota 2 matches bot: filter, selection and replies

This project models the pure core of a Telegram bot that relays live Dota 2
league games. The core is everything that happens after the list of live
games has been fetched and before the replies go out:

- **Match filter** (`Matches.Filter`). It keeps the game records whose
  `series_type` is strictly positive. A missing `series_type` counts as 0.
  Order is kept and no record is changed.
- **Most-watched selection** (`Matches.ArgMax`). It works like Python's
  `max(matches, key=spectators)`: the first of several equally watched games
  wins.
- **Reply texts** (`Replies`). The three fixed messages and the match line
  `"<radiant> -- <dire> (<spectators> зрителей)"`. The spectator count is
  rendered like Python's `str` of an integer.
- **Command handlers** (`Handlers.Conversation`). `/start`, `/help`,
  `/get_the_most_watched_match` and `/all_matches` become methods that append
  messages to an `outbox`, which stands in for `update.message.reply_text`.
  The two match commands take the fetched list as a parameter. What each
  handler sends is described by a function (`MostWatchedReply`,
  `AllMatchesReplies`), and the lemmas state the properties of those
  functions.

Files: `matches.dfy` (records, filter, selection), `replies.dfy` (reply
texts and decimal rendering), `handlers.dfy` (handler specifications and the
`Conversation` class).

## Model

| member | source | states |
|---|---|---|
| Matches.SeriesType | parser.py:28 | `match.get('series_type', 0)`: the stored value when the key is present, 0 when it is missing. |
| Matches.Qualifies | parser.py:28 | The filter's test `> 0`: a record qualifies exactly when its `series_type` is present and positive, so a missing key never qualifies. |
| Matches.Filter | parser.py:27-29 | The result is never longer than the input. A record is in the result exactly when it is in the input and its series type (0 when absent) is positive. |
| Matches.KeptIndices | parser.py:28 | The positions of the qualifying records, strictly increasing. Every qualifying position is listed and no other. |
| Matches.FilterSelectsKeptIndices | parser.py:28 | The filtered list is exactly the records at the qualifying positions, in increasing position order. Nothing is added, changed or reordered. |
| Matches.FilterAppend | parser.py:28 | Filtering a concatenation is concatenating the filtered parts, as a list comprehension does. |
| Matches.FilterMultiplicity | parser.py:28 | A qualifying record occurs in the output as often as in the input. A non-qualifying record occurs zero times. |
| Matches.MissingSeriesTypeDropped | parser.py:28 | A record without a `series_type` key is never kept. |
| Matches.FilterKeepsQualifying | parser.py:28 | A list whose records all qualify comes out unchanged. |
| Matches.FilterIdempotent | parser.py:27-29 | Filtering an already filtered list changes nothing. |
| Matches.ArgMax | parser.py:54 | On a non-empty list, the chosen position is in range and has a spectator count at least every other record's. Every earlier record has strictly fewer spectators, so the first maximum wins. |
| Matches.FirstMaximumUnique | parser.py:54 | Any position with those three properties is the one ArgMax picks, so the selection is fully determined. |
| Replies.Decimal | parser.py:55 | The spectator count is rendered as a non-empty string of decimal digits with no leading zero; a string starting with '0' is exactly "0", as Python's `str(0)`. |
| Replies.DecimalRoundTrip | parser.py:55 | The digits read back as the same natural number. |
| Replies.IntText | parser.py:55 | Python's `str` of the spectator count: an optional minus sign followed by digits, with the minus sign exactly when the count is negative, and no leading zero after it (a digit part starting with '0' is exactly "0"). Its read-back is stated in `IntTextRoundTrip`. |
| Replies.IntTextRoundTrip | parser.py:55 | An integer's text, with a minus sign when negative, is well formed and reads back as the same integer. |
| Replies.LineText | parser.py:55 | The f-string of a match line: it starts with the radiant name followed by " -- " and ends with " зрителей)". The full layout and the read-back of the count are stated in `LineTextReadBack`. |
| Replies.LineTextReadBack | parser.py:55 | A match line is the radiant name, " -- ", the dire name, " (", the spectator count and " зрителей)", in that order. The count can be read back from the line. |
| Replies.LineIsNeverNoMatches | parser.py:52 | No match line equals the no-matches text, so a fallback reply is never a match line. |
| Handlers.MostWatchedReply | parser.py:49-55 | The reply is either the fallback or a match line. It is the fallback exactly when no fetched record qualifies. A match line's count is at least that of every qualifying fetched record. |
| Handlers.MostWatchedIsFirstMaximum | parser.py:50-55 | When some record qualifies, the reply is the line of a qualifying fetched record. That record is a maximum of the filtered list, and every record before it has fewer spectators. |
| Handlers.MatchLines | parser.py:66-67 | One reply per match, as many as matches: reply i is the line of match i, in order. |
| Handlers.AllMatchesReplies | parser.py:59-67 | With no qualifying record there is exactly one reply, the fallback. Otherwise there are as many replies as qualifying records, reply i is the line of the i-th qualifying record in filtered order, and none is the fallback. |
| Handlers.SameFallback | parser.py:52 | With no qualifying record both match commands send the same single fallback reply. |
| Handlers.MostWatchedAmongAll | parser.py:54-55 | The most-watched reply is always one of the replies of /all_matches. |
| Handlers.TieGoesToFirst | parser.py:54 | With spectator counts 5, 20, 20, 3 the first of the two 20s is reported. |
| Handlers.OneSeriesGame | parser.py:50-55 | A series-type-0 game is dropped. The one series game is reported as "A -- B (100 зрителей)". |
| Handlers.Conversation.ReplyText | parser.py:36 | Sending a message appends exactly that text to the outbox. |
| Handlers.Conversation.Start | parser.py:33-36 | /start appends exactly one message, the welcome text. It takes no match data. |
| Handlers.Conversation.Help | parser.py:40-45 | /help appends exactly one message, the command list. It takes no match data. |
| Handlers.Conversation.GetTheMostWatchedMatch | parser.py:49-55 | The command appends exactly one message, the text of `MostWatchedReply` for the fetched list. |
| Handlers.Conversation.AllMatches | parser.py:59-67 | The command appends the texts of `AllMatchesReplies`, in order. The loop sends one line per filtered match. |

## Left out

- Fetching the live games (parser.py:15-23): an HTTP GET, JSON decoding and an exception handler that logs and returns an empty list. This is network I/O through a foreign library. The fetched list is a parameter of the two match handlers instead.
- Loading the bot token and API key from the environment (parser.py:9-11): process configuration.
- Telegram wiring (parser.py:71-85): registering handlers and the polling loop belong to the chat framework.
- Logging with `print` (parser.py:22): output only.
- Record fields of other JSON types (parser.py:28, parser.py:54-55, parser.py:67): `Match` holds `series_type` as an optional integer, `spectators` as an integer and the team names as strings. So the model does not capture a `KeyError` for a qualifying record that lacks `spectators` or a team name; a `TypeError` for a `series_type` that is `null` or a string; a float or boolean `series_type`, which Python compares numerically (`0.5` and `true` are kept); a `spectators` of another type, which `max` compares first (when two or more records qualify, a `None` count, or a string count next to a numeric one, raises `TypeError` there, before any f-string runs; all-string counts are compared as text) and which the f-strings otherwise render as Python prints it (`100.0`, or `None` when only one record qualifies or in `/all_matches`); or a team name of another type, which the f-strings render the same way.
- Delivery failures of `reply_text`: sending a message always succeeds and only appends to the outbox.
