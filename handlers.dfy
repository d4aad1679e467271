/**
 * The four command handlers. Each one is given the list of live games the
 * fetch step returned and answers by sending messages into a conversation;
 * the conversation's outbox records every message sent, in order.
 */
module Handlers {
  import opened Matches
  import opened Replies

  /** The one reply /get_the_most_watched_match sends for a fetched list. */
  function MostWatchedReply(fetched: seq<Match>): (r: Reply)
    ensures r.NoMatches? || r.MatchLine?
    ensures r.NoMatches? <==> Filter(fetched) == []
    ensures r.MatchLine? ==>
      forall m :: m in fetched && Qualifies(m) ==> m.spectators <= r.spectators
  {
    var live := Filter(fetched);
    if live == [] then NoMatches
    else
      var best := live[ArgMax(live)];
      assert forall m :: m in live ==> m.spectators <= best.spectators by {
        forall m | m in live ensures m.spectators <= best.spectators {
          var j :| 0 <= j < |live| && live[j] == m;
        }
      }
      LineOf(best)
  }

  /** The match line is that of a qualifying fetched record, and no record
      before it in the filtered order has as many spectators: the first of
      several equally watched matches is the one reported. */
  lemma MostWatchedIsFirstMaximum(fetched: seq<Match>)
    requires Filter(fetched) != []
    ensures var live := Filter(fetched);
      exists k :: 0 <= k < |live| && MostWatchedReply(fetched) == LineOf(live[k])
        && live[k] in fetched && Qualifies(live[k])
        && (forall j :: 0 <= j < |live| ==> live[j].spectators <= live[k].spectators)
        && (forall j :: 0 <= j < k ==> live[j].spectators < live[k].spectators)
  {
    var live := Filter(fetched);
    var k := ArgMax(live);
    assert live[k] in live;
  }

  /** One line per qualifying match, in filtered order. */
  function MatchLines(live: seq<Match>): (rs: seq<Reply>)
    ensures |rs| == |live|
    ensures forall i :: 0 <= i < |live| ==> rs[i] == LineOf(live[i])
  {
    if live == [] then [] else [LineOf(live[0])] + MatchLines(live[1..])
  }

  /** The replies /all_matches sends for a fetched list. */
  function AllMatchesReplies(fetched: seq<Match>): (rs: seq<Reply>)
    ensures Filter(fetched) == [] ==> rs == [NoMatches]
    ensures Filter(fetched) != [] ==> NoMatches !in rs
    ensures |rs| == if Filter(fetched) == [] then 1 else |Filter(fetched)|
    ensures Filter(fetched) != [] ==>
      forall i :: 0 <= i < |rs| ==> rs[i] == LineOf(Filter(fetched)[i])
  {
    var live := Filter(fetched);
    if live == [] then [NoMatches] else MatchLines(live)
  }

  /** Both match commands fall back to the very same single reply. */
  lemma SameFallback(fetched: seq<Match>)
    requires Filter(fetched) == []
    ensures AllMatchesReplies(fetched) == [MostWatchedReply(fetched)] == [NoMatches]
  {
  }

  /** The most-watched reply is always among the replies of /all_matches. */
  lemma MostWatchedAmongAll(fetched: seq<Match>)
    ensures MostWatchedReply(fetched) in AllMatchesReplies(fetched)
  {
    var live := Filter(fetched);
    if live != [] {
      var k := ArgMax(live);
      assert AllMatchesReplies(fetched)[k] == LineOf(live[k]);
    }
  }

  /** With spectator counts 5, 20, 20, 3 the first of the two 20s is chosen. */
  lemma TieGoesToFirst(a: Match, b: Match, c: Match, d: Match)
    requires Qualifies(a) && Qualifies(b) && Qualifies(c) && Qualifies(d)
    requires a.spectators == 5 && b.spectators == 20 && c.spectators == 20 && d.spectators == 3
    ensures MostWatchedReply([a, b, c, d]) == LineOf(b)
  {
    var live := [a, b, c, d];
    assert Filter(live) == live by { FilterKeepsQualifying(live); }
    FirstMaximumUnique(live, 1);
  }

  /** A non-series game is dropped and the single series game is reported
      as "A -- B (100 зрителей)". */
  lemma OneSeriesGame()
    ensures var fetched := [Match(Some(0), 7, "X", "Y"), Match(Some(2), 100, "A", "B")];
      && Filter(fetched) == [fetched[1]]
      && Render(MostWatchedReply(fetched)) == "A -- B (100 зрителей)"
  {
    var series := Match(Some(2), 100, "A", "B");
    var fetched := [Match(Some(0), 7, "X", "Y"), series];
    assert Filter(fetched) == [series] by {
      assert fetched[1..] == [series];
      assert [series][1..] == [];
    }
    assert MostWatchedReply(fetched) == MatchLine("A", "B", 100);
    assert IntText(100) == "100" by {
      assert Decimal(1) == "1";
      assert Decimal(10) == "10";
    }
  }

  /** The texts of a sequence of replies, in the same order. */
  function Texts(rs: seq<Reply>): (ts: seq<string>)
    ensures |ts| == |rs|
    ensures forall i :: 0 <= i < |rs| ==> ts[i] == Render(rs[i])
  {
    if rs == [] then [] else [Render(rs[0])] + Texts(rs[1..])
  }

  lemma {:induction false} TextsAppend(a: seq<Reply>, b: seq<Reply>)
    ensures Texts(a + b) == Texts(a) + Texts(b)
  {
    if a == [] {
      assert a + b == b;
    } else {
      assert (a + b)[1..] == a[1..] + b;
      TextsAppend(a[1..], b);
    }
  }

  /** A chat in which commands arrive; `outbox` is every message sent so far. */
  class Conversation {
    var outbox: seq<string>

    constructor ()
      ensures outbox == []
    {
      outbox := [];
    }

    /** Sends one message. */
    method ReplyText(text: string)
      modifies this
      ensures outbox == old(outbox) + [text]
    {
      outbox := outbox + [text];
    }

    /** /start: one fixed welcome message; nothing is fetched. */
    method Start()
      modifies this
      ensures outbox == old(outbox) + [WelcomeText]
    {
      ReplyText(Render(Reply.Welcome));
    }

    /** /help: one fixed list of commands; nothing is fetched. */
    method Help()
      modifies this
      ensures outbox == old(outbox) + [HelpText]
    {
      ReplyText(Render(Reply.Help));
    }

    /** /get_the_most_watched_match: exactly one message. */
    method GetTheMostWatchedMatch(fetched: seq<Match>)
      modifies this
      ensures outbox == old(outbox) + [Render(MostWatchedReply(fetched))]
    {
      var matches := Filter(fetched);
      if matches == [] {
        ReplyText(NoMatchesText);
        return;
      }
      var best := matches[ArgMax(matches)];
      ReplyText(LineText(best.radiant, best.dire, best.spectators));
    }

    /** /all_matches: the fallback message, or one message per qualifying
        match in filtered order. */
    method AllMatches(fetched: seq<Match>)
      modifies this
      ensures outbox == old(outbox) + Texts(AllMatchesReplies(fetched))
    {
      var filtered := Filter(fetched);
      if filtered == [] {
        ReplyText(NoMatchesText);
      } else {
        for i := 0 to |filtered|
          invariant outbox == old(outbox) + Texts(MatchLines(filtered[..i]))
        {
          var m := filtered[i];
          ReplyText(LineText(m.radiant, m.dire, m.spectators));
          assert filtered[..i + 1] == filtered[..i] + [m];
          MatchLinesAppend(filtered[..i], m);
          TextsAppend(MatchLines(filtered[..i]), [LineOf(m)]);
        }
        assert filtered[..|filtered|] == filtered;
      }
    }
  }

  lemma MatchLinesAppend(live: seq<Match>, m: Match)
    ensures MatchLines(live + [m]) == MatchLines(live) + [LineOf(m)]
  {
  }
}
