/**
 * What the monitor promises: the retweet filter keeps exactly the retweets in
 * order, the extractor prefers the retweeted author and then the first allowed
 * capture of each pattern in priority order, and the dedup store reports every
 * tweet at most once per run.
 */
module MonitorProps {
  import opened Wrappers
  import opened Text
  import opened Monitor

  // ------------------------------------------------------------ retweet filter

  /** The filter keeps a tweet exactly when it is a retweet. */
  lemma {:induction false} RetweetsMembers(tweets: seq<Tweet>, t: Tweet)
    ensures t in Retweets(tweets) <==> t in tweets && t.retweetOf.Some?
  {
    if tweets != [] {
      RetweetsMembers(tweets[1..], t);
      assert tweets == [tweets[0]] + tweets[1..];
    }
  }

  /** The filter keeps timeline order: filtering a concatenation concatenates the filtered parts. */
  lemma {:induction false} RetweetsAppend(a: seq<Tweet>, b: seq<Tweet>)
    ensures Retweets(a + b) == Retweets(a) + Retweets(b)
  {
    if a == [] {
      assert a + b == b;
    } else {
      var c := a + b;
      assert c[0] == a[0];
      assert c[1..] == a[1..] + b;
      RetweetsAppend(a[1..], b);
      var head: seq<Tweet> := if a[0].retweetOf.Some? then [a[0]] else [];
      assert Retweets(c) == head + (Retweets(a[1..]) + Retweets(b));
      assert Retweets(a) == head + Retweets(a[1..]);
    }
  }

  /**
   * `get_latest_retweets` returns exactly the retweets of the timeline, and
   * nothing when the request failed.
   */
  lemma LatestRetweetsSpec(timeline: Timeline, t: Tweet)
    ensures timeline.TimelineError? ==> LatestRetweets(timeline) == []
    ensures t in LatestRetweets(timeline) <==>
      timeline.Timeline? && t in timeline.tweets && t.retweetOf.Some?
  {
    if timeline.Timeline? {
      RetweetsMembers(timeline.tweets, t);
    }
  }

  /** A timeline made only of retweets is kept whole. */
  lemma {:induction false} RetweetsKeepsRetweets(tweets: seq<Tweet>)
    requires forall i | 0 <= i < |tweets| :: tweets[i].retweetOf.Some?
    ensures Retweets(tweets) == tweets
  {
    if tweets != [] {
      RetweetsKeepsRetweets(tweets[1..]);
      assert [tweets[0]] + tweets[1..] == tweets;
    }
  }

  // ------------------------------------------------------------ pattern scan

  /** Every capture `findall` returns is a non-empty run of `\w` characters of the text. */
  lemma {:induction false} FindAllWords(p: Pattern, s: string, i: nat)
    requires i <= |s|
    ensures forall m | m in FindAll(p, s, i) :: IsWord(m)
    decreases |s| - i
  {
    if i < |s| {
      match MatchAt(p, s, i)
      case Some(c) =>
        FindAllWords(p, s, c.end);
        var m := s[c.start..c.end];
        assert forall j | 0 <= j < |m| :: m[j] == s[c.start + j];
        assert IsWord(m);
      case None =>
        FindAllWords(p, s, i + 1);
    }
  }

  /**
   * When a pattern matches at `i`, and where its capture starts: a mention needs
   * an `@` followed by a word character; a marker match needs the marker, at
   * least one whitespace character, then a word character.
   */
  lemma MatchAtSpec(p: Pattern, s: string, i: nat)
    requires i <= |s|
    ensures p == MentionPattern ==>
      (MatchAt(p, s, i).Some? <==> i + 1 < |s| && s[i] == '@' && IsWordChar(s[i + 1]))
    ensures p == MentionPattern && MatchAt(p, s, i).Some? ==> MatchAt(p, s, i).value.start == i + 1
    ensures p == MarkerPattern && !OccursAt(s, RetweetMarker, i) ==> MatchAt(p, s, i).None?
    ensures p == MarkerPattern && OccursAt(s, RetweetMarker, i) ==>
      var gap := SpaceRun(s, i + |RetweetMarker|);
      var start := i + |RetweetMarker| + gap;
      (MatchAt(p, s, i).Some? <==> gap > 0 && start < |s| && IsWordChar(s[start]))
      && (MatchAt(p, s, i).Some? ==> MatchAt(p, s, i).value.start == start)
  {
  }

  /** `findall` finds nothing from `i` on exactly when no match starts at or after `i`. */
  lemma {:induction false} FindAllEmpty(p: Pattern, s: string, i: nat)
    requires i <= |s|
    ensures FindAll(p, s, i) == [] <==> forall j | i <= j < |s| :: MatchAt(p, s, j).None?
    decreases |s| - i
  {
    if i < |s| {
      var here := MatchAt(p, s, i);
      if here.None? {
        assert FindAll(p, s, i) == FindAll(p, s, i + 1);
        FindAllEmpty(p, s, i + 1);
        assert (forall j | i <= j < |s| :: MatchAt(p, s, j).None?)
          <==> (forall j | i + 1 <= j < |s| :: MatchAt(p, s, j).None?);
      } else {
        assert FindAll(p, s, i) != [];
        assert !(forall j | i <= j < |s| :: MatchAt(p, s, j).None?) by {
          assert MatchAt(p, s, i).Some?;
        }
      }
    }
  }

  /**
   * The first capture `findall` returns is that of the leftmost match, and the
   * scan goes on after the end of that match.
   */
  lemma {:induction false} FindAllLeftmost(p: Pattern, s: string, i: nat, k: nat)
    requires i <= k < |s|
    requires MatchAt(p, s, k).Some?
    requires forall j | i <= j < k :: MatchAt(p, s, j).None?
    ensures var c := MatchAt(p, s, k).value;
      FindAll(p, s, i) == [s[c.start..c.end]] + FindAll(p, s, c.end)
    decreases k - i
  {
    if i < k {
      FindAllLeftmost(p, s, i + 1, k);
    }
  }

  /** `FirstAllowed` returns the earliest match that is not the watched account. */
  lemma {:induction false} FirstAllowedIsFirst(matches: seq<string>)
    ensures match FirstAllowed(matches)
      case Some(m) => exists k | 0 <= k < |matches| ::
        matches[k] == m && forall j | 0 <= j < k :: Lower(matches[j]) == TargetAccount
      case None => forall j | 0 <= j < |matches| :: Lower(matches[j]) == TargetAccount
  {
    if matches != [] && Lower(matches[0]) == TargetAccount {
      FirstAllowedIsFirst(matches[1..]);
      match FirstAllowed(matches[1..])
      case Some(m) =>
        var k :| 0 <= k < |matches[1..]| && matches[1..][k] == m
          && forall j | 0 <= j < k :: Lower(matches[1..][j]) == TargetAccount;
        assert matches[k + 1] == m;
        assert forall j | 0 <= j < k + 1 :: Lower(matches[j]) == TargetAccount by {
          forall j | 0 <= j < k + 1
            ensures Lower(matches[j]) == TargetAccount
          {
            if j > 0 {
              assert matches[j] == matches[1..][j - 1];
            }
          }
        }
      case None =>
        assert forall j | 1 <= j < |matches| :: matches[j] == matches[1..][j - 1];
    }
  }

  // ------------------------------------------------------------ extractor

  /** With a retweeted author the text is not consulted at all. */
  lemma AuthorIgnoresText(t: Tweet, text: string)
    requires t.retweetOf.Some?
    ensures ExtractUsername(t) == ExtractUsername(t.(fullText := text)) == t.retweetOf
  {
  }

  /**
   * The text fallback: an allowed capture of the marker pattern wins over every
   * mention, the mention pattern is consulted only when every marker capture is
   * the watched account, and a name found in the text is a non-empty `\w+` word
   * taken from one of the two patterns.
   */
  lemma TextFallback(t: Tweet)
    requires t.retweetOf.None?
    ensures var marked := FindAll(MarkerPattern, t.fullText, 0);
      var mentioned := FindAll(MentionPattern, t.fullText, 0);
      var r := ExtractUsername(t);
      && (FirstAllowed(marked).Some? ==> r == FirstAllowed(marked))
      && (FirstAllowed(marked).None? ==> r == FirstAllowed(mentioned))
      && (r.None? <==> (forall m | m in marked :: Lower(m) == TargetAccount)
                       && (forall m | m in mentioned :: Lower(m) == TargetAccount))
      && (r.Some? ==> (r.value in marked || r.value in mentioned) && r.value != []
                      && Lower(r.value) != TargetAccount)
  {
    FindAllWords(MarkerPattern, t.fullText, 0);
    FindAllWords(MentionPattern, t.fullText, 0);
  }

  /** The first capture of the mention pattern is the word after the leftmost `@` followed by a word character. */
  lemma LeftmostMention(s: string, k: nat)
    requires k + 1 < |s| && s[k] == '@' && IsWordChar(s[k + 1])
    requires forall j | 0 <= j < k :: !(s[j] == '@' && IsWordChar(s[j + 1]))
    ensures var mentioned := FindAll(MentionPattern, s, 0);
      mentioned != [] && mentioned[0] == s[k + 1..k + 1 + WordRun(s, k + 1)]
  {
    var c := Capture(k + 1, k + 1 + WordRun(s, k + 1));
    assert MatchAt(MentionPattern, s, k) == Some(c);
    forall j | 0 <= j < k
      ensures MatchAt(MentionPattern, s, j).None?
    {
      MatchAtSpec(MentionPattern, s, j);
    }
    FindAllLeftmost(MentionPattern, s, 0, k);
  }

  /**
   * Without a marker match, the name is the word after the leftmost `@` that is
   * followed by a word character, when that word is not the watched account.
   */
  lemma FirstMentionWins(t: Tweet, k: nat)
    requires t.retweetOf.None?
    requires forall j | 0 <= j < |t.fullText| :: MatchAt(MarkerPattern, t.fullText, j).None?
    requires k + 1 < |t.fullText| && t.fullText[k] == '@' && IsWordChar(t.fullText[k + 1])
    requires forall j | 0 <= j < k :: !(t.fullText[j] == '@' && IsWordChar(t.fullText[j + 1]))
    requires Lower(t.fullText[k + 1..k + 1 + WordRun(t.fullText, k + 1)]) != TargetAccount
    ensures ExtractUsername(t) == Some(t.fullText[k + 1..k + 1 + WordRun(t.fullText, k + 1)])
  {
    var s := t.fullText;
    FindAllEmpty(MarkerPattern, s, 0);
    assert FindAll(MarkerPattern, s, 0) == [];
    LeftmostMention(s, k);
  }

  /** A plain mention is found: the text "gm @alice" names `alice`. */
  lemma MentionExample()
    ensures ExtractUsername(Tweet(1, "gm @alice", None)) == Some("alice")
  {
    var s := "gm @alice";
    forall j | 0 <= j < |s|
      ensures MatchAt(MarkerPattern, s, j).None?
    {
      assert s[j] != RetweetMarker[0];
      assert !OccursAt(s, RetweetMarker, j);
      MatchAtSpec(MarkerPattern, s, j);
    }
    assert WordRun(s, 9) == 0;
    assert WordRun(s, 4) == 5 by {
      assert IsWordChar(s[4]) && IsWordChar(s[5]) && IsWordChar(s[6]) && IsWordChar(s[7]) && IsWordChar(s[8]);
    }
    assert s[4..9] == "alice";
    assert |Lower(s[4..9])| != |TargetAccount|;
    FirstMentionWins(Tweet(1, s, None), 3);
  }

  // ------------------------------------------------------------ dedup store

  /** The ids of a batch of tweets. */
  function Ids(tweets: seq<Tweet>): set<int>
  {
    set t | t in tweets :: t.id
  }

  lemma IdsSnoc(tweets: seq<Tweet>, t: Tweet)
    ensures Ids(tweets + [t]) == Ids(tweets) + {t.id}
  {
    assert forall u | u in tweets + [t] :: u in tweets || u == t;
  }

  lemma IdsAppend(a: seq<Tweet>, b: seq<Tweet>)
    ensures Ids(a + b) == Ids(a) + Ids(b)
  {
    assert forall u | u in a + b :: u in a || u in b;
  }

  /** After a check, the processed ids are the old ones plus every id of the batch. */
  lemma {:induction false} PromoteMarksAll(seen: set<int>, tweets: seq<Tweet>)
    ensures Promote(seen, tweets).seen == seen + Ids(tweets)
  {
    if tweets != [] {
      var init := tweets[..|tweets| - 1];
      PromoteMarksAll(seen, init);
      assert init + [tweets[|tweets| - 1]] == tweets;
      IdsSnoc(init, tweets[|tweets| - 1]);
    }
  }

  /** A batch whose ids were all processed before reports nothing and changes nothing. */
  lemma {:induction false} PromoteKnown(seen: set<int>, tweets: seq<Tweet>)
    requires Ids(tweets) <= seen
    ensures Promote(seen, tweets) == Promotion([], seen)
  {
    if tweets != [] {
      var init := tweets[..|tweets| - 1];
      assert init + [tweets[|tweets| - 1]] == tweets;
      IdsSnoc(init, tweets[|tweets| - 1]);
      PromoteKnown(seen, init);
    }
  }

  /** Checking the same batch a second time reports nothing. */
  lemma CheckTwice(seen: set<int>, tweets: seq<Tweet>)
    ensures var once := Promote(seen, tweets);
      Promote(once.seen, tweets) == Promotion([], once.seen)
  {
    PromoteMarksAll(seen, tweets);
    PromoteKnown(Promote(seen, tweets).seen, tweets);
  }

  /** A tweet whose id already occurs earlier in the same batch is skipped. */
  lemma RepeatInBatch(seen: set<int>, tweets: seq<Tweet>, t: Tweet)
    requires t.id in Ids(tweets)
    ensures Promote(seen, tweets + [t]) == Promote(seen, tweets)
  {
    PromoteMarksAll(seen, tweets);
    assert (tweets + [t])[..|tweets + [t]| - 1] == tweets;
  }

  /** Two checks in a row report what one check of both batches together reports. */
  lemma {:induction false} PromoteAppend(seen: set<int>, a: seq<Tweet>, b: seq<Tweet>)
    ensures var p := Promote(seen, a);
      var q := Promote(p.seen, b);
      Promote(seen, a + b) == Promotion(p.names + q.names, q.seen)
  {
    if b == [] {
      assert a + b == a;
    } else {
      var init := b[..|b| - 1];
      PromoteAppend(seen, a, init);
      assert (a + b)[..|a + b| - 1] == a + init;
      assert (a + b)[|a + b| - 1] == b[|b| - 1];
    }
  }

  /** The tweets a check handles as new: first occurrences of ids not processed before. */
  function Fresh(seen: set<int>, tweets: seq<Tweet>): seq<Tweet>
    decreases |tweets|
  {
    if tweets == [] then []
    else if tweets[0].id in seen then Fresh(seen, tweets[1..])
    else [tweets[0]] + Fresh(seen + {tweets[0].id}, tweets[1..])
  }

  /** The names a sequence of new tweets yields, in order. */
  function NamesOf(tweets: seq<Tweet>): seq<string>
  {
    if tweets == [] then [] else Named(tweets[0]) + NamesOf(tweets[1..])
  }

  /** Every tweet of `tweets` that yields a non-empty name contributes it. */
  lemma {:induction false} NamesOfCovers(tweets: seq<Tweet>, t: Tweet)
    requires t in tweets && ExtractUsername(t).Some? && ExtractUsername(t).value != []
    ensures ExtractUsername(t).value in NamesOf(tweets)
    decreases |tweets|
  {
    if tweets[0] == t {
      assert Named(t) == [ExtractUsername(t).value];
    } else {
      assert t in tweets[1..];
      NamesOfCovers(tweets[1..], t);
    }
  }

  /**
   * The reported names are, in timeline order, the names of the tweets seen for
   * the first time, one per such tweet that yields a non-empty name.
   */
  lemma {:induction false} PromoteIsFreshNames(seen: set<int>, tweets: seq<Tweet>)
    ensures Promote(seen, tweets).names == NamesOf(Fresh(seen, tweets))
    decreases |tweets|
  {
    if tweets != [] {
      var t := tweets[0];
      var rest := tweets[1..];
      assert tweets == [t] + rest;
      PromoteAppend(seen, [t], rest);
      assert [t][..0] == [];
      var p := Promote(seen, [t]);
      PromoteIsFreshNames(p.seen, rest);
      if t.id in seen {
        assert p == Promotion([], seen);
      } else {
        assert p == Promotion(Named(t), seen + {t.id});
        assert Fresh(seen, tweets)[1..] == Fresh(seen + {t.id}, rest);
      }
    }
  }

  /**
   * Every tweet seen for the first time whose extraction gives a non-empty name
   * has that name reported: a new promotion is never lost.
   */
  lemma ReportsEveryFresh(seen: set<int>, tweets: seq<Tweet>, t: Tweet)
    requires t in Fresh(seen, tweets)
    requires ExtractUsername(t).Some? && ExtractUsername(t).value != []
    ensures ExtractUsername(t).value in Promote(seen, tweets).names
  {
    PromoteIsFreshNames(seen, tweets);
    NamesOfCovers(Fresh(seen, tweets), t);
  }

  /** The tweets handled as new come from the batch and were not processed before. */
  lemma {:induction false} FreshAreNew(seen: set<int>, tweets: seq<Tweet>)
    ensures forall u | u in Fresh(seen, tweets) :: u.id !in seen && u in tweets
    decreases |tweets|
  {
    if tweets != [] {
      var t := tweets[0];
      if t.id in seen {
        FreshAreNew(seen, tweets[1..]);
      } else {
        FreshAreNew(seen + {t.id}, tweets[1..]);
      }
    }
  }

  /** No two tweets of `f` share an id. */
  predicate DistinctIds(f: seq<Tweet>)
  {
    forall i, j | 0 <= i < j < |f| :: f[i].id != f[j].id
  }

  /** The tweets handled as new have pairwise distinct ids. */
  lemma {:induction false} FreshDistinct(seen: set<int>, tweets: seq<Tweet>)
    ensures DistinctIds(Fresh(seen, tweets))
    decreases |tweets|
  {
    if tweets != [] {
      var t := tweets[0];
      if t.id in seen {
        FreshDistinct(seen, tweets[1..]);
        assert Fresh(seen, tweets) == Fresh(seen, tweets[1..]);
      } else {
        var g := Fresh(seen + {t.id}, tweets[1..]);
        var f := Fresh(seen, tweets);
        FreshDistinct(seen + {t.id}, tweets[1..]);
        FreshAreNew(seen + {t.id}, tweets[1..]);
        assert f == [t] + g;
        forall i, j | 0 <= i < j < |f|
          ensures f[i].id != f[j].id
        {
          assert f[j] == g[j - 1];
          if i > 0 {
            assert f[i] == g[i - 1];
            assert g[i - 1].id != g[j - 1].id;
          } else {
            assert f[i] == t;
            assert g[j - 1] in g;
          }
        }
      }
    }
  }

  /** There is one tweet handled as new per id of the batch not processed before. */
  lemma {:induction false} FreshCount(seen: set<int>, tweets: seq<Tweet>)
    ensures |Fresh(seen, tweets)| == |Ids(tweets) - seen|
    decreases |tweets|
  {
    if tweets != [] {
      var t := tweets[0];
      var rest := tweets[1..];
      IdsCons(t, rest);
      if t.id in seen {
        FreshCount(seen, rest);
        assert Fresh(seen, tweets) == Fresh(seen, rest);
        assert Ids(tweets) - seen == Ids(rest) - seen;
      } else {
        var later := Ids(rest) - (seen + {t.id});
        FreshCount(seen + {t.id}, rest);
        assert |Fresh(seen, tweets)| == 1 + |Fresh(seen + {t.id}, rest)|;
        assert Ids(tweets) - seen == later + {t.id};
        assert t.id !in later;
      }
    }
  }

  lemma IdsCons(t: Tweet, rest: seq<Tweet>)
    ensures Ids([t] + rest) == {t.id} + Ids(rest)
  {
    assert forall u | u in [t] + rest :: u == t || u in rest;
  }

  lemma {:induction false} NamesOfAtMostOne(tweets: seq<Tweet>)
    ensures |NamesOf(tweets)| <= |tweets|
  {
    if tweets != [] {
      NamesOfAtMostOne(tweets[1..]);
    }
  }

  /**
   * At most once: a check reports no more names than there are ids it had not
   * processed before, so a tweet is never reported twice in a run.
   */
  lemma AtMostOnce(seen: set<int>, tweets: seq<Tweet>)
    ensures |Promote(seen, tweets).names| <= |Ids(tweets) - seen|
  {
    PromoteIsFreshNames(seen, tweets);
    NamesOfAtMostOne(Fresh(seen, tweets));
    FreshCount(seen, tweets);
  }

  /** Every name reported by a check of retweets is the author of a retweet not processed before. */
  lemma {:induction false} NamesAreAuthors(seen: set<int>, tweets: seq<Tweet>)
    requires forall i | 0 <= i < |tweets| :: tweets[i].retweetOf.Some?
    ensures forall n | n in Promote(seen, tweets).names ::
      exists t | t in tweets :: t.id !in seen && t.retweetOf == Some(n) && n != []
  {
    if tweets != [] {
      var init := tweets[..|tweets| - 1];
      var t := tweets[|tweets| - 1];
      NamesAreAuthors(seen, init);
      PromoteMarksAll(seen, init);
      forall n | n in Promote(seen, tweets).names
        ensures exists u | u in tweets :: u.id !in seen && u.retweetOf == Some(n) && n != []
      {
        var p := Promote(seen, init);
        if n in p.names {
          var u :| u in init && u.id !in seen && u.retweetOf == Some(n) && n != [];
          assert u in tweets;
        } else {
          assert t.id !in p.seen && n in Named(t);
          assert t in tweets;
        }
      }
    }
  }

  /**
   * `check_new_promotions` only sees retweets, so its names always come from the
   * retweeted authors: the text fallback of the extractor is never reached from it.
   */
  lemma CheckReportsAuthors(seen: set<int>, timeline: Timeline)
    ensures forall n | n in Promote(seen, LatestRetweets(timeline)).names ::
      exists t | t in LatestRetweets(timeline) :: t.id !in seen && t.retweetOf == Some(n)
  {
    var tweets := LatestRetweets(timeline);
    forall i | 0 <= i < |tweets|
      ensures tweets[i].retweetOf.Some?
    {
      LatestRetweetsSpec(timeline, tweets[i]);
    }
    NamesAreAuthors(seen, tweets);
  }

  /**
   * Only tweet ids are remembered, not names: two different retweets of the same
   * author are both reported, in the same check.
   */
  lemma SameAuthorTwice(author: string)
    requires author != []
    ensures Promote({}, [Tweet(1, "", Some(author)), Tweet(2, "", Some(author))]).names == [author, author]
  {
    var tweets := [Tweet(1, "", Some(author)), Tweet(2, "", Some(author))];
    assert tweets[..1] == [tweets[0]];
    assert tweets[..1][..0] == [];
    assert Named(tweets[0]) == [author] && Named(tweets[1]) == [author];
    var first := Promote({}, tweets[..1]);
    assert Promote({}, tweets[..1][..0]) == Promotion([], {});
    assert first == Promotion([] + [author], {} + {1});
    assert [] + [author] == [author];
    assert Promote({}, tweets) == Promotion(first.names + [author], {1, 2});
  }
}
