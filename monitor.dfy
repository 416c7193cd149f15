/**
 * The Twitter side: reading the watched account's timeline, keeping only its
 * retweets, finding the promoted user of each retweet, and remembering which
 * tweets were already handled so that every promotion is reported once per run.
 *
 * The timeline request is an input (`Timeline`); the callback of `monitor` is
 * modelled by the list of names it has been handed (`delivered`).
 */
module Monitor {
  import opened Wrappers
  import opened Text

  /** The account whose timeline is watched; its own name is never a promotion. */
  const TargetAccount := "timedotfun"

  /**
   * A tweet of the timeline. `retweetOf` is the screen name of the original
   * author when the tweet carries a `retweeted_status`, and `None` otherwise.
   */
  datatype Tweet = Tweet(id: int, fullText: string, retweetOf: Option<string>)

  /** What the timeline request gives: the latest tweets, or an error of the client. */
  datatype Timeline = Timeline(tweets: seq<Tweet>) | TimelineError

  // ------------------------------------------------------------ timeline filter

  /** The retweets of `tweets`, in timeline order. */
  function Retweets(tweets: seq<Tweet>): seq<Tweet>
  {
    if tweets == [] then []
    else (if tweets[0].retweetOf.Some? then [tweets[0]] else []) + Retweets(tweets[1..])
  }

  /** `get_latest_retweets`: the retweets of the timeline, none when the request failed. */
  function LatestRetweets(timeline: Timeline): seq<Tweet>
  {
    match timeline
    case Timeline(tweets) => Retweets(tweets)
    case TimelineError => []
  }

  // ------------------------------------------------------------ text patterns

  /** The marker the text fallback looks for first ("has retweeted"). */
  const RetweetMarker := "\U{5DF2}\U{8F6C}\U{5E16}"

  /** The two patterns of the text fallback, in priority order: `已转帖\s+(\w+)` and `@(\w+)`. */
  datatype Pattern = MarkerPattern | MentionPattern

  /** Where the captured group `(\w+)` of a match lies in the text. */
  datatype Capture = Capture(start: nat, end: nat)

  /**
   * The match of `p` that starts exactly at `i`, if any. Both patterns end with a
   * greedy `\w+`, so a match takes the longest run of word characters; in the
   * marker pattern `\s+` is greedy too and `\w` never matches a space.
   */
  function MatchAt(p: Pattern, s: string, i: nat): (r: Option<Capture>)
    requires i <= |s|
    ensures r.Some? ==> i < r.value.start < r.value.end <= |s|
    ensures r.Some? ==> forall j | r.value.start <= j < r.value.end :: IsWordChar(s[j])
    ensures r.Some? ==> r.value.end == |s| || !IsWordChar(s[r.value.end])
  {
    match p
    case MarkerPattern =>
      if !OccursAt(s, RetweetMarker, i) then None
      else
        var gap := SpaceRun(s, i + |RetweetMarker|);
        var start := i + |RetweetMarker| + gap;
        var word := WordRun(s, start);
        if gap == 0 || word == 0 then None else Some(Capture(start, start + word))
    case MentionPattern =>
      if i < |s| && s[i] == '@' then
        var word := WordRun(s, i + 1);
        if word == 0 then None else Some(Capture(i + 1, i + 1 + word))
      else None
  }

  /**
   * `re.findall(p, s)` from index `i` on: the captured groups of the leftmost
   * matches, which do not overlap; after a match the scan resumes at its end.
   */
  function FindAll(p: Pattern, s: string, i: nat): seq<string>
    requires i <= |s|
    decreases |s| - i
  {
    if i == |s| then []
    else
      match MatchAt(p, s, i)
      case Some(c) => [s[c.start..c.end]] + FindAll(p, s, c.end)
      case None => FindAll(p, s, i + 1)
  }

  /** The first match that is not the watched account itself, compared case-insensitively. */
  function FirstAllowed(matches: seq<string>): (r: Option<string>)
    ensures r.Some? ==> r.value in matches && Lower(r.value) != TargetAccount
    ensures r.None? ==> forall m | m in matches :: Lower(m) == TargetAccount
  {
    if matches == [] then None
    else if Lower(matches[0]) != TargetAccount then Some(matches[0])
    else FirstAllowed(matches[1..])
  }

  /**
   * `extract_username`: the retweeted author when there is one; otherwise the first
   * allowed capture of the marker pattern, and failing that of the mention pattern.
   */
  function ExtractUsername(t: Tweet): (r: Option<string>)
    ensures t.retweetOf.Some? ==> r == t.retweetOf
    ensures t.retweetOf.None? && r.Some? ==> Lower(r.value) != TargetAccount
  {
    if t.retweetOf.Some? then t.retweetOf
    else
      match FirstAllowed(FindAll(MarkerPattern, t.fullText, 0))
      case Some(m) => Some(m)
      case None => FirstAllowed(FindAll(MentionPattern, t.fullText, 0))
  }

  // ------------------------------------------------------------ promotions

  /** The name a newly seen tweet yields: none when there is no name or it is empty (falsy). */
  function Named(t: Tweet): (r: seq<string>)
    ensures |r| <= 1
    ensures r != [] ==> ExtractUsername(t) == Some(r[0]) && r[0] != []
    ensures ExtractUsername(t).Some? && ExtractUsername(t).value != [] ==> r == [ExtractUsername(t).value]
  {
    match ExtractUsername(t)
    case Some(u) => if u != [] then [u] else []
    case None => []
  }

  /** The names reported by one check and the processed ids after it. */
  datatype Promotion = Promotion(names: seq<string>, seen: set<int>)

  /**
   * The loop of `check_new_promotions` over `tweets`, starting from the processed
   * ids `seen`: an id already processed is skipped; every other tweet is marked
   * processed and contributes its name, if it yields one.
   */
  function Promote(seen: set<int>, tweets: seq<Tweet>): (r: Promotion)
    ensures seen <= r.seen
    ensures |r.names| <= |tweets|
  {
    if tweets == [] then Promotion([], seen)
    else
      var p := Promote(seen, tweets[..|tweets| - 1]);
      var t := tweets[|tweets| - 1];
      if t.id in p.seen then p else Promotion(p.names + Named(t), p.seen + {t.id})
  }

  // ------------------------------------------------------------ the monitor

  class TwitterMonitor {
    const targetAccount: string
    /** Ids of every tweet handled so far in this run; it only grows. */
    var processedTweets: set<int>
    /** The names handed to the callback so far, in order. */
    var delivered: seq<string>

    constructor ()
      ensures targetAccount == TargetAccount && processedTweets == {} && delivered == []
    {
      targetAccount := TargetAccount;
      processedTweets := {};
      delivered := [];
    }

    /** `check_new_promotions`: report the names of the retweets not processed before. */
    method CheckNewPromotions(timeline: Timeline) returns (names: seq<string>)
      modifies this`processedTweets
      ensures var p := Promote(old(processedTweets), LatestRetweets(timeline));
        names == p.names && processedTweets == p.seen
      ensures old(processedTweets) <= processedTweets
    {
      var retweets := LatestRetweets(timeline);
      names := [];
      for i := 0 to |retweets|
        invariant var p := Promote(old(processedTweets), retweets[..i]);
          names == p.names && processedTweets == p.seen
      {
        assert retweets[..i + 1][..i] == retweets[..i];
        var tweet := retweets[i];
        if tweet.id in processedTweets {
          continue;
        }
        var username := ExtractUsername(tweet);
        if username.Some? && username.value != [] {
          names := names + [username.value];
        }
        processedTweets := processedTweets + {tweet.id};
      }
      assert retweets[..|retweets|] == retweets;
    }

    /** One iteration of `monitor`: check, then hand every new name to the callback, in order. */
    method MonitorOnce(timeline: Timeline)
      modifies this`processedTweets, this`delivered
      ensures var p := Promote(old(processedTweets), LatestRetweets(timeline));
        delivered == old(delivered) + p.names && processedTweets == p.seen
    {
      ghost var p := Promote(processedTweets, LatestRetweets(timeline));
      var names := CheckNewPromotions(timeline);
      assert names == p.names;
      ghost var checked := processedTweets;
      for i := 0 to |names|
        invariant delivered == old(delivered) + names[..i]
        invariant processedTweets == checked
      {
        assert names[..i + 1] == names[..i] + [names[i]];
        delivered := delivered + [names[i]];
      }
      assert names[..|names|] == names;
      assert delivered == old(delivered) + p.names;
    }
  }
}
