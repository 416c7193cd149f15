# TimeFun sniper bot — a Dafny model of its decision logic

The bot watches the `@timedotfun` Twitter account. Each retweet names a user who is
being promoted. The bot then buys that user's time coin on time.fun by driving a
Chrome session. This project models the two parts of the bot that make decisions,
and proves what they promise:

- **`TimeFunBuyer`** (`timefun_buyer_en.py`), modelled in `buyer.dfy`:
  - the ranked-fallback element lookup;
  - the login-status check and the login gate;
  - the purchase step machine of `buy_user`;
  - the bounded retry loop `buy_with_retry`.

  The browser is an oracle. Every step looks at a `Page` snapshot, defined in
  `browser.dfy`. A snapshot holds:
  - the URL;
  - the locators that find an element;
  - the locators whose element accepts a click;
  - the text of every button, in document order.

  The buyer records in `trace` the driver commands that the model covers:
  navigate, probe a locator, click, clear, keystroke, press a button, and the
  back-off wait. Two kinds of command are not recorded. The button listings are
  not: `Page.buttons` stands for their result. The commands of the fresh-session
  form login are not either (see "Left out").

  Each operation has a specification function. That function gives the result,
  the new `is_logged_in` flag and the commands sent. The methods of the class
  `TimeFunBuyer` keep the source's loops and early returns, and they are proved
  equal to those functions. `buyer_props.dfy` proves what the functions promise.
- **`TwitterMonitor`** (`twitter_monitor.py`), modelled in `monitor.dfy`:
  - the retweet filter;
  - the username extractor, with its two regular expressions scanned the way
    `re.findall` scans them;
  - the run-scoped store of processed tweet ids;
  - one iteration of `monitor`.

  The timeline request is an input. The callback is the list of names it has been
  handed (`delivered`). `monitor_props.dfy` proves the dedup and extraction
  properties.

`text.dfy` holds the following helpers:
- the substring test (Python's `in` on strings);
- lower-casing;
- the `\w` and `\s` character classes.

`wrappers.dfy` holds `Option`.

## Model

| member | source | states |
|---|---|---|
| Browser.FirstInSpec | timefun_buyer_en.py:388-403 | The winner of a ranked-fallback search is a hit, and no earlier candidate is a hit. The search finds nothing exactly when no candidate is a hit. |
| Buyer.TimeFunBuyer.constructor | timefun_buyer_en.py:20-44 | A new buyer keeps its settings, is not logged in and has sent no command. |
| Buyer.TimeFunBuyer.IsElementPresent | timefun_buyer_en.py:203-209 | The answer is whether the locator finds an element. Exactly one lookup is sent. |
| Buyer.TimeFunBuyer.TypeText | timefun_buyer_en.py:378-382 | One keystroke is sent per character, in order, and nothing else. |
| Buyer.TimeFunBuyer.FindAndClick | timefun_buyer_en.py:384-403 | Returns true exactly when some locator is clickable. The commands sent are probes of the locators in list order, up to the first clickable one, then a click on it. |
| Buyer.TimeFunBuyer.Lookup | timefun_buyer_en.py:409-422 | Returns the index of the first present locator, or none. Locators are probed in order, and none after the first present one. |
| Buyer.TimeFunBuyer.FindInput | timefun_buyer_en.py:405-422 | Returns the first present selector in list order, or `None` when no selector is present. |
| Buyer.IsConfirmLabel | timefun_buyer_en.py:581 | A label that passes the confirm test also passes the offer test at line 557. |
| Buyer.FirstButtonSpec | timefun_buyer_en.py:552-560 | The chosen button fits its role, and no earlier readable button does. Nothing is chosen exactly when no button fits. |
| Buyer.TimeFunBuyer.ChooseButton | timefun_buyer_en.py:576-584 | The button loops with `break` choose exactly the first fitting button. Unreadable texts are skipped. |
| Buyer.StatusRun | timefun_buyer_en.py:211-265 | The login check never clears the logged-in flag. It sets the flag exactly when it answers true. |
| Buyer.TimeFunBuyer.CheckLoginStatus | timefun_buyer_en.py:211-265 | The method's answer, its new flag and the commands it sends are those of `StatusRun`. |
| Buyer.PollRun | timefun_buyer_en.py:285-294 | The manual-login wait sets the flag exactly when it succeeds, and never clears it. |
| Buyer.TimeFunBuyer.AwaitManualLogin | timefun_buyer_en.py:285-294 | The polling loop stops at the first successful check, and agrees with `PollRun` on answer, flag and commands. |
| Buyer.LoginRun | timefun_buyer_en.py:267-376 | `login` sets the flag exactly when it succeeds, and never clears it. |
| Buyer.TimeFunBuyer.Login | timefun_buyer_en.py:267-298 | The existing-session branch checks, then opens the login page and waits. A fresh session that is already logged in returns at once. Agrees with `LoginRun`. |
| Buyer.AttemptRun | timefun_buyer_en.py:424-428 | One attempt changes the flag only through the login gate, which it enters only when not logged in. |
| Buyer.TimeFunBuyer.BuyUser | timefun_buyer_en.py:424-628 | `buy_user` agrees with `AttemptRun` on outcome, flag and commands. |
| Buyer.TimeFunBuyer.Purchase | timefun_buyer_en.py:429-497 | Navigation goes to the saved page or to the market tab. A failed navigation or a missing Buy button ends the attempt. Agrees with `PurchaseRun`. |
| Buyer.TimeFunBuyer.FillDialog | timefun_buyer_en.py:508-540 | The currency toggle is tried. Then the amount field is looked up, cleared and typed into. A missing field ends the attempt. Agrees with `DialogRun`. |
| Buyer.TimeFunBuyer.PlaceOrder | timefun_buyer_en.py:546-618 | The offer button is pressed, then the confirm button. A missing one ends the attempt with its own outcome. Agrees with `OrderRun`. |
| Buyer.TimeFunBuyer.AttemptRound | timefun_buyer_en.py:632-643 | The loop body performs exactly one step of `RetryRun`. |
| Buyer.TimeFunBuyer.BuyWithRetry | timefun_buyer_en.py:630-645 | `buy_with_retry` agrees with `RetryRun` on result, flag and commands. |
| BuyerProps.ProbesSpec | timefun_buyer_en.py:388-390 | The lookup commands are one probe per locator, in list order. |
| BuyerProps.KeysSpec | timefun_buyer_en.py:380-381 | Typing sends `|text|` keystrokes, the i-th being `text[i]`. |
| BuyerProps.ClickTraceSpec | timefun_buyer_en.py:388-403 | On success, exactly the locators up to the first clickable one are probed, in order, and that one is clicked last. On failure, every locator is probed, none is clickable and nothing is clicked. |
| BuyerProps.LookupTraceSpec | timefun_buyer_en.py:409-422 | Selectors are probed in order up to the first present one. On failure, every selector was probed and none is present. |
| BuyerProps.StatusIgnoresFlag | timefun_buyer_en.py:211-265 | The answer and the commands of the login check do not depend on the flag it starts with. A set flag stays set. |
| BuyerProps.StatusClassification | timefun_buyer_en.py:233-262 | Logged in exactly when (a) the landing page shows an indicator, or (b) all of these hold: the landing page has no e-mail field, its URL has no "login", the protected page opened, and its URL contains "home" but not "login". |
| BuyerProps.StatusShortCircuit | timefun_buyer_en.py:233-237 | The first present indicator ends the check with true. Only the indicators up to it are probed, and the protected page is not opened. |
| BuyerProps.PollSucceeds | timefun_buyer_en.py:286-294 | The manual-login wait succeeds exactly when one of the checks in its window succeeds. |
| BuyerProps.LoginShortCircuit | timefun_buyer_en.py:270-272 | With an existing session that is already recognised, `login` is just that check. |
| BuyerProps.HeadlessLogin | timefun_buyer_en.py:346-349 | A fresh session in headless mode never logs in. |
| BuyerProps.ButtonChoice | timefun_buyer_en.py:552-584 | The confirm choice fits both label tests. Every button before the offer choice fails the offer test. With no offer button there is no confirm button either. |
| BuyerProps.BoughtIffAllSteps | timefun_buyer_en.py:424-618 | An attempt buys exactly when all of these are found: the login gate passes, the market page opens, a Buy button is clickable, an amount field is present, and an offer button and a confirm button fit. |
| BuyerProps.FailingStep | timefun_buyer_en.py:426-535 | The outcome names the first failing step. A failed login gate sends only the login commands, and no purchase step runs. |
| BuyerProps.CurrencySwitchIgnored | timefun_buyer_en.py:517 | Whether the currency toggle was found does not change the outcome. |
| BuyerProps.AttemptWaitless | timefun_buyer_en.py:424-628 | One purchase attempt sends no back-off wait. |
| BuyerProps.RetryOutcomes | timefun_buyer_en.py:632-645 | The loop makes at most the remaining number of attempts. It succeeds exactly when its last attempt bought, and no earlier attempt bought. A failure means every attempt was used. |
| BuyerProps.RetryWaits | timefun_buyer_en.py:639-642 | There is one wait fewer than attempts, and every wait is `buy_delay * 2` (no growth). |
| BuyerProps.RetryFromStart | timefun_buyer_en.py:630-645 | From attempt 1: between 1 and `max_buy_attempts` attempts, stopping at the first success. On total failure there are exactly `max_buy_attempts` attempts and `max_buy_attempts - 1` waits of `buy_delay * 2`. |
| Monitor.MatchAt | twitter_monitor.py:60-63 | A match captures a non-empty, maximal run of `\w` characters after its start. |
| Monitor.FirstAllowed | twitter_monitor.py:69-71 | The returned match is one of the matches and is not `timedotfun` in any letter case. Nothing is returned only when every match is `timedotfun`. |
| Monitor.ExtractUsername | twitter_monitor.py:49-73 | A retweet yields its author. A name taken from the text is never `timedotfun` in any letter case. |
| Monitor.Named | twitter_monitor.py:86-88 | A name is appended exactly when extraction gives one and it is non-empty (truthy). |
| Monitor.Promote | twitter_monitor.py:80-92 | The processed ids only grow. A check reports at most one name per tweet. |
| Monitor.TwitterMonitor.constructor | twitter_monitor.py:25-28 | The monitor starts with no processed tweet and no delivered name. |
| Monitor.TwitterMonitor.CheckNewPromotions | twitter_monitor.py:75-94 | The names and the new processed set are those of `Promote` over the retweets. The processed set only grows. |
| Monitor.TwitterMonitor.MonitorOnce | twitter_monitor.py:109-113 | The callback receives exactly the names of the check, in order, once each. |
| MonitorProps.RetweetsMembers | twitter_monitor.py:42 | A tweet is kept exactly when it is in the timeline and is a retweet. |
| MonitorProps.RetweetsAppend | twitter_monitor.py:42 | The filter keeps timeline order. |
| MonitorProps.LatestRetweetsSpec | twitter_monitor.py:30-47 | The result is exactly the retweets of the timeline, and empty when the request failed. |
| MonitorProps.RetweetsKeepsRetweets | twitter_monitor.py:42 | A timeline made only of retweets is kept whole. |
| MonitorProps.FindAllWords | twitter_monitor.py:66 | Every capture of `findall` is a non-empty `\w` word. |
| MonitorProps.MatchAtSpec | twitter_monitor.py:60-63 | A mention matches exactly at an `@` followed by a word character, and its capture starts right after the `@`. A marker match needs the marker, at least one whitespace character, then a word character, and its capture starts at that word character. |
| MonitorProps.FindAllEmpty | twitter_monitor.py:66-67 | `findall` finds nothing exactly when no position matches. |
| MonitorProps.FindAllLeftmost | twitter_monitor.py:66 | The first capture is that of the leftmost match. The scan resumes after that match, so matches do not overlap. |
| MonitorProps.FirstAllowedIsFirst | twitter_monitor.py:69-71 | Within one pattern, the first match that is not `timedotfun` is returned. |
| MonitorProps.AuthorIgnoresText | twitter_monitor.py:52-53 | With a retweeted author, the text is not consulted. |
| MonitorProps.LeftmostMention | twitter_monitor.py:63-66 | The first capture of the mention pattern is the word after the leftmost `@` that is followed by a word character. |
| MonitorProps.FirstMentionWins | twitter_monitor.py:60-73 | When the text has no marker match, the name is the word after the leftmost `@` that is followed by a word character, unless that word is `timedotfun`. |
| MonitorProps.MentionExample | twitter_monitor.py:60-73 | The text "gm @alice" of a tweet that is not a retweet yields `alice`. |
| MonitorProps.TextFallback | twitter_monitor.py:55-73 | The marker pattern has priority over mentions. `None` is returned exactly when every capture of both patterns is `timedotfun`. A found name is a non-empty word from one of the patterns. |
| MonitorProps.PromoteMarksAll | twitter_monitor.py:92 | After a check, the processed ids are the old ones plus every id of the batch, whether or not a name was found. |
| MonitorProps.PromoteKnown | twitter_monitor.py:82-83 | A batch of already processed ids reports nothing and changes nothing. |
| MonitorProps.CheckTwice | twitter_monitor.py:77-94 | Checking the same batch again reports nothing. |
| MonitorProps.RepeatInBatch | twitter_monitor.py:82-83 | A repeated id later in the same batch is skipped. |
| MonitorProps.PromoteAppend | twitter_monitor.py:80-92 | Two checks in a row report what one check of both batches together reports. |
| MonitorProps.PromoteIsFreshNames | twitter_monitor.py:77-94 | The reported names are, in timeline order, those of the tweets seen for the first time. There is one name per such tweet that yields a non-empty name. |
| MonitorProps.ReportsEveryFresh | twitter_monitor.py:82-92 | Every tweet seen for the first time whose extraction gives a non-empty name has that name reported. |
| MonitorProps.FreshAreNew | twitter_monitor.py:82-92 | The tweets handled as new come from the batch and were not processed before. |
| MonitorProps.FreshDistinct | twitter_monitor.py:82-92 | The tweets handled as new have pairwise distinct ids. |
| MonitorProps.FreshCount | twitter_monitor.py:82-92 | There is one new tweet per id of the batch that was not processed before. |
| MonitorProps.AtMostOnce | twitter_monitor.py:77-94 | A check reports no more names than there are unprocessed ids, so no tweet is reported twice in a run. |
| MonitorProps.NamesAreAuthors | twitter_monitor.py:80-92 | Over retweets, every reported name is the non-empty author of a retweet that was not processed before. |
| MonitorProps.CheckReportsAuthors | twitter_monitor.py:79-88 | `check_new_promotions` reports only retweeted authors. The text fallback of `extract_username` is never reached from it. |
| MonitorProps.SameAuthorTwice | twitter_monitor.py:82-92 | Only tweet ids are remembered, not names. Two retweets of the same author both report that author. |

Facts about the code that the model keeps as they are:
- The code deduplicates tweet ids only, not names. One user promoted by two
  retweets is therefore reported, and bought, twice
  (`MonitorProps.SameAuthorTwice`).
- `extract_username` returns at most one name per tweet, not a set of handles.
- Tweet ids are integers.

## Left out

- Browser bootstrap and shutdown are not modelled (`find_chrome_debugging_port`,
  `is_chrome_running_with_debugging`, `setup_browser`, `close`). They are sockets,
  subprocesses and HTTP probing.
- The interactive form login of a fresh session, `timefun_buyer_en.py:300-376`, is
  one input boolean (`LoginScene.formLogin`). It covers:
  - the Cloudflare wait;
  - the e-mail entry and the "Send Code" click. The source sends these before it
    refuses in headless mode, so a headless attempt still requests a code.
    `LoginRun` records only the navigation to the login page.
  - the `input()` of the verification code;
  - the wait for success.

  Only the refusal in headless mode is kept.
- The 300-second window of the manual login is the finite list of status checks
  that fall inside it (`LoginScene.polls`). The clock and the 3-second pauses are
  not modelled. The list may be empty. The code cannot produce an empty list,
  because `start_time` is taken just before the loop, so the first check always
  runs. The empty window is an over-approximation.
- The following are not modelled, because they are timing, floating point or
  write-only output:
  - all `time.sleep` and `random.uniform` delays;
  - the per-locator budget `timeout/len(xpaths)`;
  - screenshots, page-source dumps and prints.

  The back-off of `buy_with_retry` is kept as a `Wait` command.
- `find_and_click_element` treats a locator whose wait times out and a locator
  whose click raises alike: both are "not clickable" (`Page.clickable`).
- Exceptions inside `buy_user` are not modelled, except a navigation that raises
  (`market == None`). For example, a screenshot that cannot be saved or a button
  click that raises would also end the attempt with `False`.
- One exception is not caught inside `buy_user`: `driver.get` on the login page
  in the existing-session branch of `login` (`timefun_buyer_en.py:278`). It
  escapes `buy_user` and `buy_with_retry`, and the handler of `monitor`
  (`twitter_monitor.py:117`) catches it. The remaining names of that batch are
  then never delivered, although their ids were already marked as processed.
  The model treats this navigation as always succeeding.
- `check_login_status` models a raising navigation as `None`. An exception at any
  other point of that check is not modelled.
- The configured amount is a float. The model takes the text that `str()` gives
  for it (`Config.buyAmount`) and does not model float formatting.
- Configuration parsing from the environment is not modelled. `Config.buyDelay` is
  a `nat`, because a negative `BUY_DELAY` would make `time.sleep` raise.
- The local saved page is chosen by `os.path.exists`. In the model this is an
  input (`PurchaseScene.savedPage`).
- Lower: lower-cases ASCII letters only, not all of Unicode like Python's
  `str.lower()`. This gives the same answer for every use here:
  - the captured names consist of ASCII word characters;
  - the URL tests look for ASCII words that no non-ASCII character lowers into.
- IsWordChar: `\w` is ASCII-only (`[A-Za-z0-9_]`). Python's `\w` on `str`
  patterns also accepts non-ASCII letters and digits. So on text with such
  characters the model can return a different name, or none:
  - a capture stops at the first non-ASCII letter. For "@alice的推文", Python
    captures "alice的推文" and the model captures "alice";
  - a word written in another script is not captured, and the scan falls through
    to a later match or to the mention pattern. For "已转帖 张三 @bob", Python
    returns "张三" and the model returns "bob";
  - a name written entirely in another script gives no match at all.
- The tweepy client is an input (`Timeline`). Authentication and the
  `user_timeline` request (10 latest tweets, retweets included) are not modelled.
  A failed request is `TimelineError`.
- A retweet whose author has no `screen_name` is not modelled. It would raise out
  of `check_new_promotions`.
- `monitor` is modelled as one iteration (`MonitorOnce`). These are left out:
  - the endless loop;
  - the parsing of `CHECK_INTERVAL`;
  - the sleep;
  - the catching of exceptions.

  A callback that raises would end that iteration early; this is not modelled.
