/**
 * What the buyer's specification functions promise: the order in which locators
 * are tried, the classification done by the login check, which step decides the
 * outcome of one purchase attempt, and the shape of the retry loop (how many
 * attempts, how many back-off waits and how long each one is).
 */
module BuyerProps {
  import opened Wrappers
  import opened Text
  import opened Browser
  import opened Buyer

  // ------------------------------------------------------------ command traces

  /** `Probes` sends one probe per locator, in list order. */
  lemma {:induction false} ProbesSpec(xs: seq<Locator>)
    ensures |Probes(xs)| == |xs|
    ensures forall i | 0 <= i < |xs| :: Probes(xs)[i] == Probe(xs[i])
  {
    if xs != [] {
      ProbesSpec(xs[..|xs| - 1]);
    }
  }

  /** Typing sends one keystroke per character, in order. */
  lemma {:induction false} KeysSpec(text: string)
    ensures |Keys(text)| == |text|
    ensures forall i | 0 <= i < |text| :: Keys(text)[i] == Key(text[i])
  {
    if text != [] {
      KeysSpec(text[..|text| - 1]);
    }
  }

  /**
   * The ranked fallback of `find_and_click_element`: locators are probed strictly in
   * list order; the first clickable one is clicked and nothing is tried after it;
   * failure means every locator was probed and none was clickable.
   */
  lemma ClickTraceSpec(locs: seq<Locator>, clickable: set<Locator>)
    ensures var t := ClickTrace(locs, clickable);
      match FirstIn(locs, clickable)
      case Some(k) =>
        && |t| == k + 2 && t[k + 1] == Click(locs[k])
        && (forall i | 0 <= i <= k :: t[i] == Probe(locs[i]))
        && locs[k] in clickable
        && (forall j | 0 <= j < k :: locs[j] !in clickable)
      case None =>
        && |t| == |locs|
        && (forall i | 0 <= i < |locs| :: t[i] == Probe(locs[i]))
        && (forall j | 0 <= j < |locs| :: locs[j] !in clickable)
  {
    FirstInSpec(locs, clickable);
    match FirstIn(locs, clickable)
    case Some(k) =>
      ProbesSpec(locs[..k + 1]);
    case None =>
      ProbesSpec(locs);
  }

  /**
   * The lookup of `find_input_element`: selectors are probed in order up to and
   * including the first present one; nothing is clicked.
   */
  lemma LookupTraceSpec(locs: seq<Locator>, present: set<Locator>)
    ensures var t := LookupTrace(locs, present);
      match FirstIn(locs, present)
      case Some(k) =>
        && |t| == k + 1
        && (forall i | 0 <= i <= k :: t[i] == Probe(locs[i]))
        && locs[k] in present
        && (forall j | 0 <= j < k :: locs[j] !in present)
      case None =>
        && |t| == |locs|
        && (forall i | 0 <= i < |locs| :: t[i] == Probe(locs[i]))
        && (forall j | 0 <= j < |locs| :: locs[j] !in present)
  {
    FirstInSpec(locs, present);
    match FirstIn(locs, present)
    case Some(k) =>
      ProbesSpec(locs[..k + 1]);
    case None =>
      ProbesSpec(locs);
  }

  // ------------------------------------------------------------ login check

  /**
   * `check_login_status` does not depend on the flag it is called with: only the
   * new flag does, and that one is never cleared.
   */
  lemma StatusIgnoresFlag(a: bool, b: bool, s: StatusScene)
    ensures StatusRun(a, s).value == StatusRun(b, s).value
    ensures StatusRun(a, s).trace == StatusRun(b, s).trace
    ensures a ==> StatusRun(a, s).loggedIn
  {
  }

  /**
   * The classification of `check_login_status`: logged in exactly when the landing
   * page shows a login indicator, or when it is neither the login form nor a login
   * URL and the protected page opens on a "home" URL that is not a "login" URL.
   */
  lemma StatusClassification(loggedIn: bool, s: StatusScene)
    ensures StatusRun(loggedIn, s).value <==>
      && s.landing.Some?
      && (|| (exists i | 0 <= i < |LoginIndicators| :: LoginIndicators[i] in s.landing.value.present)
          || (&& EmailField !in s.landing.value.present
              && !Contains(Lower(s.landing.value.url), "login")
              && s.protected.Some?
              && !Contains(Lower(s.protected.value.url), "login")
              && Contains(Lower(s.protected.value.url), "home")))
  {
    if s.landing.Some? {
      FirstInSpec(LoginIndicators, s.landing.value.present);
    }
  }

  /**
   * The login indicators are checked in list order and the first present one ends
   * the check: nothing after it is probed and the protected page is not opened.
   */
  lemma StatusShortCircuit(loggedIn: bool, s: StatusScene, k: nat)
    requires s.landing.Some? && k < |LoginIndicators|
    requires LoginIndicators[k] in s.landing.value.present
    requires forall j | 0 <= j < k :: LoginIndicators[j] !in s.landing.value.present
    ensures StatusRun(loggedIn, s) == Run(true, true, [Navigate(SiteRoot)] + Probes(LoginIndicators[..k + 1]))
  {
    FirstInAt(LoginIndicators, s.landing.value.present, k);
  }

  /** The manual-login wait succeeds exactly when one of the status checks in its window does. */
  lemma {:induction false} PollSucceeds(loggedIn: bool, polls: seq<StatusScene>)
    ensures PollRun(loggedIn, polls).value <==>
      exists i | 0 <= i < |polls| :: StatusRun(loggedIn, polls[i]).value
    decreases |polls|
  {
    if polls != [] {
      var first := StatusRun(loggedIn, polls[0]);
      PollSucceeds(first.loggedIn, polls[1..]);
      forall i | 1 <= i < |polls|
        ensures StatusRun(first.loggedIn, polls[1..][i - 1]).value == StatusRun(loggedIn, polls[i]).value
      {
        StatusIgnoresFlag(first.loggedIn, loggedIn, polls[i]);
      }
    }
  }

  /** An existing session that is already recognised needs no wait and no login page. */
  lemma LoginShortCircuit(cfg: Config, loggedIn: bool, s: LoginScene)
    requires cfg.useExistingSession && StatusRun(loggedIn, s.check).value
    ensures LoginRun(cfg, loggedIn, s) == StatusRun(loggedIn, s.check)
  {
  }

  /** A fresh session logs in through the form only when the browser has a window. */
  lemma HeadlessLogin(cfg: Config, s: LoginScene)
    requires !cfg.useExistingSession && cfg.headless
    ensures !LoginRun(cfg, false, s).value
  {
  }

  // ------------------------------------------------------------ one attempt

  /** The offer and confirmation choices are the first fitting buttons. */
  lemma ButtonChoice(buttons: seq<Option<string>>)
    ensures var c := FirstButton(buttons, Confirm);
      c.Some? ==> (buttons[c.value].Some? && IsConfirmLabel(buttons[c.value].value)
        && IsOfferLabel(buttons[c.value].value))
    ensures var o := FirstButton(buttons, Offer);
      o.Some? ==> forall j | 0 <= j < o.value :: buttons[j].None? || !IsOfferLabel(buttons[j].value)
    ensures FirstButton(buttons, Offer).None? ==> FirstButton(buttons, Confirm).None?
  {
    FirstButtonSpec(buttons, Offer);
    FirstButtonSpec(buttons, Confirm);
  }

  /** `buy_user` reports success exactly when every required step finds its element. */
  lemma BoughtIffAllSteps(cfg: Config, loggedIn: bool, username: string, s: PurchaseScene)
    ensures AttemptRun(cfg, loggedIn, username, s).value == Bought <==>
      && (loggedIn || LoginRun(cfg, loggedIn, s.login).value)
      && s.market.Some?
      && FirstIn(BuyButtonXPaths, s.market.value.clickable).Some?
      && FirstIn(AmountInputSelectors, s.form.present).Some?
      && FirstButton(s.offers.buttons, Offer).Some?
      && FirstButton(s.confirm.buttons, Confirm).Some?
  {
  }

  /**
   * The first step that fails names the outcome: a failed login gate ends the
   * attempt before any purchase step, having sent only the login commands.
   */
  lemma FailingStep(cfg: Config, loggedIn: bool, username: string, s: PurchaseScene)
    ensures var r := AttemptRun(cfg, loggedIn, username, s);
      var gate := loggedIn || LoginRun(cfg, loggedIn, s.login).value;
      && (r.value == NotLoggedIn <==> !gate)
      && (r.value == NotLoggedIn ==> r.trace == LoginRun(cfg, loggedIn, s.login).trace)
      && (r.value == NavigationFailed <==> gate && s.market.None?)
      && (r.value == NoBuyButton <==> gate && s.market.Some? && FirstIn(BuyButtonXPaths, s.market.value.clickable).None?)
      && (r.value == NoAmountField <==> (gate && s.market.Some? && FirstIn(BuyButtonXPaths, s.market.value.clickable).Some?
            && FirstIn(AmountInputSelectors, s.form.present).None?))
  {
  }

  /** The currency toggle is tried, but whether it was found does not change the outcome. */
  lemma CurrencySwitchIgnored(amount: string, s: PurchaseScene, modal: Page)
    ensures DialogRun(amount, s).outcome == DialogRun(amount, s.(modal := modal)).outcome
  {
  }

  // ------------------------------------------------------------ waits

  /** The back-off waits of a trace, in order. */
  function Waits(t: seq<Action>): seq<Action>
  {
    if t == [] then [] else (if t[0].Wait? then [t[0]] else []) + Waits(t[1..])
  }

  /** Collecting the waits of a trace distributes over concatenation. */
  lemma {:induction false} WaitsAppend(a: seq<Action>, b: seq<Action>)
    ensures Waits(a + b) == Waits(a) + Waits(b)
  {
    if a == [] {
      assert a + b == b;
    } else {
      var c := a + b;
      assert c[0] == a[0];
      assert c[1..] == a[1..] + b;
      WaitsAppend(a[1..], b);
      var head: seq<Action> := if a[0].Wait? then [a[0]] else [];
      assert Waits(c) == head + (Waits(a[1..]) + Waits(b));
      assert Waits(a) == head + Waits(a[1..]);
    }
  }

  /** A trace with no wait in it. */
  predicate Waitless(t: seq<Action>)
  {
    forall i | 0 <= i < |t| :: !t[i].Wait?
  }

  lemma {:induction false} WaitlessHasNoWaits(t: seq<Action>)
    requires Waitless(t)
    ensures Waits(t) == []
  {
    if t != [] {
      WaitlessHasNoWaits(t[1..]);
    }
  }

  lemma StatusWaitless(loggedIn: bool, s: StatusScene)
    ensures Waitless(StatusRun(loggedIn, s).trace)
  {
    if s.landing.Some? {
      LookupTraceSpec(LoginIndicators, s.landing.value.present);
    }
  }

  lemma {:induction false} PollWaitless(loggedIn: bool, polls: seq<StatusScene>)
    ensures Waitless(PollRun(loggedIn, polls).trace)
    decreases |polls|
  {
    if polls != [] {
      var first := StatusRun(loggedIn, polls[0]);
      StatusWaitless(loggedIn, polls[0]);
      PollWaitless(first.loggedIn, polls[1..]);
    }
  }

  lemma LoginWaitless(cfg: Config, loggedIn: bool, s: LoginScene)
    ensures Waitless(LoginRun(cfg, loggedIn, s).trace)
  {
    StatusWaitless(loggedIn, s.check);
    PollWaitless(StatusRun(loggedIn, s.check).loggedIn, s.polls);
  }

  lemma WaitlessAppend(a: seq<Action>, b: seq<Action>)
    requires Waitless(a) && Waitless(b)
    ensures Waitless(a + b)
  {
    forall i | 0 <= i < |a + b|
      ensures !(a + b)[i].Wait?
    {
      if i >= |a| {
        assert (a + b)[i] == b[i - |a|];
      }
    }
  }

  lemma DialogWaitless(amount: string, s: PurchaseScene)
    ensures Waitless(DialogRun(amount, s).trace)
  {
    var switched := ClickTrace(CurrencySwitchXPaths, s.modal.clickable);
    var looked := LookupTrace(AmountInputSelectors, s.form.present);
    ClickTraceSpec(CurrencySwitchXPaths, s.modal.clickable);
    LookupTraceSpec(AmountInputSelectors, s.form.present);
    WaitlessAppend(switched, looked);
    if FirstIn(AmountInputSelectors, s.form.present).Some? {
      KeysSpec(amount);
      WaitlessAppend(switched + looked, [Clear]);
      WaitlessAppend(switched + looked + [Clear], Keys(amount));
      WaitlessAppend(switched + looked + [Clear] + Keys(amount), OrderRun(s).trace);
    }
  }

  lemma AttemptWaitless(cfg: Config, loggedIn: bool, username: string, s: PurchaseScene)
    ensures Waitless(AttemptRun(cfg, loggedIn, username, s).trace)
  {
    var steps := PurchaseRun(cfg.buyAmount, username, s);
    DialogWaitless(cfg.buyAmount, s);
    if s.market.Some? {
      var visit := [Navigate(MarketTarget(username, s.savedPage))];
      var clicked := ClickTrace(BuyButtonXPaths, s.market.value.clickable);
      ClickTraceSpec(BuyButtonXPaths, s.market.value.clickable);
      WaitlessAppend(visit, clicked);
      WaitlessAppend(visit + clicked, DialogRun(cfg.buyAmount, s).trace);
    }
    assert Waitless(steps.trace);
    if !loggedIn {
      var gate := LoginRun(cfg, loggedIn, s.login);
      LoginWaitless(cfg, loggedIn, s.login);
      WaitlessAppend(gate.trace, steps.trace);
    }
  }

  // ------------------------------------------------------------ retry loop

  /** The attempts a retry loop started at `attempt` can still make. */
  function Remaining(maxAttempts: int, attempt: nat): nat
  {
    if attempt <= maxAttempts then maxAttempts - attempt + 1 else 0
  }

  /**
   * `buy_with_retry` makes at most the remaining number of attempts and stops at the
   * first success: it succeeds exactly when its last attempt bought, no earlier
   * attempt did, and a failure means every attempt was used.
   */
  lemma {:induction false} RetryOutcomes(maxAttempts: int, delay: nat, attempt: nat, loggedIn: bool, run: (bool, nat) -> Run<BuyOutcome>)
    ensures var r := RetryOver(maxAttempts, delay, attempt, loggedIn, run).value;
      && |r.outcomes| <= Remaining(maxAttempts, attempt)
      && (r.ok <==> r.outcomes != [] && r.outcomes[|r.outcomes| - 1] == Bought)
      && (forall i | 0 <= i < |r.outcomes| - 1 :: r.outcomes[i] != Bought)
      && (!r.ok ==> |r.outcomes| == Remaining(maxAttempts, attempt))
    decreases Remaining(maxAttempts, attempt)
  {
    if attempt <= maxAttempts {
      var a := run(loggedIn, attempt);
      if a.value != Bought {
        RetryOutcomes(maxAttempts, delay, attempt + 1, a.loggedIn, run);
        var rest := RetryOver(maxAttempts, delay, attempt + 1, a.loggedIn, run).value;
        assert forall i | 1 <= i < |rest.outcomes| + 1 :: ([a.value] + rest.outcomes)[i] == rest.outcomes[i - 1];
      }
    }
  }

  /** Every wait in `w` is the fixed back-off of `delay * 2` seconds. */
  predicate OnlyBackoffs(w: seq<Action>, delay: nat)
  {
    forall i | 0 <= i < |w| :: w[i] == Wait(delay * 2)
  }

  lemma OnlyBackoffsAppend(a: seq<Action>, b: seq<Action>, delay: nat)
    requires OnlyBackoffs(a, delay) && OnlyBackoffs(b, delay)
    ensures OnlyBackoffs(a + b, delay)
  {
    forall i | 0 <= i < |a + b|
      ensures (a + b)[i] == Wait(delay * 2)
    {
      if i >= |a| {
        assert (a + b)[i] == b[i - |a|];
      }
    }
  }

  /**
   * Between two attempts that send no wait of their own there is exactly one
   * back-off, always `delay * 2` seconds long: one fewer wait than attempts.
   */
  lemma {:induction false} RetryWaits(maxAttempts: int, delay: nat, attempt: nat, loggedIn: bool, run: (bool, nat) -> Run<BuyOutcome>)
    requires forall flag: bool, n: nat :: Waits(run(flag, n).trace) == []
    ensures var r := RetryOver(maxAttempts, delay, attempt, loggedIn, run);
      && |Waits(r.trace)| == (if r.value.outcomes == [] then 0 else |r.value.outcomes| - 1)
      && OnlyBackoffs(Waits(r.trace), delay)
    decreases Remaining(maxAttempts, attempt)
  {
    var r := RetryOver(maxAttempts, delay, attempt, loggedIn, run);
    if attempt > maxAttempts {
      assert r.trace == [] && r.value.outcomes == [];
    } else {
      var a := run(loggedIn, attempt);
      if a.value == Bought {
        assert r.trace == a.trace && r.value.outcomes == [Bought];
      } else {
        var backoff := if attempt < maxAttempts then [Wait(delay * 2)] else [];
        var rest := RetryOver(maxAttempts, delay, attempt + 1, a.loggedIn, run);
        RetryWaits(maxAttempts, delay, attempt + 1, a.loggedIn, run);
        assert r.trace == a.trace + backoff + rest.trace;
        assert r.value.outcomes == [a.value] + rest.value.outcomes;
        WaitsAppend(a.trace + backoff, rest.trace);
        WaitsAppend(a.trace, backoff);
        assert Waits(backoff) == backoff by {
          if backoff != [] {
            assert backoff[1..] == [];
          }
        }
        assert Waits(a.trace) == [];
        assert Waits(a.trace + backoff) == backoff by {
          assert [] + backoff == backoff;
        }
        assert Waits(r.trace) == backoff + Waits(rest.trace);
        OnlyBackoffsAppend(backoff, Waits(rest.trace), delay);
        if attempt < maxAttempts {
          assert rest.value.outcomes != [];
        } else {
          assert rest.value.outcomes == [];
        }
      }
    }
  }

  /**
   * `buy_with_retry` from the first attempt: at most `maxBuyAttempts` attempts, the
   * first success ends it, and on total failure exactly `maxBuyAttempts` attempts
   * ran with `maxBuyAttempts - 1` waits of `buyDelay * 2` between them.
   */
  lemma RetryFromStart(cfg: Config, loggedIn: bool, username: string, scenes: nat -> PurchaseScene)
    requires cfg.maxBuyAttempts >= 1
    ensures var r := RetryRun(cfg, 1, loggedIn, username, scenes);
      var n := |r.value.outcomes|;
      && 1 <= n <= cfg.maxBuyAttempts
      && (r.value.ok <==> r.value.outcomes[n - 1] == Bought)
      && (forall i | 0 <= i < n - 1 :: r.value.outcomes[i] != Bought)
      && |Waits(r.trace)| == n - 1
      && (forall i | 0 <= i < n - 1 :: Waits(r.trace)[i] == Wait(cfg.buyDelay * 2))
      && (!r.value.ok ==> n == cfg.maxBuyAttempts)
  {
    var run := (flag: bool, n: nat) => AttemptRun(cfg, flag, username, scenes(n));
    forall flag: bool, n: nat
      ensures Waits(run(flag, n).trace) == []
    {
      AttemptWaitless(cfg, flag, username, scenes(n));
      WaitlessHasNoWaits(run(flag, n).trace);
    }
    RetryOutcomes(cfg.maxBuyAttempts, cfg.buyDelay, 1, loggedIn, run);
    RetryWaits(cfg.maxBuyAttempts, cfg.buyDelay, 1, loggedIn, run);
    var a := run(loggedIn, 1);
    if a.value != Bought {
      RetryOutcomes(cfg.maxBuyAttempts, cfg.buyDelay, 2, a.loggedIn, run);
    }
  }
}
