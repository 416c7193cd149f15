/**
 * The purchase side of the sniper bot (`TimeFunBuyer`): ranked-fallback element
 * lookup, login-status classification, the purchase step machine for one user and
 * the bounded retry around it.
 *
 * Each operation has a specification function (`StatusRun`, `LoginRun`,
 * `PurchaseRun`, `AttemptRun`, `RetryRun`) that gives its result, the new login flag
 * and the commands it sends to the browser, in terms of the pages the browser
 * shows it. The methods of `TimeFunBuyer` run the source's loops and early returns
 * and are proved to agree with those functions.
 */
module Buyer {
  import opened Wrappers
  import opened Text
  import opened Browser

  // ---------------------------------------------------------------- constants

  const SiteRoot := "https://time.fun"
  const HomeRoute := "https://time.fun/home"
  const LoginRoute := "https://time.fun/login"

  /** Elements that only a logged-in page shows, checked in this order. */
  const LoginIndicators: seq<Locator> := [ProfileHref, DisconnectButton, AvatarDiv, ProfileText]

  /** The e-mail field of the login form. */
  const EmailField := EmailId

  /** Locators of the market page's Buy button, most specific first. */
  const BuyButtonXPaths: seq<Locator> := [
    BuyInlineFlexPrimary, BuyControlsPrimary, BuyTextPrimary100, BuyPrimaryClass, BuyBuyClass,
    BuyExactText, BuyContainsText, BuyRounded, MarketButton, AnyButton]

  /** Locators of the dialog's USD currency toggle. */
  const CurrencySwitchXPaths: seq<Locator> := [UsdText, UsdCurrencySwitch, UsdInModal, ModalSwitchLast]

  /** Locators of the dialog's amount field. */
  const AmountInputSelectors: seq<Locator> := [
    ModalNumberInput, NumberInput, ModalAmountInput, ModalInput,
    CssModalNumberInput, CssAmountInput, CssModalInput]

  // ------------------------------------------------------------ configuration

  /**
   * Settings read once when the buyer is created. `buyAmount` is the text typed
   * into the amount field (the string form of the configured amount).
   */
  datatype Config = Config(
    useExistingSession: bool,
    headless: bool,
    buyAmount: string,
    maxBuyAttempts: int,
    buyDelay: nat)

  // ------------------------------------------------------ what the browser shows

  /**
   * The pages `check_login_status` sees: after opening the site root, and after
   * opening the protected home route. `None` is a navigation that raised.
   */
  datatype StatusScene = StatusScene(landing: Option<Page>, protected: Option<Page>)

  /**
   * What `login` sees. `check` is the first status check; `polls` are the status
   * checks that fall inside the 300-second manual-login window, in order;
   * `formLogin` says whether the interactive e-mail and code form of a fresh
   * session completes.
   */
  datatype LoginScene = LoginScene(check: StatusScene, polls: seq<StatusScene>, formLogin: bool)

  /**
   * What one purchase attempt sees. `savedPage` is the path of a saved
   * `<username>.html` when one exists; `market` is the market page (`None`: the
   * navigation raised); `modal` is the page after the Buy click, where the currency
   * toggle is looked for; `form` is where the amount field is looked for; `offers`
   * is the page whose buttons are scanned after typing the amount; `confirm` is the
   * page whose buttons are scanned after clicking the offer.
   */
  datatype PurchaseScene = PurchaseScene(
    login: LoginScene,
    savedPage: Option<string>,
    market: Option<Page>,
    modal: Page,
    form: Page,
    offers: Page,
    confirm: Page)

  /** How one call of `buy_user` ends; the source's boolean is `Bought?`. */
  datatype BuyOutcome =
    | Bought
    | NotLoggedIn
    | NavigationFailed
    | NoBuyButton
    | NoAmountField
    | NoOfferButton
    | NoConfirmButton

  /** The result of an operation, the login flag after it, and the commands it sent. */
  datatype Run<T> = Run(value: T, loggedIn: bool, trace: seq<Action>)

  /** Whether `buy_with_retry` succeeded, and the outcome of every attempt it made, in order. */
  datatype RetryResult = RetryResult(ok: bool, outcomes: seq<BuyOutcome>)

  // --------------------------------------------------------- button labels

  /** The amount-bearing offer button: its text holds "Buy" and "mins for $". */
  predicate IsOfferLabel(text: string)
  {
    Contains(text, "Buy") && Contains(text, "mins for $")
  }

  /** The final confirmation button: its text also holds "Confirm". */
  function IsConfirmLabel(text: string): (r: bool)
    ensures r ==> IsOfferLabel(text)
  {
    Contains(text, "Confirm") && Contains(text, "Buy") && Contains(text, "mins for $")
  }

  datatype ButtonRole = Offer | Confirm

  /** A button fits a role when its text can be read and matches the role's label test. */
  predicate Fits(role: ButtonRole, caption: Option<string>)
  {
    caption.Some? && match role
      case Offer => IsOfferLabel(caption.value)
      case Confirm => IsConfirmLabel(caption.value)
  }

  /** Index of the first button, in enumeration order, that fits `role`. */
  function FirstButton(buttons: seq<Option<string>>, role: ButtonRole): (r: Option<nat>)
    ensures r.Some? ==> r.value < |buttons|
  {
    if buttons == [] then None
    else if Fits(role, buttons[0]) then Some(0)
    else match FirstButton(buttons[1..], role)
      case None => None
      case Some(k) => Some(k + 1)
  }

  /**
   * `FirstButton` picks the earliest fitting button: the index it returns fits and
   * no earlier button does, and it finds nothing exactly when no button fits.
   */
  lemma {:induction false} FirstButtonSpec(buttons: seq<Option<string>>, role: ButtonRole)
    ensures FirstButton(buttons, role).Some? ==> Fits(role, buttons[FirstButton(buttons, role).value])
    ensures FirstButton(buttons, role).Some? ==>
      forall j :: 0 <= j < FirstButton(buttons, role).value ==> !Fits(role, buttons[j])
    ensures FirstButton(buttons, role).None? <==> forall j :: 0 <= j < |buttons| ==> !Fits(role, buttons[j])
  {
    if buttons != [] && !Fits(role, buttons[0]) {
      FirstButtonSpec(buttons[1..], role);
      assert forall j :: 1 <= j < |buttons| ==> buttons[j] == buttons[1..][j - 1];
    }
  }

  // ---------------------------------------------------- specification functions

  /** `check_login_status`: classify one observation of the site. */
  function StatusRun(loggedIn: bool, s: StatusScene): (r: Run<bool>)
    ensures r.loggedIn == (loggedIn || r.value)
  {
    var visit := [Navigate(SiteRoot)];
    match s.landing
    case None => Run(false, loggedIn, visit)
    case Some(p) =>
      var looked := visit + LookupTrace(LoginIndicators, p.present);
      if FirstIn(LoginIndicators, p.present).Some? then Run(true, true, looked)
      else
        var checked := looked + [Probe(EmailField)];
        if EmailField in p.present || Contains(Lower(p.url), "login") then Run(false, loggedIn, checked)
        else
          var probed := checked + [Navigate(HomeRoute)];
          match s.protected
          case None => Run(false, loggedIn, probed)
          case Some(q) =>
            if Contains(Lower(q.url), "login") then Run(false, loggedIn, probed)
            else if Contains(Lower(q.url), "home") then Run(true, true, probed)
            else Run(false, loggedIn, probed)
  }

  /** The manual-login wait: repeat the status check until one succeeds or the polls run out. */
  function PollRun(loggedIn: bool, polls: seq<StatusScene>): (r: Run<bool>)
    ensures r.loggedIn == (loggedIn || r.value)
  {
    if polls == [] then Run(false, loggedIn, [])
    else
      var first := StatusRun(loggedIn, polls[0]);
      if first.value then Run(true, true, first.trace)
      else
        var rest := PollRun(first.loggedIn, polls[1..]);
        Run(rest.value, rest.loggedIn, first.trace + rest.trace)
  }

  /** `login`: an existing session is checked (then waited for); a fresh one runs the form. */
  function LoginRun(cfg: Config, loggedIn: bool, s: LoginScene): (r: Run<bool>)
    ensures r.loggedIn == (loggedIn || r.value)
  {
    if cfg.useExistingSession then
      var first := StatusRun(loggedIn, s.check);
      if first.value then first
      else
        var waited := PollRun(first.loggedIn, s.polls);
        Run(waited.value, waited.loggedIn, first.trace + [Navigate(LoginRoute)] + waited.trace)
    else if loggedIn then Run(true, loggedIn, [])
    else
      var ok := s.formLogin && !cfg.headless;
      Run(ok, loggedIn || ok, [Navigate(LoginRoute)])
  }

  /** Where `buy_user` navigates: the saved page when there is one, else the user's market tab. */
  function MarketTarget(username: string, savedPage: Option<string>): string
  {
    match savedPage
    case Some(path) => "file:///" + path
    case None => "https://time.fun/" + username + "?tab=market"
  }

  /** How the purchase steps of one attempt end, and the commands they sent. */
  datatype Steps = Steps(outcome: BuyOutcome, trace: seq<Action>)

  /** The purchase steps of `buy_user` that follow the login gate: open the market page and click Buy. */
  function PurchaseRun(amount: string, username: string, s: PurchaseScene): Steps
  {
    var visit := [Navigate(MarketTarget(username, s.savedPage))];
    match s.market
    case None => Steps(NavigationFailed, visit)
    case Some(m) =>
      var clicked := visit + ClickTrace(BuyButtonXPaths, m.clickable);
      if FirstIn(BuyButtonXPaths, m.clickable).None? then Steps(NoBuyButton, clicked)
      else
        var rest := DialogRun(amount, s);
        Steps(rest.outcome, clicked + rest.trace)
  }

  /** In the buy dialog: try the currency toggle, find the amount field and type the amount. */
  function DialogRun(amount: string, s: PurchaseScene): Steps
  {
    var switched := ClickTrace(CurrencySwitchXPaths, s.modal.clickable);
    var looked := switched + LookupTrace(AmountInputSelectors, s.form.present);
    if FirstIn(AmountInputSelectors, s.form.present).None? then Steps(NoAmountField, looked)
    else
      var rest := OrderRun(s);
      Steps(rest.outcome, looked + [Clear] + Keys(amount) + rest.trace)
  }

  /** Click the offer button, then the confirmation button, each chosen by its text. */
  function OrderRun(s: PurchaseScene): Steps
  {
    match FirstButton(s.offers.buttons, Offer)
    case None => Steps(NoOfferButton, [])
    case Some(b) =>
      match FirstButton(s.confirm.buttons, Confirm)
      case None => Steps(NoConfirmButton, [Press(b)])
      case Some(c) => Steps(Bought, [Press(b), Press(c)])
  }

  /** `buy_user`: the login gate, then the purchase steps. */
  function AttemptRun(cfg: Config, loggedIn: bool, username: string, s: PurchaseScene): (r: Run<BuyOutcome>)
    ensures r.loggedIn == (loggedIn || (!loggedIn && LoginRun(cfg, loggedIn, s.login).value))
  {
    if loggedIn then
      var steps := PurchaseRun(cfg.buyAmount, username, s);
      Run(steps.outcome, loggedIn, steps.trace)
    else
      var gate := LoginRun(cfg, loggedIn, s.login);
      if !gate.value then Run(NotLoggedIn, gate.loggedIn, gate.trace)
      else
        var steps := PurchaseRun(cfg.buyAmount, username, s);
        Run(steps.outcome, gate.loggedIn, gate.trace + steps.trace)
  }

  /**
   * The loop of `buy_with_retry` from attempt number `attempt` on, over any attempt:
   * `run(flag, n)` is what attempt `n` does when the login flag is `flag`.
   */
  function RetryOver(maxAttempts: int, delay: nat, attempt: nat, loggedIn: bool, run: (bool, nat) -> Run<BuyOutcome>): Run<RetryResult>
    decreases if attempt <= maxAttempts then maxAttempts - attempt + 1 else 0
  {
    if attempt > maxAttempts then Run(RetryResult(false, []), loggedIn, [])
    else
      var a := run(loggedIn, attempt);
      if a.value == Bought then Run(RetryResult(true, [Bought]), a.loggedIn, a.trace)
      else
        var backoff := if attempt < maxAttempts then [Wait(delay * 2)] else [];
        var rest := RetryOver(maxAttempts, delay, attempt + 1, a.loggedIn, run);
        Run(RetryResult(rest.value.ok, [a.value] + rest.value.outcomes), rest.loggedIn, a.trace + backoff + rest.trace)
  }

  /** `buy_with_retry` of `username`, whose attempt number `n` sees `scenes(n)`. */
  function RetryRun(cfg: Config, attempt: nat, loggedIn: bool, username: string, scenes: nat -> PurchaseScene): Run<RetryResult>
  {
    RetryOver(cfg.maxBuyAttempts, cfg.buyDelay, attempt, loggedIn, (flag: bool, n: nat) => AttemptRun(cfg, flag, username, scenes(n)))
  }

  /** One step of `RetryRun`: an attempt, then either success or the back-off and the remaining attempts. */
  lemma RetryStep(cfg: Config, attempt: nat, loggedIn: bool, username: string, scenes: nat -> PurchaseScene)
    requires attempt <= cfg.maxBuyAttempts
    ensures var a := AttemptRun(cfg, loggedIn, username, scenes(attempt));
      var r := RetryRun(cfg, attempt, loggedIn, username, scenes);
      var rest := RetryRun(cfg, attempt + 1, a.loggedIn, username, scenes);
      var backoff := if attempt < cfg.maxBuyAttempts then [Wait(cfg.buyDelay * 2)] else [];
      if a.value == Bought then r.value.ok && r.loggedIn == a.loggedIn && r.trace == a.trace
      else r.value.ok == rest.value.ok && r.loggedIn == rest.loggedIn && r.trace == a.trace + backoff + rest.trace
  {
  }

  /** Regrouping a trace made of three consecutive parts. */
  lemma Assoc(x: seq<Action>, y: seq<Action>, z: seq<Action>)
    ensures x + (y + z) == x + y + z
  {
  }

  /** Regrouping a trace made of four consecutive parts. */
  lemma Regroup(w: seq<Action>, x: seq<Action>, y: seq<Action>, z: seq<Action>)
    ensures w + (x + y + z) == w + x + y + z
  {
  }

  // ----------------------------------------------------------------- the buyer

  class TimeFunBuyer {
    const config: Config
    /** Set once a login has been observed; nothing in the buyer sets it back to false. */
    var isLoggedIn: bool
    /** The recorded commands (see `Action`) sent to the browser so far, in order. */
    var trace: seq<Action>

    constructor (config: Config)
      ensures this.config == config && !isLoggedIn && trace == []
    {
      this.config := config;
      isLoggedIn := false;
      trace := [];
    }

    /** `is_element_present`: one lookup, no wait. */
    method IsElementPresent(page: Page, loc: Locator) returns (found: bool)
      modifies this`trace
      ensures found == (loc in page.present)
      ensures trace == old(trace) + [Probe(loc)]
    {
      trace := trace + [Probe(loc)];
      found := loc in page.present;
    }

    /** `human_like_typing`: one keystroke per character, in order. */
    method TypeText(text: string)
      modifies this`trace
      ensures trace == old(trace) + Keys(text)
    {
      for i := 0 to |text|
        invariant trace == old(trace) + Keys(text[..i])
      {
        assert text[..i + 1][..i] == text[..i];
        trace := trace + [Key(text[i])];
      }
      assert text[..|text|] == text;
    }

    /**
     * `find_and_click_element`: try the locators in order, click the first clickable
     * one and stop; report failure only when every locator has failed.
     */
    method FindAndClick(page: Page, xpaths: seq<Locator>) returns (clicked: bool)
      modifies this`trace
      ensures clicked == FirstIn(xpaths, page.clickable).Some?
      ensures trace == old(trace) + ClickTrace(xpaths, page.clickable)
    {
      var i := 0;
      while i < |xpaths|
        invariant 0 <= i <= |xpaths|
        invariant forall j :: 0 <= j < i ==> xpaths[j] !in page.clickable
        invariant trace == old(trace) + Probes(xpaths[..i])
      {
        trace := trace + [Probe(xpaths[i])];
        assert xpaths[..i + 1][..i] == xpaths[..i];
        if xpaths[i] in page.clickable {
          FirstInAt(xpaths, page.clickable, i);
          trace := trace + [Click(xpaths[i])];
          return true;
        }
        i := i + 1;
      }
      assert xpaths[..i] == xpaths;
      FirstInNone(xpaths, page.clickable);
      return false;
    }

    /**
     * Ranked-fallback lookup by presence: probe the locators in order and stop at the
     * first one that finds an element.
     */
    method Lookup(page: Page, locs: seq<Locator>) returns (found: Option<nat>)
      modifies this`trace
      ensures found == FirstIn(locs, page.present)
      ensures trace == old(trace) + LookupTrace(locs, page.present)
    {
      var i := 0;
      while i < |locs|
        invariant 0 <= i <= |locs|
        invariant forall j :: 0 <= j < i ==> locs[j] !in page.present
        invariant trace == old(trace) + Probes(locs[..i])
      {
        trace := trace + [Probe(locs[i])];
        assert locs[..i + 1][..i] == locs[..i];
        if locs[i] in page.present {
          FirstInAt(locs, page.present, i);
          return Some(i);
        }
        i := i + 1;
      }
      assert locs[..i] == locs;
      FirstInNone(locs, page.present);
      return None;
    }

    /**
     * `find_input_element`: the locator of the first present selector, in order,
     * or `None` when none is present.
     */
    method FindInput(page: Page, selectors: seq<Locator>) returns (found: Option<Locator>)
      modifies this`trace
      ensures found == match FirstIn(selectors, page.present)
        case Some(k) => Some(selectors[k])
        case None => None
      ensures trace == old(trace) + LookupTrace(selectors, page.present)
    {
      var k := Lookup(page, selectors);
      found := if k.Some? then Some(selectors[k.value]) else None;
    }

    /** The button scans of `buy_user`: the first readable button whose text fits `role`. */
    method ChooseButton(buttons: seq<Option<string>>, role: ButtonRole) returns (choice: Option<nat>)
      ensures choice == FirstButton(buttons, role)
    {
      FirstButtonSpec(buttons, role);
      var i := 0;
      while i < |buttons|
        invariant 0 <= i <= |buttons|
        invariant forall j :: 0 <= j < i ==> !Fits(role, buttons[j])
      {
        match buttons[i] {
          case None =>
          case Some(text) =>
            var fits := match role
              case Offer => IsOfferLabel(text)
              case Confirm => IsConfirmLabel(text);
            if fits {
              return Some(i);
            }
        }
        i := i + 1;
      }
      return None;
    }

    /** `check_login_status`: never clears the login flag; sets it when it answers true. */
    method CheckLoginStatus(s: StatusScene) returns (ok: bool)
      modifies this`trace, this`isLoggedIn
      ensures var r := StatusRun(old(isLoggedIn), s);
        ok == r.value && isLoggedIn == r.loggedIn && trace == old(trace) + r.trace
    {
      trace := trace + [Navigate(SiteRoot)];
      if s.landing.None? {
        return false;
      }
      var page := s.landing.value;
      var indicator := Lookup(page, LoginIndicators);
      if indicator.Some? {
        isLoggedIn := true;
        return true;
      }
      var onLoginForm := IsElementPresent(page, EmailField);
      if onLoginForm || Contains(Lower(page.url), "login") {
        return false;
      }
      trace := trace + [Navigate(HomeRoute)];
      if s.protected.None? {
        return false;
      }
      var url := Lower(s.protected.value.url);
      if Contains(url, "login") {
        return false;
      }
      if Contains(url, "home") {
        isLoggedIn := true;
        return true;
      }
      return false;
    }

    /** The manual-login wait of `login`: poll the status check until it succeeds or time is up. */
    method AwaitManualLogin(polls: seq<StatusScene>) returns (ok: bool)
      modifies this`trace, this`isLoggedIn
      ensures var r := PollRun(old(isLoggedIn), polls);
        ok == r.value && isLoggedIn == r.loggedIn && trace == old(trace) + r.trace
    {
      var i := 0;
      while i < |polls|
        invariant 0 <= i <= |polls|
        invariant isLoggedIn == old(isLoggedIn)
        invariant var r := PollRun(old(isLoggedIn), polls); var rest := PollRun(isLoggedIn, polls[i..]);
          r.value == rest.value && r.loggedIn == rest.loggedIn && old(trace) + r.trace == trace + rest.trace
      {
        ghost var before := trace;
        ok := CheckLoginStatus(polls[i]);
        assert polls[i..][1..] == polls[i + 1..];
        if ok {
          isLoggedIn := true;
          return;
        }
        Assoc(before, StatusRun(isLoggedIn, polls[i]).trace, PollRun(isLoggedIn, polls[i + 1..]).trace);
        i := i + 1;
      }
      return false;
    }

    /** `login`: with an existing session, check and then wait; otherwise run the login form. */
    method Login(s: LoginScene) returns (ok: bool)
      modifies this`trace, this`isLoggedIn
      ensures var r := LoginRun(config, old(isLoggedIn), s);
        ok == r.value && isLoggedIn == r.loggedIn && trace == old(trace) + r.trace
    {
      if config.useExistingSession {
        ok := CheckLoginStatus(s.check);
        if ok {
          return;
        }
        trace := trace + [Navigate(LoginRoute)];
        ok := AwaitManualLogin(s.polls);
        return;
      }
      if isLoggedIn {
        return true;
      }
      trace := trace + [Navigate(LoginRoute)];
      ok := s.formLogin && !config.headless;
      if ok {
        isLoggedIn := true;
      }
    }

    /** `buy_user`: the login gate, then the purchase steps. */
    method BuyUser(username: string, s: PurchaseScene) returns (outcome: BuyOutcome)
      modifies this`trace, this`isLoggedIn
      ensures var r := AttemptRun(config, old(isLoggedIn), username, s);
        outcome == r.value && isLoggedIn == r.loggedIn && trace == old(trace) + r.trace
    {
      if !isLoggedIn {
        var ok := Login(s.login);
        if !ok {
          return NotLoggedIn;
        }
        Assoc(old(trace), LoginRun(config, false, s.login).trace, PurchaseRun(config.buyAmount, username, s).trace);
      }
      outcome := Purchase(username, s);
    }

    /** The purchase steps of `buy_user`: open the market page and click Buy. */
    method Purchase(username: string, s: PurchaseScene) returns (outcome: BuyOutcome)
      modifies this`trace
      ensures var r := PurchaseRun(config.buyAmount, username, s);
        outcome == r.outcome && trace == old(trace) + r.trace
    {
      trace := trace + [Navigate(MarketTarget(username, s.savedPage))];
      if s.market.None? {
        return NavigationFailed;
      }
      var clicked := FindAndClick(s.market.value, BuyButtonXPaths);
      if !clicked {
        return NoBuyButton;
      }
      Assoc(old(trace), [Navigate(MarketTarget(username, s.savedPage))], ClickTrace(BuyButtonXPaths, s.market.value.clickable));
      Assoc(old(trace) + [Navigate(MarketTarget(username, s.savedPage))], ClickTrace(BuyButtonXPaths, s.market.value.clickable), DialogRun(config.buyAmount, s).trace);
      Assoc(old(trace), [Navigate(MarketTarget(username, s.savedPage))] + ClickTrace(BuyButtonXPaths, s.market.value.clickable), DialogRun(config.buyAmount, s).trace);
      outcome := FillDialog(s);
    }

    /** In the buy dialog: the currency toggle is optional, the amount field is not. */
    method FillDialog(s: PurchaseScene) returns (outcome: BuyOutcome)
      modifies this`trace
      ensures var r := DialogRun(config.buyAmount, s);
        outcome == r.outcome && trace == old(trace) + r.trace
    {
      ghost var start := trace;
      var switched := FindAndClick(s.modal, CurrencySwitchXPaths);
      var field := FindInput(s.form, AmountInputSelectors);
      ghost var looked := ClickTrace(CurrencySwitchXPaths, s.modal.clickable)
        + LookupTrace(AmountInputSelectors, s.form.present);
      assert trace == start + looked;
      if field.None? {
        return NoAmountField;
      }
      trace := trace + [Clear];
      TypeText(config.buyAmount);
      ghost var typed := trace;
      outcome := PlaceOrder(s);
      Regroup(start, looked, [Clear], Keys(config.buyAmount));
      Assoc(start, looked + [Clear] + Keys(config.buyAmount), OrderRun(s).trace);
    }

    /** Choose and click the offer button, then the confirmation button. */
    method PlaceOrder(s: PurchaseScene) returns (outcome: BuyOutcome)
      modifies this`trace
      ensures var r := OrderRun(s);
        outcome == r.outcome && trace == old(trace) + r.trace
    {
      var offer := ChooseButton(s.offers.buttons, Offer);
      if offer.None? {
        return NoOfferButton;
      }
      trace := trace + [Press(offer.value)];
      var confirm := ChooseButton(s.confirm.buttons, Confirm);
      if confirm.None? {
        return NoConfirmButton;
      }
      trace := trace + [Press(confirm.value)];
      return Bought;
    }

    /**
     * One round of `buy_with_retry`: an attempt, then the back-off when it failed and
     * another attempt is left. Stated as one step of `RetryRun`.
     */
    method AttemptRound(attempt: nat, username: string, scenes: nat -> PurchaseScene) returns (bought: bool)
      requires attempt <= config.maxBuyAttempts
      modifies this`trace, this`isLoggedIn
      ensures var r := RetryRun(config, attempt, old(isLoggedIn), username, scenes);
        if bought then r.value.ok && isLoggedIn == r.loggedIn && trace == old(trace) + r.trace
        else var rest := RetryRun(config, attempt + 1, isLoggedIn, username, scenes);
          r.value.ok == rest.value.ok && r.loggedIn == rest.loggedIn && old(trace) + r.trace == trace + rest.trace
    {
      RetryStep(config, attempt, isLoggedIn, username, scenes);
      ghost var a := AttemptRun(config, isLoggedIn, username, scenes(attempt));
      ghost var backoff: seq<Action> := if attempt < config.maxBuyAttempts then [Wait(config.buyDelay * 2)] else [];
      ghost var rest := RetryRun(config, attempt + 1, a.loggedIn, username, scenes);
      var outcome := BuyUser(username, scenes(attempt));
      if outcome == Bought {
        return true;
      }
      if attempt < config.maxBuyAttempts {
        trace := trace + [Wait(config.buyDelay * 2)];
      }
      assert trace == old(trace) + a.trace + backoff;
      Regroup(old(trace), a.trace, backoff, rest.trace);
      return false;
    }

    /**
     * `buy_with_retry`: at most `maxBuyAttempts` attempts, stopping at the first
     * success, with one fixed back-off of `buyDelay * 2` between two attempts.
     */
    method BuyWithRetry(username: string, scenes: nat -> PurchaseScene) returns (ok: bool)
      modifies this`trace, this`isLoggedIn
      ensures var r := RetryRun(config, 1, old(isLoggedIn), username, scenes);
        ok == r.value.ok && isLoggedIn == r.loggedIn && trace == old(trace) + r.trace
    {
      ghost var whole := RetryRun(config, 1, old(isLoggedIn), username, scenes);
      var attempt := 1;
      while attempt <= config.maxBuyAttempts
        invariant 1 <= attempt
        invariant var rest := RetryRun(config, attempt, isLoggedIn, username, scenes);
          whole.value.ok == rest.value.ok && whole.loggedIn == rest.loggedIn
          && old(trace) + whole.trace == trace + rest.trace
        decreases config.maxBuyAttempts - attempt + 1
      {
        var bought := AttemptRound(attempt, username, scenes);
        if bought {
          return true;
        }
        attempt := attempt + 1;
      }
      return false;
    }
  }
}
