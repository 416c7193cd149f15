/**
 * The browser as the buyer sees it. The remote Chrome session is an oracle: each
 * step of the buyer looks at a `Page` snapshot (which locators are present, which
 * are clickable, the visible text of every button, the current URL) and the buyer
 * records every command it sends to the driver in a trace of `Action`s.
 */
module Browser {
  import opened Wrappers

  /** The locator strategies the buyer uses (`By.XPATH`, `By.ID`, `By.CSS_SELECTOR`). */
  datatype By = XPath | Id | CssSelector

  /**
   * Every locator the buyer uses, by name; `Strategy` and `Expression` give the
   * strategy and the expression text handed to the driver.
   */
  datatype Locator =
    // signs of a logged-in page
    | ProfileHref | DisconnectButton | AvatarDiv | ProfileText
    // the login form's e-mail field
    | EmailId
    // the market page's Buy button, most specific first
    | BuyInlineFlexPrimary | BuyControlsPrimary | BuyTextPrimary100 | BuyPrimaryClass | BuyBuyClass
    | BuyExactText | BuyContainsText | BuyRounded | MarketButton | AnyButton
    // the dialog's USD currency toggle
    | UsdText | UsdCurrencySwitch | UsdInModal | ModalSwitchLast
    // the dialog's amount field
    | ModalNumberInput | NumberInput | ModalAmountInput | ModalInput
    | CssModalNumberInput | CssAmountInput | CssModalInput

  function Strategy(l: Locator): By
  {
    match l
    case EmailId => Id
    case CssModalNumberInput | CssAmountInput | CssModalInput => CssSelector
    case _ => XPath
  }

  function Expression(l: Locator): string
  {
    match l
    case ProfileHref => "//a[contains(@href, '/profile')]"
    case DisconnectButton => "//button[contains(text(), 'Disconnect')]"
    case AvatarDiv => "//div[contains(@class, 'avatar')]"
    case ProfileText => "//a[contains(text(), 'Profile')]"
    case EmailId => "email"
    case BuyInlineFlexPrimary => "//button[contains(@class, 'inline-flex') and contains(@class, 'bg-controls-primary')]"
    case BuyControlsPrimary => "//button[contains(@class, 'bg-controls-primary')]"
    case BuyTextPrimary100 => "//button[contains(@class, 'text-primary-100')]"
    case BuyPrimaryClass => "//button[contains(@class, 'primary')]"
    case BuyBuyClass => "//button[contains(@class, 'buy')]"
    case BuyExactText => "//button[text()='Buy']"
    case BuyContainsText => "//button[contains(text(), 'Buy')]"
    case BuyRounded => "//button[contains(@class, 'rounded')]"
    case MarketButton => "//div[contains(@class, 'market')]//button"
    case AnyButton => "//button"
    case UsdText => "//button[contains(text(), 'USD')]"
    case UsdCurrencySwitch => "//button[contains(@class, 'currency-switch') and contains(text(), 'USD')]"
    case UsdInModal => "//div[contains(@class, 'modal')]//button[contains(text(), 'USD')]"
    case ModalSwitchLast => "//div[contains(@class, 'modal')]//div[contains(@class, 'switch')]//button[last()]"
    case ModalNumberInput => "//div[contains(@class, 'modal')]//input[@type='number']"
    case NumberInput => "//input[@type='number']"
    case ModalAmountInput => "//div[contains(@class, 'modal')]//input[contains(@class, 'amount')]"
    case ModalInput => "//div[contains(@class, 'modal')]//input"
    case CssModalNumberInput => "div.modal input[type='number']"
    case CssAmountInput => "input.amount"
    case CssModalInput => "div.modal input"
  }

  /**
   * One observation of the page. `present` holds the locators that find an element
   * (presence), `clickable` those whose element is visible, enabled and accepts a
   * click. `buttons` is the text of every `<button>` in document order; `None` is a
   * button whose text cannot be read (a stale element).
   */
  datatype Page = Page(url: string, present: set<Locator>, clickable: set<Locator>, buttons: seq<Option<string>>)

  /**
   * A driver command the model records. The button listings are not recorded
   * (`Page.buttons` stands for their result), nor are the commands of the
   * fresh-session form login.
   */
  datatype Action =
    | Navigate(url: string)    // driver.get
    | Probe(loc: Locator)      // look an element up by a locator
    | Click(loc: Locator)      // click the element a locator found
    | Clear                    // clear the input field that was found
    | Key(c: char)             // send one keystroke to that field
    | Press(button: nat)       // click the button at this index of the enumerated buttons
    | Wait(seconds: int)       // the fixed back-off between two purchase attempts

  /** Index of the first element of `xs` that is in `hits`: the winner of a ranked-fallback lookup. */
  function FirstIn<T>(xs: seq<T>, hits: set<T>): (r: Option<nat>)
    ensures r.Some? ==> r.value < |xs|
  {
    if xs == [] then None
    else if xs[0] in hits then Some(0)
    else match FirstIn(xs[1..], hits)
      case None => None
      case Some(k) => Some(k + 1)
  }

  /**
   * `FirstIn` finds the earliest hit: the index it returns holds a hit and no
   * earlier index does, and it finds nothing exactly when no element is a hit.
   */
  lemma {:induction false} FirstInSpec<T>(xs: seq<T>, hits: set<T>)
    ensures FirstIn(xs, hits).Some? ==> FirstIn(xs, hits).value < |xs| && xs[FirstIn(xs, hits).value] in hits
    ensures FirstIn(xs, hits).Some? ==> forall j :: 0 <= j < FirstIn(xs, hits).value ==> xs[j] !in hits
    ensures FirstIn(xs, hits).None? <==> forall j :: 0 <= j < |xs| ==> xs[j] !in hits
  {
    if xs != [] && xs[0] !in hits {
      FirstInSpec(xs[1..], hits);
      assert forall j :: 1 <= j < |xs| ==> xs[j] == xs[1..][j - 1];
    }
  }

  /** `FirstIn` returns `i` when `xs[i]` is a hit and nothing before it is. */
  lemma FirstInAt<T>(xs: seq<T>, hits: set<T>, i: nat)
    requires i < |xs| && xs[i] in hits
    requires forall j :: 0 <= j < i ==> xs[j] !in hits
    ensures FirstIn(xs, hits) == Some(i)
  {
    FirstInSpec(xs, hits);
  }

  /** `FirstIn` finds nothing when no element is a hit. */
  lemma FirstInNone<T>(xs: seq<T>, hits: set<T>)
    requires forall j :: 0 <= j < |xs| ==> xs[j] !in hits
    ensures FirstIn(xs, hits) == None
  {
    FirstInSpec(xs, hits);
  }

  /** One `Probe` per locator, in list order. */
  function Probes(locs: seq<Locator>): (r: seq<Action>)
  {
    if locs == [] then [] else Probes(locs[..|locs| - 1]) + [Probe(locs[|locs| - 1])]
  }

  /**
   * The commands of a ranked-fallback click: every locator up to and including the
   * first clickable one is probed, that one is clicked and no later locator is tried;
   * when none is clickable, every locator is probed and nothing is clicked.
   */
  function ClickTrace(locs: seq<Locator>, clickable: set<Locator>): seq<Action>
  {
    match FirstIn(locs, clickable)
    case Some(k) => Probes(locs[..k + 1]) + [Click(locs[k])]
    case None => Probes(locs)
  }

  /** The commands of a ranked-fallback lookup by presence (nothing is clicked). */
  function LookupTrace(locs: seq<Locator>, present: set<Locator>): seq<Action>
  {
    match FirstIn(locs, present)
    case Some(k) => Probes(locs[..k + 1])
    case None => Probes(locs)
  }

  /** One keystroke per character of `text`, in order. */
  function Keys(text: string): (r: seq<Action>)
  {
    if text == [] then [] else Keys(text[..|text| - 1]) + [Key(text[|text| - 1])]
  }
}
