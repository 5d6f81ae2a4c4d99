/** The generation run end to end: people, then accounts and cards, then lending, then the movement pass. */
module Pipeline {
  import opened Rows
  import opened Calendar
  import opened Sorting
  import opened Deposits
  import opened Emission
  import opened Books
  import Lending
  import People
  import opened Months
  import opened Activity
  import opened Movements
  import opened Plan
  import OpeningDeposits
  import LoansAccount

  predicate IsCurrent(t: Terms, customer: nat) {
    t.customerId == customer && t.productClass == "current"
  }

  /** The customer's first current account, or none when they have none. */
  function FirstCurrent(terms: seq<Terms>, customer: nat, from: nat): (account: Option<nat>)
    requires from <= |terms|
    ensures account.Some? ==> from < account.value <= |terms| && IsCurrent(terms[account.value - 1], customer)
    ensures forall i :: from <= i < (if account.Some? then account.value - 1 else |terms|) ==>
              !IsCurrent(terms[i], customer)
    decreases |terms| - from
  {
    if from == |terms| then None
    else if IsCurrent(terms[from], customer) then Some(from + 1)
    else FirstCurrent(terms, customer, from + 1)
  }

  function CurrentAccounts(terms: seq<Terms>): nat -> Option<nat> {
    (customer: nat) => FirstCurrent(terms, customer, 0)
  }

  function Currencies(terms: seq<Terms>): nat -> string {
    (account: nat) => if 1 <= account <= |terms| then terms[account - 1].currency else ""
  }

  /** Everything a run draws. */
  datatype Draws = Draws(
    offsets: nat -> nat, weights: seq<real>, days: nat -> nat -> nat, counts: nat -> nat,
    accounts: (nat, nat) -> AccountDraw, applications: nat -> nat, lending: (nat, nat) -> Lending.ApplicationDraw,
    lifecycle: (nat, nat) -> LifecycleDraw, activity: (nat, nat) -> MonthDraws)

  /** What a run is configured with. */
  datatype Config = Config(
    spans: seq<Span>, start: int, anchorDay: int, customers: nat, initial: nat, expiryOf: int -> int,
    vocabulary: Vocabulary, chart: Chart, agents: nat)
  {
    function RulesFor(limits: seq<nat>): Rules {
      Rules(vocabulary, chart, limits, anchorDay * DAY + DAY - 1)
    }
  }

  /** A loan is paid out to the first current account of its customer; a customer without one gets none. */
  lemma {:induction false} LoansGoToTheFirstCurrentAccount(terms: seq<Terms>, customer: nat)
    ensures var account := CurrentAccounts(terms)(customer);
            && (account.None? <==>
                  forall i :: 0 <= i < |terms| ==>
                    terms[i].customerId != customer || terms[i].productClass != "current")
            && (account.Some? ==>
                  && 1 <= account.value <= |terms| && terms[account.value - 1].customerId == customer
                  && terms[account.value - 1].productClass == "current"
                  && (forall i :: 0 <= i < account.value - 1 ==>
                        terms[i].customerId != customer || terms[i].productClass != "current")
                  && Currencies(terms)(account.value) == terms[account.value - 1].currency)
  {
  }

  /** What a run counts as not past the anchor is what happens on the anchor day or before. */
  lemma {:induction false} RunsEndWithTheAnchorDay(c: Config, limits: seq<nat>, instant: int)
    ensures instant <= c.RulesFor(limits).anchorEnd <==> DayOf(instant) <= c.anchorDay
    ensures c.RulesFor(limits).limits == limits
  {
  }

  lemma {:induction false} WindowsOverlap(spans: seq<Span>, start: int, anchor: int)
    requires Tiles(spans, start, anchor)
    ensures People.MonthsOverlap(spans, start, anchor) && start <= anchor
  {
    forall m | 0 <= m < |spans| ensures People.Overlaps(spans[m], start, anchor) && start - 31 < spans[m].opens {
      TilesWithin(spans, start, anchor, m);
    }
    TilesWithin(spans, start, anchor, 0);
  }

  lemma {:induction false} LendingIsHeld(
    cash: seq<Lending.CashEvent>, holdUntil: map<nat, int>, openedOn: seq<int>, anchorDay: int)
    requires Lending.AllInBook(cash, openedOn, anchorDay) && Lending.HeldUntilLast(cash, holdUntil)
    ensures LoansHeld(cash, openedOn, holdUntil, anchorDay)
  {
    forall i | 0 <= i < |cash| ensures LoanHeld(cash[i], openedOn, holdUntil, anchorDay) {
      assert Lending.InBook(cash[i], openedOn, anchorDay);
    }
  }

  /** What the configuration and the draws must be: windows that tile the history, and weights to split by. */
  ghost predicate Workable(c: Config, d: Draws) {
    && Tiles(c.spans, c.start, c.anchorDay) && c.start >= 730 && c.initial <= c.customers && |d.weights| == |c.spans|
    && (forall i :: 0 <= i < |d.weights| ==> d.weights[i] >= 0.0) && People.Weight(d.weights) > 0.0
  }

  /** The signup days are the ones drawn. */
  ghost predicate SignedUp(c: Config, d: Draws, signup: seq<int>)
    requires Workable(c, d)
  {
    var cohorts := People.CohortsOf(c.start, c.customers, c.initial, d.offsets, d.weights, c.spans);
    && People.AllDrawable(cohorts, c.start, c.anchorDay) && |signup| == c.customers
    && signup == SortedBy(People.AllDays(cohorts, c.start, c.anchorDay, d.days), People.DayKey())
  }

  /** The accounts, their holders and their cards are the ones drawn for these customers. */
  ghost predicate Opened(
    c: Config, d: Draws, signup: seq<int>, holders: seq<HolderRow>, f: Facts, limits: seq<nat>)
  {
    var openings := Openings(signup, d.counts, d.accounts, c.anchorDay);
    && OpenedAs(f.terms, f.openedOn, limits, openings) && holders == DrawnHolders(openings, |signup|)
    && IssuedAs(f.cardIds, f.cards, c.anchorDay, c.expiryOf, openings)
  }

  /** Every account opens inside the calendar, by the anchor. */
  ghost predicate Dated(c: Config, openedOn: seq<int>) {
    forall i :: 0 <= i < |openedOn| ==> 1 <= openedOn[i] <= c.anchorDay
  }

  /** The loan cash flows are those of exactly the loans drawn, in time order, with the holds they imply. */
  ghost predicate Lent(
    c: Config, d: Draws, signup: seq<int>, f: Facts, cash: seq<Lending.CashEvent>, made: seq<Lending.Loan>)
    requires Dated(c, f.openedOn) && |f.terms| == |f.openedOn|
  {
    && Lending.PlansSound(made)
    && Lending.GrantsOf(made)
      == Lending.Grants(signup, CurrentAccounts(f.terms), d.applications, d.lending, f.openedOn, c.start, c.anchorDay)
    && cash == SortedBy(Lending.Cash(made, Currencies(f.terms), c.anchorDay), Lending.CashKey())
    && Lending.HeldUntilLast(cash, f.holdUntil)
  }

  /** Everything the movement pass works from is what the configuration and the draws say. */
  ghost predicate SetUp(
    c: Config, d: Draws, signup: seq<int>, holders: seq<HolderRow>, made: seq<Lending.Loan>, s: Setting)
    requires Workable(c, d)
  {
    && SignedUp(c, d, signup) && Opened(c, d, signup, holders, s.facts, s.rules.limits) && Dated(c, s.facts.openedOn)
    && Lent(c, d, signup, s.facts, s.cash, made)
    && s.rules == c.RulesFor(s.rules.limits) && s.facts.anchorDay == c.anchorDay && s.facts.agents == c.agents
    && s.facts.lifecycle == d.lifecycle && s.facts.activity == d.activity
  }

  /** People, then their accounts and cards. */
  method OpenBook(c: Config, d: Draws)
    returns (signup: seq<int>, accounts: AccountBook, cards: CardBook, holders: seq<HolderRow>)
    requires Workable(c, d)
    ensures fresh(accounts) && accounts.Valid() && accounts.Untouched() && SignedUp(c, d, signup)
            && Dated(c, accounts.openedOn)
    ensures CardsSound(accounts.openedOn, accounts.cardIds, cards.rows, c.anchorDay)
    ensures var openings := Openings(signup, d.counts, d.accounts, c.anchorDay);
            && OpenedAs(accounts.terms, accounts.openedOn, accounts.overdraft, openings)
            && holders == DrawnHolders(openings, |signup|) && HoldersSound(holders, |accounts.openedOn|)
            && IssuedAs(accounts.cardIds, cards.rows, c.anchorDay, c.expiryOf, openings)
  {
    WindowsOverlap(c.spans, c.start, c.anchorDay);
    signup := People.SignupDates(c.start, c.anchorDay, c.customers, c.initial, d.offsets, d.weights, c.spans, d.days);
    accounts, cards, holders := Deposits.Generate(c.anchorDay, c.expiryOf, signup, d.counts, d.accounts);
  }

  /** Then their loans. */
  method Lend(c: Config, d: Draws, signup: seq<int>, terms: seq<Terms>, openedOn: seq<int>)
    returns (cash: seq<Lending.CashEvent>, holdUntil: map<nat, int>, ghost made: seq<Lending.Loan>)
    requires |terms| == |openedOn| && Dated(c, openedOn)
    ensures LoansHeld(cash, openedOn, holdUntil, c.anchorDay)
    ensures forall f: Facts :: f.terms == terms && f.openedOn == openedOn && f.holdUntil == holdUntil ==>
              Lent(c, d, signup, f, cash, made)
  {
    var book;
    book, made := Lending.Generate(c.start, c.anchorDay, signup, CurrentAccounts(terms), Currencies(terms),
                                   d.applications, d.lending, openedOn);
    LendingIsHeld(book.cashEvents, book.holdUntil, openedOn, c.anchorDay);
    cash, holdUntil := book.cashEvents, book.holdUntil;
  }

  /** The first three passes: everything the movement pass works from. */
  method Prepare(c: Config, d: Draws)
    returns (
      s: Setting, accounts: AccountBook, holders: seq<HolderRow>, ghost signup: seq<int>,
      ghost made: seq<Lending.Loan>)
    requires Workable(c, d)
    ensures fresh(accounts) && SetUp(c, d, signup, holders, made, s) && Over(s, accounts) && accounts.Untouched()
    ensures CardsSound(s.facts.openedOn, s.facts.cardIds, s.facts.cards, c.anchorDay)
    ensures HoldersSound(holders, |s.facts.openedOn|)
    ensures LoansHeld(s.cash, s.facts.openedOn, s.facts.holdUntil, c.anchorDay)
  {
    var signedUp, cards;
    signedUp, accounts, cards, holders := OpenBook(c, d);
    var cash, holdUntil;
    cash, holdUntil, made := Lend(c, d, signedUp, accounts.terms, accounts.openedOn);
    s := Setting(c.RulesFor(accounts.overdraft), cash,
                 Facts(accounts.terms, accounts.openedOn, accounts.cardIds, cards.rows, holdUntil,
                       c.anchorDay, c.agents, d.lifecycle, d.activity));
    signup := signedUp;
  }

  /** A whole run. Its accounts, holders, cards and loans are the ones drawn, each pass leaves what the next one needs,
      and the book the last one writes is sound and is the run, in order, of exactly the movements drawn and the loans'
      cash flows. */
  method Generate(c: Config, d: Draws)
    returns (
      out: Outputs, holders: seq<HolderRow>, ghost s: Setting, ghost signup: seq<int>, ghost made: seq<Lending.Loan>)
    requires Workable(c, d)
    requires c.vocabulary.Sound() && "transfer_in" in c.vocabulary.txnDirection
             && "direct_debit" in c.vocabulary.txnDirection
    requires forall a, m :: KnownTypes(c.vocabulary, d.activity(a, m))
    ensures SetUp(c, d, signup, holders, made, s) && Over(s, out.accounts) && HoldersSound(holders, |s.facts.openedOn|)
    ensures OpeningDeposits.Whole(s.facts, c.spans, c.start)
    ensures Nonempty(c.spans) && Accounted(s, c.spans, out.accounts.closedOn, out.View())
    ensures StandsAt(s.facts, out.accounts, AfterMonths(s.facts, c.spans, |c.spans|).lives)
    ensures out.stats.transactions == |out.txns.rows| && out.stats.payments == |out.pays.rows|
  {
    var setting, accounts;
    setting, accounts, holders, signup, made := Prepare(c, d);
    s := setting;
    out := Movements.Generate(setting, c.spans, c.start, accounts);
  }

  /** A generated run's loan cash flows come in time order, and where every granted loan's payment covers its interest
      they are what the loans account follows. */
  lemma {:induction false} RunsAreLentOut(
    c: Config, d: Draws, signup: seq<int>, holders: seq<HolderRow>, made: seq<Lending.Loan>, s: Setting)
    requires Workable(c, d) && SetUp(c, d, signup, holders, made, s) && LoansAccount.AllCovered(made)
             && LoansAccount.Apart(c.chart)
    requires c.vocabulary.TxnWay("direct_debit") == Outgoing && c.vocabulary.PostsTxn("posted")
    ensures Ascending(s.cash, Lending.CashKey()) && LoansAccount.LentOut(s, made, Currencies(s.facts.terms))
  {
    SortedByOrders(Lending.Cash(made, Currencies(s.facts.terms), c.anchorDay), Lending.CashKey());
  }

  // ---------------------------------------------------------------- a run is what was drawn

  lemma {:induction false} OneBook(
    c: Config, d: Draws, signup: seq<int>, held: seq<HolderRow>, others: seq<HolderRow>, f: Facts, g: Facts,
    ours: seq<nat>, theirs: seq<nat>)
    requires Opened(c, d, signup, held, f, ours) && Opened(c, d, signup, others, g, theirs)
    ensures held == others && f.terms == g.terms && f.openedOn == g.openedOn && ours == theirs && f.cardIds == g.cardIds
            && f.cards == g.cards
  {
  }

  lemma {:induction false} OneLending(
    c: Config, d: Draws, signup: seq<int>, f: Facts, g: Facts, ours: seq<Lending.CashEvent>,
    theirs: seq<Lending.CashEvent>, made: seq<Lending.Loan>, others: seq<Lending.Loan>)
    requires Dated(c, f.openedOn) && |f.terms| == |f.openedOn| && f.terms == g.terms && f.openedOn == g.openedOn
    requires Lent(c, d, signup, f, ours, made) && Lent(c, d, signup, g, theirs, others)
    ensures made == others && ours == theirs && f.holdUntil == g.holdUntil
  {
    Lending.OneListOfLoans(made, others);
    Lending.OneSetOfHolds(ours, f.holdUntil, g.holdUntil);
  }

  /** The configuration and the draws determine the whole run: two runs of the same draws have the same customers,
      accounts, holders, loans and movements, and write the same balances, rows and ledger. */
  lemma {:induction false} TheDrawsDetermineTheBook(
    c: Config, d: Draws, s: Setting, t: Setting, signup: seq<int>, others: seq<int>, holders: seq<HolderRow>,
    held: seq<HolderRow>, made: seq<Lending.Loan>, lent: seq<Lending.Loan>, closed: seq<Option<int>>,
    shut: seq<Option<int>>, one: Book, other: Book)
    requires Workable(c, d) && Nonempty(c.spans)
    requires SetUp(c, d, signup, holders, made, s) && SetUp(c, d, others, held, lent, t)
    requires Accounted(s, c.spans, closed, one) && Accounted(t, c.spans, shut, other)
    ensures signup == others && holders == held && made == lent && s == t && one == other
  {
    OneBook(c, d, signup, holders, held, s.facts, t.facts, s.rules.limits, t.rules.limits);
    OneLending(c, d, signup, s.facts, t.facts, s.cash, t.cash, made, lent);
  }
}
