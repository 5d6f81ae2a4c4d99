/** Accounts, the holder bridge and cards: what the movement pass starts from. */
module Deposits {
  import opened Rows

  datatype AccountStatus = Active | Dormant | Frozen | Closed

  datatype CardStatus = Usable | Blocked | Cancelled | Expired

  datatype Role = Primary | Joint | Signatory

  datatype HolderRow = HolderRow(holderId: nat, accountId: nat, customerId: nat, role: Role, weight: Option<int>)

  /** Ownership weights are counted in hundred-millionths. */
  const WHOLE := 100_000_000

  /** What is decided once when an account opens and never changes. */
  datatype Terms = Terms(
    customerId: nat, productClass: string, currency: string, openingBalance: nat, salaryDay: nat, salaryAmount: nat)

  /** The parallel lists of the deposit book, as a value. */
  datatype Shelf = Shelf(
    terms: seq<Terms>, openedOn: seq<int>, overdraft: seq<nat>, closedOn: seq<Option<int>>, status: seq<AccountStatus>,
    balance: seq<int>, updatedAt: seq<int>, cardIds: seq<seq<nat>>)
  {
    /** One more account, as it is on its opening day. */
    function Opened(customer: nat, draw: AccountDraw, day: int, createdAt: int): Shelf {
      Shelf(terms + [TermsOf(customer, draw)], openedOn + [day], overdraft + [LimitOf(draw)], closedOn + [None],
            status + [Active], balance + [0], updatedAt + [createdAt], cardIds + [[]])
    }

    predicate Valid() {
      && |terms| == |openedOn| && |overdraft| == |openedOn| && |closedOn| == |openedOn|
      && |status| == |openedOn| && |balance| == |openedOn| && |updatedAt| == |openedOn| && |cardIds| == |openedOn|
    }

    /** No account has moved yet: every balance is zero and every account is open. */
    predicate Untouched()
      requires Valid()
    {
      forall i :: 0 <= i < |openedOn| ==> balance[i] == 0 && closedOn[i] == None && status[i] == Active
    }
  }

  /** The deposit book, as parallel lists indexed by account id minus one. */
  class AccountBook {
    var terms: seq<Terms>
    var openedOn: seq<int>
    var overdraft: seq<nat>
    var closedOn: seq<Option<int>>
    var status: seq<AccountStatus>
    var balance: seq<int>
    var updatedAt: seq<int>
    var cardIds: seq<seq<nat>>

    constructor ()
      ensures Valid() && openedOn == []
    {
      terms, openedOn, overdraft, closedOn := [], [], [], [];
      status, balance, updatedAt, cardIds := [], [], [], [];
    }

    function View(): Shelf
      reads this
    {
      Shelf(terms, openedOn, overdraft, closedOn, status, balance, updatedAt, cardIds)
    }

    predicate Valid()
      reads this
    {
      View().Valid()
    }

    predicate Untouched()
      requires Valid()
      reads this
    {
      View().Untouched()
    }

    /** Appends one account as it is on its opening day. */
    method Open(customer: nat, draw: AccountDraw, day: int, createdAt: int)
      modifies this
      ensures View() == old(View()).Opened(customer, draw, day, createdAt)
    {
      terms := terms + [TermsOf(customer, draw)];
      openedOn := openedOn + [day];
      overdraft := overdraft + [LimitOf(draw)];
      closedOn := closedOn + [None];
      status := status + [Active];
      balance := balance + [0];
      updatedAt := updatedAt + [createdAt];
      cardIds := cardIds + [[]];
    }
  }

  function TermsOf(customer: nat, draw: AccountDraw): Terms {
    Terms(customer, draw.productClass, draw.currency, draw.openingBalance, draw.salaryDay, draw.salaryAmount)
  }

  /** Only a current account has an arranged overdraft. */
  function LimitOf(draw: AccountDraw): nat {
    if draw.productClass == "current" then draw.overdraft else 0
  }

  datatype CardRow = CardRow(accountId: nat, issued: int, expiry: int, status: CardStatus, usableUntil: int)

  /** Issued cards: the source's parallel lists, transposed into one row per card id. */
  class CardBook {
    var rows: seq<CardRow>

    constructor ()
      ensures rows == []
    {
      rows := [];
    }
  }

  /** What the generator draws for one account; a raw number stands for a draw from any range. */
  datatype AccountDraw = AccountDraw(
    delay: nat, productClass: string, currency: string, overdraft: nat, openingBalance: nat, createdSecond: nat,
    salaryDay: nat, salaryAmount: nat, joint: bool, other: nat, signatory: bool, share: nat,
    hasCard: bool, issueDelay: nat, cardStatus: CardStatus, blockedAfter: nat)

  /** A card's dates agree with each other and with its account's opening. */
  ghost predicate CardSound(card: CardRow, openedOn: seq<int>, anchorDay: int) {
    && 1 <= card.accountId <= |openedOn|
    && openedOn[card.accountId - 1] <= card.issued <= anchorDay
    && card.issued < openedOn[card.accountId - 1] + 10
    && card.usableUntil <= card.expiry
    && (card.status == Usable ==> card.usableUntil == card.expiry > anchorDay)
    && (card.status == Blocked || card.status == Cancelled ==> card.usableUntil <= anchorDay)
  }

  ghost predicate EveryCardListed(cardIds: seq<seq<nat>>, cards: seq<CardRow>) {
    forall c :: 0 <= c < |cards| ==> 1 <= cards[c].accountId <= |cardIds| && c + 1 in cardIds[cards[c].accountId - 1]
  }

  predicate Owned(ids: seq<nat>, cards: seq<CardRow>, account: nat) {
    forall k :: 0 <= k < |ids| ==> 1 <= ids[k] <= |cards| && cards[ids[k] - 1].accountId == account
  }

  ghost predicate OnlyOwnListed(cardIds: seq<seq<nat>>, cards: seq<CardRow>) {
    forall a :: 0 <= a < |cardIds| ==> Owned(cardIds[a], cards, a + 1)
  }

  ghost predicate AllCardsSound(openedOn: seq<int>, cards: seq<CardRow>, anchorDay: int) {
    forall c :: 0 <= c < |cards| ==> CardSound(cards[c], openedOn, anchorDay)
  }

  /** Every card is sound, and an account lists exactly its own cards. */
  ghost predicate CardsSound(openedOn: seq<int>, cardIds: seq<seq<nat>>, cards: seq<CardRow>, anchorDay: int) {
    && |cardIds| == |openedOn| && AllCardsSound(openedOn, cards, anchorDay)
    && OnlyOwnListed(cardIds, cards) && EveryCardListed(cardIds, cards)
  }

  function WeightIn(account: nat): HolderRow -> int {
    (row: HolderRow) => if row.accountId == account then row.weight.GetOr(0) else 0
  }

  function PrimaryIn(account: nat): HolderRow -> int {
    (row: HolderRow) => if row.accountId == account && row.role == Primary then 1 else 0
  }

  /** Every account's weights sum to exactly one, and it has exactly one primary holder. */
  ghost predicate HoldersSound(holders: seq<HolderRow>, accounts: nat) {
    && (forall i :: 0 <= i < |holders| ==> 1 <= holders[i].accountId <= accounts && holders[i].holderId == i + 1)
    && (forall a :: 1 <= a <= accounts ==> Sum(holders, WeightIn(a)) == WHOLE && Sum(holders, PrimaryIn(a)) == 1)
  }

  /** The secondary holder an account is given, when the draw makes one. */
  function Secondary(draw: AccountDraw, customer: nat, customers: nat): (s: Option<(nat, Option<int>)>)
    requires customers > 0
    ensures s.Some? && s.value.1.Some? ==> 20_000_000 <= s.value.1.value <= 50_000_000
    ensures s.Some? ==> 1 <= s.value.0 <= customers && s.value.0 != customer
  {
    var other := 1 + draw.other % customers;
    if !draw.joint || customers == 1 || other == customer then None
    else if draw.signatory then Some((other, None))
    else Some((other, Some((20 + draw.share % 31) * 1_000_000)))
  }

  /** An account has a second holder exactly when one is drawn and is not the first; a signatory has no part, any other
      the drawn percentage. */
  lemma {:induction false} SecondHolderExactly(draw: AccountDraw, customer: nat, customers: nat)
    requires 1 <= customer <= customers
    ensures var second, other := Secondary(draw, customer, customers), 1 + draw.other % customers;
            && (second.Some? <==> draw.joint && other != customer)
            && (second.Some? ==> second.value.0 == other && (second.value.1.None? <==> draw.signatory))
            && (second.Some? && !draw.signatory ==>
                  second.value.1 == Some(20_000_000 + draw.share % 31 * 1_000_000))
  {
  }

  /** The rows of one account: the primary takes whatever the others leave. */
  function HolderRows(
    firstId: nat, account: nat, customer: nat, secondary: Option<(nat, Option<int>)>): (rows: seq<HolderRow>)
    ensures rows != [] && rows[0].role == Primary && rows[0].customerId == customer
    ensures forall i :: 0 <= i < |rows| ==> rows[i].accountId == account && rows[i].holderId == firstId + i
  {
    if secondary.None? then [HolderRow(firstId, account, customer, Primary, Some(WHOLE))]
    else
      var (otherId, weight) := secondary.value;
      [HolderRow(firstId, account, customer, Primary, Some(WHOLE - weight.GetOr(0))),
       HolderRow(firstId + 1, account, otherId, if weight == None then Signatory else Joint, weight)]
  }

  /** The second row is the second holder's, joint if it has a part and a signatory's if not. */
  lemma {:induction false} SecondRowIsTheSecondHolder(
    firstId: nat, account: nat, customer: nat, secondary: Option<(nat, Option<int>)>)
    ensures var rows := HolderRows(firstId, account, customer, secondary);
            && |rows| == (if secondary.Some? then 2 else 1)
            && (secondary.Some? ==>
                  && rows[1].customerId == secondary.value.0 && rows[1].weight == secondary.value.1
                  && rows[1].role == if secondary.value.1.Some? then Joint else Signatory)
  {
  }

  /** They add up for their own account and touch no other. */
  lemma {:induction false} HolderRowsAddUp(
    firstId: nat, account: nat, customer: nat, secondary: Option<(nat, Option<int>)>, a: nat)
    ensures Sum(HolderRows(firstId, account, customer, secondary), WeightIn(a)) == if a == account then WHOLE else 0
    ensures Sum(HolderRows(firstId, account, customer, secondary), PrimaryIn(a)) == if a == account then 1 else 0
  {
    var rows := HolderRows(firstId, account, customer, secondary);
    assert [rows[0]] == [] + [rows[0]];
    SumAppend([], rows[0], WeightIn(a));
    SumAppend([], rows[0], PrimaryIn(a));
    if secondary.Some? {
      assert rows == [rows[0]] + [rows[1]];
      SumAppend([rows[0]], rows[1], WeightIn(a));
      SumAppend([rows[0]], rows[1], PrimaryIn(a));
    }
  }

  /** Writes the holders of the next account. */
  method AddHolders(holders: seq<HolderRow>, account: nat, customer: nat, customers: nat, draw: AccountDraw)
    returns (out: seq<HolderRow>)
    requires customers > 0 && account >= 1 && HoldersSound(holders, account - 1)
    ensures HoldersSound(out, account)
    ensures out == holders + HolderRows(|holders| + 1, account, customer, Secondary(draw, customer, customers))
  {
    var secondary := Secondary(draw, customer, customers);
    var taken := if secondary.Some? then secondary.value.1.GetOr(0) else 0;
    out := holders + [HolderRow(|holders| + 1, account, customer, Primary, Some(WHOLE - taken))];
    if secondary.Some? {
      var (otherId, weight) := secondary.value;
      out := out + [HolderRow(|holders| + 2, account, otherId, if weight == None then Signatory else Joint, weight)];
    }
    HoldersKeepSound(holders, account, customer, secondary);
    assert out == holders + HolderRows(|holders| + 1, account, customer, secondary);
  }

  lemma {:induction false} HoldersKeepSound(
    holders: seq<HolderRow>, account: nat, customer: nat, secondary: Option<(nat, Option<int>)>)
    requires account >= 1 && HoldersSound(holders, account - 1)
    ensures HoldersSound(holders + HolderRows(|holders| + 1, account, customer, secondary), account)
  {
    var rows := HolderRows(|holders| + 1, account, customer, secondary);
    var out := holders + rows;
    forall i | 0 <= i < |out| ensures 1 <= out[i].accountId <= account && out[i].holderId == i + 1 {
      if i >= |holders| {
        assert out[i] == rows[i - |holders|];
      }
    }
    forall a | 1 <= a <= account ensures Sum(out, WeightIn(a)) == WHOLE && Sum(out, PrimaryIn(a)) == 1 {
      HolderRowsAddUp(|holders| + 1, account, customer, secondary, a);
      SumConcat(holders, rows, WeightIn(a));
      SumConcat(holders, rows, PrimaryIn(a));
      if a == account {
        SumZero(holders, WeightIn(a));
        SumZero(holders, PrimaryIn(a));
      }
    }
  }

  /** The day a card stops authorising: its expiry, or an earlier block. */
  function UsableUntil(issued: int, expiry: int, state: CardStatus, blockedAfter: nat, anchorDay: int): (day: int)
    requires issued <= anchorDay
    ensures day <= expiry
    ensures state == Blocked || state == Cancelled ==> day <= anchorDay
    ensures state == Usable || state == Expired ==> day == expiry
  {
    if state == Usable || state == Expired then expiry
    else
      var span := anchorDay - issued;
      var drawn := if span > 0 then issued + 1 + blockedAfter % span else issued;
      if drawn < expiry then drawn else expiry
  }

  /** The card the newest account is given, unless it would be issued past the anchor.
      `expiryOf` is the expiry printed on a card issued on a day. */
  function CardFor(
    account: nat, openDay: int, draw: AccountDraw, anchorDay: int, expiryOf: int -> int): Option<CardRow> {
    var issued := openDay + draw.issueDelay % 10;
    if !draw.hasCard || issued > anchorDay then None
    else
      var expiry := expiryOf(issued);
      var state := if expiry <= anchorDay && draw.cardStatus == Usable then Expired else draw.cardStatus;
      Some(CardRow(account, issued, expiry, state, UsableUntil(issued, expiry, state, draw.blockedAfter, anchorDay)))
  }

  /** An account is issued a card exactly when one is drawn and its day is not past the anchor. A card not stopped
      counts as expired once its expiry is not past the anchor; it works until it expires, or until it is stopped on a
      drawn day after it was issued. */
  lemma {:induction false} CardIsIssuedExactly(
    account: nat, openDay: int, draw: AccountDraw, anchorDay: int, expiryOf: int -> int)
    ensures var card, issued := CardFor(account, openDay, draw, anchorDay, expiryOf), openDay + draw.issueDelay % 10;
            && (card.Some? <==> draw.hasCard && issued <= anchorDay)
            && (card.Some? ==>
                  && card.value.accountId == account && card.value.issued == issued
                  && card.value.expiry == expiryOf(issued)
                  && (card.value.status == Expired <==>
                        draw.cardStatus == Expired || (draw.cardStatus == Usable && expiryOf(issued) <= anchorDay))
                  && (card.value.status != Expired ==> card.value.status == draw.cardStatus)
                  && (draw.cardStatus == Usable || draw.cardStatus == Expired ==>
                        card.value.usableUntil == card.value.expiry)
                  && (draw.cardStatus == Blocked || draw.cardStatus == Cancelled ==>
                        StoppedOn(card.value, issued, anchorDay, draw.blockedAfter)))
  {
  }

  /** A card that is stopped, on a drawn day from the one after its issue up to the anchor, unless it expires first. */
  predicate StoppedOn(card: CardRow, issued: int, anchorDay: int, blockedAfter: nat)
    requires issued <= anchorDay
  {
    var stop := if issued == anchorDay then issued else issued + 1 + blockedAfter % (anchorDay - issued);
    card.usableUntil == if card.expiry <= stop then card.expiry else stop
  }

  lemma {:induction false} CardForIsSound(
    openedOn: seq<int>, day: int, draw: AccountDraw, anchorDay: int, expiryOf: int -> int)
    requires openedOn != [] && day == openedOn[|openedOn| - 1]
    ensures var card := CardFor(|openedOn|, day, draw, anchorDay, expiryOf);
            card.Some? ==> card.value.accountId == |openedOn| && CardSound(card.value, openedOn, anchorDay)
  {
  }

  lemma {:induction false} OpeningKeepsCards(
    openedOn: seq<int>, cardIds: seq<seq<nat>>, cards: seq<CardRow>, anchorDay: int, day: int)
    requires CardsSound(openedOn, cardIds, cards, anchorDay)
    ensures CardsSound(openedOn + [day], cardIds + [[]], cards, anchorDay)
  {
    OpeningKeepsDates(openedOn, cards, anchorDay, day);
    OpeningKeepsLists(cardIds, cards);
  }

  lemma {:induction false} OpeningKeepsDates(openedOn: seq<int>, cards: seq<CardRow>, anchorDay: int, day: int)
    requires AllCardsSound(openedOn, cards, anchorDay)
    ensures AllCardsSound(openedOn + [day], cards, anchorDay)
  {
    forall c | 0 <= c < |cards| ensures CardSound(cards[c], openedOn + [day], anchorDay) {
      assert CardSound(cards[c], openedOn, anchorDay);
    }
  }

  lemma {:induction false} OpeningKeepsLists(cardIds: seq<seq<nat>>, cards: seq<CardRow>)
    requires OnlyOwnListed(cardIds, cards) && EveryCardListed(cardIds, cards)
    ensures OnlyOwnListed(cardIds + [[]], cards) && EveryCardListed(cardIds + [[]], cards)
  {
    var none: seq<nat> := [];
    var longer := cardIds + [none];
    forall a | 0 <= a < |longer| ensures Owned(longer[a], cards, a + 1) {
      assert a < |cardIds| ==> longer[a] == cardIds[a] && Owned(cardIds[a], cards, a + 1);
    }
    forall c | 0 <= c < |cards| ensures c + 1 in longer[cards[c].accountId - 1] {
      assert longer[cards[c].accountId - 1] == cardIds[cards[c].accountId - 1];
    }
  }

  function Listed(cardIds: seq<seq<nat>>, id: nat): seq<seq<nat>>
    requires cardIds != []
  {
    cardIds[|cardIds| - 1 := cardIds[|cardIds| - 1] + [id]]
  }

  lemma {:induction false} IssueKeepsListed(cardIds: seq<seq<nat>>, cards: seq<CardRow>, card: CardRow)
    requires cardIds != [] && EveryCardListed(cardIds, cards) && card.accountId == |cardIds|
    ensures EveryCardListed(Listed(cardIds, |cards| + 1), cards + [card])
  {
    var listed := Listed(cardIds, |cards| + 1);
    assert listed[|cardIds| - 1][|cardIds[|cardIds| - 1]|] == |cards| + 1;
    forall c | 0 <= c < |cards| ensures c + 1 in listed[cards[c].accountId - 1] {
      assert c + 1 in cardIds[cards[c].accountId - 1];
    }
  }

  lemma {:induction false} IssueKeepsCards(
    openedOn: seq<int>, cardIds: seq<seq<nat>>, cards: seq<CardRow>, anchorDay: int, card: CardRow)
    requires CardsSound(openedOn, cardIds, cards, anchorDay) && openedOn != []
    requires CardSound(card, openedOn, anchorDay) && card.accountId == |openedOn|
    ensures CardsSound(openedOn, Listed(cardIds, |cards| + 1), cards + [card], anchorDay)
  {
    IssueKeepsListed(cardIds, cards, card);
    IssueKeepsOwned(cardIds, cards, card);
  }

  lemma {:induction false} IssueKeepsOwned(cardIds: seq<seq<nat>>, cards: seq<CardRow>, card: CardRow)
    requires cardIds != [] && OnlyOwnListed(cardIds, cards) && card.accountId == |cardIds|
    ensures OnlyOwnListed(Listed(cardIds, |cards| + 1), cards + [card])
  {
    var listed := Listed(cardIds, |cards| + 1);
    forall a | 0 <= a < |listed| ensures Owned(listed[a], cards + [card], a + 1) {
      assert Owned(cardIds[a], cards, a + 1);
    }
  }

  ghost predicate DaysWithin(openedOn: seq<int>, anchorDay: int) {
    forall i :: 0 <= i < |openedOn| ==> 1 <= openedOn[i] <= anchorDay
  }

  ghost predicate ShelfSound(book: Shelf, cards: seq<CardRow>, anchorDay: int) {
    && book.Valid() && book.Untouched() && CardsSound(book.openedOn, book.cardIds, cards, anchorDay)
    && DaysWithin(book.openedOn, anchorDay)
  }

  /** The book the movement pass may start from: open, unmoved, with sound cards and holders. */
  ghost predicate BookSound(book: Shelf, cards: seq<CardRow>, holders: seq<HolderRow>, anchorDay: int) {
    ShelfSound(book, cards, anchorDay) && HoldersSound(holders, |book.openedOn|)
  }

  /** One account that is to be opened: whose, when, and everything drawn for it. */
  datatype Opening = Opening(customer: nat, day: int, draw: AccountDraw)

  /** The first account opens on the signup day, any other two weeks or more after it. */
  function OpeningDay(signup: int, ordinal: nat, draw: AccountDraw): (day: int)
    ensures day >= signup && (ordinal > 0 ==> signup + 14 <= day < signup + 900)
  {
    signup + if ordinal == 0 then 0 else 14 + draw.delay % 886
  }

  /** A customer's first `n` accounts, leaving out any that would open past the anchor. */
  function OwnOpenings(
    customer: nat, signup: int, n: nat, draws: (nat, nat) -> AccountDraw, anchorDay: int): (o: seq<Opening>)
    ensures forall i :: 0 <= i < |o| ==> signup <= o[i].day <= anchorDay && o[i].customer == customer
  {
    if n == 0 then []
    else
      var draw := draws(customer, n - 1);
      var day := OpeningDay(signup, n - 1, draw);
      OwnOpenings(customer, signup, n - 1, draws, anchorDay)
        + if day <= anchorDay then [Opening(customer, day, draw)] else []
  }

  /** Any day from two weeks after the signup can be drawn for a further account. */
  lemma {:induction false} AnyOpeningDayCanBeDrawn(signup: int, ordinal: nat, draw: AccountDraw, day: int)
    requires ordinal > 0 && signup + 14 <= day < signup + 900
    ensures OpeningDay(signup, ordinal, draw.(delay := day - signup - 14)) == day
  {
  }

  /** A customer's accounts are those drawn that open by the anchor: the first on the signup day, any other on its drawn
      day. */
  lemma {:induction false} AccountsOpenByTheAnchor(
    customer: nat, signup: int, n: nat, draws: (nat, nat) -> AccountDraw, anchorDay: int, o: Opening)
    ensures o in OwnOpenings(customer, signup, n, draws, anchorDay)
            <==> exists k :: 0 <= k < n && o == Opening(customer, o.day, draws(customer, k)) && o.day <= anchorDay
                             && o.day == if k == 0 then signup else signup + 14 + draws(customer, k).delay % 886
  {
    if n > 0 {
      AccountsOpenByTheAnchor(customer, signup, n - 1, draws, anchorDay, o);
      var before, all := OwnOpenings(customer, signup, n - 1, draws, anchorDay),
                         OwnOpenings(customer, signup, n, draws, anchorDay);
      var day := OpeningDay(signup, n - 1, draws(customer, n - 1));
      assert all == before + if day <= anchorDay then [Opening(customer, day, draws(customer, n - 1))] else [];
    }
  }

  /** The accounts of every customer, customer by customer. */
  function Openings(
    signup: seq<int>, counts: nat -> nat, draws: (nat, nat) -> AccountDraw, anchorDay: int): seq<Opening> {
    if signup == [] then []
    else
      var n := |signup|;
      Openings(signup[..n - 1], counts, draws, anchorDay) + OwnOpenings(n, signup[n - 1], counts(n), draws, anchorDay)
  }

  /** The cards the accounts are issued, in account order. */
  function IssuedCards(openings: seq<Opening>, anchorDay: int, expiryOf: int -> int): seq<CardRow> {
    if openings == [] then []
    else
      var n, last := |openings|, openings[|openings| - 1];
      var card := CardFor(n, last.day, last.draw, anchorDay, expiryOf);
      IssuedCards(openings[..n - 1], anchorDay, expiryOf) + if card.Some? then [card.value] else []
  }

  /** The holders the accounts are given, in account order. */
  function DrawnHolders(openings: seq<Opening>, customers: nat): seq<HolderRow> {
    if openings == [] || customers == 0 then []
    else
      var n, last := |openings|, openings[|openings| - 1];
      var before := DrawnHolders(openings[..n - 1], customers);
      before + HolderRows(|before| + 1, n, last.customer, Secondary(last.draw, last.customer, customers))
  }

  lemma {:induction false} HoldersNext(openings: seq<Opening>, o: Opening, customers: nat)
    requires customers > 0
    ensures var before := DrawnHolders(openings, customers);
            DrawnHolders(openings + [o], customers)
            == before + HolderRows(|before| + 1, |openings| + 1, o.customer, Secondary(o.draw, o.customer, customers))
  {
    assert (openings + [o])[..|openings|] == openings;
  }

  /** The cards each account lists: the one it is issued, if any. */
  function CardLists(openings: seq<Opening>, anchorDay: int, expiryOf: int -> int): (lists: seq<seq<nat>>)
    ensures |lists| == |openings|
  {
    if openings == [] then []
    else
      var n, last := |openings|, openings[|openings| - 1];
      CardLists(openings[..n - 1], anchorDay, expiryOf)
      + [if CardFor(n, last.day, last.draw, anchorDay, expiryOf).Some?
         then [|IssuedCards(openings, anchorDay, expiryOf)|] else []]
  }

  lemma {:induction false} ListsNext(openings: seq<Opening>, o: Opening, anchorDay: int, expiryOf: int -> int)
    ensures var card := CardFor(|openings| + 1, o.day, o.draw, anchorDay, expiryOf);
            CardLists(openings + [o], anchorDay, expiryOf)
            == CardLists(openings, anchorDay, expiryOf)
               + [if card.Some? then [|IssuedCards(openings, anchorDay, expiryOf)| + 1] else []]
  {
    assert (openings + [o])[..|openings|] == openings;
    IssuedNext(openings, o, anchorDay, expiryOf);
  }

  lemma {:induction false} IssuedNext(openings: seq<Opening>, o: Opening, anchorDay: int, expiryOf: int -> int)
    ensures var card := CardFor(|openings| + 1, o.day, o.draw, anchorDay, expiryOf);
            IssuedCards(openings + [o], anchorDay, expiryOf)
            == IssuedCards(openings, anchorDay, expiryOf) + if card.Some? then [card.value] else []
  {
    assert (openings + [o])[..|openings|] == openings;
  }

  /** Exactly these accounts, each with its drawn terms and limit. */
  ghost predicate OpenedAs(terms: seq<Terms>, openedOn: seq<int>, overdraft: seq<nat>, openings: seq<Opening>) {
    && |openings| == |openedOn| == |terms| == |overdraft|
    && forall i :: 0 <= i < |openings| ==>
         && openedOn[i] == openings[i].day && overdraft[i] == LimitOf(openings[i].draw)
         && terms[i] == TermsOf(openings[i].customer, openings[i].draw)
  }

  lemma {:induction false} OpenedNext(
    terms: seq<Terms>, openedOn: seq<int>, overdraft: seq<nat>, openings: seq<Opening>, o: Opening)
    requires OpenedAs(terms, openedOn, overdraft, openings)
    ensures OpenedAs(terms + [TermsOf(o.customer, o.draw)], openedOn + [o.day], overdraft + [LimitOf(o.draw)],
                     openings + [o])
  {
  }

  /** Each account is as it was drawn, and only a current account has an arranged overdraft. */
  lemma {:induction false} AccountsAreAsDrawn(
    terms: seq<Terms>, openedOn: seq<int>, overdraft: seq<nat>, openings: seq<Opening>, i: nat)
    requires OpenedAs(terms, openedOn, overdraft, openings) && i < |openings|
    ensures var o, t := openings[i], terms[i];
            && openedOn[i] == o.day && t.customerId == o.customer && t.productClass == o.draw.productClass
            && t.currency == o.draw.currency && t.openingBalance == o.draw.openingBalance
            && t.salaryDay == o.draw.salaryDay && t.salaryAmount == o.draw.salaryAmount
            && (t.productClass == "current" ==> overdraft[i] == o.draw.overdraft)
            && (t.productClass != "current" ==> overdraft[i] == 0)
  {
  }

  /** The newest account with the card it is given. */
  function CardedShelf(book: Shelf, card: Option<CardRow>, id: nat): Shelf
    requires book.cardIds != []
  {
    if card.Some? then book.(cardIds := Listed(book.cardIds, id)) else book
  }

  function MoreCards(cards: seq<CardRow>, card: Option<CardRow>): seq<CardRow> {
    if card.Some? then cards + [card.value] else cards
  }

  /** Gives the newest account its card, unless it has none. */
  method IssueCard(
    accounts: AccountBook, cards: CardBook, anchorDay: int, expiryOf: int -> int, day: int, draw: AccountDraw)
    requires accounts.Valid() && accounts.openedOn != [] && day <= anchorDay
    modifies accounts`cardIds, cards
    ensures var card := CardFor(|accounts.openedOn|, day, draw, anchorDay, expiryOf);
            && cards.rows == MoreCards(old(cards.rows), card)
            && accounts.View() == CardedShelf(old(accounts.View()), card, |old(cards.rows)| + 1)
  {
    var card := CardFor(|accounts.openedOn|, day, draw, anchorDay, expiryOf);
    if card.Some? {
      cards.rows := cards.rows + [card.value];
      accounts.cardIds := Listed(accounts.cardIds, |cards.rows|);
    }
  }

  /** What has been built so far is sound, and is exactly what was to be opened, held and issued. */
  ghost predicate BuiltAs(
    book: Shelf, cards: seq<CardRow>, holders: seq<HolderRow>, customers: nat, anchorDay: int, expiryOf: int -> int,
    openings: seq<Opening>)
  {
    && BookSound(book, cards, holders, anchorDay) && OpenedAs(book.terms, book.openedOn, book.overdraft, openings)
    && IssuedAs(book.cardIds, cards, anchorDay, expiryOf, openings) && holders == DrawnHolders(openings, customers)
  }

  /** Exactly the cards the accounts are issued, each listed by its own account. */
  predicate IssuedAs(
    cardIds: seq<seq<nat>>, cards: seq<CardRow>, anchorDay: int, expiryOf: int -> int, openings: seq<Opening>)
  {
    cards == IssuedCards(openings, anchorDay, expiryOf) && cardIds == CardLists(openings, anchorDay, expiryOf)
  }

  lemma {:induction false} IssuedAsNext(
    book: Shelf, cards: seq<CardRow>, anchorDay: int, expiryOf: int -> int, openings: seq<Opening>, o: Opening,
    card: Option<CardRow>)
    requires IssuedAs(book.cardIds, cards, anchorDay, expiryOf, openings)
    requires card == CardFor(|openings| + 1, o.day, o.draw, anchorDay, expiryOf)
    ensures IssuedAs(CardedShelf(book.(cardIds := book.cardIds + [[]]), card, |cards| + 1).cardIds,
                     MoreCards(cards, card),
                     anchorDay, expiryOf, openings + [o])
  {
    IssuedNext(openings, o, anchorDay, expiryOf);
    ListsNext(openings, o, anchorDay, expiryOf);
    var none: seq<nat> := [];
    assert none + [|cards| + 1] == [|cards| + 1];
    assert Listed(book.cardIds + [none], |cards| + 1) == book.cardIds + [[|cards| + 1]];
    assert MoreCards(cards, card) == cards + if card.Some? then [card.value] else [];
  }

  /** A new account and its card keep every card sound and listed by its own account. */
  lemma {:induction false} CardsStaySound(
    book: Shelf, cards: seq<CardRow>, anchorDay: int, expiryOf: int -> int, customer: nat, day: int, draw: AccountDraw,
    createdAt: int)
    requires book.Valid() && CardsSound(book.openedOn, book.cardIds, cards, anchorDay)
    ensures var grown := book.Opened(customer, draw, day, createdAt);
            var card := CardFor(|grown.openedOn|, day, draw, anchorDay, expiryOf);
            CardsSound(grown.openedOn, CardedShelf(grown, card, |cards| + 1).cardIds, MoreCards(cards, card), anchorDay)
  {
    var grown := book.Opened(customer, draw, day, createdAt);
    var card := CardFor(|grown.openedOn|, day, draw, anchorDay, expiryOf);
    OpeningKeepsCards(book.openedOn, book.cardIds, cards, anchorDay, day);
    CardForIsSound(grown.openedOn, day, draw, anchorDay, expiryOf);
    if card.Some? {
      IssueKeepsCards(grown.openedOn, grown.cardIds, cards, anchorDay, card.value);
    }
  }

  lemma {:induction false} OpeningStaysUntouched(
    book: Shelf, customer: nat, draw: AccountDraw, day: int, createdAt: int)
    requires book.Valid() && book.Untouched()
    ensures book.Opened(customer, draw, day, createdAt).Valid()
            && book.Opened(customer, draw, day, createdAt).Untouched()
  {
  }

  lemma {:induction false} CardStaysUntouched(book: Shelf, card: Option<CardRow>, id: nat)
    requires book.Valid() && book.Untouched() && book.cardIds != []
    ensures CardedShelf(book, card, id).Valid() && CardedShelf(book, card, id).Untouched()
            && CardedShelf(book, card, id).openedOn == book.openedOn
  {
  }

  lemma {:induction false} DayStaysWithin(openedOn: seq<int>, day: int, anchorDay: int)
    requires DaysWithin(openedOn, anchorDay) && 1 <= day <= anchorDay
    ensures DaysWithin(openedOn + [day], anchorDay)
  {
  }

  lemma {:induction false} ShelfStaysSound(
    book: Shelf, cards: seq<CardRow>, anchorDay: int, expiryOf: int -> int, customer: nat, day: int,
    draw: AccountDraw, createdAt: int)
    requires ShelfSound(book, cards, anchorDay) && 1 <= day <= anchorDay
    ensures var grown := book.Opened(customer, draw, day, createdAt);
            var card := CardFor(|grown.openedOn|, day, draw, anchorDay, expiryOf);
            && ShelfSound(CardedShelf(grown, card, |cards| + 1), MoreCards(cards, card), anchorDay)
            && CardedShelf(grown, card, |cards| + 1).openedOn == grown.openedOn
  {
    var grown := book.Opened(customer, draw, day, createdAt);
    var card := CardFor(|grown.openedOn|, day, draw, anchorDay, expiryOf);
    OpeningStaysUntouched(book, customer, draw, day, createdAt);
    CardStaysUntouched(grown, card, |cards| + 1);
    CardsStaySound(book, cards, anchorDay, expiryOf, customer, day, draw, createdAt);
    DayStaysWithin(book.openedOn, day, anchorDay);
  }

  lemma {:induction false} BookStaysSound(
    book: Shelf, cards: seq<CardRow>, holders: seq<HolderRow>, anchorDay: int, expiryOf: int -> int, customer: nat,
    customers: nat, day: int, draw: AccountDraw, createdAt: int)
    requires BookSound(book, cards, holders, anchorDay) && 1 <= day <= anchorDay && customers > 0
    ensures var grown := book.Opened(customer, draw, day, createdAt);
            var card := CardFor(|grown.openedOn|, day, draw, anchorDay, expiryOf);
            BookSound(CardedShelf(grown, card, |cards| + 1), MoreCards(cards, card),
                      holders
                        + HolderRows(|holders| + 1, |grown.openedOn|, customer, Secondary(draw, customer, customers)),
                      anchorDay)
  {
    ShelfStaysSound(book, cards, anchorDay, expiryOf, customer, day, draw, createdAt);
    HoldersKeepSound(holders, |book.openedOn| + 1, customer, Secondary(draw, customer, customers));
  }

  /** One more account, with its holders and perhaps a card, keeps the book sound and what was to be built. */
  lemma {:induction false} BuiltNext(
    book: Shelf, cards: seq<CardRow>, holders: seq<HolderRow>, anchorDay: int, expiryOf: int -> int,
    openings: seq<Opening>, customer: nat, customers: nat, day: int, draw: AccountDraw, createdAt: int)
    requires BuiltAs(book, cards, holders, customers, anchorDay, expiryOf, openings)
    requires 1 <= day <= anchorDay && customers > 0
    ensures var grown := book.Opened(customer, draw, day, createdAt);
            var card := CardFor(|grown.openedOn|, day, draw, anchorDay, expiryOf);
            BuiltAs(CardedShelf(grown, card, |cards| + 1), MoreCards(cards, card),
                    holders
                      + HolderRows(|holders| + 1, |grown.openedOn|, customer, Secondary(draw, customer, customers)),
                    customers, anchorDay, expiryOf, openings + [Opening(customer, day, draw)])
  {
    var o, grown := Opening(customer, day, draw), book.Opened(customer, draw, day, createdAt);
    var card := CardFor(|grown.openedOn|, day, draw, anchorDay, expiryOf);
    BookStaysSound(book, cards, holders, anchorDay, expiryOf, customer, customers, day, draw, createdAt);
    OpenedNext(book.terms, book.openedOn, book.overdraft, openings, o);
    IssuedAsNext(book, cards, anchorDay, expiryOf, openings, o, card);
    HoldersNext(openings, o, customers);
  }

  /** Opens one account with its holders and perhaps a card. */
  method OpenAccount(
    accounts: AccountBook, cards: CardBook, holders: seq<HolderRow>, anchorDay: int, expiryOf: int -> int,
    customer: nat, customers: nat, day: int, draw: AccountDraw, ghost openings: seq<Opening>)
    returns (out: seq<HolderRow>)
    requires BuiltAs(accounts.View(), cards.rows, holders, customers, anchorDay, expiryOf, openings)
    requires 1 <= day <= anchorDay && customers > 0
    modifies accounts, cards
    ensures BuiltAs(accounts.View(), cards.rows, out, customers, anchorDay, expiryOf,
                    openings + [Opening(customer, day, draw)])
  {
    var createdAt := day * 86400 + draw.createdSecond % 86400;
    BuiltNext(accounts.View(), cards.rows, holders, anchorDay, expiryOf, openings, customer, customers, day, draw,
              createdAt);
    out := WriteAccount(accounts, cards, holders, anchorDay, expiryOf, customer, customers, day, draw, createdAt);
  }

  /** The rows of one account: itself, its holders, and its card. */
  method WriteAccount(
    accounts: AccountBook, cards: CardBook, holders: seq<HolderRow>, anchorDay: int, expiryOf: int -> int,
    customer: nat, customers: nat, day: int, draw: AccountDraw, createdAt: int)
    returns (out: seq<HolderRow>)
    requires accounts.Valid() && HoldersSound(holders, |accounts.openedOn|) && day <= anchorDay && customers > 0
    modifies accounts, cards
    ensures var grown := old(accounts.View()).Opened(customer, draw, day, createdAt);
            var card := CardFor(|grown.openedOn|, day, draw, anchorDay, expiryOf);
            && accounts.View() == CardedShelf(grown, card, |old(cards.rows)| + 1)
            && cards.rows == MoreCards(old(cards.rows), card)
            && out
              == holders + HolderRows(|holders| + 1, |grown.openedOn|, customer, Secondary(draw, customer, customers))
  {
    accounts.Open(customer, draw, day, createdAt);
    out := AddHolders(holders, |accounts.openedOn|, customer, customers, draw);
    IssueCard(accounts, cards, anchorDay, expiryOf, day, draw);
  }

  /** Opens one customer's accounts; one whose opening day is past the anchor does not exist yet. */
  method OpenCustomer(
    accounts: AccountBook, cards: CardBook, holders: seq<HolderRow>, anchorDay: int, expiryOf: int -> int,
    customer: nat, customers: nat, signup: int, count: nat, draws: (nat, nat) -> AccountDraw,
    ghost earlier: seq<Opening>)
    returns (out: seq<HolderRow>)
    requires BuiltAs(accounts.View(), cards.rows, holders, customers, anchorDay, expiryOf, earlier)
    requires signup >= 1 && customers > 0
    modifies accounts, cards
    ensures BuiltAs(accounts.View(), cards.rows, out, customers, anchorDay, expiryOf,
                    earlier + OwnOpenings(customer, signup, count, draws, anchorDay))
  {
    out := holders;
    ghost var built := earlier;
    for ordinal := 0 to count
      invariant BuiltAs(accounts.View(), cards.rows, out, customers, anchorDay, expiryOf, built)
      invariant built == earlier + OwnOpenings(customer, signup, ordinal, draws, anchorDay)
    {
      NextOwn(earlier, customer, signup, ordinal, draws, anchorDay);
      out := OpenOrdinal(accounts, cards, out, anchorDay, expiryOf, customer, customers, signup, ordinal, draws, built);
      built := earlier + OwnOpenings(customer, signup, ordinal + 1, draws, anchorDay);
    }
  }

  method OpenOrdinal(
    accounts: AccountBook, cards: CardBook, holders: seq<HolderRow>, anchorDay: int, expiryOf: int -> int,
    customer: nat, customers: nat, signup: int, ordinal: nat, draws: (nat, nat) -> AccountDraw,
    ghost built: seq<Opening>)
    returns (out: seq<HolderRow>)
    requires BuiltAs(accounts.View(), cards.rows, holders, customers, anchorDay, expiryOf, built)
    requires signup >= 1 && customers > 0
    modifies accounts, cards
    ensures var day := OpeningDay(signup, ordinal, draws(customer, ordinal));
            BuiltAs(accounts.View(), cards.rows, out, customers, anchorDay, expiryOf,
                    if day <= anchorDay then built + [Opening(customer, day, draws(customer, ordinal))] else built)
  {
    var draw := draws(customer, ordinal);
    var day := OpeningDay(signup, ordinal, draw);
    out := holders;
    if day <= anchorDay {
      out := OpenAccount(accounts, cards, holders, anchorDay, expiryOf, customer, customers, day, draw, built);
    }
  }

  lemma {:induction false} NextOwn(
    earlier: seq<Opening>, customer: nat, signup: int, n: nat, draws: (nat, nat) -> AccountDraw, anchorDay: int)
    ensures var draw := draws(customer, n);
            var day := OpeningDay(signup, n, draw);
            var soFar := earlier + OwnOpenings(customer, signup, n, draws, anchorDay);
            earlier + OwnOpenings(customer, signup, n + 1, draws, anchorDay)
            == if day <= anchorDay then soFar + [Opening(customer, day, draw)] else soFar
  {
  }

  lemma {:induction false} OpeningsNext(
    signup: seq<int>, n: nat, counts: nat -> nat, draws: (nat, nat) -> AccountDraw, anchorDay: int)
    requires 1 <= n <= |signup|
    ensures Openings(signup[..n], counts, draws, anchorDay)
         == Openings(signup[..n - 1], counts, draws, anchorDay)
            + OwnOpenings(n, signup[n - 1], counts(n), draws, anchorDay)
  {
    assert signup[..n][..n - 1] == signup[..n - 1];
  }

  /** Opens every customer's accounts, customer by customer. */
  method Generate(
    anchorDay: int, expiryOf: int -> int, signup: seq<int>, counts: nat -> nat, draws: (nat, nat) -> AccountDraw)
    returns (accounts: AccountBook, cards: CardBook, holders: seq<HolderRow>)
    requires forall i :: 0 <= i < |signup| ==> signup[i] >= 1
    ensures fresh(accounts) && fresh(cards)
    ensures BuiltAs(accounts.View(), cards.rows, holders, |signup|, anchorDay, expiryOf,
                    Openings(signup, counts, draws, anchorDay))
  {
    accounts := new AccountBook();
    cards := new CardBook();
    holders := [];
    for customer := 1 to |signup| + 1
      invariant fresh(accounts) && fresh(cards)
      invariant BuiltAs(accounts.View(), cards.rows, holders, |signup|, anchorDay, expiryOf,
                        Openings(signup[..customer - 1], counts, draws, anchorDay))
    {
      OpeningsNext(signup, customer, counts, draws, anchorDay);
      holders := OpenCustomer(accounts, cards, holders, anchorDay, expiryOf, customer, |signup|, signup[customer - 1],
                              counts(customer), draws, Openings(signup[..customer - 1], counts, draws, anchorDay));
    }
    assert signup[..|signup|] == signup;
  }
}
