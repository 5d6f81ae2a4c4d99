# What a generated bank keeps true

The repository generates a synthetic bank, keeps it changing day by day, and carries it into a lake-house. This
project models the parts of it that decide whether the result can be trusted, and proves what they keep true for
every input, every draw and every point at which a process can be killed.

- **The generation run** (`People`, `Deposits`, `Lending`, `Funnel`, `Activity`, `Sections`, `Shapes`, `Months`,
  `Plan`, `Movements`, `OpeningDeposits`, `Dormancy`, `Emission`, `Ledger`, `Books`, `Verdicts`, `LoansAccount`,
  `Pipeline`, over `Calendar`, `Years` and `Sorting`). Months
  outside, accounts inside: attrition is decided first, each account draws its month, loan cash flows join by a
  cursor, the month is sorted and folded into balances, rows and a double-entry ledger. Every random draw is an
  arbitrary value, every amount a whole number of minor units. The classes and their parallel lists are the source's
  own. `Plan` says as a function of the draws who is active, what becomes of each account and the one sequence of
  events that goes out, and the loop is proved to do exactly that; each emitting method is proved to leave exactly the
  state a specification function gives, and the invariants the repository checks by query are proved of that function
  over any sequence of events. What those functions decide is told again from the draws alone: which debits are refused
  (`Verdicts`), which draws become movements (`Sections`), who sleeps and wakes (`Dormancy`), which applications become
  loans and what is paid back (`Funnel`). `Pipeline` puts the passes together: the draws determine the whole book, and
  that book is sound.
- **The backfill** (`Registry`, `Stack`, `Backfill`). The loop is written step for step over a world in which runs
  progress and end in their own time, every call can raise, and the process can be killed before or after any effect.
  The world keeps a log of what each invocation did, with what the registry held for the day and which runs were going
  at that moment; safety is a property of that log, and progress is proved over a world that nothing disturbs.
- **The loader** (`Spool`, `Chunks`, `Constraints`). The CSV the spool writes and a reader for it, the chunker that
  must not split a posting batch, and the journalled drop and restore of foreign keys, statement by statement.
- **Schema drift** (`Drift`, `DriftRuns`, `DriftColumns`). The timeline, the ticks that fire it and the reverts that
  undo it; then what every run keeps, whatever days are ticked or skipped, first over the order in which events come
  due and then column by column.
- **The tick log** (`TickLog`), **versioned contracts and bronze columns** (`Contracts`, `Bronze`), **the identifier
  scan** (`Scan`) and **settlement totals** (`Settlement`).

`Rows` and `Endings` hold the shapes the rest share: optional values, refusals, sums over rows, and the three ways a
step can end. `dafny verify dfyconfig.toml` checks everything.

## Facts about the vocabulary and the world

These are preconditions, stated once and used by name.

- `Vocabulary.Sound`: the seeded statuses `declined`, `pending` and `rejected` are not posted and `booked` is
  (`infra/docker/postgres-source/seed/40_status_domains.sql`). Types the code names, and types a profile may draw,
  exist in the reference tables (`KnownTypes`). The theorems about the loans account also use that `direct_debit` is a
  debit, that `posted` posts, and that no other account of the chart is the loans account (`Apart`).
- `World.honest`: a terminal relational run leaves every entity it extracts registered or failed, and an FX history
  run that ended without failures registered a batch of its first day (`HistoryHonest`). Completeness after a
  successful backfill rests on it and safety does not. Entity names are distinct over the two schemas, which
  `HaltSeesEveryFailure` shows is exactly what the halt test needs.
- `World.calm`: no call raises or is killed, and a run that is waited for ends well. A foreign-key load is given
  `calm` for itself. Only the clauses about progress use either.
- While a backfill runs, a batch once ended stays as it ended, only a run that is going registers batches, and a
  delivery's fate can only change to landed. Between
  invocations the feeds' batches may change in any way the world's assumptions allow. Only the backfill ticks the
  source and touches the pause flag, and the earliest business day is fixed.

## What the code does not do

Where a property one would expect is false of the code, the model keeps the code and the project proves exactly when
it holds.

- The loader opens spooled files as text, so a carriage return in a value reaches the table as a line feed
  (`LoadedRoundTripExactlyWithoutCR`). Read as bytes the round trip is exact (`FileRoundTrip`).
- A chunk target below one row yields an empty first chunk (`BatchedEntryChunks`).
- Foreign keys are restored by name, so the protocol needs names unique over the schema (`RestoringNeedsUniqueNames`).
  An error or a kill while the journal is being written leaves one that cannot be read: no key is lost, and this and
  every later load refuses until someone removes it (`AnyLoads`). On calm ground a load returns exactly when it finds
  no such journal (`Load`).
- A first month cut by the start of history that earns exactly one customer signs that customer up before the history
  begins (`SignupsFallInHistory`), and only then does a month not gain its share (`EveryMonthGainsItsShare`).
- An opening deposit is never paid in exactly when the draws of the month the account enters leave it dormant: they
  make it dormant, and do not also close it (`DepositGoesOutUnlessDormantOnEntry`, `DormantOnEntryIsDecided`). An
  account closed in that month is still funded (`DormancyLosesTheDepositClosureDoesNot`).
- Disbursements carry no principal part, so the ledger's loans account is not what the borrowers owe. Where every
  payment covers its interest, so that no repayment runs backwards, it is minus the principal of the repayments that
  posted and never rises (`RunMovesLoans`, `LoansNeverRise`), and it equals the outstanding principal if and only if
  as much was declined as was granted (`LoansAccountIsRepayments`): never while something is owed at the anchor, and
  always when nothing was granted (`LoansAccountBeforeTheRun`). Level payments do cover their interest
  (`AnnuityCovers`).
- Repeating a finished backfill whose feeds are still complete delivers, ticks and ingests nothing, but still triggers
  one bronze build unless the DAG was paused (`Invoke`, `Repeat`, `Again`).
- A backfill that begins the day after the source's waits for no run before its range, so its first tick can pass
  while the source's own day is still being extracted (`GuardCanFail`, `TickUnderExtraction`). The tick leaves running
  extractions alone exactly when that day is at rest (`TheGuardIsExact`). Every other tick leaves a day with no
  extraction going and no failed batch outstanding (`SafeStep`), so where each invocation that begins the day after the
  source's finds that day at rest the source never moves under a running extraction (`GuardedTicksAlone`), and one that
  follows a range that succeeded always finds it so (`SuccessGuardsTheNext`).
- Events found due together fire as the timeline lists them, not by date, so when days are skipped an event can meet a
  schema it was not written for. A widening listed before the event that adds its column fires when every day is
  ticked (`DayByDayFires`), and when the first of the two days is skipped the tick that finds both due fails and fires
  neither (`SkippedDayFails`). No tick fails for any pattern of days exactly when every widened column is there at the
  start or added by an event listed before the widening and due no later (`NoTickFailsExactlyWhenPrepared`); skipped
  days change nothing about the order exactly when the listing follows the dates (`ListedOrderIsKept`); and where
  the reversals match as listed and no column returns to an earlier type, they match on every run exactly when each
  column's events are listed by date (`ReversalsMatchExactlyInOrder`).
- Re-applying a single fired event is not idempotent: an earlier widening of a column widened twice narrows it
  (`ReapplyingChangesNothing`). Re-applying the whole log in order is (`ReplayingChangesNothing`).
- The span in a bronze description leaves a gap unmentioned when a column is dropped and comes back
  (`SpanIsCompleteWhenContiguous`).
- A file all of whose revisions are negative would be left out of the settlement totals (`CurrentMeansHighest`).

Where a comment and the code disagree the model follows the code: `generator/entities/people.py:54-56` says the last
month takes what rounding the shares down leaves, and line 77 gives it to the largest.

## Model

| member | source | states |
|---|---|---|
| Ledger.LedgerWriter.constructor | generator/entities/ledger.py:39-56 | A load numbers batches and entries from zero, a tick from the tables' high-water marks |
| Ledger.LedgerWriter.Post | generator/entities/ledger.py:65-128 | A batch is refused, and nothing written, exactly when its legs do not sum to zero or there are none; otherwise the whole new state is the old journal with one batch and its lines |
| Ledger.LedgerWriter.WriteLines | generator/entities/ledger.py:101-127 | Zero lines are dropped and the rest numbered on, in the order of the legs |
| Ledger.LedgerWriter.PostCustomerDebit | generator/entities/ledger.py:130-158 | Never refused: the deposit account is debited and the contra account credited by the same amount |
| Ledger.LedgerWriter.PostCustomerCredit | generator/entities/ledger.py:160-184 | Never refused: the contra account is debited and the deposit account credited |
| Ledger.LinesShape | generator/entities/ledger.py:101-127 | Every line of a batch carries the batch's number, day and currency, the next entry id, a non-zero amount and the side its sign means |
| Ledger.DescriptionIsCut | generator/entities/ledger.py:82-99 | A batch's description is kept to its first two hundred characters |
| Ledger.LinesKeepAmounts | generator/entities/ledger.py:82-127 | Dropping zero lines loses no money: in any cell the lines sum as the legs do |
| Ledger.LinesCarry | generator/entities/ledger.py:101-127 | The lines that name an account sum as the legs that name it do |
| Ledger.PostingKeepsJournal | generator/entities/ledger.py:82-127 | A balanced batch keeps the journal in batch order with ids ascending, and every front of whole batches netting to zero per day and currency |
| Ledger.PostingEffect | generator/entities/ledger.py:65-128 | A batch moves an account's carried total by exactly the legs naming it, and adds one batch for the event that raised it and none for any other |
| Ledger.PostingMoves | generator/entities/ledger.py:82-127 | A batch moves a general-ledger account's total by exactly the legs that name it, dropped zero lines included |
| Ledger.WholeBatchesNetToZero | generator/invariants.py:202-213 | Cut the entries anywhere between two batches: what lies before the cut nets to zero on every day in every currency |
| Ledger.CustomerLegsBalance | generator/entities/ledger.py:130-184 | A customer debit or credit balances, and moves the customer's carried total by the amount with the right sign |
| Emission.TxnLegsBalance | generator/entities/movements.py:890-939 | The legs of any transaction, the split of a loan repayment included, sum to zero and carry minus the signed amount on the customer's account |
| Emission.PayLegsBalance | generator/entities/movements.py:1085-1111 | The same for the legs of a payment |
| Emission.RepaymentSplitsPrincipal | generator/entities/movements.py:890-917 | A repayment reduces the loans account by its principal part, earns the rest as interest, and takes the whole from the customer |
| Emission.WithoutPrincipalBypassesLoans | generator/entities/movements.py:918-939 | The legs of a movement without a principal part, a disbursement among them, do not name the loans account (`LoansAccount` states it over runs) |
| Emission.PostTransaction | generator/entities/movements.py:888-939 | The batch a posted transaction raises, on its booking day |
| Emission.EmitTransaction | generator/entities/movements.py:801-939 | The whole new state is the one the specification gives, of which `TransactionVerdict` says what it is: a posting debit is declined exactly when its account cannot bear it, and otherwise any posting transaction moves the balance by its signed amount and raises its batch; the row is written either way |
| Emission.PostPayment | generator/entities/movements.py:1085-1111 | The batch a posted payment raises, on the day it booked |
| Emission.Progress | generator/entities/movements.py:1023-1083 | How far a payment gets: a booking past the anchor leaves it pending, a settlement past it booked, a debit past the limit rejected, anything else settled or posted, each with its two instants |
| Emission.EmitPayment | generator/entities/movements.py:1001-1111 | The whole new state is the one the specification gives, of which `PaymentVerdict` and `PostedPaymentIsDated` say what it is: pending, booked, rejected exactly when its account cannot bear it, or as drawn; only a payment that posts moves money |
| Books.TransactionMoves | generator/entities/movements.py:888-939 | A transaction moves its account's posted rows by its signed amount and the ledger entries naming it by minus that when it posts, and nothing of any other account |
| Books.PaymentMoves | generator/entities/movements.py:1085-1111 | The same for a payment, judged by how far it gets |
| Books.TransactionKeepsBalances | generator/entities/movements.py:830-939 | One transaction of any kind keeps every account's balance equal to its posted rows, to minus the ledger entries naming it, and at or above minus its limit |
| Books.PaymentKeepsBalances | generator/entities/movements.py:1023-1111 | The same for one payment |
| Books.TransactionKeepsPostings | generator/entities/movements.py:888-939 | After a transaction every posted row has exactly one batch and every unposted one none, judged by its final status |
| Books.PaymentKeepsPostings | generator/entities/movements.py:1085-1111 | After a payment every posted row has exactly one batch and every unposted one none, judged by its final status |
| Books.PaymentIsDated | generator/entities/movements.py:1023-1083 | The booked and settled instants of a payment's row are there or not, and in order, exactly as its final status says |
| Books.EventKeepsSound | generator/entities/movements.py:277-318 | One event keeps all of it at once: balances, ledger order and balance, batches and payment dates |
| Books.EveryRunIsSound | generator/entities/movements.py:169-318 | After every event of any sequence of events, from any sound book, the book is sound |
| Books.RunReconciles | generator/invariants.py:180-239 | For any run from an empty book: balance equals posted movements and minus the account's entries, never falls below minus the limit, entries net to zero per day and currency, and each event has exactly as many batches as its final status demands |
| Verdicts.TransactionVerdict | generator/entities/movements.py:830-885 | A transaction whose status posts is declined exactly when it is a debit that would leave its account below minus its limit; the balance then stays, and otherwise moves by exactly the magnitude; its row carries its own instant, value day, signed amount, card and outcome |
| Verdicts.PaymentVerdict | generator/entities/movements.py:1023-1056 | A payment whose status posts is pending when it would book past the anchor, else rejected exactly when it is a debit its account cannot bear, and else moves exactly its amount |
| Verdicts.PostedPaymentIsDated | generator/entities/movements.py:1027-1042 | A payment that posts books seventeen minutes on, and one to be settled or returned does so its lag and five minutes later, or is left booked when that is past the anchor |
| Verdicts.PaymentIsRecorded | generator/entities/movements.py:1058-1083 | A payment's row is the payment, and no earlier row changes |
| Verdicts.BatchesAreDated | generator/entities/movements.py:888-1111 | What a movement adds to the ledger is one batch of its own, dated the day a transaction happened or a payment booked, in its currency |
| Verdicts.EveryKindFacesItsAccount | generator/entities/movements.py:984-998 | A fee is earned on the fees account, a currency margin, interest paid and an adjustment each on their own, and every other plain movement faces cash, each by exactly what the customer's balance moved |
| Verdicts.EveryVerdictStands | generator/entities/movements.py:277-318 | After any run the rows marked declined are exactly the debits their accounts could not bear when their turn came, and the payments marked rejected likewise |
| Verdicts.NothingIsRefusedExactlyWhenBearable | generator/entities/movements.py:277-318 | A run refuses nothing if and only if every debit is within its account's limit had all before it been granted; and then every account ends with exactly what was asked of it |
| LoansAccount.EventMovesLoans | generator/entities/movements.py:888-939 | One event moves the general-ledger loans account by minus its principal part when it posts as a repayment, and not at all when it is declined or carries none |
| LoansAccount.LoanCashMovesTheBorrower | generator/entities/movements.py:239-273 | Money paid out on a loan reaches the borrower whatever the account holds; an installment leaves the account if it can bear it, and is declined if not |
| LoansAccount.RunMovesLoans | generator/entities/movements.py:277-318 | Over any run in which no repayment runs backwards the loans account moves by exactly minus the principal of the repayments that posted, and every principal part either posted or was declined |
| LoansAccount.LoansNeverRise | generator/entities/movements.py:277-318 | Where no repayment runs backwards, no event of any run raises the loans account |
| LoansAccount.CashCarriesWhatIsRepaid | generator/entities/lending.py:209-335 | The principal the loans' cash flows carry is what was granted less what is still owed at the anchor |
| LoansAccount.EmptyBookRepays | generator/entities/movements.py:277-318 | From an empty book and where no repayment runs backwards the loans account is minus what was repaid, never above nothing, and never rises; it equals a given debt if and only if what was declined is that debt plus all the principal the run carries |
| LoansAccount.LoansAccountIsRepayments | generator/entities/movements.py:890-917 | Over a whole generated run in which payments cover their interest, the loans account is minus the posted principal and never rises; it is the outstanding principal of the granted loans if and only if what was granted is exactly what was declined |
| LoansAccount.LoansAccountBeforeTheRun | generator/entities/movements.py:890-917 | Before any run: with something still owed at the anchor the loans account is never the outstanding principal, and with nothing granted it always is |
| LoansAccount.AnnuitiesAreAllCovered | generator/realism/lending.py:83-101 | Loans whose payments are the level ones of some monthly rates have payments that cover their interest |
| Activity.RegularEvent | generator/entities/movements.py:459-596 | An ordinary draw is dropped or gives one event in the account's window, on its own usable card when it is a card type |
| Activity.OpeningDeposit | generator/entities/movements.py:424-455 | In an account's first month, exactly the opening balance arrives as a deposit on its opening day |
| Activity.Regular | generator/entities/movements.py:459-545 | The ordinary draws in turn, each kept or dropped |
| Activity.Salary | generator/entities/movements.py:549-579 | The regular credit, only when its day lies in the window |
| Activity.Mandates | generator/entities/movements.py:582-621 | Each mandate whose day lies in the window and in the first card's validity |
| Activity.BurstAt | generator/entities/movements.py:623-701 | A burst's purchases are at or after the start of its drawn day |
| Activity.Burst | generator/entities/movements.py:623-701 | A velocity burst, all on the drawn day's card |
| Activity.Fees | generator/entities/movements.py:703-742 | Bank-initiated postings that fire |
| Activity.Payments | generator/entities/movements.py:744-799 | One payment instruction for each draw |
| Activity.AccountMonth | generator/entities/movements.py:350-799 | The sections in order, numbered on: every event is the account's own, drawn in its window or on its opening day, on its own card inside the card's validity; a dormant account has none, its opening deposit included |
| Activity.BurstMayCrossMidnight | generator/entities/movements.py:671-671 | A burst started before midnight can reach the next day, so day claims are made on the drawn day |
| Sections.OpeningIsPaidIn | generator/entities/movements.py:424-455 | The opening balance is paid in once, between nine and ten on the opening day, in the account's first month and if there is one |
| Sections.RegularDrawHappens | generator/entities/movements.py:459-596 | An ordinary draw comes to something exactly when it has a channel, its weekend is not dropped, and it has the working card, the merchant or the agent its type needs; and then to a movement of the drawn type, amount, status, card, outcome and value day |
| Sections.AnyDayCanBeDrawn | generator/entities/movements.py:459-545 | A draw can fall on any day of the window |
| Sections.OrdinaryDrawsHappen | generator/entities/movements.py:459-545 | The ordinary draws that come to something, in turn, each as its movement, and no others |
| Sections.SalaryIsPaid | generator/entities/movements.py:549-579 | The salary arrives once, on its day of the month or the last, exactly when there is one and that day is in the window |
| Sections.MandatesAreTaken | generator/entities/movements.py:582-621 | Exactly the mandates whose day is in the window and on which the first card works take their amounts from it |
| Sections.BurstIsAllOrNothing | generator/entities/movements.py:623-701 | A burst is all its purchases on one working card, minutes after one another, or nothing |
| Sections.FeesAreCharged | generator/entities/movements.py:703-742 | Exactly the fees that fire are charged, in turn, each its own amount on a day of the window |
| Sections.PaymentsAreInstructed | generator/entities/movements.py:744-799 | Every payment drawn is instructed as it was drawn |
| Sections.MonthIsItsSections | generator/entities/movements.py:350-799 | A live account's month is those sections in that order, with nothing between and nothing left out |
| Shapes.MonthIsShaped | generator/entities/movements.py:350-799 | The whole month: a dormant account has no event at all; any other has its opening deposit when it enters, then only events of its own, numbered on in order, that its draws in the window give |
| Months.FindMonth | generator/entities/movements.py:154-159 | The scan finds the last month that opens on or before the day, or the first month |
| Months.OpeningBuckets | generator/entities/movements.py:150-160 | Every account is filed exactly once, in the month it enters in |
| Months.BucketsHoldEveryId | generator/entities/movements.py:150-160 | However many accounts are filed, the buckets hold each id exactly once |
| Months.AccountIsFiled | generator/entities/movements.py:150-160 | Every account lies in the bucket of the month it enters in |
| Months.EntryMonthBound | generator/entities/movements.py:150-170 | An account is open by the last day of the month it enters in and of every later one |
| Months.Attrite | generator/entities/movements.py:1150-1158 | An account's timestamp never moves back |
| Months.Decide | generator/entities/movements.py:1126-1158 | Closure is never undone, never at or before the last loan day, never within thirty days of opening, and lies in the window |
| Months.MonthDecides | generator/entities/movements.py:1126-1158 | An open account is closed by a month exactly when its draws close it; else it is active exactly when it was and is neither put to sleep nor frozen, or slept and is woken; dormant exactly when it is put to sleep, or slept and is not woken; frozen exactly when it was, or is frozen awake |
| Months.ClosureIsStamped | generator/entities/movements.py:1150-1158 | A closure stamps the account at four in the afternoon of its day, unless it moved later; nothing else in attrition does |
| Months.AnyDayCanBeDrawn | generator/entities/movements.py:1140-1149 | A closure can be drawn for any day of the window |
| Months.AttriteAccount | generator/entities/movements.py:1126-1158 | Decides one account as `MonthDecides` says, and changes no other |
| Months.MonthAttrition | generator/entities/movements.py:1114-1158 | Decides every active account's month and leaves every other account as it was |
| Plan.StillOpenIsAmong | generator/entities/movements.py:207-214 | The accounts that stay active are exactly those of the list that have not closed, none more often than it was listed |
| Plan.NextMonthKeepsClosed | generator/entities/movements.py:1126-1158 | No month of a run undoes a closure or moves it |
| Plan.PiecesAreOrdered | generator/entities/movements.py:239-275 | What a month emits is in order of instant, account and place, is its own events and the loan cash flows merged in it, each once, and events with the same key keep the order they were drawn in, so the sequence is fixed |
| Plan.PiecesGoByTime | generator/entities/movements.py:239-275 | A month's events go out by instant, at one instant by account, and for one account by place |
| Plan.LoansGoOutInTheirMonth | generator/entities/movements.py:239-273 | With the cash flows in time order, one is merged in a month if and only if its day lies in the month's window, or, in the first month, before the history |
| OpeningDeposits.DormantOnEntryIsDecided | generator/entities/movements.py:1126-1158 | The condition on the draws is attrition's: it holds exactly when deciding a new account's entry month leaves it dormant |
| OpeningDeposits.DepositGoesOutUnlessDormantOnEntry | generator/entities/movements.py:424-455 | Over a whole run, an account with a positive opening balance has its opening deposit emitted exactly once, or, if and only if its entry month's draws leave it dormant, never |
| OpeningDeposits.DormancyLosesTheDepositClosureDoesNot | generator/entities/movements.py:370-371 | Concrete draws: an account dormant on entry is never funded, and one the same draws also close that month is |
| Dormancy.MonthDrawsUnlessAsleep | generator/entities/movements.py:196-234 | In a month an open account draws nothing if it sleeps over it, and everything a live account would if it does not: one that was dormant transacts again in the very month that wakes it |
| Dormancy.MonthHoldsItsDraws | generator/entities/movements.py:207-234 | What the month as a whole draws of an account is what the account draws in it |
| Dormancy.StaysDormant | generator/entities/movements.py:1126-1158 | A dormant account stays dormant month after month until one wakes it or closes it |
| Dormancy.SleepsUntilWoken | generator/entities/movements.py:196-234 | And draws nothing until then; in the month that wakes it it draws as any live account |
| Movements.ClosuresKeepLived | generator/entities/movements.py:185-205 | Closing accounts before the month's movements strands no movement already emitted |
| Movements.RunConcat | generator/entities/movements.py:277-318 | Folding two months in turn is folding them as one run |
| Movements.EmitAll | generator/entities/movements.py:277-318 | The month's events in order leave the book that folding them leaves, numbering transactions and payments separately |
| Movements.MergeLoans | generator/entities/movements.py:239-273 | Appends the cash flows from the cursor up to the first one whose day is past the window's last, and moves the cursor there; `LoansGoOutInTheirMonth` says which those are |
| Plan.WindowOf | generator/entities/movements.py:207-216 | An account's window of the month runs from its opening to its closing and is not empty |
| Dormancy.WindowIsTheDaysOpen | generator/entities/movements.py:207-216 | An account's window is exactly the days of the month it is open on, and there is none exactly when there is no such day |
| Movements.AccountEvents | generator/entities/movements.py:207-234 | One active account's month, every event in the account's life |
| Movements.MonthEvents | generator/entities/movements.py:207-234 | Exactly the events the plan gives the active accounts, account by account; exactly the accounts still open stay active |
| Movements.EnterMonth | generator/entities/movements.py:169-183 | Accounts opening in a month join without repetition, and every active one is open by its last day |
| Movements.LoansAreLived | generator/entities/movements.py:239-273 | A merged loan cash flow lies in its account's life, because no account closes on or before its last loan day |
| Movements.MonthExtendsRun | generator/entities/movements.py:169-318 | A month's own events and the loans merged into it extend the run, each exactly once |
| Movements.Attrition | generator/entities/movements.py:196-205 | Every account stands as the plan's attrition decides, and new closures are only the permitted ones |
| Movements.CloseAccounts | generator/entities/movements.py:196-205 | Attrition keeps everything the run has established, and closes nothing before the window |
| Movements.EmitMonth | generator/entities/movements.py:239-318 | Merging, sorting and emitting extends the run by the stable sort of the month's events and loan cash flows, one certain sequence |
| Movements.OneMonth | generator/entities/movements.py:185-318 | One turn of the month loop, from attrition to emission, takes the run to where the plan's month does and emits the stable sort of its own events and the loan cash flows due |
| Movements.TurnMonth | generator/entities/movements.py:169-318 | The same with the accounts that open in the month: the book is the run of the plan's months so far, in order |
| Movements.FoldMonths | generator/entities/movements.py:169-318 | After the last month the book is the run of the months' sorted pieces one after another, exactly as the plan gives them, and every loan cash flow has been merged |
| Movements.RunFinishes | generator/entities/movements.py:89-337 | A run that has used up its loans is sound, is the run of the emitted sequence, and holds every drawn event and every loan cash flow exactly once |
| Movements.Generate | generator/entities/movements.py:89-337 | For any draws: the book is the run of one sequence the draws determine, month after month in the order of instant, account and place, holding exactly the events drawn and every loan cash flow, each once; it is sound; every movement's drawn day lies in its account's opened-to-closed window and every card movement's also in its card's validity; every account ends as the plan says |
| Calendar.DateOf | generator/config.py:118-130 | The date with a given day number |
| Calendar.BeforeIsOrdinal | generator/config.py:107-116 | Comparing dates field by field is comparing day numbers, and a day number names one date |
| Calendar.DaysInMonthIsGregorian | generator/config.py:127-130 | Stepping back from the next month's first day gives the Gregorian month length, leap years included |
| Years.YearsAreGregorian | generator/config.py:118-130 | The days before a year are three hundred and sixty-five for each year gone, and one for each leap year among them |
| Calendar.AddMonths | generator/config.py:118-124 | The result is a real date of the month asked for, clamped back and never forward |
| Calendar.AddMonthsAdvances | generator/config.py:118-124 | Every whole month moves a date on by at least twenty-eight days, clamp included |
| Calendar.RunConfig.Months | generator/config.py:107-116 | Exactly one more month than the configured length, consecutive from the month the history starts in |
| Calendar.RunConfig.WindowsTile | generator/entities/movements.py:169-181 | The months' windows are non-empty, the first opens on the start, the last closes on the anchor, and each begins the day after the one before |
| Calendar.EveryDayInOneWindow | generator/config.py:97-116 | A day lies in one of the windows if and only if it lies between the start and the anchor, and then in exactly one |
| Calendar.RunConfig.WindowsTileHistory | generator/entities/movements.py:169-181 | The windows the month loop works through cut the history into consecutive, non-empty pieces |
| Calendar.NextMonthIsSpaced | generator/config.py:118-124 | Consecutive installments' dates lie between twenty-eight and thirty-one days apart, clamp included |
| Sorting.Sorted | generator/entities/movements.py:275-275 | Insertion gives the stable sort: the same items, ascending by key |
| Sorting.SortedByIsStable | generator/entities/movements.py:275-275 | Items whose keys tie stay in the order they came |
| Sorting.StableSortIsUnique | generator/entities/movements.py:275-275 | A list is the sort of another if and only if it ascends and its ties stand as they came, so any stable sort gives the same list |
| People.IndexOfLargest | generator/entities/people.py:77-77 | The first of the largest months |
| People.CohortSizes | generator/entities/people.py:51-92 | The split is exact and no month is negative; every month but the largest has its rounded-down share |
| People.SizesAddUp | generator/entities/people.py:75-77 | Month by month the sizes are at least their rounded-down shares, none is negative, and together they are exactly the customers to place |
| People.SizesAreProportional | generator/entities/people.py:75-77 | Every month's size is its exact share rounded down, but for one month with the greatest size, which takes what rounding leaves |
| People.SharesFit | generator/entities/people.py:75-76 | Rounding every share down never hands out more customers than there are |
| People.Cohorts | generator/entities/people.py:79-92 | Cohort sizes add up to the configured customers |
| People.CohortsAddUp | generator/entities/people.py:79-92 | The opening book and the months' cohorts together are the configured customers |
| People.OpeningBookIsAsDrawn | generator/entities/people.py:79-86 | Each customer of the opening book signs up on the day drawn, one of the two years before the history |
| People.CohortDays | generator/entities/people.py:111-127 | One signup day for each customer of a cohort |
| People.AnySignupDayCanBeDrawn | generator/entities/people.py:111-127 | Any day of the month that lies in the history can be drawn |
| People.SignupsFallInHistory | generator/entities/people.py:107-127 | A month's signups fall inside the history if and only if it is not a first month cut by the start of history that earned exactly one customer |
| People.LoneFirstSignupPredatesHistory | generator/entities/people.py:112-114 | A concrete first month of one customer whose signup day precedes the history |
| People.SignupDates | generator/entities/people.py:107-129 | The dates are the sort of the drawn days, cohort by cohort: exactly one for each configured customer, oldest first, day by day, and none past the anchor |
| People.EveryMonthGainsItsShare | generator/entities/people.py:107-129 | Exactly `sizes[m]` of the sorted dates fall in month m's window, except that a lone first signup of a month the history cuts falls before it |
| Deposits.AccountBook.Open | generator/entities/deposits.py:168-200 | Appends one account as it is on its opening day: no balance, open, active |
| Deposits.AccountsAreAsDrawn | generator/entities/deposits.py:143-200 | Every account has the class, currency, opening balance and salary drawn for it, and the drawn overdraft if it is a current account and none if it is not |
| Deposits.Secondary | generator/entities/deposits.py:204-214 | A second holder is another customer, a signatory or one with twenty to fifty per cent |
| Deposits.SecondHolderExactly | generator/entities/deposits.py:204-214 | There is a second holder exactly when one is drawn and is not the first; a signatory has no part, any other the drawn percentage |
| Deposits.SecondRowIsTheSecondHolder | generator/entities/deposits.py:216-248 | The second holder's row is joint with its part or a signatory's without one |
| Deposits.HolderRowsAddUp | generator/entities/deposits.py:202-248 | An account's holder weights sum to exactly one and it has exactly one primary holder |
| Deposits.AddHolders | generator/entities/deposits.py:202-248 | The next account's holders, and every account's weights still sum to one |
| Deposits.UsableUntil | generator/entities/deposits.py:269-287 | A card stops by its expiry; a blocked or cancelled one stops by the anchor, an active or expired one at its expiry |
| Deposits.CardIsIssuedExactly | generator/entities/deposits.py:250-314 | A card is issued exactly when one is drawn and its day is not past the anchor; it counts as expired exactly when it should, and works until it expires or is stopped on the drawn day after its issue |
| Deposits.IssueCard | generator/entities/deposits.py:250-314 | At most one card, issued within ten days of opening and never past the anchor; an account lists exactly its own cards |
| Deposits.OpeningDay | generator/entities/deposits.py:133-141 | The first account opens with the customer, any other between two weeks and nine hundred days later |
| Deposits.AccountsOpenByTheAnchor | generator/entities/deposits.py:128-141 | A customer's accounts are exactly those drawn that open by the anchor, the first on the signup day and any other on its drawn day |
| Deposits.AnyOpeningDayCanBeDrawn | generator/entities/deposits.py:133-141 | A further account can open on any day from two weeks to nine hundred days after the signup |
| Deposits.OwnOpenings | generator/entities/deposits.py:128-141 | No account opens past the anchor |
| Deposits.OpenAccount | generator/entities/deposits.py:128-314 | One account with its drawn terms, limit, holder rows and card, everything opened before standing as it was |
| Deposits.Generate | generator/entities/deposits.py:97-316 | Exactly the accounts, holder rows and cards drawn, in order, each account listing exactly its own cards, with sound dates and holders |
| Lending.Schedule | generator/realism/lending.py:104-142 | The loop gives the installment plan, payment by payment, of which `PlanRepaysExactly` and `DueDaysAreSpaced` are proved |
| Lending.AnnuityCovers | generator/realism/lending.py:83-133 | The level payment, rounded half up, covers the rounded interest on any amount up to the principal, at any rate and term, an interest-free loan included |
| Lending.PlanRepaysExactly | generator/realism/lending.py:104-142 | The principal parts sum to exactly the principal, each due amount is its principal and interest parts, and where the payment covers the interest no part is negative |
| Funnel.InstallmentsPayWhatIsOwed | generator/realism/lending.py:104-142 | Each installment's interest is on what the ones before it left owed; its amount is the level payment, unless that is more than is left; the last repays the rest |
| Funnel.InstallmentsFallDueMonthly | generator/realism/lending.py:104-142 | The first installment falls due a month after the loan was paid out and each later one a month on, on the same day of the month or its last |
| Funnel.LevelPaymentRepaysExactly | generator/realism/lending.py:83-101 | The level payment is the one payment with which, nothing being rounded, nothing is owed after the term |
| Funnel.PaymentIsTheLevelOne | generator/realism/lending.py:83-101 | The payment is that one to the nearest minor unit |
| Funnel.PaymentIsAnEqualPart | generator/realism/lending.py:83-101 | Without interest it is an equal part of the principal to the nearest minor unit |
| Lending.DueDaysAreSpaced | generator/realism/lending.py:104-142 | The first installment falls due at least four weeks after the disbursement and each later one twenty-eight to thirty-one days after the one before |
| Lending.DisbursedDay | generator/entities/lending.py:132-207 | A loan is disbursed only when approved for a positive amount, on or after its account opened and by the anchor; `GrantedExactly` says when and on which day |
| Funnel.ApplicationsFallInTheHistory | generator/entities/lending.py:112-128 | An application reaches the bank between the signup, or the start of the history, and the anchor |
| Funnel.AnyDayCanBeAppliedOn | generator/entities/lending.py:112-128 | An application can reach the bank on any of those days |
| Funnel.GrantedExactly | generator/entities/lending.py:150-207 | An application is granted exactly when it was decided by the anchor's end, approved for something, taken up, and due by the anchor; it is paid out that day, the decision's and the drawn lag, or on the account's opening day when that is later |
| Funnel.GrantsComeFromApplications | generator/entities/lending.py:105-207 | The loans granted are exactly those some application of a customer with a current account leads to |
| Funnel.InstallmentIsPaid | generator/entities/lending.py:234-262 | An installment is paid exactly when it has fallen due by the anchor, the borrower still pays or cures, and the day it is paid, early, late or cured, is not past the anchor |
| Funnel.AnySuchDayCanBePaidOn | generator/entities/lending.py:234-262 | It can be paid on any of those days |
| Funnel.CashIsPaidOutOrBack | generator/entities/lending.py:209-335 | Every cash flow is a loan's whole amount paid out on its day, or one of its installments paid back on the day it is paid |
| Funnel.PaidInstallmentsPayBack | generator/entities/lending.py:230-283 | Every paid installment has its cash flow |
| Funnel.NothingPrecedesItsApplication | generator/entities/lending.py:105-335 | No money of a loan moves before the application for it, and none is paid back for weeks after that |
| Funnel.CashGoesByTime | generator/entities/lending.py:341-341 | The cash flows go by instant, at one instant by account, then by what they are for |
| Lending.LoanBook.WritePlan | generator/entities/lending.py:230-283 | A cash flow for each installment that is paid by the anchor, carrying the principal it repays, and none for any other |
| Lending.LoanBook.Disburse | generator/entities/lending.py:209-335 | The plan's paid installments and then the disbursement, which carries no principal part |
| Lending.LoanBook.RecordHolds | generator/entities/lending.py:342-346 | An account is held exactly until its last loan movement |
| Lending.OneSetOfHolds | generator/entities/lending.py:342-346 | Only one set of holds is right for a list of cash flows |
| Lending.CashInBook | generator/entities/lending.py:209-335 | Every loan cash flow falls in its account's life: on or after its opening, by the anchor |
| Lending.OneListOfLoans | generator/entities/lending.py:132-207 | The grants determine the loans and their plans |
| Lending.OneCustomer | generator/entities/lending.py:105-335 | The loans the customer's applications lead to, in turn |
| Lending.Generate | generator/entities/lending.py:76-347 | The loans granted are exactly those the draws approve, in order; their cash flows are the stable sort by time of the plans' paid installments and disbursements, each in its account's life, with exactly the holds they imply |
| Pipeline.FirstCurrent | generator/entities/lending.py:64-73 | The customer's first current account, or none exactly when there is none |
| Pipeline.LoansGoToTheFirstCurrentAccount | generator/entities/lending.py:64-73 | A loan goes to the first account of its customer whose class is current; a customer has none exactly when no account is |
| Pipeline.RunsEndWithTheAnchorDay | generator/pipeline.py:45-93 | What is not past the anchor is what happens on the anchor day or before |
| Pipeline.Generate | generator/pipeline.py:45-93 | People, deposits, lending and movements in turn. For any draws the signups, accounts, holder rows, cards, grants, holds and loan cash flows are the ones drawn, and the book is sound and is the run, in order, of exactly the movements those draws give |
| Pipeline.Prepare | generator/pipeline.py:45-76 | The three passes before the fold give exactly the facts the draws determine, and everything the fold needs of them |
| Pipeline.RunsAreLentOut | generator/pipeline.py:60-88 | A generated run meets what the loans account theorem asks, when every granted payment covers its interest |
| Pipeline.TheDrawsDetermineTheBook | generator/pipeline.py:45-93 | Two runs of one configuration and the same draws have the same customers, accounts, holder rows, loans, movements, balances, rows and ledger |
| Constraints.Missing | generator/writer.py:211-213 | The journalled keys whose names the catalogue does not show |
| Constraints.RestoringNeedsUniqueNames | generator/writer.py:202-221 | Restoring by name repairs every partial state if and only if no two keys share a name |
| Constraints.RestoredByName | generator/writer.py:202-221 | What is present and what the journal puts back are together the original keys |
| Constraints.MissingCanBeAdded | generator/writer.py:211-217 | What the journal puts back is not there yet and comes once, so adding it cannot collide |
| Constraints.Loader.WriteJournal | generator/writer.py:193-195 | Returned means written whole; an error or a kill may leave it untouched or cut short |
| Constraints.Loader.DropAll | generator/writer.py:306-316 | However the session ends, it has removed only keys it was given; returned means all of them, and on calm ground it returns when the keys are there |
| Constraints.Loader.AddAll | generator/writer.py:349-357 | However the session ends, it has added only keys it was given; returned means all of them, and on calm ground it returns unless a key is there already or twice |
| Constraints.Loader.RestoreDroppedConstraints | generator/writer.py:202-221 | Returned means exactly the original keys and no journal; on calm ground it returns if and only if it finds no journal that was cut short, which it refuses, changing nothing |
| Constraints.Loader.Load | generator/writer.py:289-363 | However it ends, the original keys are those present plus those journalled; returned means exactly the original set and no journal; a torn journal is refused with nothing changed; on calm ground it returns if and only if it finds none; and only a load that takes keys off, is disturbed and does not return can leave one |
| Constraints.Loader.CopyWithout | generator/writer.py:306-363 | Between writing the journal and clearing it the original keys are always those present plus those journalled, the journal is never torn, and on calm ground the load finishes with all of them back |
| Constraints.Loader.AnyLoads | generator/writer.py:289-363 | The same for any number of loads, each killed or raising anywhere, from the journal there was to the one there is; a load on calm ground that does not return, and every later one, refused a torn journal that is still there, and no key is lost |
| Constraints.TornStays | generator/writer.py:202-217 | Once a load finds a torn journal, it and every later one refuses, and the journal stays |
| Chunks.BatchedEntryChunks | generator/writer.py:172-190 | The chunks are the file in order; for a target of at least one each non-final chunk reaches it and passes it by less than its last batch, and none is empty if and only if the target is at least one or the file is empty |
| Chunks.ChunksShareNoBatch | generator/writer.py:172-190 | No batch has lines on both sides of a chunk boundary |
| Chunks.EntryLineCarriesBatch | generator/writer.py:181-184 | The chunker reads an entry's batch number back from its spooled line |
| Chunks.LedgerFileIsGrouped | generator/entities/ledger.py:82-127 | The ledger writer's file keeps each batch together |
| Chunks.BatchesStandTogether | generator/entities/ledger.py:82-127 | Between two entries of one batch stand only entries of that batch, told apart by the text the file holds |
| Chunks.CommittedPrefixNetsToZero | generator/writer.py:224-280 | After any committed chunk of the ledger's file, what is in the table nets to zero per posting date and currency |
| Spool.FileRoundTrip | generator/spool.py:35-84 | Reading any spooled file by RFC 4180, section 2, with an unquoted empty field as null, gives back exactly the rows written |
| Spool.TableRoundTrip | generator/spool.py:35-84 | A table read back from its spooled file, column by column by their types, is the table written: every number, flag and text and every null |
| Spool.RowRoundTrip | generator/spool.py:81-84 | One row reads back exactly, whatever follows it |
| Spool.FieldRoundTrip | generator/spool.py:35-78 | One field reads back exactly: commas, quotes and line breaks survive, null and the empty string stay distinct, a true flag is t and a false one f |
| Spool.LoadedRoundTripExactlyWithoutCR | generator/writer.py:327-330 | Through the loader, which opens the spool as text, the rows arrive as written if and only if no value carries a carriage return |
| Spool.DigitsDetermineNumber | generator/spool.py:35-50 | A natural number's text determines it |
| Spool.TextDeterminesNumber | generator/spool.py:35-50 | Any number's text, its sign included, determines it |
| Spool.FlagReadsBack | generator/spool.py:61-62 | A true flag is written t and a false one f, whatever follows |
| Spool.TableSpool.Write | generator/spool.py:99-103 | Appends exactly one row, or refuses a row of the wrong width and writes nothing |
| TickLog.TickReport.Record | generator/mutation/report.py:72-76 | An unknown class is refused and changes nothing; a count is added to its own counter alone |
| TickLog.TickReport.RecordUpdate | generator/mutation/report.py:78-98 | Counts distinct keys and returns how many were new to the tick |
| TickLog.TickReport.RecordDelete | generator/mutation/report.py:100-103 | One delete counted and its key kept |
| TickLog.LogCountsKeys | generator/mutation/report.py:72-103 | The counters are the sizes of the key sets a tick inserted, updated, deleted and soft-deleted, and soft-deleted keys are a subset of updated ones |
| TickLog.LateArrivalsAreInserts | generator/mutation/report.py:10-16 | Late arrivals are a subset of the inserts, by key and by count, however many a tick has |
| TickLog.WindowIsWhatTheTickTouched | generator/mutation/reconcile.py:1-27 | Right after a tick its window holds exactly the keys it inserted or updated and did not delete |
| TickLog.LogAgainstWindow | generator/mutation/reconcile.py:14-27 | Logged inserts plus updates exceed the window by exactly the rows counted twice and the rows deleted again, so they agree if and only if the tick updated no row it inserted and deleted none it touched |
| TickLog.RowsTouchedCountsOnce | generator/mutation/report.py:114-121 | `rows_touched` counts each row once if and only if no row falls in two classes |
| TickLog.OtherDaysOnlyLose | generator/mutation/reconcile.py:1-27 | A tick of another day can take rows from a window and never adds one |
| TickLog.EveryTickReconciles | generator/mutation/reconcile.py:14-27 | For any sequence of ticks: each log agrees with its window right after its tick under exactly that condition, and no later tick can make the window hold more than was logged |
| TickLog.LaterTicksOnlyLose | generator/mutation/__main__.py:16-24 | No later tick makes a day's window hold more than it did right after its own |
| TickLog.Reconcile | generator/mutation/reconcile.py:106-120 | Lists, in load order, exactly the tables with a count on either side; all agree if and only if every table of the load order does, and the totals of both sides are the totals over the load order |
| TickLog.ListsTablesWithSomething | generator/mutation/reconcile.py:106-120 | Exactly the tables with a row in the window or a count in the log are listed, in load order, each with both its counts |
| TickLog.NothingIsHidden | generator/mutation/reconcile.py:114-119 | Leaving out the tables with nothing on either side hides no disagreement |
| TickLog.NothingIsLost | generator/mutation/reconcile.py:114-119 | Nor does it lose a count, logged or in the window |
| Registry.CompleteMeansEveryEntity | scripts/backfill.py:301-311 | Counting registered entities is enough: complete means every single entity registered |
| Registry.CompleteIsByCount | scripts/backfill.py:303-311 | Reference data is complete with twenty-nine entities registered and core banking with sixteen |
| Registry.HaltSeesEveryFailure | scripts/ingest_state.py:60-63 | The halt test, keyed on entity names alone, finds every failure if and only if no name is in both schemas |
| Registry.EndedIsComplete | scripts/backfill.py:301-311 | A run that left every entity ended and nothing outstanding completed its DAG |
| Registry.GrowthKeepsComplete | scripts/backfill.py:301-311 | More batches never make a complete DAG incomplete |
| Registry.JudgeFeed | scripts/backfill.py:323-354 | Complete if and only if the run happened, every failed batch is landed, parked for its sender or superseded, and a failed run has a failed batch; and exactly which batches are parked and which are failures |
| Registry.FeedIsCompleteExactly | scripts/backfill.py:323-354 | A feed is complete exactly when it ran, every rejected batch was landed, parked as malformed or conflicting, or followed by a registered one, and a failed run has a rejected batch |
| Registry.ImprovementKeepsComplete | scripts/backfill.py:323-354 | A delivery that lands after all never makes a complete feed incomplete |
| Registry.Cadence | scripts/backfill.py:245-252 | On any day, the two daily feeds always, the weekly and the monthly one exactly when theirs falls on it, none twice; `FeedsFallOnTheirDays` says when |
| Registry.FeedsFallOnTheirDays | scripts/backfill.py:245-252 | Settlement files and exchange rates are due every day, the sanctions list exactly on Mondays and the macro series exactly on the fifteenth, in that order and nothing else |
| Stack.World.Reach | scripts/backfill.py:165-186 | Any call: any number of runs progress or end first, and the call returns, raises, or is the process's last |
| Stack.World.constructor | scripts/backfill.py:727-748 | A freshly seeded stack meets every assumption: nothing has run, the registry and the log are empty |
| Stack.SourceNeverBeforeAnchor | scripts/backfill.py:483-492 | Whatever has been ticked, the source is never before its anchor |
| Stack.MoveEvolves | scripts/backfill.py:291-298 | Whatever Airflow and the senders do unasked only adds batches, each by a run that was going, and leaves ended runs as they ended |
| Stack.EvolutionKeepsDay | scripts/backfill.py:774-787 | A complete day stays complete while other days are worked on |
| Stack.EvolutionKeepsRecord | scripts/backfill.py:456-468 | Every extraction still going reads the day the source is at or was going when the source left its day, and none of the last day of an invocation that succeeded is going; that stays so while nothing is started |
| Stack.RegisteredStands | scripts/backfill.py:777-800 | While an extraction is at rest and nothing touches it, what the registry said of it when it was read is still so |
| Stack.EvolutionKeepsDone | scripts/backfill.py:797-804 | A day that ended with no failed batch outstanding stays that way while its extractions are not touched |
| Stack.GuardedTicksAlone | scripts/backfill.py:769-835 | In a safe log in which every invocation that begins the day after the source's found none of that day's extractions going, the source never moved under a running extraction |
| Stack.SafeEverywhere | scripts/backfill.py:769-831 | A safe log is safe at every one of its actions. Each tick goes one day on, past the anchor and only to a day the registry does not call extracted; the day it leaves has no extraction going and no failed batch outstanding, unless it is the first tick of a range that begins with it, and then what is going was going when the invocation began. What third parties send on a day was delivered before any run of the day, and the sanctions list is fetched only on Mondays and the macro series only on the fifteenth. Each extraction is triggered with the source at exactly its day and only while the registry does not call it complete; core banking, while reference data is not complete, only after a reference run of the day was triggered just before it and has ended |
| Backfill.Pending | scripts/backfill.py:782-782 | The relational DAGs left, reference data first |
| Backfill.WaitFor | scripts/backfill.py:456-468 | Returned means the run has ended |
| Backfill.SettleRuns | scripts/backfill.py:357-367 | Returned means no run of the day is still going |
| Backfill.StartRun | scripts/backfill.py:255-261 | Touches one run and logs at most its start, with what the registry held and what was going; the start is safe, and any call may be killed before or after its effect |
| Backfill.TickSource | scripts/backfill.py:538-546 | The source moves by one day or not at all, and returned means it moved; the tick is logged with what the registry held for both days and what was going, and the rest of the log stands |
| Backfill.Deliver | scripts/backfill.py:268-283 | Delivers only for a day the source has reached, and logs nothing else |
| Backfill.PrepareSource | scripts/backfill.py:483-546 | The source moves only when the guard says tick, which is never when no extraction of the day is left, and then by one day; refused means raised; returned means the source is at the day when extractions are left and has at least reached it otherwise; on calm ground it refuses only when the guard does |
| Backfill.Extract | scripts/backfill.py:797-800 | Starts exactly the extractions left, reference data before core banking, as far as it gets; each is waited for before the next starts, and returned means all were started and have ended |
| Backfill.NextIsStartable | scripts/backfill.py:797-800 | Whatever moved in the meantime, the next extraction left is still at rest and not complete, and core banking comes only once reference data is complete or was just tried and ended |
| Backfill.ExtractAndCheck | scripts/backfill.py:797-804 | Going on means that no failed batch of the day is outstanding, and, when terminal runs end every entity, that both extractions are complete |
| Backfill.RunFeeds | scripts/backfill.py:806-824 | Going on means every feed started is complete |
| Backfill.FeedsPending | scripts/backfill.py:370-374 | Every due feed it leaves out is complete, and it lists none that was complete before |
| Backfill.ReadDay | scripts/backfill.py:776-787 | What is left of a day, read once no run of it is going; nothing for a complete day |
| Backfill.OneDay | scripts/backfill.py:774-827 | Going on to the next day means this one has no extraction going and no failed batch outstanding, and, when terminal runs end every entity, is complete; no feed that was complete is started again; a complete day is passed over without an action; and on calm ground a day that can be worked is worked to the end |
| Backfill.WorkableIsLetThrough | scripts/backfill.py:483-546 | The tick guard refuses no day that can be worked |
| Backfill.NothingOutstanding | scripts/backfill.py:797-804 | With both extractions of a day complete no failed batch is left to halt on |
| Backfill.IngestDays | scripts/backfill.py:769-835 | Success leaves every day of the range complete; a range already complete is passed over without a single action; what was logged stays; and on calm ground over work still ahead it returns zero with the source at the range's end |
| Backfill.CompleteRangeHasItsFeeds | scripts/backfill.py:769-831 | A complete range has the settlement files and the rates of every day, the sanctions list of each of its Mondays and the macro series of each of its fifteenths |
| Backfill.HistoryMeetsDailyRuns | scripts/backfill.py:680-683 | The history and the daily runs meet without gap or overlap, and a rate date precedes every business day |
| Backfill.LoadFxHistory | scripts/backfill.py:693-713 | Zero means the history is registered; a history already registered triggers nothing; on calm ground it returns zero |
| Backfill.HoldTransforms | scripts/backfill.py:566-597 | However it ends, the operator's pause state is in the record or in the DAG; returned means recorded and paused, and the state given back is the operator's |
| Backfill.ReleaseTransforms | scripts/backfill.py:600-604 | However it ends, the operator's state is not lost; returned means restored and no record |
| Backfill.BuildOnce | scripts/backfill.py:607-611 | At most one build is triggered; returned means exactly one |
| Backfill.Invoke | scripts/backfill.py:727-766 | One invocation is logged, from what it found going to its success, on top of what was logged before; success means the history and every day of the range complete; finishing means the pause state is restored; repeating over finished work triggers nothing but, when the DAG was not paused, the one bronze build; and an undisturbed invocation over work still ahead returns zero with the source at the range's end |
| Backfill.AnyInvocations | scripts/backfill.py:727-835 | For any sequence of invocations over any ranges, killed or raising anywhere: the log is what was there and then one invocation after another, every logged action was safe, the operator's pause state is never lost and the first one that finishes has restored it; the source never moves under a running extraction as long as each invocation that begins the day after the source's finds none of that day going, and one that begins the day after a range that succeeded does |
| Backfill.SuccessGuardsTheNext | scripts/backfill.py:769-835 | An invocation that begins the day after a range that succeeded found no extraction of that range's last day going |
| Backfill.Next | scripts/backfill.py:727-766 | One invocation after whatever happened since the last: it is logged as one, and success means the range is finished |
| Backfill.Repeat | scripts/backfill.py:607-766 | Two invocations of one range in turn, logged one after the other, with anything in between that leaves the range's feeds complete: after the first succeeds the second delivers, ticks and ingests nothing, and triggers exactly one more build unless the DAG was paused |
| Backfill.Again | scripts/backfill.py:607-766 | An invocation over finished work, after runs went on and the feeds' batches changed in any way that leaves the range's feeds complete: at most the one build is logged |
| Backfill.TheGuardIsExact | scripts/backfill.py:483-546 | In any world whose source has not moved under a running extraction so far, a range that begins the day after the source's may begin and tick at once, within every check, and that tick leaves running extractions alone if and only if the guard holds |
| Backfill.GuardCanFail | scripts/backfill.py:774-800 | A seeded stack whose first day was delivered and whose reference extraction was just started is such a world, and the guard fails in it |
| Backfill.TickUnderExtraction | scripts/backfill.py:774-791 | From that stack, the first steps of the loop over the next day tick the source under the running extraction |
| Backfill.UnguardedTickIsNotAlone | scripts/backfill.py:774-791 | Where the guard fails, no history of actions makes such a tick undisturbing |
| Contracts.OneOrder | scripts/data_contract.py:574-575 | A chain is the only way to put its versions in ascending order |
| Contracts.CheckChain | scripts/data_contract.py:576-596 | Versions in order are refused exactly when they make no chain ending in the current file |
| Contracts.OrderChain | scripts/data_contract.py:573-596 | Refused if and only if the versions make no chain that ends in the current file |
| Contracts.LoadAll | scripts/data_contract.py:509-541 | Refused if and only if two files name one entity or a file has no columns, repeats one, leaves its key or watermark column undescribed, or is a later version without a start; the parser's other refusals are left out |
| Contracts.GroupHistory | scripts/data_contract.py:555-570 | Refused if and only if a superseded file is unreadable, misnamed or has no current contract; otherwise every entity has exactly its own superseded versions, in the order read |
| Contracts.LoadHistory | scripts/data_contract.py:544-597 | Refused exactly when a file cannot be read, is misplaced, or an entity's versions make no chain; otherwise every entity has its one chain |
| Contracts.InForce | scripts/data_contract.py:600-613 | The loop chooses the version the latest start on or before the day belongs to, and refuses a day before every start |
| Contracts.ChosenIsTheOneThatHolds | scripts/data_contract.py:600-613 | The version chosen is the only one whose half-open interval holds the day |
| Contracts.HoldsFromItsStart | scripts/data_contract.py:600-613 | A version is in force from its start until the day before the next one's |
| Contracts.OnlyALoneVersionCanBeMissing | scripts/data_contract.py:600-613 | A chain leaves a day without a contract if and only if it is one version that starts after it |
| Contracts.SelectionIsMonotone | scripts/data_contract.py:600-613 | A later day never selects an earlier version |
| Contracts.AppendingKeepsEarlierDays | scripts/data_contract.py:544-613 | Appending a version leaves the choice unchanged for exactly the days before its start |
| Contracts.ChainBeginsWithVersionOne | scripts/data_contract.py:366-374 | A chain of several readable versions begins with version one, open from the start of history, and each later one starts on a strictly later day |
| Bronze.FirstsAreTheUnion | scripts/dbt_generate.py:220-224 | The union holds exactly the names there are, each once, in order of first appearance |
| Bronze.Union | scripts/dbt_generate.py:220-224 | The nested loops compute that union |
| Bronze.UnionHoldsEveryColumn | scripts/dbt_generate.py:220-224 | Its names are exactly those some version carries |
| Bronze.LatestIsLatest | scripts/dbt_generate.py:228-228 | The declaring column is one of a version after which no version carries the name |
| Bronze.BuildColumns | scripts/dbt_generate.py:225-241 | One column for each name of the union in order, typed and classed by the latest version carrying it; refused if and only if a name collides with a key column |
| Bronze.SpanIsSound | scripts/dbt_generate.py:156-175 | Every delivery day the description calls null selects a version without the column |
| Bronze.SpanIsCompleteWhenContiguous | scripts/dbt_generate.py:156-175 | It calls every such day null if and only if the versions carrying the column are contiguous |
| Bronze.AGapIsNotCalled | scripts/dbt_generate.py:156-175 | A gap in the middle gives a day the description leaves unmentioned |
| Drift.MatchesExactly | generator/drift/timeline.py:48-77 | An event's reversal undoes it if and only if an added column is new, or a widened one has the type the revert statement restores |
| Drift.DueEvents | generator/drift/timeline.py:170-180 | Exactly the events of the timeline that are due and have not fired |
| Drift.EventsFireFromTheirDay | generator/drift/timeline.py:170-180 | An event is due at a tick exactly when the tick's day is its offset from the anchor or later |
| Drift.Source.Tick | generator/mutation/phases/drift.py:26-32 | All due events are applied and logged in timeline order, or, when a statement fails, nothing changes |
| Drift.Source.RevertAll | generator/drift/timeline.py:309-323 | Undoes the fired events newest first and returns the known ones, in that order; unknown names are skipped |
| Drift.ApplyDeltas | generator/drift/timeline.py:189-221 | The dictionary with the log's deltas, in the log's order |
| Drift.DeltaChangesOneColumn | generator/drift/timeline.py:189-221 | A widening changes the documented type of its own column and nothing else; an added column comes last |
| Drift.DeltaIsApplied | generator/drift/timeline.py:189-221 | An event whose reversal matches moves the database and the documentation by the same amount |
| Drift.RevertingGivesBackTheDictionary | generator/drift/timeline.py:309-323 | Where reversals match along the log, reverting newest first gives back the dictionary's schema |
| DriftRuns.LiveFollowsTheLog | generator/drift/timeline.py:170-221 | For any timeline and any ticks, failed ones included: while reversals match, the live schema is the dictionary plus the log's deltas and reverting restores the dictionary |
| DriftRuns.ArrivalsAreWhatIsDue | generator/drift/timeline.py:170-180 | Whatever days are skipped, what has come due is exactly the events whose date is no later than the last day ticked |
| DriftRuns.TicksFireArrivals | generator/drift/timeline.py:170-180 | No tick of a run fails if and only if the events can be applied one after another in the order they come due; then the log is those events in that order |
| DriftRuns.NoTickFailsExactlyWhenPrepared | generator/drift/timeline.py:170-180 | No tick fails, whichever days are ticked or skipped, if and only if every widened column is there at the start or is added by an event that is listed before the widening and comes due no later |
| DriftColumns.EveryRunFiresWhatIsDue | generator/drift/timeline.py:170-221 | For any timeline whose reversals match as listed and whose columns' events are listed in the order of their dates, two events on one column included, and any pattern of ticked or skipped days: no tick fails, the log is exactly the events due by the last tick, each once, in the order they came due, the live schema is the dictionary plus the log's deltas, and reverting newest first gives back the dictionary's schema |
| DriftColumns.ColumnFollowsItsEvents | generator/drift/timeline.py:189-221 | The documented type of a column is what its own events, in the log's order, make of it |
| DriftColumns.MatchesByColumn | generator/drift/timeline.py:48-77 | Reversals match along a log if and only if they match along each column's own events |
| DriftColumns.OrderedArrivals | generator/drift/timeline.py:170-180 | Events listed in the order of their dates come due as a front of the list, whatever days are skipped |
| DriftColumns.ListedOrderIsKept | generator/drift/timeline.py:170-180 | Skipping days never changes the order events come due in if and only if they are listed in the order of their dates |
| DriftColumns.ReversalsMatchExactlyInOrder | generator/drift/timeline.py:48-77 | Where the reversals match as listed and no column returns to a type it had, no tick fails and every reversal matches on every run if and only if each column's events are listed in the order of their dates |
| DriftColumns.DayByDayFires | generator/drift/timeline.py:170-180 | A widening listed before the event that adds its column, and due after it: ticked day by day both fire |
| DriftColumns.SkippedDayFails | generator/drift/timeline.py:170-180 | The same timeline with the first day skipped: the tick that finds both due fails and fires neither |
| DriftColumns.NoteIsAgainstDates | generator/drift/timeline.py:170-180 | A concrete such timeline over an empty dictionary |
| DriftColumns.ReplayingChangesNothing | scripts/schema_apply.py:120-126 | Re-applying the whole log in order never fails and leaves the live schema as it was, two widenings of one column included |
| DriftColumns.ReapplyingChangesNothing | generator/drift/timeline.py:13-17 | Re-applying one fired event changes nothing if and only if it added its column or gave it the type it was last widened to |
| DriftColumns.ScriptedEventsAreWellMade | generator/drift/timeline.py:95-145 | The two scripted events are well made if and only if the dictionary has no risk score and documents the reference at 140 characters |
| Scan.Matcher.constructor | scripts/bronze_pii_scan.py:109-113 | Every form of every value is indexed under its own prefix, and nothing else is |
| Scan.Matcher.TokensIn | scripts/bronze_pii_scan.py:115-124 | A token is reported if and only if one of its forms of at least six bytes occurs somewhere, with the length of a form found at the token's earliest place |
| Scan.HitIsCandidate | scripts/bronze_pii_scan.py:101-124 | Looking a position up by its six bytes misses no form that is there |
| Scan.OccursWhereAFormStands | scripts/bronze_pii_scan.py:101-124 | A token occurs exactly where one of its forms of six bytes or more stands in the haystack |
| Scan.ScopeIsTheListsObjects | scripts/bronze_pii_scan.py:236-246 | The sanctions scope is exactly the list's own objects, landed or quarantined |
| Scan.Find | scripts/bronze_pii_scan.py:127-134 | Each reading's hits are exactly the tokens that occur in it |
| Scan.NotCarriedByTheList | scripts/bronze_pii_scan.py:334-355 | Keeps exactly the hits the delivered file does not carry, and all of them when the delivery is unknown |
| Scan.Judge | scripts/bronze_pii_scan.py:236-246 | A token is reported, under the reading it occurs in, if and only if it occurs in that reading and is not excused, and excused only in the sanctions scope by a delivered file that carries it |
| Settlement.Highest | scripts/feeds_acceptance.py:604-607 | Every file's highest revision, counting from zero |
| Settlement.Totals | scripts/feeds_acceptance.py:604-614 | The file side sums exactly the current trailers of each cell, the plain side every trailer |
| Settlement.CurrentMeansHighest | scripts/feeds_acceptance.py:600-607 | A trailer counts if and only if nothing supersedes it and its revision is not negative |
| Settlement.FileTotalIgnoresOrder | scripts/feeds_acceptance.py:604-614 | Arrival order makes no difference to any cell |
| Settlement.SupersededChangesNothing | scripts/feeds_acceptance.py:604-614 | A late trailer that is already superseded changes no cell |
| Settlement.DoublingNeedsASupersededTrailer | scripts/feeds_acceptance.py:608-615 | A cell of the plain sum differs from the file side if and only if it has no current trailer or the amounts that do not count do not cancel, so only where a trailer is superseded by a higher revision or has a negative one |
| Settlement.SeverityGrowsWithTheDifference | scripts/feeds_acceptance.py:583-596 | A ledger further from the file is never a lesser break, and there is no break only at equality |
| Settlement.SeverityExactly | scripts/feeds_acceptance.py:583-596 | A cell that agrees is no break; one that differs by less than a hundred units and less than a thousandth of the file's total warns; any other is an error |
| Settlement.KeysTellTrailersApart | scripts/feeds_acceptance.py:600-614 | Trailers supersede one another within a day's file sequence and are added up by day, network and currency |
| Settlement.Compare | scripts/feeds_acceptance.py:642-650 | Exactly the cells whose totals differ are reported, each with its severity and signed difference |

## Left out

- Databases, psql, Airflow, the object store and the warehouse appear only through their effect on abstract state;
  psql runs with stop-on-error and commits statement by statement, so a kill falls between two statements. A psql
  session that keeps running after its parent was killed is not modelled.
- Random draws and the distributions behind them, the statistical checks, fraud alerts, login sessions, merchants,
  digit counts and presentment: draws are arbitrary values, and what the fold never reads back is not modelled.
- Amounts are whole minor units, so rounding to cents is the identity; the payment and the monthly interest are inputs
  of the installment plan, and `AnnuityCovers` is about the formula over exact rates, without the decimal precision
  the two rates are computed in.
- Column values that no property reads: account numbers, IBANs, country codes, product codes, creation instants.
- Loan status, write-off and restructuring: they are written to rows and feed nothing the fold reads.
- The printed expiry of a card is a parameter of the deposit pass, any day at all.
- Wall-clock time: polling, timeouts (a timeout is a call that raises) and the deferral demonstration.
- The fresh-version check after a cleared run: it can only make a wait raise, which any wait may do.
- Reports, printed summaries, error texts, YAML parsing and the rendering of models, descriptions and inventories.
- Hashing, digests and contract fingerprints.
- The tick orchestrator and its phases other than drift, the registry plugin and the SQL macros.
- Merging profile overrides and validating profiles: plain recursion over mappings.
- Platform columns of bronze models: a fixed list appended to the union.
- Newline translation of psql's standard input on other platforms.
- Encoding a value into its byte forms: the scan takes the forms it is given, and a form of fewer than six bytes is
  never found.
- Books.RunReconciles: says nothing about whether a paid installment's debit posts, because the fold may still
  decline it for funds.
- Backfill.AnyInvocations: does not conclude completeness, which only an invocation that succeeds gives
  (`Backfill.Invoke`), and assumes the operator leaves the pause flag alone.
- Activity.Burst: speaks of the drawn day and not of the instant's day, because the code adds minutes without a clamp.
- Movements.Generate: does not relate ids to time over month boundaries, because a burst drawn on a month's last day
  can be booked in the next month and is still numbered before it.
- Python's own sort: an insertion sort stands for it, and `StableSortIsUnique` shows that every stable sort gives the
  same list.
- LoansAccount.LoansAccountIsRepayments: that payments cover their interest is a hypothesis, because the payment is an
  input of the plan; `LoansAccount.AnnuitiesAreAllCovered` gives it for level payments, and what one event does
  without it is `LoansAccount.EventMovesLoans`.
- Contracts.LoadAll: the parser also refuses a file that is no mapping, a missing field, an unknown classification,
  origin or authored kind, a nullable that is no boolean, a start that is no date, and an authored contract without its
  document, format or key; a contract here has these by its type.
- Backfill.Invoke: progress is stated for a world that nothing disturbs and a range whose days behind the source are
  extracted and whose days ahead of it are not; what a disturbed invocation still keeps is in its other clauses.
