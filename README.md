# Payment service core in Dafny

A model of the card and report services of a small banking-card payment
service, with proofs of what those services promise.

- Members hold cards, and card numbers are unique across the whole system.
- A member can list their cards, look one up by number, add a card and
  remove one.
- A transfer looks up the source card and calls an external payment gateway.
  It notifies on success and records one payment transaction for every
  response the gateway returns.
- A report fetches a card's transactions whose stored date lies in an
  inclusive range and groups them by result status.

Files:

- `outcomes.dfy` (module `Outcomes`): `Option`, the error kinds the services
  throw, and `Result`.
- `payment_transaction.dfy` (module `PaymentModel`): the card row, the
  payment transaction record with its nullable fields, and the transaction
  table's constraints. The constraints are an invariant of the log that
  `Save` keeps.
- `date_encoding.dfy` (module `DateEncoding`): `String.valueOf` and
  `Integer.valueOf` on decimal text, and the `transactionDate` encoding
  built from them.
- `card_service.dfy` (module `CardServices`):
  - the lookups, `checkMemberExists` and `mapperToTransaction` as functions;
  - the class `CardService`, whose fields are the member directory, each
    member's card list, the card store and the transaction store;
  - `create`, `remove` and `transfer` as methods that update those fields
    and keep the invariant `Valid()`.
- `report_transaction_service.dfy` (module `ReportTransactions`):
  - the range query;
  - `Collectors.groupingBy` on the result status as a fold;
  - `getReport`, with the partition and exactness lemmas.

Calls into collaborators become parameters or ghost logs:

- The gateway's answer is a parameter: a response, or a fault it throws.
- `LocalDate.now()` and the notification timestamp are parameters.
- Gateway calls and notifications are recorded in ghost logs.

Where the code does other than its names suggest, the model follows the code:

- The notification carries the source card number, although the parameter
  that receives it is named `dest` (`CardService.java:106`, `:113`).
- The transaction date is the unpadded concatenation of year, month and day,
  so it is neither injective nor in calendar order.
  `TransactionDateNotInjective`, `JanuaryEleventhIsNovemberFirst` and
  `TransactionDateNotMonotonic` state this as properties of the encoding.

## Model

| member | source | states |
|---|---|---|
| CardServices.ExistsByCardNumber | src/main/java/com/digipay/paymentservice/paymentservice/service/CardService.java:64 | true exactly when some stored card, of any member, has that number |
| CardServices.CardsOwnedBy | src/main/java/com/digipay/paymentservice/paymentservice/service/CardService.java:40 | findByMember_MemberNumberOrderById returns no more rows than the store holds, each owned by that member |
| CardServices.CardsOwnedByMembership | src/main/java/com/digipay/paymentservice/paymentservice/service/CardService.java:40 | the member's card query returns exactly the stored cards that member owns |
| CardServices.CardsOwnedByKeepsOrder | src/main/java/com/digipay/paymentservice/paymentservice/service/CardService.java:40 | the member's cards come back in increasing key order (OrderById) |
| CardServices.FindByCardNumberAndMember | src/main/java/com/digipay/paymentservice/paymentservice/service/CardService.java:49-51 | a found card is stored and has that number and that owner; nothing found means no stored card has both |
| CardServices.CheckMemberExists | src/main/java/com/digipay/paymentservice/paymentservice/service/CardService.java:123-127 | passes if and only if the member is registered, and otherwise fails with InvalidArgument |
| CardServices.GetMemberCards | src/main/java/com/digipay/paymentservice/paymentservice/service/CardService.java:37-42 | unknown member gives InvalidArgument; for a member, succeeds if and only if they own a card, otherwise NotFound; the list is non-empty, holds exactly the member's cards and keeps key order |
| CardServices.GetCardByNumberAndMemberNumber | src/main/java/com/digipay/paymentservice/paymentservice/service/CardService.java:45-52 | unknown member gives InvalidArgument; for a member, succeeds if and only if a stored card has that number and that owner, otherwise NotFound; the result is such a card |
| CardServices.OwnedCardIsFound | src/main/java/com/digipay/paymentservice/paymentservice/service/CardService.java:45-52 | with unique card numbers, looking up an owned card by its number and owner returns exactly that card |
| CardServices.MapperToTransaction | src/main/java/com/digipay/paymentservice/paymentservice/service/CardService.java:136-154 | fails with NumberFormat exactly when the date encoding exceeds int range; otherwise each field comes from the response, the request or the source card, and the date is the concatenated value of today |
| CardServices.NotificationsFor | src/main/java/com/digipay/paymentservice/paymentservice/service/CardService.java:105-107 | at most one notification, sent if and only if the status is SUCCESS, carrying the source card number and the amount |
| CardServices.RemoveFirst | src/main/java/com/digipay/paymentservice/paymentservice/service/CardService.java:87-88 | List.remove shortens the list by at most one element |
| CardServices.RemoveFirstRemovesOne | src/main/java/com/digipay/paymentservice/paymentservice/service/CardService.java:87-88 | List.remove takes away exactly one occurrence of the element when there is one, as a multiset, and leaves a list without it unchanged |
| CardServices.RemoveFirstSkips | src/main/java/com/digipay/paymentservice/paymentservice/service/CardService.java:87-88 | List.remove drops exactly the first occurrence of the element |
| CardServices.CutFromOwnedBy | src/main/java/com/digipay/paymentservice/paymentservice/service/CardService.java:87-89 | deleting a card from the store removes it from its owner's cards and leaves every other member's cards as they were |
| CardServices.AddCardKeepsStoresAgree | src/main/java/com/digipay/paymentservice/paymentservice/service/CardService.java:68-73 | appending a fresh-numbered card with the next key to its owner's list and to the store keeps lists and store in agreement, keys increasing and numbers unique |
| CardServices.RemoveCardKeepsStoresAgree | src/main/java/com/digipay/paymentservice/paymentservice/service/CardService.java:85-89 | removing a stored card from its owner's list and the store keeps them in agreement, and the store then holds every card except the one with that number |
| CardServices.CardService.Create | src/main/java/com/digipay/paymentservice/paymentservice/service/CardService.java:61-74 | succeeds if and only if the number is unused and the member exists; a number used by any member is AlreadyExists, checked first; an unknown member is NotFound; on failure nothing changes; on success the card, owned by the member and given the next key, is appended to the member's list and to the store, and no other member's list changes |
| CardServices.CardService.Remove | src/main/java/com/digipay/paymentservice/paymentservice/service/CardService.java:82-90 | succeeds if and only if the member exists and owns a card with that number; failure is NotFound and changes nothing; success removes that card from the member's list and the store, which then holds exactly the cards with other numbers |
| CardServices.CardService.Transfer | src/main/java/com/digipay/paymentservice/paymentservice/service/CardService.java:99-116 | an unowned source card fails before the gateway call and changes nothing; a gateway fault records nothing; a response notifies exactly on SUCCESS and saves the mapped record; success returns the response unchanged with exactly one new record whose payment id, status, card and date are as stated; a refused record rolls the log back |
| DateEncoding.DecimalString | src/main/java/com/digipay/paymentservice/paymentservice/service/CardService.java:146-148 | String.valueOf writes a non-empty string of digits without a leading zero, one digit exactly for values below ten |
| DateEncoding.IntegerValueOf | src/main/java/com/digipay/paymentservice/paymentservice/service/CardService.java:146 | Integer.valueOf fails on the empty string, and otherwise succeeds if and only if the value of the digits fits in an int, and then yields exactly that value |
| DateEncoding.DecimalRoundTrip | src/main/java/com/digipay/paymentservice/paymentservice/service/CardService.java:146-148 | reading back the text String.valueOf wrote gives the number again |
| DateEncoding.DecimalValueConcat | src/main/java/com/digipay/paymentservice/paymentservice/service/CardService.java:146-148 | the value of two digit strings written together is the first shifted by the second's length plus the second |
| DateEncoding.DateTextValue | src/main/java/com/digipay/paymentservice/paymentservice/service/CardService.java:146-148 | the concatenated date text reads back as year, month and day shifted by the digit counts that follow them |
| DateEncoding.EncodeTransactionDate | src/main/java/com/digipay/paymentservice/paymentservice/service/CardService.java:146-148 | the stored date is that concatenated value when it fits in an int, and a NumberFormatException otherwise |
| DateEncoding.CalendarDateEncodingFits | src/main/java/com/digipay/paymentservice/paymentservice/service/CardService.java:141-148 | every calendar date of a year up to 9999 encodes without overflow, below 100000000 |
| DateEncoding.TwoDigitMonthAndDayIsYyyymmdd | src/main/java/com/digipay/paymentservice/paymentservice/service/CardService.java:146-148 | with two-digit month and day the encoding is year*10000 + month*100 + day |
| DateEncoding.TransactionDateNotInjective | src/main/java/com/digipay/paymentservice/paymentservice/service/CardService.java:146-148 | in every year, 11 January and 1 November are different dates with the same text and the same stored date |
| DateEncoding.JanuaryEleventhIsNovemberFirst | src/main/java/com/digipay/paymentservice/paymentservice/service/CardService.java:146-148 | 2021-01-11 and 2021-11-01 are both stored as 2021111 |
| DateEncoding.TransactionDateNotMonotonic | src/main/java/com/digipay/paymentservice/paymentservice/service/CardService.java:146-148 | 15 February precedes 1 October of the same year yet is stored as the larger number |
| PaymentModel.Save | src/main/java/com/digipay/paymentservice/paymentservice/model/PaymentTransaction.java:23-44 | a record is stored if and only if its mandatory columns are set and its payment id is new; it gets the next generated key, is appended, and the log keeps mandatory columns, unique payment ids and distinct keys; otherwise ConstraintViolation |
| PaymentModel.ValidLogHasResults | src/main/java/com/digipay/paymentservice/paymentservice/model/PaymentTransaction.java:39-41 | every stored record has a result status and a payment id |
| ReportTransactions.ValidLogResultsPresent | src/main/java/com/digipay/paymentservice/paymentservice/service/ReportTransactionService.java:35-36 | every record of a log the repository accepted has a status, so grouping by `getResult` never meets a null key |
| ReportTransactions.FindByCardAndTransactionDateBetween | src/main/java/com/digipay/paymentservice/paymentservice/service/ReportTransactionService.java:30-31 | the range query returns no more rows than the log holds, each of that card with from <= date <= to |
| ReportTransactions.FetchedMultiset | src/main/java/com/digipay/paymentservice/paymentservice/service/ReportTransactionService.java:30-31 | the range query returns each of the card's in-range records as often as the log holds it, and no other record |
| ReportTransactions.FetchedMembers | src/main/java/com/digipay/paymentservice/paymentservice/service/ReportTransactionService.java:30-31 | a record is fetched if and only if it is in the log, is the card's and has from <= date <= to |
| ReportTransactions.FetchedIsSubsequence | src/main/java/com/digipay/paymentservice/paymentservice/service/ReportTransactionService.java:30-31 | the fetched records keep their log order |
| ReportTransactions.FetchConcat | src/main/java/com/digipay/paymentservice/paymentservice/service/ReportTransactionService.java:30-31 | the query over two log segments is the concatenation of the queries over each |
| ReportTransactions.WithResultSnoc | src/main/java/com/digipay/paymentservice/paymentservice/service/ReportTransactionService.java:35-36 | appending a record extends the list of its own status only |
| ReportTransactions.WithResultMembers | src/main/java/com/digipay/paymentservice/paymentservice/service/ReportTransactionService.java:35-36 | a status list holds exactly the records of that status |
| ReportTransactions.WithResultIsSubsequence | src/main/java/com/digipay/paymentservice/paymentservice/service/ReportTransactionService.java:35-36 | a status list keeps the records' order |
| ReportTransactions.GroupByResult | src/main/java/com/digipay/paymentservice/paymentservice/service/ReportTransactionService.java:35-36 | groupingBy has a key exactly for the statuses that occur, each mapped to the records of that status in encounter order |
| ReportTransactions.GroupingStep | src/main/java/com/digipay/paymentservice/paymentservice/service/ReportTransactionService.java:35-36 | adding the next record to the list of its status turns the grouping of the prefix into the grouping of the longer sequence |
| ReportTransactions.StatusListsPartition | src/main/java/com/digipay/paymentservice/paymentservice/service/ReportTransactionService.java:35-36 | the SUCCESS and FAILURE lists together are the records as a multiset |
| ReportTransactions.GroupsHoldTheirStatus | src/main/java/com/digipay/paymentservice/paymentservice/service/ReportTransactionService.java:35-36 | every group is non-empty and holds only records of its key, and every record is in the group of its status |
| ReportTransactions.GroupingPartitions | src/main/java/com/digipay/paymentservice/paymentservice/service/ReportTransactionService.java:35-36 | flattening the groups gives the records back as a multiset, and each group keeps their order |
| ReportTransactions.GetReport | src/main/java/com/digipay/paymentservice/paymentservice/service/ReportTransactionService.java:23-37 | every failure is NotFound; an unknown member fails; for a member, a report exists if and only if the card lookup succeeds and the log holds a record of that card in range |
| ReportTransactions.ReportGroupsAreExact | src/main/java/com/digipay/paymentservice/paymentservice/service/ReportTransactionService.java:28-36 | a report's card has the requested number and owner, every group is non-empty, and a record is listed under a status if and only if it is in the log, is that card's, is in range and has that status |
| ReportTransactions.FetchedGroupIsExact | src/main/java/com/digipay/paymentservice/paymentservice/service/ReportTransactionService.java:30-36 | the same exactness for the grouping of a card's fetched records |
| ReportTransactions.ReportPartitionsFetched | src/main/java/com/digipay/paymentservice/paymentservice/service/ReportTransactionService.java:30-36 | a report's groups flatten to the fetched records as a multiset, and each group keeps the log order |
| ReportTransactions.SubsequenceTransitive | src/main/java/com/digipay/paymentservice/paymentservice/service/ReportTransactionService.java:35-36 | an order-preserving selection of an order-preserving selection keeps the original order |
| ReportTransactions.SavedRecordIsReported | src/main/java/com/digipay/paymentservice/paymentservice/service/ReportTransactionService.java:28-36 | a record saved for a member's card appears in that card's report for any range holding its date, as the last entry of its status group |

## Left out

- The `RestTemplate` field of the card service is never used and is not modelled.
- Spring's declarative transactions are modelled only as "a failed call changes nothing". The gateway call and a notification made before a refused save are recorded in ghost logs and are not undone.
- CardServices.CardService.Transfer: a fault thrown by the notification service is not modelled. The notifier is taken never to fail, although in the code such a fault would abort the transfer before the record is saved.
- The payment gateway's internals: its answer is a parameter, either a response or a fault.
- `LocalDate.now()` and `new Date()`: the date and the notification timestamp are parameters.
- Negative years: a date's year is a natural number, although `LocalDate` also allows negative years, whose text starts with a minus sign.
- `BigDecimal` amounts are integers: no arithmetic is done on them.
- The source of Card.java, Member.java, PaymentDetails.java, PaymentProcessorResponse.java and MemberService.java is not part of this model. The datatypes `Card`, `PaymentDetails` and `PaymentProcessorResponse` carry only the fields the services read, with the nullable ones as `Option`.
  - The response status is taken to be SUCCESS or FAILURE.
  - A member lookup is membership in a set of member numbers.
- Spring Data query derivation and `Optional` wrapping: repositories are sequences with plain filters. An empty result of `findByMember_MemberNumberOrderById` and of `findByCardAndTransactionDateBetween` is taken as the empty `Optional`, so `GetMemberCards` and `GetReport` fail with NotFound on it. This is the behaviour the `orElseThrow` calls intend; if the framework instead hands back a present `Optional` holding an empty list, the code as written returns an empty list or an empty report, which the model does not capture.
- `findByCardAndTransactionDateBetween` declares no ordering; the model returns the records in log order, and `ReportPartitionsFetched` and `FetchedIsSubsequence` state order only for that choice.
- Member lookups through `MemberService.findByMemberNumber` (in `create`, `remove` and `getReport`) are assumed to fail with NotFound for an unknown member; that service is not part of this model, so the exception it throws is an assumption. The card lookups fail with InvalidArgument, as `checkMemberExists` shows.
- The database effect of deleting a card that stored transactions still reference (a foreign-key failure) is not modelled; `Remove` always succeeds for an owned card.
- A `null` `from` or `to` in `getReport` is not modelled: both are integers.
- JPA and Jackson annotations, logging and exception messages.
- Concurrency between requests.
