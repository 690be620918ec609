/** The card service: owner-scoped card lookups, card creation and removal,
    and the transfer workflow that calls the payment gateway, notifies on
    success and records one transaction per returned gateway response.

    The repositories are fields of `CardService`; the gateway's answer, the
    clock and the timestamp of the notification are parameters; the gateway
    and notifier calls are kept in ghost logs. */
module CardServices {
  import opened Outcomes
  import opened PaymentModel
  import opened DateEncoding

  /** The transfer request: source card, destination card and amount. */
  datatype PaymentDetails = PaymentDetails(source: string, dest: Option<string>, amount: Option<int>)

  /** What the gateway returns; each field may be null. */
  datatype PaymentProcessorResponse =
    PaymentProcessorResponse(paymentId: Option<int>, status: Option<Status>, description: Option<string>)

  /** One call of gateway.transfer: a returned response, or a thrown fault. */
  datatype GatewayOutcome = Responded(response: PaymentProcessorResponse) | Fault

  /** One call of notificationService.notify. */
  datatype Notification = Notification(cardNumber: string, amount: Option<int>, sentAt: int)

  // ---------------------------------------------------------------------------
  // The card store as a sequence of rows in generated-key order
  // ---------------------------------------------------------------------------

  predicate IdsIncreasing(cards: seq<Card>) {
    forall i, j :: 0 <= i < j < |cards| ==> cards[i].id < cards[j].id
  }

  predicate NumbersDistinct(cards: seq<Card>) {
    forall i, j :: 0 <= i < j < |cards| ==> cards[i].cardNumber != cards[j].cardNumber
  }

  /** cardRepository.existsByCardNumber: is the number used by any card of any member? */
  function ExistsByCardNumber(cards: seq<Card>, cardNumber: string): (b: bool)
    ensures b <==> exists i :: 0 <= i < |cards| && cards[i].cardNumber == cardNumber
  {
    if cards == [] then false
    else cards[0].cardNumber == cardNumber || ExistsByCardNumber(cards[1..], cardNumber)
  }

  /** cardRepository.findByMember_MemberNumberOrderById: the member's cards, in
      the store's key order. */
  function CardsOwnedBy(cards: seq<Card>, memberNumber: MemberNumber): (r: seq<Card>)
    ensures |r| <= |cards|
    ensures forall i :: 0 <= i < |r| ==> r[i].owner == memberNumber
  {
    if cards == [] then []
    else (if cards[0].owner == memberNumber then [cards[0]] else []) + CardsOwnedBy(cards[1..], memberNumber)
  }

  /** The member's cards are exactly the stored cards with that owner. */
  lemma {:induction false} CardsOwnedByMembership(cards: seq<Card>, memberNumber: MemberNumber)
    ensures forall c :: c in CardsOwnedBy(cards, memberNumber) <==> c in cards && c.owner == memberNumber
  {
    if cards != [] {
      CardsOwnedByMembership(cards[1..], memberNumber);
      assert cards == [cards[0]] + cards[1..];
    }
  }

  /** The member's cards come out in the store's key order. */
  lemma {:induction false} CardsOwnedByKeepsOrder(cards: seq<Card>, memberNumber: MemberNumber)
    ensures IdsIncreasing(cards) ==> IdsIncreasing(CardsOwnedBy(cards, memberNumber))
  {
    if cards != [] && IdsIncreasing(cards) {
      var tail := CardsOwnedBy(cards[1..], memberNumber);
      CardsOwnedByKeepsOrder(cards[1..], memberNumber);
      CardsOwnedByMembership(cards[1..], memberNumber);
      var r := CardsOwnedBy(cards, memberNumber);
      if cards[0].owner == memberNumber {
        forall j | 0 <= j < |tail| ensures cards[0].id < tail[j].id {
          var k :| 0 <= k < |cards[1..]| && cards[1..][k] == tail[j];
          assert cards[k + 1] == tail[j];
        }
        forall a, b | 0 <= a < b < |r| ensures r[a].id < r[b].id {
          assert r[b] == tail[b - 1];
          if a > 0 {
            assert r[a] == tail[a - 1];
          }
        }
      }
    }
  }

  /** cardRepository.findByCardNumberAndMember_MemberNumber: the first card
      with that number and that owner. */
  function FindByCardNumberAndMember(cards: seq<Card>, cardNumber: string, memberNumber: MemberNumber)
    : (r: Option<Card>)
    ensures r.Some? ==> r.value in cards && r.value.cardNumber == cardNumber && r.value.owner == memberNumber
    ensures r.None? ==> forall i :: 0 <= i < |cards| ==> !(cards[i].cardNumber == cardNumber && cards[i].owner == memberNumber)
  {
    if cards == [] then None
    else if cards[0].cardNumber == cardNumber && cards[0].owner == memberNumber then Some(cards[0])
    else FindByCardNumberAndMember(cards[1..], cardNumber, memberNumber)
  }

  // ---------------------------------------------------------------------------
  // Pure operations of the service
  // ---------------------------------------------------------------------------

  /** checkMemberExists: passes exactly for registered members, and otherwise
      throws IllegalArgumentException. */
  function CheckMemberExists(members: set<MemberNumber>, memberNumber: MemberNumber): (r: Outcome)
    ensures r.Pass? <==> memberNumber in members
    ensures r.Fail? ==> r.error == InvalidArgument
  {
    if memberNumber in members then Pass else Fail(InvalidArgument)
  }

  /** getMemberCards: every card of the member and no other, in key order;
      an unknown member is an invalid argument and a member without cards is
      not found. */
  function GetMemberCards(members: set<MemberNumber>, cards: seq<Card>, memberNumber: MemberNumber)
    : (r: Result<seq<Card>>)
    ensures memberNumber !in members ==> r == Err(InvalidArgument)
    ensures memberNumber in members ==>
      (r.Ok? <==> exists i :: 0 <= i < |cards| && cards[i].owner == memberNumber)
    ensures memberNumber in members && r.Err? ==> r.error == NotFound
    ensures r.Ok? ==> r.value != [] && forall c :: c in r.value <==> c in cards && c.owner == memberNumber
    ensures r.Ok? && IdsIncreasing(cards) ==> IdsIncreasing(r.value)
  {
    var check := CheckMemberExists(members, memberNumber);
    if check.Fail? then Err(check.error)
    else
      var owned := CardsOwnedBy(cards, memberNumber);
      CardsOwnedByMembership(cards, memberNumber);
      CardsOwnedByKeepsOrder(cards, memberNumber);
      if owned == [] then
        assert forall i :: 0 <= i < |cards| ==> cards[i] !in owned;
        Err(NotFound)
      else
        assert owned[0] in cards;
        Ok(owned)
  }

  /** getCardByNumberAndMemberNumber: the card with exactly that number and
      that owner. An unknown member is an invalid argument; a number that the
      member does not own (absent, or another member's) is not found. */
  function GetCardByNumberAndMemberNumber(members: set<MemberNumber>, cards: seq<Card>,
                                          cardNumber: string, memberNumber: MemberNumber)
    : (r: Result<Card>)
    ensures memberNumber !in members ==> r == Err(InvalidArgument)
    ensures memberNumber in members ==>
      (r.Ok? <==> exists i :: 0 <= i < |cards| && cards[i].cardNumber == cardNumber && cards[i].owner == memberNumber)
    ensures memberNumber in members && r.Err? ==> r.error == NotFound
    ensures r.Ok? ==> r.value in cards && r.value.cardNumber == cardNumber && r.value.owner == memberNumber
  {
    var check := CheckMemberExists(members, memberNumber);
    if check.Fail? then Err(check.error)
    else
      match FindByCardNumberAndMember(cards, cardNumber, memberNumber)
      case Some(c) => Ok(c)
      case None => Err(NotFound)
  }

  /** With card numbers unique in the store, the lookup returns the very card
      the member owns under that number. */
  lemma {:induction false} OwnedCardIsFound(members: set<MemberNumber>, cards: seq<Card>, c: Card)
    requires NumbersDistinct(cards)
    requires c in cards && c.owner in members
    ensures GetCardByNumberAndMemberNumber(members, cards, c.cardNumber, c.owner) == Ok(c)
  {
    var r := GetCardByNumberAndMemberNumber(members, cards, c.cardNumber, c.owner);
    var i :| 0 <= i < |cards| && cards[i] == c;
    var j :| 0 <= j < |cards| && cards[j] == r.value;
    if i < j {
      assert cards[i].cardNumber != cards[j].cardNumber;
    } else if j < i {
      assert cards[j].cardNumber != cards[i].cardNumber;
    }
  }

  /** mapperToTransaction: a record whose payment id, status and description
      come from the gateway response, whose amount and destination come from
      the request, whose card is the source card and whose date is today's
      unpadded encoding; Integer.valueOf rejects an encoding beyond int range. */
  function MapperToTransaction(sourceCard: Card, details: PaymentDetails,
                               response: PaymentProcessorResponse, today: LocalDate)
    : (r: Result<PaymentTransaction>)
    ensures r.Err? <==> EncodeTransactionDate(today).None?
    ensures r.Err? ==> r.error == NumberFormat
    ensures r.Ok? ==>
      && r.value.paymentId == response.paymentId
      && r.value.result == response.status
      && r.value.description == response.description
      && r.value.amountTransaction == details.amount
      && r.value.destinationCardNumber == details.dest
      && r.value.card == sourceCard
      && r.value.transactionDate == ConcatenatedValue(today)
      && r.value.id == 0
  {
    match EncodeTransactionDate(today)
    case None => Err(NumberFormat)
    case Some(date) =>
      Ok(PaymentTransaction(
        paymentId := response.paymentId,
        id := 0,
        destinationCardNumber := details.dest,
        transactionDate := date,
        amountTransaction := details.amount,
        description := response.description,
        result := response.status,
        card := sourceCard))
  }

  /** The notification a transfer sends: only on SUCCESS, and for the source
      card and the amount. */
  function NotificationsFor(details: PaymentDetails, response: PaymentProcessorResponse, now: int)
    : (r: seq<Notification>)
    ensures |r| <= 1
    ensures r != [] <==> response.status == Some(Success)
    ensures forall n :: n in r ==> n.cardNumber == details.source && n.amount == details.amount
  {
    if response.status == Some(Success) then [Notification(details.source, details.amount, now)] else []
  }

  // ---------------------------------------------------------------------------
  // Lemmas about the store sequences
  // ---------------------------------------------------------------------------

  /** The owner filter distributes over concatenation of the store. */
  lemma {:induction false} CardsOwnedByConcat(a: seq<Card>, b: seq<Card>, memberNumber: MemberNumber)
    ensures CardsOwnedBy(a + b, memberNumber) == CardsOwnedBy(a, memberNumber) + CardsOwnedBy(b, memberNumber)
  {
    if a != [] {
      assert (a + b)[1..] == a[1..] + b;
      CardsOwnedByConcat(a[1..], b, memberNumber);
    } else {
      assert a + b == b;
    }
  }

  /** List.remove: drop the first element equal to `x`. */
  function RemoveFirst<T(==)>(s: seq<T>, x: T): (r: seq<T>)
    ensures |s| - 1 <= |r| <= |s|
  {
    if s == [] then []
    else if s[0] == x then s[1..]
    else [s[0]] + RemoveFirst(s[1..], x)
  }

  /** List.remove takes away one occurrence of `x` when there is one, and
      nothing else. */
  lemma {:induction false} RemoveFirstRemovesOne<T>(s: seq<T>, x: T)
    ensures multiset(RemoveFirst(s, x)) == multiset(s) - multiset{x}
    ensures x !in s ==> RemoveFirst(s, x) == s
  {
    if s != [] {
      assert s == [s[0]] + s[1..];
      RemoveFirstRemovesOne(s[1..], x);
    }
  }

  /** Removing the first occurrence of `x` from a sequence in which `x` first
      appears after the prefix `a` drops exactly that occurrence. */
  lemma {:induction false} RemoveFirstSkips<T>(a: seq<T>, x: T, b: seq<T>)
    requires x !in a
    ensures RemoveFirst(a + [x] + b, x) == a + b
  {
    if a == [] {
      assert a + [x] + b == [x] + b;
    } else {
      assert (a + [x] + b)[0] == a[0];
      assert (a + [x] + b)[1..] == a[1..] + [x] + b;
      RemoveFirstSkips(a[1..], x, b);
      assert a + b == [a[0]] + (a[1..] + b);
    }
  }

  /** Cutting the card at index `i` out of the store removes it from its
      owner's cards and leaves every other member's cards as they were. */
  lemma {:induction false} CutFromOwnedBy(cards: seq<Card>, i: nat, m: MemberNumber)
    requires i < |cards| && cards[i] !in cards[..i]
    ensures CardsOwnedBy(cards[..i] + cards[i + 1..], m)
         == if cards[i].owner == m then RemoveFirst(CardsOwnedBy(cards, m), cards[i]) else CardsOwnedBy(cards, m)
  {
    var c, before, after := cards[i], cards[..i], cards[i + 1..];
    assert cards == before + [c] + after;
    CardsOwnedByConcat(before + [c], after, m);
    CardsOwnedByConcat(before, [c], m);
    CardsOwnedByConcat(before, after, m);
    var ob, oc, oa := CardsOwnedBy(before, m), CardsOwnedBy([c], m), CardsOwnedBy(after, m);
    assert oc == if c.owner == m then [c] else [] by {
      assert [c][1..] == [];
    }
    assert CardsOwnedBy(cards, m) == ob + oc + oa;
    if c.owner == m {
      CardsOwnedByMembership(before, m);
      RemoveFirstSkips(ob, c, oa);
    } else {
      assert ob + oc + oa == ob + oa;
    }
  }

  /** Cutting one index out of the store keeps key order and unique numbers. */
  lemma {:induction false} CutKeepsStoreOrder(s: seq<Card>, i: nat)
    requires i < |s|
    requires IdsIncreasing(s) && NumbersDistinct(s)
    ensures IdsIncreasing(s[..i] + s[i + 1..]) && NumbersDistinct(s[..i] + s[i + 1..])
  {
    var t := s[..i] + s[i + 1..];
    forall a, b | 0 <= a < b < |t|
      ensures t[a].id < t[b].id && t[a].cardNumber != t[b].cardNumber
    {
      var a', b' := if a < i then a else a + 1, if b < i then b else b + 1;
      assert t[a] == s[a'] && t[b] == s[b'] && a' < b';
    }
  }

  /** The cut store holds every card except the one at index `i`. */
  lemma {:induction false} CutContents(s: seq<Card>, i: nat)
    requires i < |s| && NumbersDistinct(s)
    ensures forall x :: x in s[..i] + s[i + 1..] <==> x in s && x.cardNumber != s[i].cardNumber
  {
    var t := s[..i] + s[i + 1..];
    forall x
      ensures x in t <==> x in s && x.cardNumber != s[i].cardNumber
    {
      if x in t {
        var k :| 0 <= k < |t| && t[k] == x;
        var k' := if k < i then k else k + 1;
        assert s[k'] == x && k' != i;
        if k' < i {
          assert s[k'].cardNumber != s[i].cardNumber;
        } else {
          assert s[i].cardNumber != s[k'].cardNumber;
        }
      }
      if x in s && x.cardNumber != s[i].cardNumber {
        var k :| 0 <= k < |s| && s[k] == x;
        assert k != i;
        if k < i {
          assert t[k] == x;
        } else {
          assert t[k - 1] == x;
        }
      }
    }
  }

  /** Appending `x` with a key above every stored key keeps key order. */
  lemma {:induction false} AppendKeepsStoreOrder(s: seq<Card>, x: Card)
    requires IdsIncreasing(s) && NumbersDistinct(s)
    requires forall i :: 0 <= i < |s| ==> s[i].id < x.id && s[i].cardNumber != x.cardNumber
    ensures IdsIncreasing(s + [x]) && NumbersDistinct(s + [x])
  {
    var t := s + [x];
    forall a, b | 0 <= a < b < |t|
      ensures t[a].id < t[b].id && t[a].cardNumber != t[b].cardNumber
    {
      assert t[a] == s[a];
      if b < |s| {
        assert t[b] == s[b];
      }
    }
  }

  /** The card stores agree: every card belongs to a registered member and
      has a key below the next one, keys increase along the store, card
      numbers are unique system-wide, and each member's card list is exactly
      that member's cards in the store. */
  ghost predicate StoresAgree(members: set<MemberNumber>, cardLists: map<MemberNumber, seq<Card>>,
                              cards: seq<Card>, nextCardId: nat)
  {
    && cardLists.Keys == members
    && (forall i :: 0 <= i < |cards| ==> cards[i].owner in members && cards[i].id < nextCardId)
    && IdsIncreasing(cards)
    && NumbersDistinct(cards)
    && (forall m :: m in cardLists ==> cardLists[m] == CardsOwnedBy(cards, m))
  }

  /** Adding a card with a fresh number and the next key to the member's list
      and to the store keeps the stores in agreement. */
  lemma {:induction false} AddCardKeepsStoresAgree(members: set<MemberNumber>, cardLists: map<MemberNumber, seq<Card>>,
                                                   cards: seq<Card>, nextCardId: nat, saved: Card)
    requires StoresAgree(members, cardLists, cards, nextCardId)
    requires saved.owner in members && saved.id == nextCardId
    requires !ExistsByCardNumber(cards, saved.cardNumber)
    ensures StoresAgree(members, cardLists[saved.owner := cardLists[saved.owner] + [saved]], cards + [saved], nextCardId + 1)
  {
    AppendKeepsStoreOrder(cards, saved);
    var lists' := cardLists[saved.owner := cardLists[saved.owner] + [saved]];
    forall m | m in lists'
      ensures lists'[m] == CardsOwnedBy(cards + [saved], m)
    {
      CardsOwnedByConcat(cards, [saved], m);
      assert CardsOwnedBy([saved], m) == (if saved.owner == m then [saved] else []) by {
        assert [saved][1..] == [];
      }
    }
  }

  /** Cutting the card at index `i` out of the store and out of its owner's
      list keeps the stores in agreement. */
  lemma {:induction false} CutKeepsStoresAgree(members: set<MemberNumber>, cardLists: map<MemberNumber, seq<Card>>,
                                               cards: seq<Card>, nextCardId: nat, i: nat)
    requires StoresAgree(members, cardLists, cards, nextCardId)
    requires i < |cards| && cards[i] !in cards[..i]
    ensures cards[i].owner in cardLists
    ensures StoresAgree(members, cardLists[cards[i].owner := RemoveFirst(cardLists[cards[i].owner], cards[i])],
                        cards[..i] + cards[i + 1..], nextCardId)
  {
    var c := cards[i];
    CutKeepsStoreOrder(cards, i);
    var cards' := cards[..i] + cards[i + 1..];
    var lists' := cardLists[c.owner := RemoveFirst(cardLists[c.owner], c)];
    forall m | m in lists'
      ensures lists'[m] == CardsOwnedBy(cards', m)
    {
      CutFromOwnedBy(cards, i, m);
    }
    forall k | 0 <= k < |cards'|
      ensures cards'[k].owner in members && cards'[k].id < nextCardId
    {
      if k < i {
        assert cards'[k] == cards[k];
      } else {
        assert cards'[k] == cards[k + 1];
      }
    }
  }

  /** Removing a stored card from its owner's list and from the store keeps
      the stores in agreement, and the store then holds every card except
      the one with that number. */
  lemma {:induction false} RemoveCardKeepsStoresAgree(members: set<MemberNumber>, cardLists: map<MemberNumber, seq<Card>>,
                                                      cards: seq<Card>, nextCardId: nat, c: Card)
    requires StoresAgree(members, cardLists, cards, nextCardId)
    requires c in cards
    ensures c.owner in cardLists
    ensures StoresAgree(members, cardLists[c.owner := RemoveFirst(cardLists[c.owner], c)], RemoveFirst(cards, c), nextCardId)
    ensures forall x :: x in RemoveFirst(cards, c) <==> x in cards && x.cardNumber != c.cardNumber
  {
    var i :| 0 <= i < |cards| && cards[i] == c;
    assert c !in cards[..i] by {
      forall k | 0 <= k < i ensures cards[k] != c {
        assert cards[k].id < cards[i].id;
      }
    }
    assert cards == cards[..i] + [c] + cards[i + 1..];
    RemoveFirstSkips(cards[..i], c, cards[i + 1..]);
    CutContents(cards, i);
    CutKeepsStoresAgree(members, cardLists, cards, nextCardId, i);
  }

  // ---------------------------------------------------------------------------
  // The service and its stores
  // ---------------------------------------------------------------------------

  class CardService {
    /** The member directory (memberService). */
    var members: set<MemberNumber>
    /** Each member's `cardList` collection. */
    var cardLists: map<MemberNumber, seq<Card>>
    /** The card repository, in generated-key order. */
    var cards: seq<Card>
    var nextCardId: nat
    /** The transaction repository, in generated-key order. */
    var transactions: seq<PaymentTransaction>
    var nextTransactionId: nat
    /** Every request handed to the gateway, and every notification sent. */
    ghost var gatewayCalls: seq<PaymentDetails>
    ghost var notifications: seq<Notification>

    /** The card stores agree and the transaction log satisfies its table
        constraints. */
    ghost predicate Valid()
      reads this
    {
      && StoresAgree(members, cardLists, cards, nextCardId)
      && ValidLog(transactions, nextTransactionId)
    }

    constructor (registered: set<MemberNumber>)
      ensures Valid()
      ensures members == registered && cards == [] && transactions == []
      ensures forall m :: m in cardLists ==> cardLists[m] == []
      ensures gatewayCalls == [] && notifications == []
    {
      members := registered;
      cardLists := map m | m in registered :: [];
      cards := [];
      nextCardId := 0;
      transactions := [];
      nextTransactionId := 0;
      gatewayCalls := [];
      notifications := [];
    }

    /** create: a card number already used by any member is rejected before
        anything changes; an unknown member is not found; otherwise the card,
        now owned by the member, gets the next key and is appended to the
        member's list and to the store, and no other member's list changes. */
    method Create(memberNumber: MemberNumber, card: Card) returns (r: Result<Card>)
      requires Valid()
      modifies this
      ensures Valid()
      ensures old(ExistsByCardNumber(cards, card.cardNumber)) ==> r == Err(AlreadyExists)
      ensures !old(ExistsByCardNumber(cards, card.cardNumber)) && memberNumber !in old(members) ==> r == Err(NotFound)
      ensures r.Ok? <==> !old(ExistsByCardNumber(cards, card.cardNumber)) && memberNumber in old(members)
      ensures r.Err? ==> unchanged(this)
      ensures r.Ok? ==>
        && memberNumber in old(members)
        && r.value == card.(id := old(nextCardId), owner := memberNumber)
        && cards == old(cards) + [r.value]
        && cardLists == old(cardLists)[memberNumber := old(cardLists[memberNumber]) + [r.value]]
        && nextCardId == old(nextCardId) + 1
        && members == old(members)
        && transactions == old(transactions) && nextTransactionId == old(nextTransactionId)
        && gatewayCalls == old(gatewayCalls) && notifications == old(notifications)
      ensures r.Ok? ==> forall m :: m in cardLists && m != memberNumber ==> cardLists[m] == old(cardLists[m])
    {
      if ExistsByCardNumber(cards, card.cardNumber) {
        return Err(AlreadyExists);
      }
      if memberNumber !in members {
        return Err(NotFound);
      }
      var saved := card.(id := nextCardId, owner := memberNumber);
      AddCardKeepsStoresAgree(members, cardLists, cards, nextCardId, saved);
      cardLists := cardLists[memberNumber := cardLists[memberNumber] + [saved]];
      cards := cards + [saved];
      nextCardId := nextCardId + 1;
      r := Ok(saved);
    }

    /** remove: an unknown member is not found, and so is a card number the
        member does not own; nothing changes then. Otherwise exactly the card
        with that number leaves the member's list and the store. */
    method Remove(memberNumber: MemberNumber, cardNumber: string) returns (r: Result<()>)
      requires Valid()
      modifies this
      ensures Valid()
      ensures r.Err? ==> r.error == NotFound && unchanged(this)
      ensures r.Ok? <==>
        memberNumber in old(members) && old(GetCardByNumberAndMemberNumber(members, cards, cardNumber, memberNumber)).Ok?
      ensures r.Ok? ==>
        var c := old(GetCardByNumberAndMemberNumber(members, cards, cardNumber, memberNumber)).value;
        && cards == RemoveFirst(old(cards), c)
        && cardLists == old(cardLists)[memberNumber := RemoveFirst(old(cardLists[memberNumber]), c)]
        && members == old(members) && nextCardId == old(nextCardId)
        && transactions == old(transactions) && nextTransactionId == old(nextTransactionId)
        && gatewayCalls == old(gatewayCalls) && notifications == old(notifications)
      ensures r.Ok? ==> forall x :: x in cards <==> x in old(cards) && x.cardNumber != cardNumber
    {
      if memberNumber !in members {
        return Err(NotFound);
      }
      var found := GetCardByNumberAndMemberNumber(members, cards, cardNumber, memberNumber);
      if found.Err? {
        return Err(found.error);
      }
      var c := found.value;
      RemoveCardKeepsStoresAgree(members, cardLists, cards, nextCardId, c);
      cardLists := cardLists[memberNumber := RemoveFirst(cardLists[memberNumber], c)];
      cards := RemoveFirst(cards, c);
      r := Ok(());
    }

    /** transfer: a source card the member does not own fails before the
        gateway is called. Otherwise the gateway is called once; a thrown
        fault ends the call with nothing recorded. A returned response sends
        one notification exactly when its status is SUCCESS, then the mapped
        record is saved; the response comes back unchanged once the record is
        stored. A record the store refuses rolls the log back, but the gateway
        call and any notification have already happened. */
    method Transfer(memberNumber: MemberNumber, details: PaymentDetails, gateway: GatewayOutcome,
                    today: LocalDate, now: int)
      returns (r: Result<PaymentProcessorResponse>)
      requires Valid()
      modifies this
      ensures Valid()
      ensures members == old(members) && cardLists == old(cardLists)
      ensures cards == old(cards) && nextCardId == old(nextCardId)
      ensures var source := old(GetCardByNumberAndMemberNumber(members, cards, details.source, memberNumber));
        && (source.Err? ==> r == Err(source.error) && unchanged(this))
        && (source.Ok? ==> gatewayCalls == old(gatewayCalls) + [details])
        && (source.Ok? && gateway.Fault? ==>
              && r == Err(GatewayFault)
              && notifications == old(notifications)
              && transactions == old(transactions) && nextTransactionId == old(nextTransactionId))
        && (source.Ok? && gateway.Responded? ==>
              var response := gateway.response;
              var record := MapperToTransaction(source.value, details, response, today);
              var saved := if record.Ok? then old(Save(transactions, nextTransactionId, record.value))
                           else Err(record.error);
              && notifications == old(notifications) + NotificationsFor(details, response, now)
              && (saved.Ok? ==> r == Ok(response) && transactions == saved.value
                                && nextTransactionId == old(nextTransactionId) + 1)
              && (saved.Err? ==> r == Err(saved.error) && transactions == old(transactions)
                                 && nextTransactionId == old(nextTransactionId)))
      ensures r.Ok? ==>
        && gateway.Responded? && r.value == gateway.response
        && |transactions| == |old(transactions)| + 1
        && transactions[..|old(transactions)|] == old(transactions)
        && var t := transactions[|old(transactions)|];
           && t.paymentId == r.value.paymentId && t.result == r.value.status
           && t.card.cardNumber == details.source && t.card.owner == memberNumber
           && Some(t.transactionDate) == EncodeTransactionDate(today)
    {
      var found := GetCardByNumberAndMemberNumber(members, cards, details.source, memberNumber);
      if found.Err? {
        return Err(found.error);
      }
      var sourceCard := found.value;
      gatewayCalls := gatewayCalls + [details];
      if gateway.Fault? {
        return Err(GatewayFault);
      }
      var response := gateway.response;
      // sendNotification (notificationService.notify) runs only for a successful payment
      notifications := notifications + NotificationsFor(details, response, now);
      var record := MapperToTransaction(sourceCard, details, response, today);
      if record.Err? {
        return Err(record.error);
      }
      var saved := Save(transactions, nextTransactionId, record.value);
      if saved.Err? {
        return Err(saved.error);
      }
      var t := saved.value[|transactions|];
      assert t == record.value.(id := nextTransactionId);
      transactions := saved.value;
      nextTransactionId := nextTransactionId + 1;
      r := Ok(response);
    }
  }
}
