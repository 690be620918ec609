/** The transaction report: a card's transactions whose stored date lies in an
    inclusive range, grouped by their result status. */
module ReportTransactions {
  import opened Outcomes
  import opened PaymentModel
  import opened CardServices

  /** Every record carries a status (the `result` column is NOT NULL). */
  predicate ResultsPresent(log: seq<PaymentTransaction>) {
    forall i :: 0 <= i < |log| ==> log[i].result.Some?
  }

  /** A log the repository accepted has no record without a status. */
  lemma {:induction false} ValidLogResultsPresent(log: seq<PaymentTransaction>, nextId: nat)
    requires ValidLog(log, nextId)
    ensures ResultsPresent(log)
  {
    forall i | 0 <= i < |log| ensures log[i].result.Some? {
      ValidLogHasResults(log, nextId, log[i]);
    }
  }

  predicate InRange(t: PaymentTransaction, card: Card, from: int, to: int) {
    t.card == card && from <= t.transactionDate <= to
  }

  /** `a` is `b` with some elements left out, the rest in their order. */
  predicate IsSubsequence<T(==)>(a: seq<T>, b: seq<T>)
    decreases |b|
  {
    a == [] || (b != [] && ((a[0] == b[0] && IsSubsequence(a[1..], b[1..])) || IsSubsequence(a, b[1..])))
  }

  /** reportTransactionRepository.findByCardAndTransactionDateBetween: the
      card's records with from <= transactionDate <= to, in log order. */
  function FindByCardAndTransactionDateBetween(log: seq<PaymentTransaction>, card: Card, from: int, to: int)
    : (r: seq<PaymentTransaction>)
    ensures |r| <= |log|
    ensures forall i :: 0 <= i < |r| ==> InRange(r[i], card, from, to)
  {
    if log == [] then []
    else (if InRange(log[0], card, from, to) then [log[0]] else [])
         + FindByCardAndTransactionDateBetween(log[1..], card, from, to)
  }

  /** The fetched records are those of the log that are the card's and in
      range, each as often as the log holds it. */
  lemma {:induction false} FetchedMultiset(log: seq<PaymentTransaction>, card: Card, from: int, to: int)
    ensures var r := FindByCardAndTransactionDateBetween(log, card, from, to);
      forall t :: multiset(r)[t] == if InRange(t, card, from, to) then multiset(log)[t] else 0
  {
    if log != [] {
      FetchedMultiset(log[1..], card, from, to);
      assert log == [log[0]] + log[1..];
    }
  }

  /** The fetched records are exactly the card's records in range. */
  lemma {:induction false} FetchedMembers(log: seq<PaymentTransaction>, card: Card, from: int, to: int)
    ensures forall t :: t in FindByCardAndTransactionDateBetween(log, card, from, to) <==> t in log && InRange(t, card, from, to)
  {
    if log != [] {
      FetchedMembers(log[1..], card, from, to);
      assert log == [log[0]] + log[1..];
    }
  }

  /** The fetched records keep their order in the log. */
  lemma {:induction false} FetchedIsSubsequence(log: seq<PaymentTransaction>, card: Card, from: int, to: int)
    ensures IsSubsequence(FindByCardAndTransactionDateBetween(log, card, from, to), log)
  {
    if log != [] {
      var rest := FindByCardAndTransactionDateBetween(log[1..], card, from, to);
      FetchedIsSubsequence(log[1..], card, from, to);
      if InRange(log[0], card, from, to) {
        var r := [log[0]] + rest;
        assert r[0] == log[0] && r[1..] == rest;
      } else {
        assert [] + rest == rest;
      }
    }
  }

  lemma {:induction false} FetchConcat(a: seq<PaymentTransaction>, b: seq<PaymentTransaction>, card: Card, from: int, to: int)
    ensures FindByCardAndTransactionDateBetween(a + b, card, from, to)
         == FindByCardAndTransactionDateBetween(a, card, from, to) + FindByCardAndTransactionDateBetween(b, card, from, to)
  {
    if a == [] {
      assert a + b == b;
    } else {
      assert (a + b)[0] == a[0];
      assert (a + b)[1..] == a[1..] + b;
      FetchConcat(a[1..], b, card, from, to);
    }
  }

  /** The records of `ts` whose status is `k`, in order. */
  function WithResult(ts: seq<PaymentTransaction>, k: Status): seq<PaymentTransaction> {
    if ts == [] then []
    else (if ts[0].result == Some(k) then [ts[0]] else []) + WithResult(ts[1..], k)
  }

  /** Adding a record at the end adds it to the list of its own status only. */
  lemma {:induction false} WithResultSnoc(ts: seq<PaymentTransaction>, t: PaymentTransaction, k: Status)
    ensures WithResult(ts + [t], k) == WithResult(ts, k) + (if t.result == Some(k) then [t] else [])
  {
    var last := if t.result == Some(k) then [t] else [];
    if ts == [] {
      assert ts + [t] == [t];
      assert WithResult([t], k) == last + WithResult([], k);
      assert last + [] == last;
    } else {
      var u := ts + [t];
      assert u[0] == ts[0];
      assert u[1..] == ts[1..] + [t];
      WithResultSnoc(ts[1..], t, k);
      var head := if ts[0].result == Some(k) then [ts[0]] else [];
      var rest := WithResult(ts[1..], k);
      assert WithResult(u, k) == head + (rest + last);
      assert WithResult(ts, k) == head + rest;
      assert head + (rest + last) == (head + rest) + last;
    }
  }

  /** The status list holds the records of that status and no other. */
  lemma {:induction false} WithResultMembers(ts: seq<PaymentTransaction>, k: Status)
    ensures forall t :: t in WithResult(ts, k) <==> t in ts && t.result == Some(k)
  {
    if ts != [] {
      WithResultMembers(ts[1..], k);
      assert ts == [ts[0]] + ts[1..];
    }
  }

  lemma {:induction false} WithResultIsSubsequence(ts: seq<PaymentTransaction>, k: Status)
    ensures IsSubsequence(WithResult(ts, k), ts)
  {
    if ts != [] {
      var rest := WithResult(ts[1..], k);
      WithResultIsSubsequence(ts[1..], k);
      if ts[0].result == Some(k) {
        var r := [ts[0]] + rest;
        assert r[0] == ts[0] && r[1..] == rest;
      } else {
        assert [] + rest == rest;
      }
    }
  }

  /** Collectors.groupingBy(PaymentTransaction::getResult): each record, in
      encounter order, is appended to the list of its status, the list being
      created on the status's first record. The map holds exactly the
      statuses that occur, and the list of each is the records with that
      status in order. */
  function GroupByResult(ts: seq<PaymentTransaction>): (g: map<Status, seq<PaymentTransaction>>)
    requires ResultsPresent(ts)
    ensures forall k :: k in g <==> WithResult(ts, k) != []
    ensures forall k :: k in g ==> g[k] == WithResult(ts, k)
  {
    if ts == [] then map[]
    else
      var front, t := ts[..|ts| - 1], ts[|ts| - 1];
      assert ts == front + [t];
      assert ResultsPresent(front) by {
        forall i | 0 <= i < |front| ensures front[i].result.Some? {
          assert front[i] == ts[i];
        }
      }
      var g := GroupByResult(front);
      GroupingStep(front, t, g);
      g[t.result.value := Group(g, t.result.value) + [t]]
  }

  /** One step of the grouping: appending a record to the list of its status
      turns the grouping of `front` into the grouping of `front + [t]`. */
  lemma {:induction false} GroupingStep(front: seq<PaymentTransaction>, t: PaymentTransaction, g: map<Status, seq<PaymentTransaction>>)
    requires t.result.Some?
    requires forall k :: k in g <==> WithResult(front, k) != []
    requires forall k :: k in g ==> g[k] == WithResult(front, k)
    ensures var g' := g[t.result.value := Group(g, t.result.value) + [t]];
      && (forall k :: k in g' <==> WithResult(front + [t], k) != [])
      && (forall k :: k in g' ==> g'[k] == WithResult(front + [t], k))
  {
    forall k
      ensures WithResult(front + [t], k) == WithResult(front, k) + (if t.result == Some(k) then [t] else [])
    {
      WithResultSnoc(front, t, k);
    }
  }

  /** Splitting the records by status loses and duplicates nothing: the two
      status lists together hold the records as a multiset. */
  lemma {:induction false} StatusListsPartition(ts: seq<PaymentTransaction>)
    requires ResultsPresent(ts)
    ensures multiset(WithResult(ts, Success)) + multiset(WithResult(ts, Failure)) == multiset(ts)
  {
    if ts != [] {
      ResultsPresentTail(ts);
      StatusListsPartition(ts[1..]);
      HeadAndTail(ts);
      var s, f := WithResult(ts[1..], Success), WithResult(ts[1..], Failure);
      match ts[0].result.value
      case Success =>
        assert WithResult(ts, Success) == [ts[0]] + s;
        assert WithResult(ts, Failure) == [] + f;
      case Failure =>
        assert WithResult(ts, Success) == [] + s;
        assert WithResult(ts, Failure) == [ts[0]] + f;
    }
  }

  lemma {:induction false} ResultsPresentTail(ts: seq<PaymentTransaction>)
    requires ResultsPresent(ts) && ts != []
    ensures ts[0].result.Some? && ResultsPresent(ts[1..])
  {
    assert forall i :: 0 <= i < |ts[1..]| ==> ts[1..][i] == ts[i + 1];
  }

  lemma {:induction false} HeadAndTail<T>(ts: seq<T>)
    requires ts != []
    ensures multiset(ts) == multiset{ts[0]} + multiset(ts[1..])
  {
    assert ts == [ts[0]] + ts[1..];
  }

  /** The list of a status as it appears in the report, or none. */
  function Group(g: map<Status, seq<PaymentTransaction>>, k: Status): seq<PaymentTransaction> {
    if k in g then g[k] else []
  }

  /** All groups of a report, one after the other. */
  function Flatten(g: map<Status, seq<PaymentTransaction>>): seq<PaymentTransaction> {
    Group(g, Success) + Group(g, Failure)
  }

  /** Every group is non-empty and holds records of its own status only,
      and every record is in the group of its status. */
  lemma {:induction false} GroupsHoldTheirStatus(ts: seq<PaymentTransaction>)
    requires ResultsPresent(ts)
    ensures var g := GroupByResult(ts);
      && (forall k :: k in g ==> g[k] != [])
      && (forall k, t :: k in g && t in g[k] ==> t in ts && t.result == Some(k))
      && (forall t :: t in ts ==> t.result.value in g && t in g[t.result.value])
  {
    var g := GroupByResult(ts);
    forall k | k in g
      ensures forall t :: t in g[k] ==> t in ts && t.result == Some(k)
    {
      WithResultMembers(ts, k);
    }
    forall t | t in ts
      ensures t.result.value in g && t in g[t.result.value]
    {
      var i :| 0 <= i < |ts| && ts[i] == t;
      WithResultMembers(ts, t.result.value);
    }
  }

  /** The grouping is a partition of the records: the groups together give
      them back as a multiset, so every record lands in exactly one group,
      and each group keeps their order. */
  lemma {:induction false} GroupingPartitions(ts: seq<PaymentTransaction>)
    requires ResultsPresent(ts)
    ensures var g := GroupByResult(ts);
      && (forall k :: k in g ==> IsSubsequence(g[k], ts))
      && multiset(Flatten(g)) == multiset(ts)
  {
    var g := GroupByResult(ts);
    forall k | k in g
      ensures IsSubsequence(g[k], ts)
    {
      WithResultIsSubsequence(ts, k);
    }
    StatusListsPartition(ts);
    assert Group(g, Success) == WithResult(ts, Success);
    assert Group(g, Failure) == WithResult(ts, Failure);
  }

  /** getReport: an unknown member is not found (memberService), so is a card
      number the member does not own, and so is a card without transactions
      in [from, to]; in every other case there is a report. */
  function GetReport(members: set<MemberNumber>, cards: seq<Card>, log: seq<PaymentTransaction>,
                     memberNumber: MemberNumber, cardNumber: string, from: int, to: int)
    : (r: Result<map<Status, seq<PaymentTransaction>>>)
    requires ResultsPresent(log)
    ensures r.Err? ==> r.error == NotFound
    ensures memberNumber !in members ==> r.Err?
    ensures memberNumber in members ==>
      var card := GetCardByNumberAndMemberNumber(members, cards, cardNumber, memberNumber);
      r.Ok? <==> card.Ok? && exists i :: 0 <= i < |log| && InRange(log[i], card.value, from, to)
  {
    if memberNumber !in members then Err(NotFound)
    else
      match GetCardByNumberAndMemberNumber(members, cards, cardNumber, memberNumber)
      case Err(_) => Err(NotFound)
      case Ok(card) =>
        var fetched := FindByCardAndTransactionDateBetween(log, card, from, to);
        FetchedMembers(log, card, from, to);
        if fetched == [] then
          Err(NotFound)
        else
          assert fetched[0] in fetched;
          assert ResultsPresent(fetched) by {
            forall i | 0 <= i < |fetched| ensures fetched[i].result.Some? {
              assert fetched[i] in fetched;
            }
          }
          Ok(GroupByResult(fetched))
  }

  /** What a report holds: every status it lists maps to a non-empty list,
      and a transaction is listed under a status exactly when it is in the
      log, is the looked-up card's, lies in [from, to] and has that status. */
  lemma {:induction false} ReportGroupsAreExact(members: set<MemberNumber>, cards: seq<Card>,
                                                log: seq<PaymentTransaction>, memberNumber: MemberNumber,
                                                cardNumber: string, from: int, to: int,
                                                k: Status, t: PaymentTransaction)
    requires ResultsPresent(log)
    requires GetReport(members, cards, log, memberNumber, cardNumber, from, to).Ok?
    ensures GetCardByNumberAndMemberNumber(members, cards, cardNumber, memberNumber).Ok?
    ensures var card := GetCardByNumberAndMemberNumber(members, cards, cardNumber, memberNumber).value;
      var g := GetReport(members, cards, log, memberNumber, cardNumber, from, to).value;
      && card.cardNumber == cardNumber && card.owner == memberNumber
      && (k in g ==> g[k] != [])
      && (t in Group(g, k) <==> t in log && t.result == Some(k) && InRange(t, card, from, to))
  {
    var card := GetCardByNumberAndMemberNumber(members, cards, cardNumber, memberNumber).value;
    FetchedGroupIsExact(log, card, from, to, k, t);
  }

  /** The same, for the grouping of a card's fetched records. */
  lemma {:induction false} FetchedGroupIsExact(log: seq<PaymentTransaction>, card: Card, from: int, to: int,
                                               k: Status, t: PaymentTransaction)
    requires ResultsPresent(log)
    ensures ResultsPresent(FindByCardAndTransactionDateBetween(log, card, from, to))
    ensures var g := GroupByResult(FindByCardAndTransactionDateBetween(log, card, from, to));
      && (k in g ==> g[k] != [])
      && (t in Group(g, k) <==> t in log && t.result == Some(k) && InRange(t, card, from, to))
  {
    var fetched := FindByCardAndTransactionDateBetween(log, card, from, to);
    FetchedMembers(log, card, from, to);
    assert ResultsPresent(fetched) by {
      forall i | 0 <= i < |fetched| ensures fetched[i].result.Some? {
        assert fetched[i] in fetched;
      }
    }
    var g := GroupByResult(fetched);
    WithResultMembers(fetched, k);
    assert Group(g, k) == WithResult(fetched, k);
  }

  /** The report's groups together are the fetched records, each exactly
      once, and each group keeps the order the records have in the log. */
  lemma {:induction false} ReportPartitionsFetched(members: set<MemberNumber>, cards: seq<Card>,
                                                   log: seq<PaymentTransaction>, memberNumber: MemberNumber,
                                                   cardNumber: string, from: int, to: int)
    requires ResultsPresent(log)
    requires GetReport(members, cards, log, memberNumber, cardNumber, from, to).Ok?
    ensures GetCardByNumberAndMemberNumber(members, cards, cardNumber, memberNumber).Ok?
    ensures var card := GetCardByNumberAndMemberNumber(members, cards, cardNumber, memberNumber).value;
      var fetched := FindByCardAndTransactionDateBetween(log, card, from, to);
      var g := GetReport(members, cards, log, memberNumber, cardNumber, from, to).value;
      && multiset(Flatten(g)) == multiset(fetched)
      && (forall k :: k in g ==> IsSubsequence(g[k], log))
  {
    var card := GetCardByNumberAndMemberNumber(members, cards, cardNumber, memberNumber).value;
    var fetched := FindByCardAndTransactionDateBetween(log, card, from, to);
    FetchedMembers(log, card, from, to);
    FetchedIsSubsequence(log, card, from, to);
    assert ResultsPresent(fetched) by {
      forall i | 0 <= i < |fetched| ensures fetched[i].result.Some? {
        assert fetched[i] in fetched;
      }
    }
    GroupingPartitions(fetched);
    var g := GetReport(members, cards, log, memberNumber, cardNumber, from, to).value;
    assert g == GroupByResult(fetched);
    forall k | k in g
      ensures IsSubsequence(g[k], log)
    {
      SubsequenceTransitive(g[k], fetched, log);
    }
  }

  lemma {:induction false} SubsequenceTransitive<T>(a: seq<T>, b: seq<T>, c: seq<T>)
    requires IsSubsequence(a, b) && IsSubsequence(b, c)
    ensures IsSubsequence(a, c)
    decreases |c|
  {
    if a != [] {
      assert b != [] && c != [];
      if b[0] == c[0] && IsSubsequence(b[1..], c[1..]) {
        if a[0] == b[0] && IsSubsequence(a[1..], b[1..]) {
          SubsequenceTransitive(a[1..], b[1..], c[1..]);
        } else {
          SubsequenceTransitive(a, b[1..], c[1..]);
        }
      } else {
        SubsequenceTransitive(a, b, c[1..]);
      }
    }
  }

  /** A record saved for a card appears in that card's report for any range
      containing its date, as the last entry of its status's group. */
  lemma {:induction false} SavedRecordIsReported(members: set<MemberNumber>, cards: seq<Card>,
                                                 log: seq<PaymentTransaction>, nextId: nat,
                                                 record: PaymentTransaction, memberNumber: MemberNumber,
                                                 cardNumber: string, from: int, to: int)
    requires ValidLog(log, nextId)
    requires GetCardByNumberAndMemberNumber(members, cards, cardNumber, memberNumber) == Ok(record.card)
    requires Save(log, nextId, record).Ok?
    requires from <= record.transactionDate <= to
    ensures ResultsPresent(Save(log, nextId, record).value)
    ensures var r := GetReport(members, cards, Save(log, nextId, record).value, memberNumber, cardNumber, from, to);
      && r.Ok?
      && record.result.value in r.value
      && var group := r.value[record.result.value];
         group != [] && group[|group| - 1] == record.(id := nextId)
  {
    var log' := Save(log, nextId, record).value;
    var saved := record.(id := nextId);
    assert log' == log + [saved];
    ValidLogResultsPresent(log', nextId + 1);
    var card := record.card;
    assert memberNumber in members;
    assert InRange(log'[|log|], card, from, to);
    var fetched := FindByCardAndTransactionDateBetween(log', card, from, to);
    FetchConcat(log, [saved], card, from, to);
    var front := FindByCardAndTransactionDateBetween(log, card, from, to);
    assert FindByCardAndTransactionDateBetween([saved], card, from, to) == [saved] by {
      assert [saved][1..] == [];
    }
    assert fetched == front + [saved];
    FetchedMembers(log', card, from, to);
    assert ResultsPresent(fetched) by {
      forall i | 0 <= i < |fetched| ensures fetched[i].result.Some? {
        assert fetched[i] in fetched;
      }
    }
    var k := saved.result.value;
    WithResultSnoc(front, saved, k);
    assert GetReport(members, cards, log', memberNumber, cardNumber, from, to) == Ok(GroupByResult(fetched));
  }
}
