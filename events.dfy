/**
 The decoded events of one transaction, and the check every flow applies to
 them: keep the events of one type, then require exactly one, carrying the
 expected fields.
 */
module Events {
  import opened Ledger

  /** A decoded event of the vault, or any other event the transaction emitted. */
  datatype Event =
    | Deposited(user: Account, amount: nat)
    | Withdrawn(user: Account, amount: nat)
    | DepositLimitsUpdated(minAmount: nat, maxAmount: nat)
    | Other(name: string)

  /** The type of an event, as an `isinstance` test sees it. */
  datatype Kind = DepositedKind | WithdrawnKind | DepositLimitsUpdatedKind | OtherKind

  function KindOf(e: Event): (k: Kind)
  {
    match e
    case Deposited(_, _) => DepositedKind
    case Withdrawn(_, _) => WithdrawnKind
    case DepositLimitsUpdated(_, _) => DepositLimitsUpdatedKind
    case Other(_) => OtherKind
  }

  /** The events of type `k`, in the order they were emitted. */
  function OfKind(events: seq<Event>, k: Kind): (r: seq<Event>)
    ensures |r| <= |events|
    ensures forall e :: e in r ==> e in events && KindOf(e) == k
    ensures forall e :: e in events && KindOf(e) == k ==> e in r
    ensures r == [] <==> forall i :: 0 <= i < |events| ==> KindOf(events[i]) != k
  {
    if events == [] then []
    else
      var init, last := events[..|events| - 1], events[|events| - 1];
      assert events == init + [last];
      OfKind(init, k) + (if KindOf(last) == k then [last] else [])
  }

  /** Exactly one event of `expected`'s type was emitted, and it is `expected`. */
  predicate ExpectOne(events: seq<Event>, expected: Event)
  {
    var found := OfKind(events, KindOf(expected));
    |found| == 1 && found[0] == expected
  }

  /** `expected` occurs at position `i` and no other position holds an event of its type. */
  ghost predicate OnlyAt(events: seq<Event>, expected: Event, i: int)
  {
    && 0 <= i < |events|
    && events[i] == expected
    && forall j :: 0 <= j < |events| && j != i ==> KindOf(events[j]) != KindOf(expected)
  }

  /** Splitting off the last event: it joins the filtered events exactly when it has type `k`. */
  lemma OfKindSnoc(init: seq<Event>, last: Event, k: Kind)
    ensures OfKind(init + [last], k) == OfKind(init, k) + (if KindOf(last) == k then [last] else [])
  {
    assert (init + [last])[..|init|] == init;
  }

  /** A passing event check pins down the one position of `expected`. */
  lemma {:induction false} ExpectOneOnlyAt(events: seq<Event>, expected: Event) returns (i: nat)
    requires ExpectOne(events, expected)
    ensures OnlyAt(events, expected, i)
  {
    var k, n := KindOf(expected), |events|;
    var init, last := events[..n - 1], events[n - 1];
    assert events == init + [last];
    OfKindSnoc(init, last, k);
    if KindOf(last) == k {
      assert OfKind(init, k) == [];
      i := n - 1;
    } else {
      i := ExpectOneOnlyAt(init, expected);
    }
  }

  /** An event that occurs once, with no other event of its type, passes the check. */
  lemma {:induction false} OnlyAtExpectOne(events: seq<Event>, expected: Event, i: nat)
    requires OnlyAt(events, expected, i)
    ensures ExpectOne(events, expected)
  {
    var k, n := KindOf(expected), |events|;
    var init, last := events[..n - 1], events[n - 1];
    assert events == init + [last];
    OfKindSnoc(init, last, k);
    if i == n - 1 {
      assert forall j :: 0 <= j < |init| ==> init[j] == events[j];
      assert OfKind(init, k) == [];
    } else {
      assert OnlyAt(init, expected, i);
      OnlyAtExpectOne(init, expected, i);
    }
  }

  /** The event check passes exactly when one position holds `expected` and no other holds its type. */
  lemma ExpectOneIffUnique(events: seq<Event>, expected: Event)
    ensures ExpectOne(events, expected) <==> exists i :: OnlyAt(events, expected, i)
  {
    if ExpectOne(events, expected) {
      var i := ExpectOneOnlyAt(events, expected);
    }
    if i :| OnlyAt(events, expected, i) {
      OnlyAtExpectOne(events, expected, i);
    }
  }

  /** The filtering loop of a flow: collects the events of type `k` one by one. */
  method CollectEvents(events: seq<Event>, k: Kind) returns (r: seq<Event>)
    ensures r == OfKind(events, k)
  {
    r := [];
    var i := 0;
    while i < |events|
      invariant 0 <= i <= |events|
      invariant r == OfKind(events[..i], k)
    {
      assert events[..i + 1][..i] == events[..i];
      if KindOf(events[i]) == k {
        r := r + [events[i]];
      }
      i := i + 1;
    }
    assert events[..|events|] == events;
  }

  /**
   The check of the deposit and withdraw flows: collect the events of
   `expected`'s type, then require exactly one, with `expected`'s fields.
   */
  method CheckEvent(events: seq<Event>, expected: Event) returns (ok: bool)
    ensures ok <==> ExpectOne(events, expected)
  {
    var found := CollectEvents(events, KindOf(expected));
    ok := |found| == 1 && found[0] == expected;
  }

  /** The check of the limits flow: one DepositLimitsUpdated event, with the new bounds. */
  function ExpectLimitsUpdated(events: seq<Event>, minAmount: nat, maxAmount: nat): (ok: bool)
    ensures ok <==> ExpectOne(events, DepositLimitsUpdated(minAmount, maxAmount))
  {
    var found := OfKind(events, DepositLimitsUpdatedKind);
    assert found != [] ==> found[0] in found && KindOf(found[0]) == DepositLimitsUpdatedKind;
    |found| == 1 && found[0].minAmount == minAmount && found[0].maxAmount == maxAmount
  }
}
