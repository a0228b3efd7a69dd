/**
 * The share and balance arithmetic of services/bill-service/src/split_calculator.cpp:
 * `calculateExpenseShares` and the balance fold that both
 * `calculateUserBalances` and `calculateEventSettlements` perform. Amounts
 * are exact reals. A JSON array is a sequence; a value that is not an array
 * is treated like the empty array, which is what every `is_array()` guard
 * of the source amounts to.
 */
module SplitCalculator {
  import opened Wrappers

  /** `ExpenseShare`. */
  datatype Share = Share(userId: string, amount: real, percentage: real)

  // ---------------------------------------------------------------------------
  // calculateExpenseShares
  // ---------------------------------------------------------------------------

  /** The sum of the share amounts. */
  function SumAmounts(shares: seq<Share>): real {
    if |shares| == 0 then 0.0 else SumAmounts(shares[..|shares| - 1]) + shares[|shares| - 1].amount
  }

  /** The sum of the share percentages. */
  function SumPercentages(shares: seq<Share>): real {
    if |shares| == 0 then 0.0 else SumPercentages(shares[..|shares| - 1]) + shares[|shares| - 1].percentage
  }

  /** The ids of `ids` that `custom` has an entry for, in their order, repeats kept. */
  function KnownIds(ids: seq<string>, custom: map<string, real>): (r: seq<string>)
    ensures |r| <= |ids|
    ensures forall id :: id in r <==> id in ids && id in custom
  {
    if |ids| == 0 then []
    else
      var front := KnownIds(ids[..|ids| - 1], custom);
      var id := ids[|ids| - 1];
      assert ids == ids[..|ids| - 1] + [id];
      if id in custom then front + [id] else front
  }

  /** The equal split: one share per id, in order. */
  function EqualShares(total: real, ids: seq<string>): (r: seq<Share>)
    ensures |r| == |ids|
    ensures forall k :: 0 <= k < |r| ==> r[k].userId == ids[k]
  {
    seq(|ids|, k requires 0 <= k < |ids| => Share(ids[k], total / (|ids| as real), 100.0 / (|ids| as real)))
  }

  /** A percentage share: the listed percentage, and that fraction of the total. */
  predicate IsPercentageShare(sh: Share, total: real, custom: map<string, real>) {
    sh.userId in custom && sh.percentage == custom[sh.userId] && sh.amount == total * sh.percentage / 100.0
  }

  /**
   * `(amount / total) * 100.0`. With a zero total the double division gives
   * an infinity or NaN, which a real cannot hold; the model puts 0.0 there.
   */
  function PercentOf(amount: real, total: real): real {
    if total == 0.0 then 0.0 else amount / total * 100.0
  }

  /** A custom share: the listed amount, and its fraction of the total in percent. */
  predicate IsCustomShare(sh: Share, total: real, custom: map<string, real>) {
    sh.userId in custom && sh.amount == custom[sh.userId] && sh.percentage == PercentOf(sh.amount, total)
  }

  /** The shares go to exactly the ids `custom` knows, in the order of `ids`. */
  predicate OwnedInOrder(r: seq<Share>, ids: seq<string>, custom: map<string, real>) {
    && |r| == |KnownIds(ids, custom)|
    && forall k :: 0 <= k < |r| ==> r[k].userId == KnownIds(ids, custom)[k]
  }

  lemma OwnedInOrderExtend(r: seq<Share>, ids: seq<string>, custom: map<string, real>, sh: Share, id: string)
    requires OwnedInOrder(r, ids, custom)
    ensures id in custom && sh.userId == id ==> OwnedInOrder(r + [sh], ids + [id], custom)
    ensures id !in custom ==> OwnedInOrder(r, ids + [id], custom)
  {
    assert (ids + [id])[..|ids|] == ids;
  }

  lemma SharesAppend(front: seq<Share>, sh: Share)
    ensures forall k :: 0 <= k < |front| ==> (front + [sh])[k] == front[k]
    ensures (front + [sh])[|front|] == sh
  {
  }

  /** One more id keeps the percentage shares owned in order and well formed. */
  lemma PercentageStep(total: real, pre: seq<string>, id: string, custom: map<string, real>, front: seq<Share>)
    requires OwnedInOrder(front, pre, custom)
    requires forall k :: 0 <= k < |front| ==> IsPercentageShare(front[k], total, custom)
    ensures id in custom ==>
      var r := front + [Share(id, total * custom[id] / 100.0, custom[id])];
      OwnedInOrder(r, pre + [id], custom) && forall k :: 0 <= k < |r| ==> IsPercentageShare(r[k], total, custom)
    ensures id !in custom ==> OwnedInOrder(front, pre + [id], custom)
  {
    if id in custom {
      var sh := Share(id, total * custom[id] / 100.0, custom[id]);
      OwnedInOrderExtend(front, pre, custom, sh, id);
      SharesAppend(front, sh);
    } else {
      OwnedInOrderExtend(front, pre, custom, Share(id, 0.0, 0.0), id);
    }
  }

  /** One more id keeps the custom shares owned in order and well formed. */
  lemma CustomStep(total: real, pre: seq<string>, id: string, custom: map<string, real>, front: seq<Share>)
    requires OwnedInOrder(front, pre, custom)
    requires forall k :: 0 <= k < |front| ==> IsCustomShare(front[k], total, custom)
    ensures id in custom ==>
      var r := front + [Share(id, custom[id], PercentOf(custom[id], total))];
      OwnedInOrder(r, pre + [id], custom) && forall k :: 0 <= k < |r| ==> IsCustomShare(r[k], total, custom)
    ensures id !in custom ==> OwnedInOrder(front, pre + [id], custom)
  {
    if id in custom {
      var sh := Share(id, custom[id], PercentOf(custom[id], total));
      OwnedInOrderExtend(front, pre, custom, sh, id);
      SharesAppend(front, sh);
    } else {
      OwnedInOrderExtend(front, pre, custom, Share(id, 0.0, 0.0), id);
    }
  }

  /** The percentage split: `custom` holds percentages. */
  function PercentageShares(total: real, ids: seq<string>, custom: map<string, real>): (r: seq<Share>)
    ensures OwnedInOrder(r, ids, custom)
    ensures forall k :: 0 <= k < |r| ==> IsPercentageShare(r[k], total, custom)
  {
    if |ids| == 0 then []
    else
      var front := PercentageShares(total, ids[..|ids| - 1], custom);
      var id := ids[|ids| - 1];
      PercentageStep(total, ids[..|ids| - 1], id, custom, front);
      assert ids[..|ids| - 1] + [id] == ids;
      if id in custom then front + [Share(id, total * custom[id] / 100.0, custom[id])] else front
  }

  /** The custom split: `custom` holds amounts. */
  function CustomShares(total: real, ids: seq<string>, custom: map<string, real>): (r: seq<Share>)
    ensures OwnedInOrder(r, ids, custom)
    ensures forall k :: 0 <= k < |r| ==> IsCustomShare(r[k], total, custom)
  {
    if |ids| == 0 then []
    else
      var front := CustomShares(total, ids[..|ids| - 1], custom);
      var id := ids[|ids| - 1];
      CustomStep(total, ids[..|ids| - 1], id, custom, front);
      assert ids[..|ids| - 1] + [id] == ids;
      if id in custom then front + [Share(id, custom[id], PercentOf(custom[id], total))] else front
  }

  /**
   * `calculateExpenseShares`. "equal" splits evenly over every id; the
   * percentage and custom splits need a non-empty `custom` and keep only
   * the ids it names; anything else yields no share.
   */
  function CalculateExpenseShares(total: real, splitType: string, ids: seq<string>,
                                  custom: map<string, real>): (r: seq<Share>)
    ensures splitType == "equal" ==>
      && |r| == |ids|
      && forall k :: 0 <= k < |r| ==>
           r[k].userId == ids[k] && r[k].amount * (|ids| as real) == total && r[k].percentage * (|ids| as real) == 100.0
    ensures splitType == "percentage" && |custom| > 0 ==>
      OwnedInOrder(r, ids, custom) && forall k :: 0 <= k < |r| ==> IsPercentageShare(r[k], total, custom)
    ensures splitType == "custom" && |custom| > 0 ==>
      OwnedInOrder(r, ids, custom) && forall k :: 0 <= k < |r| ==> IsCustomShare(r[k], total, custom)
    ensures splitType != "equal" && (|custom| == 0 || (splitType != "percentage" && splitType != "custom")) ==> r == []
    ensures |ids| == 0 ==> r == []
  {
    if splitType == "equal" then
      var r := EqualShares(total, ids);
      assert forall k :: 0 <= k < |r| ==> r[k].amount * (|ids| as real) == total && r[k].percentage * (|ids| as real) == 100.0;
      r
    else if splitType == "percentage" && |custom| > 0 then PercentageShares(total, ids, custom)
    else if splitType == "custom" && |custom| > 0 then CustomShares(total, ids, custom)
    else []
  }

  lemma {:induction false} SumOfEqualAmounts(shares: seq<Share>, a: real, p: real)
    requires forall k :: 0 <= k < |shares| ==> shares[k].amount == a && shares[k].percentage == p
    ensures SumAmounts(shares) == (|shares| as real) * a
    ensures SumPercentages(shares) == (|shares| as real) * p
    decreases |shares|
  {
    if |shares| > 0 {
      SumOfEqualAmounts(shares[..|shares| - 1], a, p);
    }
  }

  /** An equal split over at least one id shares out exactly the total and 100 percent. */
  lemma EqualSplitSums(total: real, ids: seq<string>)
    requires |ids| > 0
    ensures SumAmounts(CalculateExpenseShares(total, "equal", ids, map[])) == total
    ensures SumPercentages(CalculateExpenseShares(total, "equal", ids, map[])) == 100.0
  {
    var n := |ids| as real;
    SumOfEqualAmounts(EqualShares(total, ids), total / n, 100.0 / n);
  }

  /** Percentage shares hand out `total` times their percentages over 100. */
  lemma {:induction false} PercentageSharesScale(shares: seq<Share>, total: real, custom: map<string, real>)
    requires forall k :: 0 <= k < |shares| ==> IsPercentageShare(shares[k], total, custom)
    ensures SumAmounts(shares) == total * SumPercentages(shares) / 100.0
    decreases |shares|
  {
    if |shares| > 0 {
      var front, sh := shares[..|shares| - 1], shares[|shares| - 1];
      PercentageSharesScale(front, total, custom);
      var a, p := SumAmounts(front), SumPercentages(front);
      assert IsPercentageShare(sh, total, custom);
      assert a + total * sh.percentage / 100.0 == total * (p + sh.percentage) / 100.0;
    }
  }

  /** So when the listed percentages add up to 100 the shares add up to the total. */
  lemma PercentageSplitCoversTotal(total: real, ids: seq<string>, custom: map<string, real>)
    requires |custom| > 0
    requires SumPercentages(CalculateExpenseShares(total, "percentage", ids, custom)) == 100.0
    ensures SumAmounts(CalculateExpenseShares(total, "percentage", ids, custom)) == total
  {
    var shares := CalculateExpenseShares(total, "percentage", ids, custom);
    PercentageSharesCover(shares, total, custom);
  }

  /** Percentage shares whose percentages add up to 100 add up to the total. */
  lemma PercentageSharesCover(shares: seq<Share>, total: real, custom: map<string, real>)
    requires forall k :: 0 <= k < |shares| ==> IsPercentageShare(shares[k], total, custom)
    requires SumPercentages(shares) == 100.0
    ensures SumAmounts(shares) == total
  {
    PercentageSharesScale(shares, total, custom);
    HundredPercentIsWhole(total, SumPercentages(shares));
  }

  lemma HundredPercentIsWhole(total: real, p: real)
    requires p == 100.0
    ensures total * p / 100.0 == total
  {
  }

  /** Custom shares carry their amounts as percentages of the total. */
  lemma {:induction false} CustomSharesScale(shares: seq<Share>, total: real, custom: map<string, real>)
    requires total != 0.0
    requires forall k :: 0 <= k < |shares| ==> IsCustomShare(shares[k], total, custom)
    ensures SumPercentages(shares) == SumAmounts(shares) / total * 100.0
    decreases |shares|
  {
    if |shares| > 0 {
      var front, sh := shares[..|shares| - 1], shares[|shares| - 1];
      CustomSharesScale(front, total, custom);
      var a, p := SumAmounts(front), SumPercentages(front);
      assert IsCustomShare(sh, total, custom);
      assert p + sh.amount / total * 100.0 == (a + sh.amount) / total * 100.0;
    }
  }

  /** So when the custom amounts add up to the total the percentages add up to 100. */
  lemma CustomSplitCoversHundred(total: real, ids: seq<string>, custom: map<string, real>)
    requires total != 0.0 && |custom| > 0
    requires SumAmounts(CalculateExpenseShares(total, "custom", ids, custom)) == total
    ensures SumPercentages(CalculateExpenseShares(total, "custom", ids, custom)) == 100.0
  {
    var shares := CalculateExpenseShares(total, "custom", ids, custom);
    CustomSharesScale(shares, total, custom);
    WholeIsHundredPercent(SumAmounts(shares), total);
  }

  lemma WholeIsHundredPercent(a: real, total: real)
    requires total != 0.0 && a == total
    ensures a / total * 100.0 == 100.0
  {
  }

  // ---------------------------------------------------------------------------
  // The balance fold of calculateUserBalances and calculateEventSettlements
  // ---------------------------------------------------------------------------

  /** A participant row: `user_id` may be absent. */
  datatype Participant = Participant(userId: Option<string>)

  /** An expense row: `payer_id`, `amount` and `split_type` may each be absent. */
  datatype Expense = Expense(payerId: Option<string>, amount: Option<real>, splitType: Option<string>)

  /** `std::map<std::string, double> balances`. */
  type Balances = map<string, real>

  /** The number of participant rows whose `user_id` is `id`. */
  function RowsOf(ps: seq<Participant>, id: string): nat {
    if |ps| == 0 then 0
    else RowsOf(ps[..|ps| - 1], id) + (if ps[|ps| - 1].userId == Some(id) then 1 else 0)
  }

  /** The `user_id` of every participant that has one, in order, repeats kept. */
  function ParticipantIds(ps: seq<Participant>): (ids: seq<string>)
    ensures |ids| <= |ps|
    ensures forall id :: id in ids <==> Participant(Some(id)) in ps
    ensures forall id :: Occurrences(ids, id) == RowsOf(ps, id)
  {
    if |ps| == 0 then []
    else
      var front := ParticipantIds(ps[..|ps| - 1]);
      var p := ps[|ps| - 1];
      assert ps == ps[..|ps| - 1] + [p];
      if p.userId.Some? then
        var ids := front + [p.userId.value];
        assert ids[..|ids| - 1] == front;
        ids
      else front
  }

  /** Collecting the ids of two runs of rows collects the first run's ids, then the second's. */
  lemma {:induction false} ParticipantIdsAppend(ps: seq<Participant>, qs: seq<Participant>)
    ensures ParticipantIds(ps + qs) == ParticipantIds(ps) + ParticipantIds(qs)
    decreases |qs|
  {
    if |qs| == 0 {
      assert ps + qs == ps;
    } else {
      var front := qs[..|qs| - 1];
      assert (ps + qs)[..|ps + qs| - 1] == ps + front;
      ParticipantIdsAppend(ps, front);
    }
  }

  /** Every participant id with a zero balance. */
  function InitialBalances(ps: seq<Participant>): (b: Balances)
    ensures forall id :: id in b <==> Participant(Some(id)) in ps
    ensures forall id :: id in b ==> b[id] == 0.0
  {
    map id | id in ParticipantIds(ps) :: 0.0
  }

  /** The number of times `id` occurs in `ids`. */
  function Occurrences(ids: seq<string>, id: string): nat {
    if |ids| == 0 then 0
    else Occurrences(ids[..|ids| - 1], id) + (if ids[|ids| - 1] == id then 1 else 0)
  }

  /** `n` copies of `x` added up. */
  function Times(n: nat, x: real): real {
    if n == 0 then 0.0 else Times(n - 1, x) + x
  }

  /** The total of the shares that `id` owes. */
  function OwedBy(shares: seq<Share>, id: string): real {
    if |shares| == 0 then 0.0
    else OwedBy(shares[..|shares| - 1], id) + (if shares[|shares| - 1].userId == id then shares[|shares| - 1].amount else 0.0)
  }

  /** `balances[payerId] += amount` when the payer is tracked. */
  function Credit(b: Balances, id: string, amount: real): Balances {
    if id in b then b[id := b[id] + amount] else b
  }

  /** `balances[share.userId] -= share.amount` for every tracked share, in order. */
  function DebitShares(b: Balances, shares: seq<Share>): (r: Balances)
    ensures r.Keys == b.Keys
    ensures forall id :: id in r ==> r[id] == b[id] - OwedBy(shares, id)
  {
    if |shares| == 0 then b
    else
      var s := shares[|shares| - 1];
      var front := DebitShares(b, shares[..|shares| - 1]);
      if s.userId in front then front[s.userId := front[s.userId] - s.amount] else front
  }

  /** The change one expense makes to the balance of `id`. */
  function ExpenseEffect(ids: seq<string>, e: Expense, id: string): real {
    if e.payerId.None? || e.amount.None? || |ids| == 0 then 0.0
    else
      var paid := if e.payerId.value == id then e.amount.value else 0.0;
      if e.splitType.GetOr("equal") == "equal"
      then paid - Times(Occurrences(ids, id), e.amount.value / (|ids| as real))
      else paid
  }

  lemma {:induction false} OwedByEqualShares(shares: seq<Share>, ids: seq<string>, a: real, id: string)
    requires |shares| == |ids|
    requires forall k :: 0 <= k < |shares| ==> shares[k].userId == ids[k] && shares[k].amount == a
    ensures OwedBy(shares, id) == Times(Occurrences(ids, id), a)
    decreases |ids|
  {
    if |ids| > 0 {
      OwedByEqualShares(shares[..|shares| - 1], ids[..|ids| - 1], a, id);
    }
  }

  /**
   * One expense of the fold. An expense without payer or amount, or a fold
   * without participant ids, changes nothing; otherwise the tracked payer is
   * credited the amount and, for an equal split, every tracked id is debited
   * its share once per occurrence in the id list. A percentage or custom
   * split gets no custom shares here, so it only credits the payer.
   */
  function ApplyExpense(b: Balances, ids: seq<string>, e: Expense): (r: Balances)
    ensures r.Keys == b.Keys
    ensures forall id :: id in r ==> r[id] == b[id] + ExpenseEffect(ids, e, id)
  {
    if e.payerId.None? || e.amount.None? || |ids| == 0 then b
    else
      var shares := CalculateExpenseShares(e.amount.value, e.splitType.GetOr("equal"), ids, map[]);
      CountedExpenseEffect(b, ids, e);
      DebitShares(Credit(b, e.payerId.value, e.amount.value), shares)
  }

  lemma CountedExpenseEffect(b: Balances, ids: seq<string>, e: Expense)
    requires e.payerId.Some? && e.amount.Some? && |ids| > 0
    ensures var shares := CalculateExpenseShares(e.amount.value, e.splitType.GetOr("equal"), ids, map[]);
      var r := DebitShares(Credit(b, e.payerId.value, e.amount.value), shares);
      forall id :: id in r ==> r[id] == b[id] + ExpenseEffect(ids, e, id)
  {
    var payer, amount, splitType := e.payerId.value, e.amount.value, e.splitType.GetOr("equal");
    SharesWithoutCustom(amount, splitType, ids);
    var r := DebitShares(Credit(b, payer, amount), if splitType == "equal" then EqualShares(amount, ids) else []);
    forall id | id in r
      ensures r[id] == b[id] + ExpenseEffect(ids, e, id)
    {
      CountedExpenseEffectAt(b, ids, e, id);
    }
  }

  /** Without custom shares only the equal split produces shares. */
  lemma SharesWithoutCustom(total: real, splitType: string, ids: seq<string>)
    ensures CalculateExpenseShares(total, splitType, ids, map[]) == if splitType == "equal" then EqualShares(total, ids) else []
  {
  }

  lemma CountedExpenseEffectAt(b: Balances, ids: seq<string>, e: Expense, id: string)
    requires e.payerId.Some? && e.amount.Some? && |ids| > 0 && id in b
    ensures var shares := if e.splitType.GetOr("equal") == "equal" then EqualShares(e.amount.value, ids) else [];
      DebitShares(Credit(b, e.payerId.value, e.amount.value), shares)[id] == b[id] + ExpenseEffect(ids, e, id)
  {
    var payer, amount := e.payerId.value, e.amount.value;
    var credited := Credit(b, payer, amount);
    var paid := if payer == id then amount else 0.0;
    assert credited[id] == b[id] + paid;
    if e.splitType.GetOr("equal") == "equal" {
      EqualDebit(credited, ids, amount, id);
      EffectOfEqual(ids, e, id);
    } else {
      assert DebitShares(credited, []) == credited;
    }
  }

  lemma EqualDebit(b: Balances, ids: seq<string>, amount: real, id: string)
    requires |ids| > 0 && id in b
    ensures DebitShares(b, EqualShares(amount, ids))[id] == b[id] - Times(Occurrences(ids, id), amount / (|ids| as real))
  {
    var shares := EqualShares(amount, ids);
    var each := amount / (|ids| as real);
    assert forall k :: 0 <= k < |shares| ==> shares[k].userId == ids[k] && shares[k].amount == each;
    OwedByEqualShares(shares, ids, each, id);
  }

  lemma EffectOfEqual(ids: seq<string>, e: Expense, id: string)
    requires e.payerId.Some? && e.amount.Some? && |ids| > 0 && e.splitType.GetOr("equal") == "equal"
    ensures ExpenseEffect(ids, e, id) ==
      (if e.payerId.value == id then e.amount.value else 0.0) - Times(Occurrences(ids, id), e.amount.value / (|ids| as real))
  {
  }

  /**
   * The cases of one expense: without payer, amount or participant ids it is
   * skipped; a split other than "equal" only credits the payer, since the fold
   * passes no custom shares.
   */
  lemma ExpenseCases(b: Balances, ids: seq<string>, e: Expense)
    ensures !Counted(e) || |ids| == 0 ==> ApplyExpense(b, ids, e) == b
    ensures Counted(e) && |ids| > 0 && e.splitType.GetOr("equal") != "equal" ==>
      ApplyExpense(b, ids, e) == Credit(b, e.payerId.value, e.amount.value)
  {
    if Counted(e) && |ids| > 0 && e.splitType.GetOr("equal") != "equal" {
      var r, c := ApplyExpense(b, ids, e), Credit(b, e.payerId.value, e.amount.value);
      assert forall id :: id in r ==> r[id] == c[id];
    }
  }

  /** The expenses folded into `b`, first to last. */
  function BalancesAfter(b: Balances, ids: seq<string>, es: seq<Expense>): (r: Balances)
    ensures r.Keys == b.Keys
  {
    if |es| == 0 then b else ApplyExpense(BalancesAfter(b, ids, es[..|es| - 1]), ids, es[|es| - 1])
  }

  /** The total change the expenses make to the balance of `id`. */
  function NetEffect(ids: seq<string>, es: seq<Expense>, id: string): real {
    if |es| == 0 then 0.0 else NetEffect(ids, es[..|es| - 1], id) + ExpenseEffect(ids, es[|es| - 1], id)
  }

  lemma {:induction false} BalancesAfterNet(b: Balances, ids: seq<string>, es: seq<Expense>)
    ensures forall id :: id in b ==> BalancesAfter(b, ids, es)[id] == b[id] + NetEffect(ids, es, id)
    decreases |es|
  {
    if |es| > 0 {
      BalancesAfterNet(b, ids, es[..|es| - 1]);
    }
  }

  /**
   * `calculateUserBalances` (the event id it takes is unused): one entry per
   * participant id, holding what that user paid minus the equal shares it owes.
   */
  function CalculateUserBalances(expenses: seq<Expense>, participants: seq<Participant>): (r: Balances)
    ensures forall id :: id in r <==> Participant(Some(id)) in participants
    ensures forall id :: id in r ==> r[id] == NetEffect(ParticipantIds(participants), expenses, id)
  {
    var ids := ParticipantIds(participants);
    var b := InitialBalances(participants);
    BalancesAfterNet(b, ids, expenses);
    BalancesAfter(b, ids, expenses)
  }

  // ---------------------------------------------------------------------------
  // Zero sum
  // ---------------------------------------------------------------------------

  /** The sum of the balances of `keys`. */
  ghost function SumOver(m: Balances, keys: set<string>): real
    requires keys <= m.Keys
    decreases keys
  {
    if keys == {} then 0.0
    else
      var k :| k in keys;
      m[k] + SumOver(m, keys - {k})
  }

  /** The sum of all balances. */
  ghost function SumMap(m: Balances): real {
    SumOver(m, m.Keys)
  }

  lemma SumOverPick(m: Balances, keys: set<string>, k: string)
    requires keys <= m.Keys && k in keys
    ensures SumOver(m, keys) == m[k] + SumOver(m, keys - {k})
    decreases keys
  {
    var k' :| k' in keys && SumOver(m, keys) == m[k'] + SumOver(m, keys - {k'});
    if k' != k {
      SumOverPick(m, keys - {k'}, k);
      SumOverPick(m, keys - {k}, k');
      assert keys - {k'} - {k} == keys - {k} - {k'};
    }
  }

  lemma {:induction false} SumOverAgree(m: Balances, m': Balances, keys: set<string>)
    requires keys <= m.Keys && keys <= m'.Keys
    requires forall k :: k in keys ==> m[k] == m'[k]
    ensures SumOver(m, keys) == SumOver(m', keys)
    decreases keys
  {
    if keys != {} {
      var k :| k in keys;
      SumOverPick(m, keys, k);
      SumOverPick(m', keys, k);
      SumOverAgree(m, m', keys - {k});
    }
  }

  lemma SumMapUpdate(m: Balances, k: string, v: real)
    requires k in m
    ensures SumMap(m[k := v]) == SumMap(m) - m[k] + v
  {
    var m' := m[k := v];
    assert m'.Keys == m.Keys;
    SumOverPick(m, m.Keys, k);
    SumOverPick(m', m.Keys, k);
    SumOverAgree(m, m', m.Keys - {k});
  }

  lemma {:induction false} SumOverZero(m: Balances, keys: set<string>)
    requires keys <= m.Keys
    requires forall k :: k in keys ==> m[k] == 0.0
    ensures SumOver(m, keys) == 0.0
    decreases keys
  {
    if keys != {} {
      var k :| k in keys;
      SumOverPick(m, keys, k);
      SumOverZero(m, keys - {k});
    }
  }

  lemma {:induction false} DebitSharesSum(b: Balances, shares: seq<Share>)
    requires forall k :: 0 <= k < |shares| ==> shares[k].userId in b
    ensures SumMap(DebitShares(b, shares)) == SumMap(b) - SumAmounts(shares)
    decreases |shares|
  {
    if |shares| > 0 {
      var s := shares[|shares| - 1];
      var front := DebitShares(b, shares[..|shares| - 1]);
      DebitSharesSum(b, shares[..|shares| - 1]);
      SumMapUpdate(front, s.userId, front[s.userId] - s.amount);
    }
  }

  /** An expense the fold counts: it has a payer and an amount. */
  predicate Counted(e: Expense) {
    e.payerId.Some? && e.amount.Some?
  }

  lemma ApplyExpenseSum(b: Balances, ids: seq<string>, e: Expense)
    requires forall k :: 0 <= k < |ids| ==> ids[k] in b
    requires Counted(e) ==> e.splitType.GetOr("equal") == "equal" && e.payerId.value in b
    ensures SumMap(ApplyExpense(b, ids, e)) == SumMap(b)
  {
    if Counted(e) && |ids| > 0 {
      var payer, amount := e.payerId.value, e.amount.value;
      var credited := Credit(b, payer, amount);
      SumMapUpdate(b, payer, b[payer] + amount);
      var shares := EqualShares(amount, ids);
      DebitSharesSum(credited, shares);
      EqualSplitSums(amount, ids);
    }
  }

  lemma {:induction false} BalancesAfterSum(b: Balances, ids: seq<string>, es: seq<Expense>)
    requires forall k :: 0 <= k < |ids| ==> ids[k] in b
    requires forall k :: 0 <= k < |es| && Counted(es[k]) ==>
      es[k].splitType.GetOr("equal") == "equal" && es[k].payerId.value in b
    ensures SumMap(BalancesAfter(b, ids, es)) == SumMap(b)
    decreases |es|
  {
    if |es| > 0 {
      BalancesAfterSum(b, ids, es[..|es| - 1]);
      ApplyExpenseSum(BalancesAfter(b, ids, es[..|es| - 1]), ids, es[|es| - 1]);
    }
  }

  /**
   * When every counted expense is split equally and paid by a participant,
   * the balances add up to zero (repeated participant ids included).
   */
  lemma BalancesSumToZero(expenses: seq<Expense>, participants: seq<Participant>)
    requires forall k :: 0 <= k < |expenses| && Counted(expenses[k]) ==>
      expenses[k].splitType.GetOr("equal") == "equal" && Participant(expenses[k].payerId) in participants
    ensures SumMap(CalculateUserBalances(expenses, participants)) == 0.0
  {
    var ids := ParticipantIds(participants);
    var b := InitialBalances(participants);
    SumOverZero(b, b.Keys);
    BalancesAfterSum(b, ids, expenses);
  }
}
