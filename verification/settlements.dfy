/**
 * `optimizeSettlements` and `calculateEventSettlements` of
 * services/bill-service/src/split_calculator.cpp: balances are split into
 * debtors (below -0.01) and creditors (above 0.01), both lists are sorted by
 * amount, largest first, and the two lists are matched greedily.
 *
 * `std::map` visits its keys in key order and `std::sort` is not stable; the
 * model picks the keys in an unspecified order and takes any largest-first
 * reordering of each list, so every property below holds whichever order
 * the keys are visited in and whichever order equal amounts are sorted into.
 */
module Settlements {
  import opened Wrappers
  import opened SplitCalculator

  /** `Settlement`: `fromUserId` pays `amount` to `toUserId`. */
  datatype Settlement = Settlement(fromUserId: string, toUserId: string, amount: real)

  /** One `std::pair<std::string, double>` of the debtor or creditor list. */
  datatype Party = Party(userId: string, amount: real)

  /** The tolerance below which a balance counts as settled. */
  const Epsilon: real := 0.01

  predicate IsDebtor(b: Balances, id: string) {
    id in b && b[id] < -Epsilon
  }

  predicate IsCreditor(b: Balances, id: string) {
    id in b && b[id] > Epsilon
  }

  function DebtorIds(b: Balances): set<string> {
    set id | id in b && b[id] < -Epsilon
  }

  function CreditorIds(b: Balances): set<string> {
    set id | id in b && b[id] > Epsilon
  }

  /** `std::min`. */
  function Min(a: real, b: real): (m: real)
    ensures m <= a && m <= b && (m == a || m == b)
  {
    if b < a then b else a
  }

  // ---------------------------------------------------------------------------
  // Party lists
  // ---------------------------------------------------------------------------

  function Ids(s: seq<Party>): set<string> {
    set k | 0 <= k < |s| :: s[k].userId
  }

  predicate DistinctIds(s: seq<Party>) {
    forall a, b :: 0 <= a < |s| && 0 <= b < |s| && a != b ==> s[a].userId != s[b].userId
  }

  predicate SortedDescending(s: seq<Party>) {
    forall a, b :: 0 <= a < b < |s| ==> s[a].amount >= s[b].amount
  }

  lemma IdsAppend(s: seq<Party>, p: Party)
    ensures Ids(s + [p]) == Ids(s) + {p.userId}
  {
    var t := s + [p];
    forall id | id in Ids(t)
      ensures id in Ids(s) + {p.userId}
    {
      var k :| 0 <= k < |t| && t[k].userId == id;
      if k < |s| {
        assert s[k].userId == id;
      }
    }
    forall id | id in Ids(s)
      ensures id in Ids(t)
    {
      var k :| 0 <= k < |s| && s[k].userId == id;
      assert t[k].userId == id;
    }
    assert t[|s|].userId == p.userId;
  }

  lemma IdsPrepend(p: Party, s: seq<Party>)
    ensures Ids([p] + s) == {p.userId} + Ids(s)
  {
    var t := [p] + s;
    forall id | id in Ids(t)
      ensures id in {p.userId} + Ids(s)
    {
      var k :| 0 <= k < |t| && t[k].userId == id;
      if k > 0 {
        assert s[k - 1].userId == id;
      }
    }
    forall id | id in Ids(s)
      ensures id in Ids(t)
    {
      var k :| 0 <= k < |s| && s[k].userId == id;
      assert t[k + 1].userId == id;
    }
    assert t[0].userId == p.userId;
  }

  lemma DistinctPrepend(p: Party, s: seq<Party>)
    requires DistinctIds(s) && p.userId !in Ids(s)
    ensures DistinctIds([p] + s)
  {
    var t := [p] + s;
    forall a, b | 0 <= a < |t| && 0 <= b < |t| && a != b
      ensures t[a].userId != t[b].userId
    {
      if a == 0 {
        assert t[b] == s[b - 1] && s[b - 1].userId in Ids(s);
      } else if b == 0 {
        assert t[a] == s[a - 1] && s[a - 1].userId in Ids(s);
      } else {
        assert t[a] == s[a - 1] && t[b] == s[b - 1];
      }
    }
  }

  /** A list with distinct ids has as many ids as entries. */
  lemma {:induction false} DistinctIdsCount(s: seq<Party>)
    requires DistinctIds(s)
    ensures |Ids(s)| == |s|
    decreases |s|
  {
    if |s| > 0 {
      var front, p := s[..|s| - 1], s[|s| - 1];
      assert s == front + [p];
      DistinctIdsCount(front);
      IdsAppend(front, p);
    }
  }

  /** A head no smaller than any entry of a sorted list keeps it sorted. */
  lemma SortedPrepend(h: Party, t: seq<Party>)
    requires SortedDescending(t)
    requires forall k :: 0 <= k < |t| ==> t[k].amount <= h.amount
    ensures SortedDescending([h] + t)
  {
    var r := [h] + t;
    forall a, b | 0 <= a < b < |r|
      ensures r[a].amount >= r[b].amount
    {
      assert r[b] == t[b - 1];
      if a > 0 {
        assert r[a] == t[a - 1];
      }
    }
  }

  /** A bound on every entry of `u` and on `x` bounds every entry of a permutation of `u + [x]`. */
  lemma BoundOfPermutation(t: seq<Party>, u: seq<Party>, x: Party, bound: real)
    requires multiset(t) == multiset(u) + multiset{x}
    requires forall k :: 0 <= k < |u| ==> u[k].amount <= bound
    requires x.amount <= bound
    ensures forall k :: 0 <= k < |t| ==> t[k].amount <= bound
  {
    forall k | 0 <= k < |t|
      ensures t[k].amount <= bound
    {
      assert t[k] in multiset(t);
      if t[k] != x {
        assert t[k] in multiset(u);
        var j :| 0 <= j < |u| && u[j] == t[k];
      }
    }
  }

  /** Inserting `x` into a list sorted largest first, before the first entry it is not smaller than. */
  function Insert(x: Party, s: seq<Party>): (r: seq<Party>)
    requires SortedDescending(s)
    ensures SortedDescending(r)
    ensures multiset(r) == multiset(s) + multiset{x}
  {
    if |s| == 0 || x.amount >= s[0].amount then
      SortedPrepend(x, s);
      [x] + s
    else
      var tail := Insert(x, s[1..]);
      InsertBehindHead(x, s, tail);
      [s[0]] + tail
  }

  /** When `x` goes after the head, the head followed by the insertion into the rest is sorted. */
  lemma InsertBehindHead(x: Party, s: seq<Party>, tail: seq<Party>)
    requires SortedDescending(s) && |s| > 0 && x.amount < s[0].amount
    requires SortedDescending(tail) && multiset(tail) == multiset(s[1..]) + multiset{x}
    ensures SortedDescending([s[0]] + tail)
    ensures multiset([s[0]] + tail) == multiset(s) + multiset{x}
  {
    assert s == [s[0]] + s[1..];
    assert forall k :: 0 <= k < |s[1..]| ==> s[1..][k] == s[k + 1];
    BoundOfPermutation(tail, s[1..], x, s[0].amount);
    SortedPrepend(s[0], tail);
  }

  /** The stable insertion sort, largest amount first. */
  function SortDescending(s: seq<Party>): (r: seq<Party>)
    ensures SortedDescending(r)
    ensures multiset(r) == multiset(s)
  {
    if |s| == 0 then []
    else
      assert s == [s[0]] + s[1..];
      assert multiset(s) == multiset(s[1..]) + multiset{s[0]};
      Insert(s[0], SortDescending(s[1..]))
  }

  /** A list never has more ids than entries, and has fewer when an id repeats. */
  lemma {:induction false} IdsCount(s: seq<Party>)
    ensures |Ids(s)| <= |s|
    ensures !DistinctIds(s) ==> |Ids(s)| < |s|
    decreases |s|
  {
    if |s| == 0 {
      assert Ids(s) == {};
    } else {
      var front, p := s[..|s| - 1], s[|s| - 1];
      assert s == front + [p];
      IdsCount(front);
      IdsAppend(front, p);
      if !DistinctIds(s) {
        var a, c :| 0 <= a < |s| && 0 <= c < |s| && a != c && s[a].userId == s[c].userId;
        if a == |s| - 1 {
          assert s[c] == front[c] && front[c].userId in Ids(front);
        } else if c == |s| - 1 {
          assert s[a] == front[a] && front[a].userId in Ids(front);
        } else {
          assert front[a] == s[a] && front[c] == s[c];
        }
      }
    }
  }

  /**
   * Any reordering of a collected side is collected too, and its parties are
   * all open: `std::sort` may order parties of equal amount either way.
   */
  lemma PermutationKeepsSide(b: Balances, s: seq<Party>, t: seq<Party>, debtor: bool)
    requires Collected(b, {}, s, debtor) && multiset(t) == multiset(s)
    ensures Collected(b, {}, t, debtor) && Open(t)
  {
    forall p | p in t
      ensures p in s
    {
      assert p in multiset(t);
    }
    forall p | p in s
      ensures p in t
    {
      assert p in multiset(s);
    }
    forall id | id in Ids(t)
      ensures id in Ids(s)
    {
      var k :| 0 <= k < |t| && t[k].userId == id;
      assert t[k] in s;
      var j :| 0 <= j < |s| && s[j] == t[k];
      assert s[j].userId == id;
    }
    forall id | id in Ids(s)
      ensures id in Ids(t)
    {
      var k :| 0 <= k < |s| && s[k].userId == id;
      assert s[k] in t;
      var j :| 0 <= j < |t| && t[j] == s[k];
      assert t[j].userId == id;
    }
    assert |t| == |multiset(t)| == |multiset(s)| == |s|;
    DistinctIdsCount(s);
    IdsCount(t);
    forall k | 0 <= k < |t|
      ensures t[k].amount > Epsilon
    {
      assert t[k] in t;
    }
  }

  lemma DistinctTail(s: seq<Party>)
    requires |s| > 0 && DistinctIds(s)
    ensures DistinctIds(s[1..]) && s[0].userId !in Ids(s[1..])
  {
    forall a, b | 0 <= a < |s[1..]| && 0 <= b < |s[1..]| && a != b
      ensures s[1..][a].userId != s[1..][b].userId
    {
      assert s[1..][a] == s[a + 1] && s[1..][b] == s[b + 1];
    }
  }

  /** The ids of one side: the debtors when `debtor` holds, the creditors otherwise. */
  function SideIds(b: Balances, debtor: bool): set<string> {
    if debtor then DebtorIds(b) else CreditorIds(b)
  }

  /** What a party of that side is owed: the magnitude of its balance. */
  function SideAmount(b: Balances, id: string, debtor: bool): real
    requires id in b
  {
    if debtor then -b[id] else b[id]
  }

  /** The list `s` holds exactly the parties of one side whose ids are no longer in `rest`. */
  predicate Collected(b: Balances, rest: set<string>, s: seq<Party>, debtor: bool) {
    && (forall p :: p in s ==> p.userId in SideIds(b, debtor) && p.amount == SideAmount(b, p.userId, debtor) && p.userId !in rest)
    && Ids(s) == SideIds(b, debtor) - rest
    && DistinctIds(s)
  }

  /** Visiting one more key keeps both lists collected. */
  lemma CollectStep(b: Balances, rest: set<string>, s: seq<Party>, debtor: bool, id: string)
    requires rest <= b.Keys && id in rest && Collected(b, rest, s, debtor)
    ensures var s' := if id in SideIds(b, debtor) then s + [Party(id, SideAmount(b, id, debtor))] else s;
      Collected(b, rest - {id}, s', debtor)
  {
    if id in SideIds(b, debtor) {
      var p := Party(id, SideAmount(b, id, debtor));
      IdsAppend(s, p);
      var s' := s + [p];
      forall q | q in s'
        ensures q.userId in SideIds(b, debtor) && q.amount == SideAmount(b, q.userId, debtor) && q.userId !in rest - {id}
      {
        if q != p {
          assert q in s;
        }
      }
      forall x, y | 0 <= x < |s'| && 0 <= y < |s'| && x != y
        ensures s'[x].userId != s'[y].userId
      {
        if x < |s| && y < |s| {
          assert s'[x] == s[x] && s'[y] == s[y];
        } else if x < |s| {
          assert s[x] in s;
        } else {
          assert s[y] in s;
        }
      }
    }
  }

  /**
   * The partition loop: each balance below -0.01 becomes a debtor owed its
   * magnitude, each balance above 0.01 a creditor; the rest are dropped.
   */
  method SplitParties(balances: Balances) returns (debtors: seq<Party>, creditors: seq<Party>)
    ensures forall p :: p in debtors ==> IsDebtor(balances, p.userId) && p.amount == -balances[p.userId]
    ensures forall p :: p in creditors ==> IsCreditor(balances, p.userId) && p.amount == balances[p.userId]
    ensures Ids(debtors) == DebtorIds(balances) && Ids(creditors) == CreditorIds(balances)
    ensures DistinctIds(debtors) && DistinctIds(creditors)
    ensures Collected(balances, {}, debtors, true) && Collected(balances, {}, creditors, false)
  {
    var rest := balances.Keys;
    debtors, creditors := [], [];
    while rest != {}
      invariant rest <= balances.Keys
      invariant Collected(balances, rest, debtors, true)
      invariant Collected(balances, rest, creditors, false)
      decreases |rest|
    {
      var id :| id in rest;
      CollectStep(balances, rest, debtors, true, id);
      CollectStep(balances, rest, creditors, false, id);
      var balance := balances[id];
      if balance < -Epsilon {
        debtors := debtors + [Party(id, -balance)];
      } else if balance > Epsilon {
        creditors := creditors + [Party(id, balance)];
      }
      rest := rest - {id};
    }
  }

  // ---------------------------------------------------------------------------
  // The greedy match
  // ---------------------------------------------------------------------------

  /** What `id` pays in total. */
  function PaidBy(r: seq<Settlement>, id: string): real {
    if |r| == 0 then 0.0
    else PaidBy(r[..|r| - 1], id) + (if r[|r| - 1].fromUserId == id then r[|r| - 1].amount else 0.0)
  }

  /** What `id` receives in total. */
  function ReceivedBy(r: seq<Settlement>, id: string): real {
    if |r| == 0 then 0.0
    else ReceivedBy(r[..|r| - 1], id) + (if r[|r| - 1].toUserId == id then r[|r| - 1].amount else 0.0)
  }

  lemma TotalsAppend(r: seq<Settlement>, s: Settlement, id: string)
    ensures PaidBy(r + [s], id) == PaidBy(r, id) + (if s.fromUserId == id then s.amount else 0.0)
    ensures ReceivedBy(r + [s], id) == ReceivedBy(r, id) + (if s.toUserId == id then s.amount else 0.0)
  {
    assert (r + [s])[..|r|] == r;
  }

  /** Every entry of the list is owed more than the tolerance, and no id repeats. */
  predicate Open(s: seq<Party>) {
    DistinctIds(s) && forall k :: 0 <= k < |s| ==> s[k].amount > Epsilon
  }

  /** The position of the first entry of `s` with id `id`, or `|s|` when there is none. */
  function PosOf(s: seq<Party>, id: string): (k: nat)
    ensures k <= |s|
    ensures k < |s| ==> s[k].userId == id
    ensures forall m :: 0 <= m < k ==> s[m].userId != id
  {
    if |s| == 0 then 0
    else if s[0].userId == id then 0
    else 1 + PosOf(s[1..], id)
  }

  /** In a list without repeated ids, an entry's id sits at that entry's position. */
  lemma PosOfDistinct(s: seq<Party>, i: int)
    requires DistinctIds(s) && 0 <= i < |s|
    ensures PosOf(s, s[i].userId) == i
  {
  }

  /**
   * The settlements follow the two lists: the payers come in the order of
   * `debtors` and the payees in the order of `creditors`.
   */
  predicate InListOrder(r: seq<Settlement>, debtors: seq<Party>, creditors: seq<Party>) {
    forall k, l :: 0 <= k < l < |r| ==>
      && PosOf(debtors, r[k].fromUserId) <= PosOf(debtors, r[l].fromUserId)
      && PosOf(creditors, r[k].toUserId) <= PosOf(creditors, r[l].toUserId)
  }

  /** The settlements so far are in list order and involve no party past `i` or `j`. */
  predicate OrderedSoFar(r: seq<Settlement>, debtors: seq<Party>, creditors: seq<Party>, i: int, j: int) {
    && InListOrder(r, debtors, creditors)
    && forall k :: 0 <= k < |r| ==> PosOf(debtors, r[k].fromUserId) <= i && PosOf(creditors, r[k].toUserId) <= j
  }

  /** A settlement between the parties at `i` and `j` extends the order, and the bounds may grow. */
  lemma OrderStep(r: seq<Settlement>, debtors: seq<Party>, creditors: seq<Party>, s: Settlement,
                  i: int, j: int, i': int, j': int)
    requires OrderedSoFar(r, debtors, creditors, i, j) && i <= i' && j <= j'
    requires PosOf(debtors, s.fromUserId) == i && PosOf(creditors, s.toUserId) == j
    ensures OrderedSoFar(r + [s], debtors, creditors, i', j')
  {
    var r' := r + [s];
    forall k, l | 0 <= k < l < |r'|
      ensures && PosOf(debtors, r'[k].fromUserId) <= PosOf(debtors, r'[l].fromUserId)
              && PosOf(creditors, r'[k].toUserId) <= PosOf(creditors, r'[l].toUserId)
    {
      assert r'[k] == r[k];
      if l < |r| {
        assert r'[l] == r[l];
      }
    }
    forall k | 0 <= k < |r'|
      ensures PosOf(debtors, r'[k].fromUserId) <= i' && PosOf(creditors, r'[k].toUserId) <= j'
    {
      if k < |r| {
        assert r'[k] == r[k];
      }
    }
  }

  /**
   * The bookkeeping of one side of the match after some settlements `r`:
   * `left` holds what each party still has to settle, the parties before
   * `i` are settled, party `i` still has at least the tolerance open, and
   * the parties after it are untouched.
   */
  predicate Tracked(orig: seq<Party>, left: seq<Party>, i: int, settled: (seq<Settlement>, string) -> real, r: seq<Settlement>) {
    && |left| == |orig| && 0 <= i <= |orig|
    && (forall k :: 0 <= k < |orig| ==> left[k].userId == orig[k].userId && 0.0 <= left[k].amount)
    && (forall k :: 0 <= k < |orig| ==> settled(r, orig[k].userId) == orig[k].amount - left[k].amount)
    && (forall k :: 0 <= k < i ==> left[k].amount < Epsilon)
    && (forall k :: i < k < |orig| ==> left[k] == orig[k])
    && (i < |orig| ==> left[i].amount >= Epsilon)
  }

  /** Settling `amount` with party `i` keeps the bookkeeping of its side. */
  lemma TrackedStep(orig: seq<Party>, left: seq<Party>, i: int, settled: (seq<Settlement>, string) -> real,
                    r: seq<Settlement>, r': seq<Settlement>, amount: real)
    requires Open(orig) && Tracked(orig, left, i, settled, r) && i < |orig|
    requires 0.0 <= amount <= left[i].amount
    requires settled(r', orig[i].userId) == settled(r, orig[i].userId) + amount
    requires forall k :: 0 <= k < |orig| && k != i ==> settled(r', orig[k].userId) == settled(r, orig[k].userId)
    ensures var left' := left[i := Party(left[i].userId, left[i].amount - amount)];
      Tracked(orig, left', if left'[i].amount < Epsilon then i + 1 else i, settled, r')
  {
  }

  /**
   * The state of the matching loop after the settlements `r`: the
   * bookkeeping below, and the settlements so far in list order.
   */
  predicate MatchState(debtors: seq<Party>, creditors: seq<Party>, ds: seq<Party>, cs: seq<Party>,
                       i: int, j: int, r: seq<Settlement>) {
    && MatchCore(debtors, creditors, ds, cs, i, j, r)
    && OrderedSoFar(r, debtors, creditors, i, j)
  }

  /**
   * The bookkeeping of the matching loop: both sides are tracked, every
   * settlement runs between the two lists, each settlement moved past at
   * least one party, and the first one paired the two heads.
   */
  predicate MatchCore(debtors: seq<Party>, creditors: seq<Party>, ds: seq<Party>, cs: seq<Party>,
                      i: int, j: int, r: seq<Settlement>) {
    && Open(debtors) && Open(creditors)
    && Tracked(debtors, ds, i, PaidBy, r)
    && Tracked(creditors, cs, j, ReceivedBy, r)
    && (forall s :: s in r ==> s.fromUserId in Ids(debtors) && s.toUserId in Ids(creditors) && s.amount >= Epsilon)
    && |r| <= i + j
    && (i == |ds| && j == |cs| && |r| > 0 ==> |r| < i + j)
    && (|r| == 0 ==> i == 0 && j == 0)
    && (|r| > 0 ==> |debtors| > 0 && |creditors| > 0)
    && (|r| > 0 && |debtors| > 0 && |creditors| > 0 ==>
          r[0] == Settlement(debtors[0].userId, creditors[0].userId, Min(debtors[0].amount, creditors[0].amount)))
  }

  /** Only the two parties of a new settlement see their totals change. */
  lemma TotalsOfStep(orig: seq<Party>, r: seq<Settlement>, s: Settlement, i: int, paid: bool)
    requires Open(orig) && 0 <= i < |orig|
    requires if paid then s.fromUserId == orig[i].userId else s.toUserId == orig[i].userId
    ensures forall k :: 0 <= k < |orig| ==>
      (if paid then PaidBy(r + [s], orig[k].userId) else ReceivedBy(r + [s], orig[k].userId))
      == (if paid then PaidBy(r, orig[k].userId) else ReceivedBy(r, orig[k].userId)) + (if k == i then s.amount else 0.0)
  {
    forall k | 0 <= k < |orig|
      ensures (if paid then PaidBy(r + [s], orig[k].userId) else ReceivedBy(r + [s], orig[k].userId))
        == (if paid then PaidBy(r, orig[k].userId) else ReceivedBy(r, orig[k].userId)) + (if k == i then s.amount else 0.0)
    {
      TotalsAppend(r, s, orig[k].userId);
    }
  }

  /** One turn of the matching loop keeps its bookkeeping. */
  lemma CoreTurn(debtors: seq<Party>, creditors: seq<Party>, ds: seq<Party>, cs: seq<Party>,
                 i: nat, j: nat, r: seq<Settlement>, amount: real, s: Settlement,
                 ds': seq<Party>, cs': seq<Party>, i': nat, j': nat, r': seq<Settlement>)
    requires MatchCore(debtors, creditors, ds, cs, i, j, r) && i < |ds| && j < |cs|
    requires amount == Min(ds[i].amount, cs[j].amount) && s == Settlement(ds[i].userId, cs[j].userId, amount)
    requires r' == r + [s]
    requires ds' == ds[i := Party(ds[i].userId, ds[i].amount - amount)]
    requires cs' == cs[j := Party(cs[j].userId, cs[j].amount - amount)]
    requires i' == (if ds'[i].amount < Epsilon then i + 1 else i)
    requires j' == (if cs'[j].amount < Epsilon then j + 1 else j)
    ensures MatchCore(debtors, creditors, ds', cs', i', j', r')
    ensures ds[i].userId == debtors[i].userId && cs[j].userId == creditors[j].userId
    ensures Open(debtors) && Open(creditors) && i < |debtors| && j < |creditors|
  {
    TotalsOfStep(debtors, r, s, i, true);
    TotalsOfStep(creditors, r, s, j, false);
    TrackedStep(debtors, ds, i, PaidBy, r, r', amount);
    TrackedStep(creditors, cs, j, ReceivedBy, r, r', amount);
    assert debtors[i].userId in Ids(debtors) && creditors[j].userId in Ids(creditors);
    if |r| == 0 {
      assert r'[0] == s;
    } else {
      assert r'[0] == r[0];
    }
  }

  /**
   * One turn of the matching loop: settling the current debtor with the
   * current creditor for the smaller amount keeps the state and moves past at
   * least one of them.
   */
  method MatchTurn(ghost debtors: seq<Party>, ghost creditors: seq<Party>, ds: seq<Party>, cs: seq<Party>,
                   i: nat, j: nat, r: seq<Settlement>)
    returns (ds': seq<Party>, cs': seq<Party>, i': nat, j': nat, r': seq<Settlement>)
    requires MatchState(debtors, creditors, ds, cs, i, j, r) && i < |ds| && j < |cs|
    ensures MatchState(debtors, creditors, ds', cs', i', j', r')
    ensures |ds'| == |ds| && |cs'| == |cs| && i + j < i' + j'
    ensures r' == r + [Settlement(ds[i].userId, cs[j].userId, Min(ds[i].amount, cs[j].amount))]
  {
    var amount := Min(ds[i].amount, cs[j].amount);
    var s := Settlement(ds[i].userId, cs[j].userId, amount);
    r' := r + [s];
    ds' := ds[i := Party(ds[i].userId, ds[i].amount - amount)];
    cs' := cs[j := Party(cs[j].userId, cs[j].amount - amount)];
    i' := if ds'[i].amount < Epsilon then i + 1 else i;
    j' := if cs'[j].amount < Epsilon then j + 1 else j;
    CoreTurn(debtors, creditors, ds, cs, i, j, r, amount, s, ds', cs', i', j', r');
    PosOfDistinct(debtors, i);
    PosOfDistinct(creditors, j);
    OrderStep(r, debtors, creditors, s, i, j, i', j');
  }

  /** Before the first turn nothing is settled. */
  lemma MatchStart(debtors: seq<Party>, creditors: seq<Party>)
    requires Open(debtors) && Open(creditors)
    ensures MatchState(debtors, creditors, debtors, creditors, 0, 0, [])
  {
  }

  /** When the loop stops, its state gives the contract of the match. */
  lemma MatchDone(debtors: seq<Party>, creditors: seq<Party>, ds: seq<Party>, cs: seq<Party>,
                  i: int, j: int, r: seq<Settlement>)
    requires MatchState(debtors, creditors, ds, cs, i, j, r) && !(i < |ds| && j < |cs|)
    ensures forall k :: 0 <= k < |debtors| ==> PaidBy(r, debtors[k].userId) <= debtors[k].amount
    ensures forall k :: 0 <= k < |creditors| ==> ReceivedBy(r, creditors[k].userId) <= creditors[k].amount
    ensures |debtors| == 0 || |creditors| == 0 ==> r == []
    ensures |debtors| > 0 && |creditors| > 0 ==> 1 <= |r| <= |debtors| + |creditors| - 1
    ensures || (forall k :: 0 <= k < |debtors| ==> debtors[k].amount - PaidBy(r, debtors[k].userId) < Epsilon)
            || (forall k :: 0 <= k < |creditors| ==> creditors[k].amount - ReceivedBy(r, creditors[k].userId) < Epsilon)
  {
    if i == |ds| {
      forall k | 0 <= k < |debtors|
        ensures debtors[k].amount - PaidBy(r, debtors[k].userId) < Epsilon
      {
        assert ds[k].amount < Epsilon;
      }
    } else {
      forall k | 0 <= k < |creditors|
        ensures creditors[k].amount - ReceivedBy(r, creditors[k].userId) < Epsilon
      {
        assert cs[k].amount < Epsilon;
      }
    }
  }

  /**
   * The matching loop: settle the current debtor with the current creditor
   * for the smaller of the two amounts, and move past whichever of them is
   * then within the tolerance.
   */
  method MatchParties(debtors: seq<Party>, creditors: seq<Party>) returns (r: seq<Settlement>)
    requires Open(debtors) && Open(creditors)
    ensures forall s :: s in r ==> s.fromUserId in Ids(debtors) && s.toUserId in Ids(creditors) && s.amount >= Epsilon
    ensures forall k :: 0 <= k < |debtors| ==> PaidBy(r, debtors[k].userId) <= debtors[k].amount
    ensures forall k :: 0 <= k < |creditors| ==> ReceivedBy(r, creditors[k].userId) <= creditors[k].amount
    ensures |debtors| == 0 || |creditors| == 0 ==> r == []
    ensures |debtors| > 0 && |creditors| > 0 ==> 1 <= |r| <= |debtors| + |creditors| - 1
    ensures || (forall k :: 0 <= k < |debtors| ==> debtors[k].amount - PaidBy(r, debtors[k].userId) < Epsilon)
            || (forall k :: 0 <= k < |creditors| ==> creditors[k].amount - ReceivedBy(r, creditors[k].userId) < Epsilon)
    ensures |r| > 0 ==> r[0] == Settlement(debtors[0].userId, creditors[0].userId, Min(debtors[0].amount, creditors[0].amount))
    ensures InListOrder(r, debtors, creditors)
  {
    var ds, cs := debtors, creditors;
    var i: nat, j: nat := 0, 0;
    r := [];
    MatchStart(debtors, creditors);
    while i < |ds| && j < |cs|
      invariant MatchState(debtors, creditors, ds, cs, i, j, r)
      decreases |ds| - i + |cs| - j
    {
      ds, cs, i, j, r := MatchTurn(debtors, creditors, ds, cs, i, j, r);
    }
    MatchDone(debtors, creditors, ds, cs, i, j, r);
  }

  // ---------------------------------------------------------------------------
  // optimizeSettlements
  // ---------------------------------------------------------------------------

  /** Every settlement goes from a debtor to a creditor, for at least the tolerance. */
  predicate DebtorsPayCreditors(b: Balances, r: seq<Settlement>) {
    forall s :: s in r ==> IsDebtor(b, s.fromUserId) && IsCreditor(b, s.toUserId) && s.amount >= Epsilon
  }

  /** No debtor pays more than it owes, no creditor receives more than it is owed. */
  predicate WithinBalances(b: Balances, r: seq<Settlement>) {
    && (forall id :: id in b && IsDebtor(b, id) ==> PaidBy(r, id) <= -b[id])
    && (forall id :: id in b && IsCreditor(b, id) ==> ReceivedBy(r, id) <= b[id])
  }

  /** No settlement without both a debtor and a creditor, and fewer than one per party otherwise. */
  predicate FewSettlements(b: Balances, r: seq<Settlement>) {
    && (DebtorIds(b) == {} || CreditorIds(b) == {} ==> r == [])
    && (DebtorIds(b) != {} && CreditorIds(b) != {} ==> 1 <= |r| <= |DebtorIds(b)| + |CreditorIds(b)| - 1)
  }

  /** Every debtor, or every creditor, ends within the tolerance of its balance. */
  predicate OneSideSettled(b: Balances, r: seq<Settlement>) {
    || (forall id :: id in b && IsDebtor(b, id) ==> -b[id] - PaidBy(r, id) < Epsilon)
    || (forall id :: id in b && IsCreditor(b, id) ==> b[id] - ReceivedBy(r, id) < Epsilon)
  }

  /** The first settlement runs from the lowest balance to the highest, for the smaller magnitude. */
  predicate LargestFirst(b: Balances, r: seq<Settlement>) {
    |r| > 0 ==>
      && r[0].fromUserId in b && r[0].toUserId in b
      && (forall id :: id in b ==> b[r[0].fromUserId] <= b[id] <= b[r[0].toUserId])
      && r[0].amount == Min(-b[r[0].fromUserId], b[r[0].toUserId])
  }

  /**
   * The payers come in order of balance, lowest first, and the payees in
   * order of balance, highest first: the greedy walk down both sorted lists.
   */
  predicate InBalanceOrder(b: Balances, r: seq<Settlement>) {
    forall k, l :: 0 <= k < l < |r| ==>
      && r[k].fromUserId in b && r[l].fromUserId in b && r[k].toUserId in b && r[l].toUserId in b
      && b[r[k].fromUserId] <= b[r[l].fromUserId]
      && b[r[k].toUserId] >= b[r[l].toUserId]
  }

  lemma IdsMember(s: seq<Party>, id: string) returns (k: nat)
    requires id in Ids(s)
    ensures k < |s| && s[k].userId == id
  {
    k :| 0 <= k < |s| && s[k].userId == id;
  }

  /** A bound on `x` for every party of a collected side is a bound for every id of that side. */
  lemma SideBound(b: Balances, s: seq<Party>, debtor: bool, x: string -> real)
    requires Collected(b, {}, s, debtor)
    requires forall k :: 0 <= k < |s| ==> x(s[k].userId) <= s[k].amount
    ensures forall id :: id in b && id in SideIds(b, debtor) ==> x(id) <= SideAmount(b, id, debtor)
  {
    forall id | id in b && id in SideIds(b, debtor)
      ensures x(id) <= SideAmount(b, id, debtor)
    {
      var k := IdsMember(s, id);
      assert s[k] in s;
    }
  }

  /** Every party of a collected side within the tolerance means every id of that side is. */
  lemma SideSettled(b: Balances, s: seq<Party>, debtor: bool, x: string -> real)
    requires Collected(b, {}, s, debtor)
    requires forall k :: 0 <= k < |s| ==> s[k].amount - x(s[k].userId) < Epsilon
    ensures forall id :: id in b && id in SideIds(b, debtor) ==> SideAmount(b, id, debtor) - x(id) < Epsilon
  {
    forall id | id in b && id in SideIds(b, debtor)
      ensures SideAmount(b, id, debtor) - x(id) < Epsilon
    {
      var k := IdsMember(s, id);
      assert s[k] in s;
    }
  }

  /** The heads of the two sorted sides hold the lowest and the highest balance. */
  lemma SortedHeads(b: Balances, debtors: seq<Party>, creditors: seq<Party>)
    requires Collected(b, {}, debtors, true) && SortedDescending(debtors) && |debtors| > 0
    requires Collected(b, {}, creditors, false) && SortedDescending(creditors) && |creditors| > 0
    ensures debtors[0].userId in b && creditors[0].userId in b
    ensures forall id :: id in b ==> b[debtors[0].userId] <= b[id] <= b[creditors[0].userId]
  {
    assert debtors[0] in debtors && creditors[0] in creditors;
    forall id | id in b
      ensures b[debtors[0].userId] <= b[id] <= b[creditors[0].userId]
    {
      if IsDebtor(b, id) {
        var k := IdsMember(debtors, id);
        assert debtors[k] in debtors;
      }
      if IsCreditor(b, id) {
        var k := IdsMember(creditors, id);
        assert creditors[k] in creditors;
      }
    }
  }

  /** What the match promises about each debtor's payments, restated per id. */
  lemma DebtorsWithin(b: Balances, debtors: seq<Party>, r: seq<Settlement>)
    requires Collected(b, {}, debtors, true)
    requires forall k :: 0 <= k < |debtors| ==> PaidBy(r, debtors[k].userId) <= debtors[k].amount
    ensures forall id :: id in b && IsDebtor(b, id) ==> PaidBy(r, id) <= -b[id]
  {
    SideBound(b, debtors, true, id => PaidBy(r, id));
  }

  /** What the match promises about each creditor's receipts, restated per id. */
  lemma CreditorsWithin(b: Balances, creditors: seq<Party>, r: seq<Settlement>)
    requires Collected(b, {}, creditors, false)
    requires forall k :: 0 <= k < |creditors| ==> ReceivedBy(r, creditors[k].userId) <= creditors[k].amount
    ensures forall id :: id in b && IsCreditor(b, id) ==> ReceivedBy(r, id) <= b[id]
  {
    SideBound(b, creditors, false, id => ReceivedBy(r, id));
  }

  /** The settled side of the match, restated per id. */
  lemma SettledSide(b: Balances, debtors: seq<Party>, creditors: seq<Party>, r: seq<Settlement>)
    requires Collected(b, {}, debtors, true) && Collected(b, {}, creditors, false)
    requires || (forall k :: 0 <= k < |debtors| ==> debtors[k].amount - PaidBy(r, debtors[k].userId) < Epsilon)
             || (forall k :: 0 <= k < |creditors| ==> creditors[k].amount - ReceivedBy(r, creditors[k].userId) < Epsilon)
    ensures OneSideSettled(b, r)
  {
    if forall k :: 0 <= k < |debtors| ==> debtors[k].amount - PaidBy(r, debtors[k].userId) < Epsilon {
      SideSettled(b, debtors, true, id => PaidBy(r, id));
    } else {
      SideSettled(b, creditors, false, id => ReceivedBy(r, id));
    }
  }

  /** A first settlement between the two sorted heads runs from the lowest balance to the highest. */
  lemma HeadsFirst(b: Balances, debtors: seq<Party>, creditors: seq<Party>, r: seq<Settlement>)
    requires Collected(b, {}, debtors, true) && SortedDescending(debtors)
    requires Collected(b, {}, creditors, false) && SortedDescending(creditors)
    requires |r| > 0 ==> |debtors| > 0 && |creditors| > 0
    requires |r| > 0 && |debtors| > 0 && |creditors| > 0 ==>
      r[0] == Settlement(debtors[0].userId, creditors[0].userId, Min(debtors[0].amount, creditors[0].amount))
    ensures LargestFirst(b, r)
  {
    if |r| > 0 {
      SortedHeads(b, debtors, creditors);
      assert debtors[0] in debtors && creditors[0] in creditors;
    }
  }

  /** The position of a party of a sorted collected side gives its amount's rank. */
  lemma SideRank(b: Balances, s: seq<Party>, debtor: bool, x: string, y: string)
    requires Collected(b, {}, s, debtor) && SortedDescending(s)
    requires x in Ids(s) && y in Ids(s) && PosOf(s, x) <= PosOf(s, y)
    ensures x in b && y in b && SideAmount(b, x, debtor) >= SideAmount(b, y, debtor)
  {
    var m := IdsMember(s, x);
    var n := IdsMember(s, y);
    var px, py := PosOf(s, x), PosOf(s, y);
    assert px <= m && py <= n;
    assert s[px] in s && s[py] in s;
  }

  /** Settlements in list order between two sorted sides are in balance order. */
  lemma ListToBalanceOrder(b: Balances, debtors: seq<Party>, creditors: seq<Party>, r: seq<Settlement>)
    requires Collected(b, {}, debtors, true) && SortedDescending(debtors)
    requires Collected(b, {}, creditors, false) && SortedDescending(creditors)
    requires forall s :: s in r ==> s.fromUserId in Ids(debtors) && s.toUserId in Ids(creditors)
    requires InListOrder(r, debtors, creditors)
    ensures InBalanceOrder(b, r)
  {
    forall k, l | 0 <= k < l < |r|
      ensures && r[k].fromUserId in b && r[l].fromUserId in b && r[k].toUserId in b && r[l].toUserId in b
              && b[r[k].fromUserId] <= b[r[l].fromUserId]
              && b[r[k].toUserId] >= b[r[l].toUserId]
    {
      assert r[k] in r && r[l] in r;
      SideRank(b, debtors, true, r[k].fromUserId, r[l].fromUserId);
      SideRank(b, creditors, false, r[k].toUserId, r[l].toUserId);
    }
  }

  /**
   * `optimizeSettlements`: split the balances into debtors and creditors,
   * sort both largest first (in any order among equal amounts) and match
   * them greedily.
   */
  method OptimizeSettlements(balances: Balances) returns (settlements: seq<Settlement>)
    ensures DebtorsPayCreditors(balances, settlements)
    ensures WithinBalances(balances, settlements)
    ensures FewSettlements(balances, settlements)
    ensures OneSideSettled(balances, settlements)
    ensures LargestFirst(balances, settlements)
    ensures InBalanceOrder(balances, settlements)
  {
    var collectedDebtors, collectedCreditors := SplitParties(balances);
    // `std::sort` is not stable: any largest-first reordering of each side may come out.
    assert SortedDescending(SortDescending(collectedDebtors));
    assert SortedDescending(SortDescending(collectedCreditors));
    var debtors :| SortedDescending(debtors) && multiset(debtors) == multiset(collectedDebtors);
    var creditors :| SortedDescending(creditors) && multiset(creditors) == multiset(collectedCreditors);
    PermutationKeepsSide(balances, collectedDebtors, debtors, true);
    PermutationKeepsSide(balances, collectedCreditors, creditors, false);
    settlements := MatchParties(debtors, creditors);
    DistinctIdsCount(debtors);
    DistinctIdsCount(creditors);
    DebtorsWithin(balances, debtors, settlements);
    CreditorsWithin(balances, creditors, settlements);
    SettledSide(balances, debtors, creditors, settlements);
    HeadsFirst(balances, debtors, creditors, settlements);
    ListToBalanceOrder(balances, debtors, creditors, settlements);
  }

  // ---------------------------------------------------------------------------
  // calculateEventSettlements
  // ---------------------------------------------------------------------------

  /** The inner loop that collects the participant ids, repeated for every expense. */
  method CollectIds(participants: seq<Participant>) returns (ids: seq<string>)
    ensures ids == ParticipantIds(participants)
  {
    ids := [];
    var n := 0;
    while n < |participants|
      invariant 0 <= n <= |participants|
      invariant ids == ParticipantIds(participants[..n])
    {
      assert participants[..n + 1][..n] == participants[..n];
      if participants[n].userId.Some? {
        ids := ids + [participants[n].userId.value];
      }
      n := n + 1;
    }
    assert participants[..n] == participants;
  }

  /** The inner loop over the shares: `balances[share.userId] -= share.amount` for tracked ids. */
  method DebitLoop(b: Balances, shares: seq<Share>) returns (balances: Balances)
    ensures balances == DebitShares(b, shares)
  {
    balances := b;
    var t := 0;
    while t < |shares|
      invariant 0 <= t <= |shares|
      invariant balances == DebitShares(b, shares[..t])
    {
      var share := shares[t];
      assert shares[..t + 1][..t] == shares[..t] && shares[..t + 1][t] == share;
      if share.userId in balances {
        balances := balances[share.userId := balances[share.userId] - share.amount];
      }
      assert balances == DebitShares(b, shares[..t + 1]);
      t := t + 1;
    }
    assert shares[..t] == shares;
  }

  /**
   * The body of the expense loop: an expense with a payer and an amount
   * credits the payer and debits every share of its split among all the
   * event's participants; any other expense is skipped.
   */
  method ExpenseLoopTurn(b: Balances, participants: seq<Participant>, e: Expense) returns (balances: Balances)
    ensures balances == ApplyExpense(b, ParticipantIds(participants), e)
  {
    balances := b;
    if e.payerId.Some? && e.amount.Some? {
      var payerId, amount := e.payerId.value, e.amount.value;
      var splitType := e.splitType.GetOr("equal");
      var ids := CollectIds(participants);
      if |ids| > 0 {
        var shares := CalculateExpenseShares(amount, splitType, ids, map[]);
        if payerId in balances {
          balances := balances[payerId := balances[payerId] + amount];
        }
        assert balances == Credit(b, payerId, amount);
        balances := DebitLoop(balances, shares);
      }
    }
  }

  /** One more participant row adds its id, if it has one, with a zero balance. */
  lemma InitialBalancesStep(ps: seq<Participant>, p: Participant)
    ensures InitialBalances(ps + [p]) ==
      if p.userId.Some? then InitialBalances(ps)[p.userId.value := 0.0] else InitialBalances(ps)
  {
    var before, after := InitialBalances(ps), InitialBalances(ps + [p]);
    forall id
      ensures id in after <==> id in before || p.userId == Some(id)
    {
      assert Participant(Some(id)) in ps + [p] <==> Participant(Some(id)) in ps || p == Participant(Some(id));
    }
  }

  /** The loop that gives every participant id a zero balance. */
  method InitialLoop(participants: seq<Participant>) returns (balances: Balances)
    ensures balances == InitialBalances(participants)
  {
    balances := map[];
    var n := 0;
    while n < |participants|
      invariant 0 <= n <= |participants|
      invariant balances == InitialBalances(participants[..n])
    {
      assert participants[..n + 1] == participants[..n] + [participants[n]];
      InitialBalancesStep(participants[..n], participants[n]);
      if participants[n].userId.Some? {
        balances := balances[participants[n].userId.value := 0.0];
      }
      n := n + 1;
    }
    assert participants[..n] == participants;
  }

  /** The balance loops of `calculateEventSettlements`, statement by statement. */
  method EventBalances(expenses: seq<Expense>, participants: seq<Participant>) returns (balances: Balances)
    ensures balances == CalculateUserBalances(expenses, participants)
  {
    balances := InitialLoop(participants);
    ghost var start, allIds := balances, ParticipantIds(participants);
    var m := 0;
    while m < |expenses|
      invariant 0 <= m <= |expenses|
      invariant balances == BalancesAfter(start, allIds, expenses[..m])
    {
      assert expenses[..m + 1][..m] == expenses[..m];
      balances := ExpenseLoopTurn(balances, participants, expenses[m]);
      m := m + 1;
    }
    assert expenses[..m] == expenses;
  }

  /** `calculateEventSettlements`: the settlements of the event's balances. */
  method CalculateEventSettlements(expenses: seq<Expense>, participants: seq<Participant>)
    returns (settlements: seq<Settlement>)
    ensures DebtorsPayCreditors(CalculateUserBalances(expenses, participants), settlements)
    ensures WithinBalances(CalculateUserBalances(expenses, participants), settlements)
    ensures FewSettlements(CalculateUserBalances(expenses, participants), settlements)
    ensures OneSideSettled(CalculateUserBalances(expenses, participants), settlements)
    ensures LargestFirst(CalculateUserBalances(expenses, participants), settlements)
    ensures InBalanceOrder(CalculateUserBalances(expenses, participants), settlements)
  {
    var balances := EventBalances(expenses, participants);
    settlements := OptimizeSettlements(balances);
  }
}
