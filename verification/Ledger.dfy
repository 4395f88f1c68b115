/** Transaction history (config/admin_api.py, transaction_history): balances rebuilt backwards from the current
    balance, then one merged list cut into pages. */
module Ledger {
  import opened Common
  import opened Sorting

  /** Amounts are in hundredths of a rupee. */
  datatype Txn = Txn(id: nat, credit: bool, amount: int, created: int)

  /** A sub-wallet with its transactions, newest first. */
  datatype SubWallet = SubWallet(balance: int, txns: seq<Txn>)

  /* ---- Forward: what the balance was --------------------------------------------------------------------------- */

  /** The sum of the transactions from position i on; the list is newest first, so these are the older ones. */
  function SumFrom(txns: seq<Txn>, i: nat): int
    requires i <= |txns|
    decreases |txns| - i
  {
    if i == |txns| then 0
    else if txns[i].credit then SumFrom(txns, i + 1) + txns[i].amount
    else SumFrom(txns, i + 1) - txns[i].amount
  }

  /** The balance just after transaction i, counted forward from the opening balance. */
  function BalanceAfter(opening: int, txns: seq<Txn>, i: nat): int
    requires i < |txns|
  {
    opening + SumFrom(txns, i)
  }

  /** The oldest transaction takes the opening balance up or down, and each newer one the balance before it. */
  lemma ForwardSteps(opening: int, txns: seq<Txn>, i: nat)
    requires i < |txns|
    ensures
      var before := if i + 1 < |txns| then BalanceAfter(opening, txns, i + 1) else opening;
      BalanceAfter(opening, txns, i) == if txns[i].credit then before + txns[i].amount else before - txns[i].amount
  {
    assert i + 1 == |txns| ==> SumFrom(txns, i + 1) == 0;
  }

  /* ---- Backward: what the code keeps --------------------------------------------------------------------------- */

  /** `running` when the loop reaches transaction i. */
  function RunningAt(balance: int, txns: seq<Txn>, i: nat): int
    requires i <= |txns|
  {
    if i == 0 then balance
    else
      var t := txns[i - 1];
      RunningAt(balance, txns, i - 1) + if t.credit then -t.amount else t.amount
  }

  lemma {:induction false} RunningIsBalance(balance: int, opening: int, txns: seq<Txn>, i: nat)
    requires i <= |txns| && balance == opening + SumFrom(txns, 0)
    ensures RunningAt(balance, txns, i) == opening + SumFrom(txns, i)
  {
    if i > 0 {
      RunningIsBalance(balance, opening, txns, i - 1);
    }
  }

  function AllTxns(wallets: seq<SubWallet>): seq<Txn> {
    if wallets == [] then [] else AllTxns(wallets[..|wallets| - 1]) + wallets[|wallets| - 1].txns
  }

  /** Transaction ids are primary keys: no two transactions of any of the sub-wallets share one. */
  ghost predicate DistinctIds(wallets: seq<SubWallet>) {
    forall w, i, v, j ::
      0 <= w < |wallets| && 0 <= i < |wallets[w].txns| && 0 <= v < |wallets| && 0 <= j < |wallets[v].txns| ==>
      wallets[w].txns[i].id == wallets[v].txns[j].id ==> w == v && i == j
  }

  /** The balance map agrees with the backward replay on the first n sub-wallets. */
  ghost predicate Replayed(m: map<nat, int>, wallets: seq<SubWallet>, n: nat) {
    n <= |wallets| &&
    forall w, i :: 0 <= w < n && 0 <= i < |wallets[w].txns| ==> Entered(m, wallets[w], i)
  }

  ghost predicate Entered(m: map<nat, int>, w: SubWallet, i: nat) {
    i < |w.txns| && w.txns[i].id in m && m[w.txns[i].id] == RunningAt(w.balance, w.txns, i)
  }

  /** The same, with the first i transactions of sub-wallet n besides. */
  ghost predicate ReplayedTo(m: map<nat, int>, wallets: seq<SubWallet>, n: nat, i: nat) {
    n < |wallets| && i <= |wallets[n].txns| && Replayed(m, wallets, n) &&
    forall j :: 0 <= j < i ==> Entered(m, wallets[n], j)
  }

  lemma EnterKeeps(m: map<nat, int>, wallets: seq<SubWallet>, n: nat, i: nat)
    requires DistinctIds(wallets) && ReplayedTo(m, wallets, n, i) && i < |wallets[n].txns|
    ensures ReplayedTo(m[wallets[n].txns[i].id := RunningAt(wallets[n].balance, wallets[n].txns, i)], wallets, n, i + 1)
  {
    var id := wallets[n].txns[i].id;
    var next := m[id := RunningAt(wallets[n].balance, wallets[n].txns, i)];
    forall w, j | 0 <= w < n && 0 <= j < |wallets[w].txns|
      ensures Entered(next, wallets[w], j)
    {
      assert Entered(m, wallets[w], j) && wallets[w].txns[j].id != id;
    }
    forall j | 0 <= j < i + 1
      ensures Entered(next, wallets[n], j)
    {
      assert j == i || (Entered(m, wallets[n], j) && wallets[n].txns[j].id != id);
    }
  }

  function NewestFirst(t: Txn): Key {
    (-t.created, 0)
  }

  method History(wallets: seq<SubWallet>) returns (all: seq<Txn>, balanceAfter: map<nat, int>)
    requires DistinctIds(wallets)
    ensures all == SortBy(AllTxns(wallets), NewestFirst)
    ensures Replayed(balanceAfter, wallets, |wallets|)
  {
    all, balanceAfter := [], map[];
    var w := 0;
    while w < |wallets|
      invariant 0 <= w <= |wallets|
      invariant all == AllTxns(wallets[..w])
      invariant Replayed(balanceAfter, wallets, w)
    {
      var txns := wallets[w].txns;
      var running := wallets[w].balance;
      var i := 0;
      while i < |txns|
        invariant 0 <= i <= |txns|
        invariant running == RunningAt(wallets[w].balance, txns, i)
        invariant all == AllTxns(wallets[..w]) + txns[..i]
        invariant ReplayedTo(balanceAfter, wallets, w, i)
      {
        EnterKeeps(balanceAfter, wallets, w, i);
        balanceAfter := balanceAfter[txns[i].id := running];
        if txns[i].credit {
          running := running - txns[i].amount;
        } else {
          running := running + txns[i].amount;
        }
        all := all + [txns[i]];
        i := i + 1;
      }
      assert wallets[..w + 1][..w] == wallets[..w] && txns[..i] == txns;
      w := w + 1;
    }
    assert wallets[..w] == wallets;
    all := SortBy(all, NewestFirst);
  }

  /** The newest transaction of a sub-wallet shows its balance; each older one what the next newer one shows, less its
      amount if that was a credit, and with it if it was a debit. */
  lemma ReplayedSteps(m: map<nat, int>, wallets: seq<SubWallet>, w: nat, i: nat)
    requires Replayed(m, wallets, |wallets|) && w < |wallets| && i < |wallets[w].txns|
    ensures
      var txns := wallets[w].txns;
      && txns[i].id in m
      && (i == 0 ==> m[txns[i].id] == wallets[w].balance)
      && (i + 1 < |txns| ==>
            && txns[i + 1].id in m
            && (txns[i].credit ==> m[txns[i + 1].id] == m[txns[i].id] - txns[i].amount)
            && (!txns[i].credit ==> m[txns[i + 1].id] == m[txns[i].id] + txns[i].amount))
  {
    assert Entered(m, wallets[w], i);
    if i + 1 < |wallets[w].txns| {
      assert Entered(m, wallets[w], i + 1);
    }
  }

  /** The backward replay agrees with the forward ledger: when a sub-wallet's balance is its opening balance
      plus all its transactions, the map holds for each of them the forward balance just after it. */
  lemma ReplayIsForward(m: map<nat, int>, wallets: seq<SubWallet>, w: nat, opening: int, i: nat)
    requires Replayed(m, wallets, |wallets|) && w < |wallets| && i < |wallets[w].txns|
    requires wallets[w].balance == opening + SumFrom(wallets[w].txns, 0)
    ensures wallets[w].txns[i].id in m && m[wallets[w].txns[i].id] == BalanceAfter(opening, wallets[w].txns, i)
  {
    assert Entered(m, wallets[w], i);
    RunningIsBalance(wallets[w].balance, opening, wallets[w].txns, i);
  }

  /** And only then: a balance that does not add up shows wrong in every entry, by the same amount. */
  lemma ReplayOff(m: map<nat, int>, wallets: seq<SubWallet>, w: nat, opening: int, i: nat)
    requires Replayed(m, wallets, |wallets|) && w < |wallets| && i < |wallets[w].txns|
    ensures wallets[w].txns[i].id in m
    ensures m[wallets[w].txns[i].id] - BalanceAfter(opening, wallets[w].txns, i)
         == wallets[w].balance - (opening + SumFrom(wallets[w].txns, 0))
  {
    assert Entered(m, wallets[w], i);
    RunningIsBalance(wallets[w].balance, wallets[w].balance - SumFrom(wallets[w].txns, 0), wallets[w].txns, i);
  }

  /** A credit of 100 and then a debit of 40: the balance is 60, and was 100 after the credit. */
  lemma CreditThenDebit(m: map<nat, int>)
    requires Replayed(m, [SubWallet(60, [Txn(2, false, 40, 5), Txn(1, true, 100, 3)])], 1)
    ensures 1 in m && m[1] == 100 && 2 in m && m[2] == 60
  {
    ReplayedSteps(m, [SubWallet(60, [Txn(2, false, 40, 5), Txn(1, true, 100, 3)])], 0, 0);
  }

  /* ---- Pages --------------------------------------------------------------------------------------------------- */

  /** A Python slice bound brought into 0..n. */
  function Bound(i: int, n: nat): (k: nat)
    ensures k <= n
  {
    if i < 0 then (if n + i < 0 then 0 else n + i) else if i > n then n else i
  }

  /** `all[offset : offset + limit]` */
  function Page(all: seq<Txn>, offset: int, limit: int): seq<Txn> {
    var a, b := Bound(offset, |all|), Bound(offset + limit, |all|);
    if a <= b then all[a..b] else []
  }

  /** m consecutive pages put together: at offset, offset + limit, offset + 2 * limit, ... */
  function Pages(all: seq<Txn>, offset: int, limit: int, m: nat): seq<Txn>
    decreases m
  {
    if m == 0 then [] else Page(all, offset, limit) + Pages(all, offset + limit, limit, m - 1)
  }

  /** A page holds the transactions at its positions; a negative offset counts from the end, and with a limit that
      reaches the end from there nothing is left of the page. */
  lemma PageHolds(all: seq<Txn>, offset: int, limit: nat, i: nat)
    ensures 0 <= offset && i < limit && offset + i < |all| ==>
              i < |Page(all, offset, limit)| && Page(all, offset, limit)[i] == all[offset + i]
    ensures 0 <= offset ==> |Page(all, offset, limit)| <= limit
    ensures -|all| <= offset < 0 && i < limit && offset + limit < 0 ==>
              |Page(all, offset, limit)| == limit && Page(all, offset, limit)[i] == all[|all| + offset + i]
    ensures -|all| <= offset < 0 && offset + limit == 0 ==> Page(all, offset, limit) == []
  {
  }

  /** Consecutive pages are a prefix of what stands from the first offset on, and enough of them are all of it. */
  lemma {:induction false} PagesAreAPrefix(all: seq<Txn>, offset: int, limit: int, m: nat)
    requires limit >= 1 && offset >= 0
    ensures Pages(all, offset, limit, m) <= all[Bound(offset, |all|)..]
    ensures m >= |all| - offset ==> Pages(all, offset, limit, m) == all[Bound(offset, |all|)..]
    decreases m
  {
    hide Pages, Page, Bound;
    UnfoldPages(all, offset, limit, m);
    if m > 0 {
      PagesAreAPrefix(all, offset + limit, limit, m - 1);
      NextPage(all, offset, limit);
      var rest, after := Pages(all, offset + limit, limit, m - 1), all[Bound(offset + limit, |all|)..];
      PrefixAfter(Page(all, offset, limit), rest, after);
    }
  }

  lemma UnfoldPages(all: seq<Txn>, offset: int, limit: int, m: nat)
    ensures m == 0 ==> Pages(all, offset, limit, m) == []
    ensures m > 0 ==>
      Pages(all, offset, limit, m) == Page(all, offset, limit) + Pages(all, offset + limit, limit, m - 1)
    ensures offset >= |all| ==> Bound(offset, |all|) == |all|
  {
  }

  lemma PrefixAfter(page: seq<Txn>, rest: seq<Txn>, after: seq<Txn>)
    requires rest <= after
    ensures page + rest <= page + after
  {
  }

  lemma NextPage(all: seq<Txn>, offset: int, limit: int)
    requires limit >= 1 && offset >= 0
    ensures Page(all, offset, limit) + all[Bound(offset + limit, |all|)..] == all[Bound(offset, |all|)..]
  {
  }

  lemma {:induction false} NoPagesBelow(all: seq<Txn>, offset: int, limit: int, m: nat)
    requires limit <= 0 && offset <= limit
    ensures Pages(all, offset, limit, m) == []
    decreases m
  {
    if m > 0 {
      NoPagesBelow(all, offset + limit, limit, m - 1);
    }
  }

  /** Consecutive pages put together give the whole list after some number of pages exactly when the page size is
      positive: a limit of 0 or below, which the request may carry, never gets there. */
  lemma PagesCoverIff(all: seq<Txn>, limit: int)
    requires all != []
    ensures (exists m: nat :: Pages(all, 0, limit, m) == all) <==> limit >= 1
  {
    if limit >= 1 {
      PagesAreAPrefix(all, 0, limit, |all|);
      assert Pages(all, 0, limit, |all|) == all;
    } else {
      forall m: nat
        ensures Pages(all, 0, limit, m) != all
      {
        if m > 0 {
          NoPagesBelow(all, limit, limit, m - 1);
          assert |Page(all, 0, limit)| < |all|;
        }
      }
    }
  }

  /** With a limit of 0, every page is empty. */
  lemma ZeroLimitShowsNothing(all: seq<Txn>, m: nat)
    ensures Pages(all, 0, 0, m) == []
  {
    NoPagesBelow(all, 0, 0, m);
  }

  /** The transactions of one time, in the order they stand in. */
  function CreatedAt(all: seq<Txn>, created: int): seq<Txn> {
    Filter(all, (t: Txn) => t.created == created)
  }

  lemma CreatedThen(all: seq<Txn>, created: int)
    ensures CreatedAt(all, created) == WithKey(all, NewestFirst, (-created, 0))
  {
    KeyTold(all, NewestFirst, (-created, 0), (t: Txn) => t.created == created);
  }

  /** Transactions are read wallet by wallet. */
  lemma {:induction false} ReadInOrder(a: seq<SubWallet>, b: seq<SubWallet>, w: SubWallet)
    ensures AllTxns(a + b) == AllTxns(a) + AllTxns(b) && AllTxns([w]) == w.txns
  {
    assert [w][..0] == [];
    if b == [] {
      assert a + b == a;
    } else {
      var n := |b| - 1;
      ReadInOrder(a, b[..n], w);
      assert (a + b)[..|a + b| - 1] == a + b[..n];
      Regroup(AllTxns(a), AllTxns(b[..n]), b[n].txns);
    }
  }

  /** The merged list has every transaction once and stands newest first; equal times keep the order in which the
      sub-wallets were read. */
  lemma MergedList(wallets: seq<SubWallet>, created: int)
    ensures var all := SortBy(AllTxns(wallets), NewestFirst);
            && multiset(all) == multiset(AllTxns(wallets))
            && (forall i, j :: 0 <= i < j < |all| ==> all[i].created >= all[j].created)
            && CreatedAt(all, created) == CreatedAt(AllTxns(wallets), created)
  {
    var all := SortBy(AllTxns(wallets), NewestFirst);
    SortBySorts(AllTxns(wallets), NewestFirst);
    SortByStable(AllTxns(wallets), NewestFirst, (-created, 0));
    CreatedThen(all, created);
    CreatedThen(AllTxns(wallets), created);
    forall i, j | 0 <= i < j < |all|
      ensures all[i].created >= all[j].created
    {
      assert !Less(NewestFirst(all[j]), NewestFirst(all[i]));
    }
  }
}
