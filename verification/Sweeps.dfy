/**
 What a sweep over recorded deposits does, seen from outside its loop: which deposits it consumes,
 what it pays for them, that pages compose, and that neither order nor paging changes fees.
 */
module Sweeps {
  import opened Types
  import opened Books

  /** The sum of the listed deposits that are still unconsumed. */
  function OpenSum(ds: seq<Deposit>, list: seq<nat>): nat {
    if list == [] then 0
    else
      var id := list[|list| - 1];
      OpenSum(ds, list[..|list| - 1]) + (if id < |ds| && !ds[id].consumed then ds[id].amount else 0)
  }

  /** Their fees, each rounded down on its own. */
  function OpenFees(ds: seq<Deposit>, list: seq<nat>): nat {
    if list == [] then 0
    else
      var id := list[|list| - 1];
      OpenFees(ds, list[..|list| - 1]) + (if id < |ds| && !ds[id].consumed then ClaimFee(ds[id]) else 0)
  }

  ghost predicate Distinct(list: seq<nat>) {
    forall i, j :: 0 <= i < j < |list| ==> list[i] != list[j]
  }

  ghost predicate InBucket(ds: seq<Deposit>, list: seq<nat>, b: Bucket) {
    forall i :: 0 <= i < |list| ==> list[i] < |ds| && BucketOf(ds[list[i]]) == b
  }

  /** Later books keep every record, apart from consuming some; and consume exactly those in `gone`. */
  ghost predicate OnlyConsumed(ds: seq<Deposit>, ds': seq<Deposit>, gone: seq<nat>) {
    && |ds'| == |ds|
    && forall i: nat :: i < |ds| ==> ds'[i] == ds[i].(consumed := ds[i].consumed || i in gone)
  }

  /** Consuming in bucket `b` moves its totals by the gross amount and touches nothing else. */
  ghost predicate Took(k: Books, w: Swept, b: Bucket) {
    && BooksInv(w.k)
    && w.k.ids == k.ids && w.k.cursor == k.cursor && w.k.uses == k.uses
    && w.k.feesOwed == k.feesOwed && w.k.feesTotal == k.feesTotal
    && (forall t :: Get(w.k.tracked, t) == Get(k.tracked, t) - (if t == b.token then w.gross else 0))
    && (forall c :: Get(w.k.bucketTotal, c) == Get(k.bucketTotal, c) - (if c == b then w.gross else 0))
    && (forall t :: Flow(w.k.log, t, Claims) == Flow(k.log, t, Claims) + (if t == b.token then w.gross else 0))
    && (forall t :: Flow(w.k.log, t, FeesIn) == Flow(k.log, t, FeesIn))
    && w.fee * 100 <= w.gross
  }

  /** One deposit's fee is at most a hundredth of it, because the recorded rate is at most 100 basis points. */
  lemma ClaimFeeCap(d: Deposit)
    requires d.feeBps <= MAX_FEE_BPS
    ensures ClaimFee(d) * 100 <= d.amount
  {
    TimesCapped(d.amount, d.feeBps);
    FloorCapped(d.amount * d.feeBps, d.amount);
  }

  lemma TimesCapped(u: nat, q: nat)
    requires q <= MAX_FEE_BPS
    ensures u * q <= u * MAX_FEE_BPS
  {
  }

  lemma FloorCapped(x: nat, u: nat)
    requires x <= u * MAX_FEE_BPS
    ensures x / BPS * 100 <= u
  {
  }

  lemma RecordedFeeCap(k: Books, id: nat)
    requires BooksInv(k) && id < |k.deposits|
    ensures ClaimFee(k.deposits[id]) * 100 <= k.deposits[id].amount
  {
    ClaimFeeCap(k.deposits[id]);
  }

  lemma ClaimIntoTook(k: Books, w: Swept, b: Bucket, id: nat, to: Address)
    requires Took(k, w, b)
    requires id < |w.k.deposits| && !w.k.deposits[id].consumed && BucketOf(w.k.deposits[id]) == b
    ensures Took(k, ClaimInto(w, id, to), b)
  {
    hide BooksInv;
    ClaimInv(w.k, id, to);
    RecordedFeeCap(w.k, id);
    var w' := ClaimInto(w, id, to);
    var d := w.k.deposits[id];
    forall t
      ensures Get(w'.k.tracked, t) == Get(k.tracked, t) - (if t == b.token then w'.gross else 0)
    {
      assert Get(w.k.tracked, t) == Get(k.tracked, t) - (if t == b.token then w.gross else 0);
    }
    forall c
      ensures Get(w'.k.bucketTotal, c) == Get(k.bucketTotal, c) - (if c == b then w'.gross else 0)
    {
      assert Get(w.k.bucketTotal, c) == Get(k.bucketTotal, c) - (if c == b then w.gross else 0);
    }
    forall t
      ensures Flow(w'.k.log, t, Claims) == Flow(k.log, t, Claims) + (if t == b.token then w'.gross else 0)
      ensures Flow(w'.k.log, t, FeesIn) == Flow(k.log, t, FeesIn)
    {
      FlowPushed(w.k.log, Claimed(id, to, d.token, d.amount, ClaimFee(d)), t, Claims);
      FlowPushed(w.k.log, Claimed(id, to, d.token, d.amount, ClaimFee(d)), t, FeesIn);
      assert Flow(w.k.log, t, Claims) == Flow(k.log, t, Claims) + (if t == b.token then w.gross else 0);
      assert Flow(w.k.log, t, FeesIn) == Flow(k.log, t, FeesIn);
    }
  }

  /** `w` took exactly the unconsumed deposits among `gone`, at their sum and their fees. */
  ghost predicate Takes(k: Books, w: Swept, b: Bucket, gone: seq<nat>) {
    && Took(k, w, b)
    && OnlyConsumed(k.deposits, w.k.deposits, gone)
    && w.gross == OpenSum(k.deposits, gone)
    && w.fee == OpenFees(k.deposits, gone)
  }

  lemma TakesNothing(k: Books, b: Bucket)
    requires BooksInv(k)
    ensures Takes(k, Swept(k, 0, 0, 0), b, [])
  {
  }

  lemma TakesOne(k: Books, w: Swept, b: Bucket, gone: seq<nat>, id: nat, to: Address)
    requires Takes(k, w, b, gone) && id !in gone
    requires id < |k.deposits| && BucketOf(k.deposits[id]) == b
    ensures id < |w.k.deposits|
    ensures Takes(k, if w.k.deposits[id].consumed then w else ClaimInto(w, id, to), b, gone + [id])
  {
    hide BooksInv, Flow, ClaimFee;
    assert (gone + [id])[..|gone|] == gone;
    var d := w.k.deposits[id];
    assert d == k.deposits[id].(consumed := k.deposits[id].consumed || id in gone);
    if !d.consumed {
      ClaimIntoTook(k, w, b, id, to);
    }
    var w' := if d.consumed then w else ClaimInto(w, id, to);
    assert OnlyConsumed(k.deposits, w'.k.deposits, gone + [id]);
    assert Took(k, w', b);
  }

  /**
   A cursor walk takes exactly the unconsumed deposits of its stretch: it consumes all of them and no
   others, and pays their sum with fees rounded per deposit.
   */
  lemma {:induction false} WalkTakes(k: Books, b: Bucket, list: seq<nat>, from: nat, end: nat, to: Address)
    requires BooksInv(k) && from <= end <= |list| && Distinct(list) && InBucket(k.deposits, list, b)
    ensures Takes(k, Walk(k, list, from, end, to), b, list[from..end])
    decreases end
  {
    hide BooksInv, Takes;
    if from == end {
      TakesNothing(k, b);
      assert list[from..end] == [];
    } else {
      var p := end - 1;
      WalkTakes(k, b, list, from, p, to);
      var w := Walk(k, list, from, p, to);
      var id := list[p];
      assert list[from..end] == list[from..p] + [id];
      assert id !in list[from..p];
      TakesOne(k, w, b, list[from..p], id, to);
    }
  }

  /** Two consecutive stretches, the second on the books the first left, are one stretch. */
  lemma {:induction false} WalkSplit(k: Books, list: seq<nat>, from: nat, mid: nat, end: nat, to: Address)
    requires from <= mid <= end <= |list|
    ensures var w1 := Walk(k, list, from, mid, to);
            var w2 := Walk(w1.k, list, mid, end, to);
            Walk(k, list, from, end, to)
            == Swept(w2.k, w1.gross + w2.gross, w1.fee + w2.fee, w1.count + w2.count)
    decreases end
  {
    hide Claim, ClaimFee;
    if mid < end {
      WalkSplit(k, list, from, mid, end - 1, to);
    }
  }

  /** The list of a bucket as the cursor walk needs it. */
  lemma BucketListFacts(k: Books, b: Bucket)
    requires Indexed(k)
    ensures Distinct(IdList(k, b)) && InBucket(k.deposits, IdList(k, b), b)
    ensures Cursor(k, b) == Get(k.cursor, b) <= |IdList(k, b)|
    ensures AllConsumed(k.deposits, IdList(k, b), Cursor(k, b))
  {
    IdsExact(k.deposits, b);
    assert IdList(k, b) == Ids(k.deposits, b);
    assert 0 <= Get(k.cursor, b) <= |IdList(k, b)|;
    assert AllConsumed(k.deposits, IdList(k, b), Get(k.cursor, b));
    assert forall i :: 0 <= i < |IdList(k, b)| ==> IdList(k, b)[i] in Ids(k.deposits, b);
  }

  /** One page from the cursor: the invariant holds, the page is gone, and the cursor moved past it. */
  lemma FromCursorTakes(k: Books, b: Bucket, limit: nat, to: Address)
    requires BooksInv(k)
    ensures var w := FromCursor(k, b, limit, to);
            var i := Cursor(k, b);
            var end := PageEnd(|IdList(k, b)|, i, limit);
            && i <= end <= |IdList(k, b)|
            && BooksInv(w.k)
            && w.k.cursor == k.cursor[b := end]
            && Takes(k, w.(k := w.k.(cursor := k.cursor)), b, IdList(k, b)[i..end])
  {
    var list, i := IdList(k, b), Cursor(k, b);
    var end := PageEnd(|list|, i, limit);
    BucketListFacts(k, b);
    WalkTakes(k, b, list, i, end, to);
    var w0 := Walk(k, list, i, end, to);
    var w := FromCursor(k, b, limit, to);
    assert w.k.(cursor := k.cursor) == w0.k;
    CursorAdvanced(k, w0.k, b, end);
  }

  /** Moving a cursor over consumed deposits keeps the invariant. */
  lemma CursorAdvanced(k: Books, k1: Books, b: Bucket, end: nat)
    requires Indexed(k) && BooksInv(k1) && k1.ids == k.ids && k1.cursor == k.cursor
    requires Cursor(k, b) <= end <= |IdList(k, b)|
    requires OnlyConsumed(k.deposits, k1.deposits, IdList(k, b)[Cursor(k, b)..end])
    ensures BooksInv(k1.(cursor := k1.cursor[b := end]))
  {
    LedgerApart(k1, k1.cursor[b := end]);
    IndexAdvanced(k, k1, b, end);
  }

  lemma IndexAdvanced(k: Books, k1: Books, b: Bucket, end: nat)
    requires Indexed(k) && Indexed(k1) && k1.ids == k.ids && k1.cursor == k.cursor
    requires Cursor(k, b) <= end <= |IdList(k, b)|
    requires OnlyConsumed(k.deposits, k1.deposits, IdList(k, b)[Cursor(k, b)..end])
    ensures Indexed(k1.(cursor := k1.cursor[b := end]))
  {
    hide Ids, AllConsumed, OnlyConsumed, Distinct, InBucket;
    var k' := k1.(cursor := k1.cursor[b := end]);
    StretchConsumed(k, k1, b, end);
    forall c
      ensures IdList(k', c) == Ids(k'.deposits, c)
      ensures 0 <= Get(k'.cursor, c) <= |IdList(k', c)|
      ensures AllConsumed(k'.deposits, IdList(k', c), Get(k'.cursor, c))
    {
      assert IdList(k', c) == IdList(k1, c);
      assert IdList(k1, c) == Ids(k1.deposits, c);
      assert AllConsumed(k1.deposits, IdList(k1, c), Get(k1.cursor, c));
      assert 0 <= Get(k1.cursor, c) <= |IdList(k1, c)|;
    }
  }

  lemma StretchConsumed(k: Books, k1: Books, b: Bucket, end: nat)
    requires Indexed(k) && k1.ids == k.ids && Cursor(k, b) <= end <= |IdList(k, b)|
    requires OnlyConsumed(k.deposits, k1.deposits, IdList(k, b)[Cursor(k, b)..end])
    ensures AllConsumed(k1.deposits, IdList(k1, b), end)
  {
    hide Indexed;
    var list, i0 := IdList(k, b), Cursor(k, b);
    BucketListFacts(k, b);
    forall i | 0 <= i < end && list[i] < |k1.deposits|
      ensures k1.deposits[list[i]].consumed
    {
      if i >= i0 {
        assert list[i] == list[i0..end][i - i0];
      }
    }
  }

  lemma LedgerApart(k: Books, cursor: map<Bucket, int>)
    requires Totals(k) && Recorded(k) && Ledger(k)
    ensures var k' := k.(cursor := cursor); Totals(k') && Recorded(k') && Ledger(k')
  {
  }

  // ------------------------------------------------------------------ explicit ids

  /** The ids an explicit sweep accepts: distinct, of this bucket, and not yet consumed. */
  ghost predicate Sweepable(k: Books, b: Bucket, list: seq<nat>) {
    && Distinct(list)
    && InBucket(k.deposits, list, b)
    && forall i :: 0 <= i < |list| ==> !k.deposits[list[i]].consumed
  }

  lemma SweepablePrefix(k: Books, b: Bucket, list: seq<nat>, id: nat)
    ensures Sweepable(k, b, list + [id])
            <==> Sweepable(k, b, list) && id !in list
                 && id < |k.deposits| && BucketOf(k.deposits[id]) == b && !k.deposits[id].consumed
  {
    var all := list + [id];
    assert forall i :: 0 <= i < |list| ==> all[i] == list[i];
    assert all[|list|] == id;
    if Sweepable(k, b, all) {
      assert forall i, j :: 0 <= i < j < |list| ==> all[i] != all[j];
    }
  }

  /** An explicit sweep succeeds exactly on sweepable ids, and then takes exactly those deposits. */
  lemma {:induction false} ByIdsTakes(k: Books, b: Bucket, list: seq<nat>, n: nat, to: Address)
    requires BooksInv(k) && n <= |list|
    ensures ByIds(k, b, list, n, to).Some? <==> Sweepable(k, b, list[..n])
    ensures ByIds(k, b, list, n, to).Some? ==> Takes(k, ByIds(k, b, list, n, to).value, b, list[..n])
  {
    hide BooksInv, Took;
    if n == 0 {
      TakesNothing(k, b);
      assert list[..0] == [];
    } else {
      var p := n - 1;
      var id := list[p];
      ByIdsTakes(k, b, list, p, to);
      assert list[..n] == list[..p] + [id];
      SweepablePrefix(k, b, list[..p], id);
      if ByIds(k, b, list, p, to).Some? {
        var w := ByIds(k, b, list, p, to).value;
        assert |w.k.deposits| == |k.deposits|;
        if id < |k.deposits| {
          assert w.k.deposits[id] == k.deposits[id].(consumed := k.deposits[id].consumed || id in list[..p]);
          if BucketOf(k.deposits[id]) == b && !w.k.deposits[id].consumed {
            TakesOne(k, w, b, list[..p], id, to);
          }
        }
      }
    }
  }

  lemma {:induction false} OpenFeesConcat(ds: seq<Deposit>, a: seq<nat>, b: seq<nat>)
    ensures OpenFees(ds, a + b) == OpenFees(ds, a) + OpenFees(ds, b)
  {
    if b == [] {
      assert a + b == a;
    } else {
      assert (a + b)[..|a + b| - 1] == a + b[..|b| - 1];
      OpenFeesConcat(ds, a, b[..|b| - 1]);
    }
  }

  /** Consuming other deposits leaves these fees as they are. */
  lemma {:induction false} OpenFeesApart(ds: seq<Deposit>, ds': seq<Deposit>, gone: seq<nat>, list: seq<nat>)
    requires OnlyConsumed(ds, ds', gone) && forall i :: 0 <= i < |list| ==> list[i] !in gone
    ensures OpenFees(ds', list) == OpenFees(ds, list)
  {
    if list != [] {
      var n := |list| - 1;
      OpenFeesApart(ds, ds', gone, list[..n]);
      assert list[n] < |ds| ==> ds'[list[n]] == ds[list[n]].(consumed := ds[list[n]].consumed || list[n] in gone);
    }
  }

  lemma {:induction false} OpenSumsRemove(ds: seq<Deposit>, list: seq<nat>, i: nat)
    requires i < |list|
    ensures OpenSum(ds, list) == OpenSum(ds, list[..i] + list[i + 1..]) + OpenSum(ds, [list[i]])
    ensures OpenFees(ds, list) == OpenFees(ds, list[..i] + list[i + 1..]) + OpenFees(ds, [list[i]])
    decreases |list|
  {
    var n := |list| - 1;
    if i == n {
      assert list[..i] + list[i + 1..] == list[..n];
      assert [list[i]][..0] == [];
    } else {
      var rest := list[..i] + list[i + 1..];
      OpenSumsRemove(ds, list[..n], i);
      assert list[..n][..i] + list[..n][i + 1..] == rest[..n - 1];
      assert rest[|rest| - 1] == list[n];
    }
  }

  /** Order is irrelevant: any permutation of the ids has the same gross amount and the same fees. */
  lemma {:induction false} OrderIsIrrelevant(ds: seq<Deposit>, a: seq<nat>, b: seq<nat>)
    requires multiset(a) == multiset(b)
    ensures OpenSum(ds, a) == OpenSum(ds, b) && OpenFees(ds, a) == OpenFees(ds, b)
    decreases |a|
  {
    hide OpenSum, OpenFees;
    if a == [] {
      assert |multiset(b)| == 0;
    } else {
      var n := |a| - 1;
      assert a[n] in multiset(b);
      var i :| 0 <= i < |b| && b[i] == a[n];
      OpenSumsRemove(ds, a, n);
      OpenSumsRemove(ds, b, i);
      WithoutOne(a, n);
      WithoutOne(b, i);
      OrderIsIrrelevant(ds, a[..n] + a[n + 1..], b[..i] + b[i + 1..]);
    }
  }

  lemma WithoutOne(s: seq<nat>, i: nat)
    requires i < |s|
    ensures multiset(s[..i] + s[i + 1..]) == multiset(s) - multiset{s[i]}
  {
    assert s == s[..i] + [s[i]] + s[i + 1..];
  }

  lemma {:induction false} DistinctCounts(list: seq<nat>)
    ensures Distinct(list) <==> forall x: nat :: multiset(list)[x] <= 1
  {
    if list != [] {
      var n := |list| - 1;
      var init, last := list[..n], list[n];
      DistinctCounts(init);
      assert list == init + [last];
      assert multiset(list) == multiset(init) + multiset{last};
      assert last in init <==> multiset(init)[last] >= 1;
      if Distinct(list) {
        assert forall i, j :: 0 <= i < j < n ==> init[i] == list[i] && init[j] == list[j];
        assert last !in init;
        forall x: nat
          ensures multiset(list)[x] <= 1
        {
          assert multiset(init)[x] <= 1;
        }
      } else if Distinct(init) {
        var i, j :| 0 <= i < j < |list| && list[i] == list[j];
        assert j == n && init[i] == last;
        assert multiset(list)[last] >= 2;
      } else {
        var x: nat :| multiset(init)[x] > 1;
        assert multiset(list)[x] > 1;
      }
    }
  }

  lemma SweepableAnyOrder(k: Books, b: Bucket, a: seq<nat>, c: seq<nat>)
    requires multiset(a) == multiset(c) && Sweepable(k, b, a)
    ensures Sweepable(k, b, c)
  {
    DistinctCounts(a);
    DistinctCounts(c);
    forall i | 0 <= i < |c|
      ensures c[i] in a
    {
      assert c[i] in multiset(c);
    }
  }

  /** The order of the ids decides neither whether they can be swept nor what is paid and charged. */
  lemma IdOrderKeepsFees(k: Books, b: Bucket, a: seq<nat>, c: seq<nat>, to: Address)
    requires BooksInv(k) && multiset(a) == multiset(c)
    ensures ByIds(k, b, a, |a|, to).Some? <==> ByIds(k, b, c, |c|, to).Some?
    ensures ByIds(k, b, a, |a|, to).Some? ==>
              var w, w' := ByIds(k, b, a, |a|, to).value, ByIds(k, b, c, |c|, to).value;
              w.gross == w'.gross && w.fee == w'.fee
  {
    hide Sweepable, Distinct, InBucket, BooksInv;
    ByIdsTakes(k, b, a, |a|, to);
    ByIdsTakes(k, b, c, |c|, to);
    assert a[..|a|] == a && c[..|c|] == c;
    OrderIsIrrelevant(k.deposits, a, c);
    if Sweepable(k, b, a) {
      SweepableAnyOrder(k, b, a, c);
    }
    if Sweepable(k, b, c) {
      SweepableAnyOrder(k, b, c, a);
    }
  }

  // ------------------------------------------------------------------ splitting untracked sweeps

  function Sum(us: seq<nat>): nat {
    if us == [] then 0 else Sum(us[..|us| - 1]) + us[|us| - 1]
  }

  /** Fees of separate untracked sweeps at one rate. */
  function SplitFees(us: seq<nat>, bps: nat): nat {
    if us == [] then 0 else SplitFees(us[..|us| - 1], bps) + us[|us| - 1] * bps / BPS
  }

  lemma FloorsAdd(x: nat, y: nat)
    ensures x / BPS + y / BPS <= (x + y) / BPS <= x / BPS + y / BPS + 1
  {
  }

  /** Splitting untracked funds over n sweeps never charges more and loses less than one unit per extra sweep. */
  lemma {:induction false} SplittingLosesLessThanOneEach(us: seq<nat>, bps: nat)
    requires us != []
    ensures SplitFees(us, bps) <= Sum(us) * bps / BPS <= SplitFees(us, bps) + |us| - 1
    decreases |us|
  {
    var n := |us| - 1;
    var rest, last := us[..n], us[n];
    assert Sum(us) * bps == Sum(rest) * bps + last * bps;
    if n == 0 {
      assert rest == [];
      assert Sum(rest) == 0 && SplitFees(rest, bps) == 0;
    } else {
      SplittingLosesLessThanOneEach(rest, bps);
      FloorsAdd(Sum(rest) * bps, last * bps);
    }
  }
}
