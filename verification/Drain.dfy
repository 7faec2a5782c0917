/** Draining a default bucket by pages pays exactly what the `sweepable` view quotes. */
module Drain {
  import opened Types
  import opened KeySet
  import opened Factory
  import opened Books
  import opened Sweeps
  import opened OwnerCache
  import opened Vault
  import opened VaultProofs
  import opened System
  import opened SystemProofs

  /** One uninterrupted sweep: the payee accepts the payment and does nothing else. */
  function Sweep(ver: Address, t: Address, limit: nat): Action {
    Enter(SweepCall(ver, t, limit), [], true)
  }

  /** n uninterrupted sweeps in a row. */
  function Sweeping(s: World, ver: Address, t: Address, limit: nat, n: nat): World {
    if n == 0 then s else Exec(Sweeping(s, ver, t, limit, n - 1), Sweep(ver, t, limit)).w
  }

  /** The owner cache is usable, the balance can be read, and the quoted untracked fee fits 256 bits. */
  predicate CanSweep(s: World, ver: Address, t: Address) {
    && OwnerOf(s.v.ca, s.c, ver).Some?
    && Loose(s.v, s.c, ver, t).Some?
    && LooseFee(s.c, ver, t, Loose(s.v, s.c, ver, t).value).Some?
  }

  /** What a sweep pays gross: the difference it makes to the sum of payouts. */
  function PaidGross(s: World, t: Address): int {
    PaidSum(s.v.paid, t, Gross)
  }

  /** One sweep succeeds, advances the cursor by a page, and pays what left the bucket plus the surplus. */
  lemma SweepOnce(s: World, ver: Address, t: Address, limit: nat)
    requires Inv(s) && CanSweep(s, ver, t)
    ensures var b := Bucket(ver, 0, t);
            var r := Exec(s, Sweep(ver, t, limit));
            var w := r.w;
            && r.ok && Inv(w) && CanSweep(w, ver, t)
            && Loose(w.v, w.c, ver, t) == Some(0)
            && IdList(w.v.k, b) == IdList(s.v.k, b)
            && Cursor(w.v.k, b) == PageEnd(|IdList(s.v.k, b)|, Cursor(s.v.k, b), limit)
            && PaidGross(w, t) - PaidGross(s, t)
               == Get(s.v.k.bucketTotal, b) - Get(w.v.k.bucketTotal, b) + Loose(s.v, s.c, ver, t).value
  {
    hide Inv, VaultInv, Took, OwnerFresh, Affords, LooseFee, Quote;
    var a := Sweep(ver, t, limit);
    ExecInv(s, a);
    InvParts(s);
    var o := SweepDefault(s.v, s.c, ver, t, limit);
    var w0 := PageTaken(s, ver, t, limit);
    SweepSucceeds(s, ver, t, limit, w0);
    var w := Exec(s, a).w;
    SweepEffect(s, ver, t, limit, w0);
    SurplusOnce(s, ver, t, limit, w0);
    OwnerOfApart(s.v.ca, s.c, w.c, ver);
    NoFeeOnNothing(w.c, ver, t);
  }

  /** The condition is exact: an uninterrupted sweep reverts whenever it does not hold. */
  lemma SweepsExactlyWhen(s: World, ver: Address, t: Address, limit: nat)
    requires Reachable(s)
    ensures Exec(s, Sweep(ver, t, limit)).ok <==> CanSweep(s, ver, t)
  {
    hide Inv, OwnerOf, Loose, LooseFee, FromCursor, Pay;
    ReachableInv(s);
    if CanSweep(s, ver, t) {
      SweepOnce(s, ver, t, limit);
    } else {
      assert SweepDefault(s.v, s.c, ver, t, limit).Revert?;
    }
  }

  lemma NoFeeOnNothing(c: Ctx, ver: Address, t: Address)
    ensures LooseFee(c, ver, t, 0) == Some(0)
  {
  }

  /** The page a sweep takes, as books that leave the cursor where it was. */
  lemma PageTaken(s: World, ver: Address, t: Address, limit: nat) returns (w0: Swept)
    requires VaultInv(s.v, s.c, s.px.used) && CanSweep(s, ver, t)
    ensures IsPage(s, ver, t, limit, w0)
  {
    hide CacheInv, Authorised, PaidInv, PaidAddsUp, BooksInv, Took;
    var b, to := Bucket(ver, 0, t), OwnerOf(s.v.ca, s.c, ver).value;
    FromCursorTakes(s.v.k, b, limit, to);
    var w := FromCursor(s.v.k, b, limit, to);
    w0 := w.(k := w.k.(cursor := s.v.k.cursor));
  }

  lemma SweepSucceeds(s: World, ver: Address, t: Address, limit: nat, w0: Swept)
    requires Inv(s) && CanSweep(s, ver, t) && IsPage(s, ver, t, limit, w0)
    ensures SweepDefault(s.v, s.c, ver, t, limit).Out?
    ensures Get(s.c.bal, t) >= SweepDefault(s.v, s.c, ver, t, limit).net
    ensures Exec(s, Sweep(ver, t, limit)).ok
    ensures var o, w := SweepDefault(s.v, s.c, ver, t, limit), Exec(s, Sweep(ver, t, limit)).w;
            w.v == o.v && w.px == s.px && w.c == (if o.net == 0 then s.c
                                                  else WithBalance(s.c, t, Get(s.c.bal, t) - o.net))
  {
    hide VaultInv, Took, OwnerFresh, FromCursor, Affords, LooseFee, Loose, Quote, CtxOk;
    LooseFacts(s.v, s.c, ver, t);
    TookBooks(s.v.k, w0, Bucket(ver, 0, t));
    SweepDefaultInv(s.v, s.c, s.px.used, ver, t, limit);
    var o := SweepDefault(s.v, s.c, ver, t, limit);
    AffordsNet(s, o);
  }

  lemma AffordsNet(s: World, o: Out)
    requires Inv(s) && o.Out? && Affords(s.v, s.c, o) && VaultInv(o.v, s.c, s.px.used)
    ensures Get(s.c.bal, o.token) >= o.net
  {
    hide VaultInv, CtxOk;
    HeldIsNatural(o.v, s.c, s.px.used, o.token);
    assert Get(s.c.bal, o.token) >= Held(s.v.k, o.token);
  }

  /** `w0` is the page this sweep takes. */
  ghost predicate IsPage(s: World, ver: Address, t: Address, limit: nat, w0: Swept)
    requires OwnerOf(s.v.ca, s.c, ver).Some?
  {
    var b, to := Bucket(ver, 0, t), OwnerOf(s.v.ca, s.c, ver).value;
    var w := FromCursor(s.v.k, b, limit, to);
    var end := PageEnd(|IdList(s.v.k, b)|, Cursor(s.v.k, b), limit);
    Took(s.v.k, w0, b) && w == Swept(w0.k.(cursor := s.v.k.cursor[b := end]), w0.gross, w0.fee, w0.count)
  }

  lemma SweepEffect(s: World, ver: Address, t: Address, limit: nat, w0: Swept)
    requires CanSweep(s, ver, t) && SweepDefault(s.v, s.c, ver, t, limit).Out? && IsPage(s, ver, t, limit, w0)
    ensures var b := Bucket(ver, 0, t);
            var o := SweepDefault(s.v, s.c, ver, t, limit);
            && o.v.ca == s.v.ca
            && IdList(o.v.k, b) == IdList(s.v.k, b)
            && Cursor(o.v.k, b) == PageEnd(|IdList(s.v.k, b)|, Cursor(s.v.k, b), limit)
            && PaidSum(o.v.paid, t, Gross) - PaidSum(s.v.paid, t, Gross)
               == Get(s.v.k.bucketTotal, b) - Get(o.v.k.bucketTotal, b) + Loose(s.v, s.c, ver, t).value
  {
    hide OwnerFresh, FromCursor, BooksInv, LooseFee, Loose, Accrue, PageEnd;
    var b := Bucket(ver, 0, t);
    var o := SweepDefault(s.v, s.c, ver, t, limit);
    var u := Loose(s.v, s.c, ver, t).value;
    var w := FromCursor(s.v.k, b, limit, OwnerOf(s.v.ca, s.c, ver).value);
    AccrueTables(w.k, ver, t, w.fee + LooseFee(s.c, ver, t, u).value);
    PaidSumPushed(s.v.paid, o.v.paid[|s.v.paid|], t, Gross);
    assert Get(w0.k.bucketTotal, b) == Get(s.v.k.bucketTotal, b) - w0.gross;
  }

  /** After a sweep by the verifier direct transfers follow, no untracked funds are left. */
  lemma SurplusOnce(s: World, ver: Address, t: Address, limit: nat, w0: Swept)
    requires Inv(s) && CanSweep(s, ver, t) && SweepDefault(s.v, s.c, ver, t, limit).Out? && IsPage(s, ver, t, limit, w0)
    ensures var o := SweepDefault(s.v, s.c, ver, t, limit);
            Loose(o.v, if o.net == 0 then s.c else WithBalance(s.c, t, Get(s.c.bal, t) - o.net), ver, t) == Some(0)
  {
    hide VaultInv, OwnerFresh, FromCursor, BooksInv, LooseFee, CtxOk, Accrue;
    var o := SweepDefault(s.v, s.c, ver, t, limit);
    var c' := if o.net == 0 then s.c else WithBalance(s.c, t, Get(s.c.bal, t) - o.net);
    var u := Loose(s.v, s.c, ver, t).value;
    var w := FromCursor(s.v.k, Bucket(ver, 0, t), limit, OwnerOf(s.v.ca, s.c, ver).value);
    AccrueFlows(w.k, ver, t, w.fee + LooseFee(s.c, ver, t, u).value, t);
    assert Get(w0.k.tracked, t) == Get(s.v.k.tracked, t) - w0.gross;
    assert Get(s.c.bal, t) >= Held(s.v.k, t);
    assert Get(c'.bal, t) == Get(s.c.bal, t) - o.net;
    FreshApart(s.v.ca, s.c, c', ver);
  }

  lemma FreshApart(ca: Cache, c: Ctx, c': Ctx, ver: Address)
    requires c' == c.(bal := c'.bal)
    ensures OwnerFresh(ca, c', ver) == OwnerFresh(ca, c, ver)
  {
  }

  lemma AccrueTables(k: Books, ver: Address, t: Address, fee: nat)
    ensures var k' := Accrue(k, ver, t, fee);
           k'.bucketTotal == k.bucketTotal && k'.ids == k.ids && k'.cursor == k.cursor
  {
  }

  /** Balances do not affect who is paid. */
  lemma OwnerOfApart(ca: Cache, c: Ctx, c': Ctx, ver: Address)
    requires c' == c.(bal := c'.bal)
    ensures OwnerOf(ca, c', ver) == OwnerOf(ca, c, ver)
  {
  }

  function CeilDiv(a: nat, b: nat): nat
    requires b > 0
  {
    (a + b - 1) / b
  }

  /** After n >= 1 sweeps: n pages are gone, and payouts are what left the bucket plus the surplus, once. */
  lemma {:induction false} AfterSweeps(s: World, ver: Address, t: Address, limit: nat, n: nat)
    requires Inv(s) && CanSweep(s, ver, t)
    ensures var b, w := Bucket(ver, 0, t), Sweeping(s, ver, t, limit, n);
            && Inv(w) && CanSweep(w, ver, t)
            && IdList(w.v.k, b) == IdList(s.v.k, b)
            && Cursor(w.v.k, b) == Min(|IdList(s.v.k, b)|, Cursor(s.v.k, b) + n * Page(limit))
            && (n > 0 ==> Loose(w.v, w.c, ver, t) == Some(0))
            && PaidGross(w, t) - PaidGross(s, t)
               == Get(s.v.k.bucketTotal, b) - Get(w.v.k.bucketTotal, b)
                 + (if n > 0 then Loose(s.v, s.c, ver, t).value else 0)
  {
    hide Inv, CanSweep, Exec;
    var b := Bucket(ver, 0, t);
    CursorInRange(s, b);
    if n > 0 {
      AfterSweeps(s, ver, t, limit, n - 1);
      var w := Sweeping(s, ver, t, limit, n - 1);
      SweepOnce(w, ver, t, limit);
      LooseReadable(s, ver, t);
      assert n * Page(limit) == (n - 1) * Page(limit) + Page(limit);
    }
  }

  lemma LooseReadable(s: World, ver: Address, t: Address)
    requires CanSweep(s, ver, t)
    ensures Loose(s.v, s.c, ver, t).Some?
  {
  }

  lemma CursorInRange(s: World, b: Bucket)
    requires Inv(s)
    ensures Cursor(s.v.k, b) <= |IdList(s.v.k, b)|
  {
    hide CacheInv, Authorised, PaidInv, PaidAddsUp, CtxOk, Totals, Recorded, Ledger;
    BucketListFacts(s.v.k, b);
  }

  lemma {:induction false} NothingOpen(ds: seq<Deposit>, b: Bucket)
    requires forall i :: 0 <= i < |ds| && BucketOf(ds[i]) == b ==> ds[i].consumed
    ensures Total(ds, OfBucket(b)) == 0
  {
    if ds != [] {
      NothingOpen(ds[..|ds| - 1], b);
    }
  }

  /** A bucket whose cursor reached the end is empty. */
  lemma DrainedIsEmpty(s: World, b: Bucket)
    requires Inv(s) && Cursor(s.v.k, b) == |IdList(s.v.k, b)|
    ensures forall i :: 0 <= i < |s.v.k.deposits| && BucketOf(s.v.k.deposits[i]) == b ==> s.v.k.deposits[i].consumed
    ensures Get(s.v.k.bucketTotal, b) == 0
  {
    hide CacheInv, Authorised, PaidInv, PaidAddsUp, CtxOk, Recorded, Ledger;
    BucketListFacts(s.v.k, b);
    IdsExact(s.v.k.deposits, b);
    assert IdList(s.v.k, b) == Ids(s.v.k.deposits, b);
    forall i | 0 <= i < |s.v.k.deposits| && BucketOf(s.v.k.deposits[i]) == b
      ensures s.v.k.deposits[i].consumed
    {
      assert i in IdList(s.v.k, b);
      var j :| 0 <= j < |IdList(s.v.k, b)| && IdList(s.v.k, b)[j] == i;
    }
    NothingOpen(s.v.k.deposits, b);
    assert Get(s.v.k.bucketTotal, b) == Total(s.v.k.deposits, OfBucket(b));
  }

  lemma PagesCover(length: nat, page: nat)
    requires page > 0
    ensures CeilDiv(length, page) * page >= length
    ensures length > 0 ==> (CeilDiv(length, page) - 1) * page < length
  {
    var n := CeilDiv(length, page);
    assert n * page + (length + page - 1) % page == length + page - 1;
  }

  /**
   Draining equals the quote: from any reachable state with a usable owner cache, uninterrupted sweeps of
   one page each consume every deposit of the default bucket in ceil((length - cursor) / page) calls (one
   if only untracked funds are left), and their summed gross payouts are what `sweepable` quoted at the
   start, untracked funds included once.
   */
  lemma DrainingPaysTheQuote(s: World, ver: Address, t: Address, limit: nat)
    requires Reachable(s) && CanSweep(s, ver, t)
    ensures Cursor(s.v.k, Bucket(ver, 0, t)) <= |IdList(s.v.k, Bucket(ver, 0, t))|
    ensures var b := Bucket(ver, 0, t);
            var n := Max(1, CeilDiv(|IdList(s.v.k, b)| - Cursor(s.v.k, b), Page(limit)));
            var w := Sweeping(s, ver, t, limit, n);
            && (forall i ::
                 0 <= i < |w.v.k.deposits| && BucketOf(w.v.k.deposits[i]) == b ==> w.v.k.deposits[i].consumed)
            && Quoted(s.v, s.c, ver, t) == Some(PaidGross(w, t) - PaidGross(s, t))
            && Quoted(w.v, w.c, ver, t) == Some(0)
  {
    hide Inv, CanSweep, Sweeping, PaidGross, Loose;
    ReachableInv(s);
    var b := Bucket(ver, 0, t);
    CursorInRange(s, b);
    var left := |IdList(s.v.k, b)| - Cursor(s.v.k, b);
    var n := Max(1, CeilDiv(left, Page(limit)));
    PagesCover(left, Page(limit));
    AfterSweeps(s, ver, t, limit, n);
    LooseReadable(s, ver, t);
    DrainedIsEmpty(Sweeping(s, ver, t, limit, n), b);
  }

  // ------------------------------------------------------------------ any paging charges the same

  /** Uninterrupted sweeps with these page limits. */
  function Paged(s: World, ver: Address, t: Address, limits: seq<nat>): World {
    if limits == [] then s
    else
      var n := |limits| - 1;
      Exec(Paged(s, ver, t, limits[..n]), Sweep(ver, t, limits[n])).w
  }

  /** The fees charged so far. */
  function Charged(s: World, t: Address): int {
    PaidSum(s.v.paid, t, Fees)
  }

  /** The fees recorded for the open deposits among listed ids. */
  function FeesOf(s: World, list: seq<nat>): nat {
    OpenFees(s.v.k.deposits, list)
  }

  function SurplusFee(s: World, ver: Address, t: Address): nat
    requires CanSweep(s, ver, t)
  {
    LooseFee(s.c, ver, t, Loose(s.v, s.c, ver, t).value).value
  }

  /** One sweep charges the recorded fees of its page, and changes no other deposit. */
  lemma SweepCharges(s: World, ver: Address, t: Address, limit: nat)
    requires Inv(s) && CanSweep(s, ver, t)
    ensures var b := Bucket(ver, 0, t);
            var list, i := IdList(s.v.k, b), Cursor(s.v.k, b);
            var end := PageEnd(|list|, i, limit);
            var w := Exec(s, Sweep(ver, t, limit)).w;
            && i <= end <= |list|
            && Charged(w, t) - Charged(s, t) == FeesOf(s, list[i..end]) + SurplusFee(s, ver, t)
            && OnlyConsumed(s.v.k.deposits, w.v.k.deposits, list[i..end])
  {
    hide Inv, VaultInv, OwnerFresh, LooseFee, Quote, FromCursor, Took, OnlyConsumed, OpenFees, Loose;
    InvParts(s);
    var b, to := Bucket(ver, 0, t), OwnerOf(s.v.ca, s.c, ver).value;
    PageFees(s, b, limit, to);
    var w0 := PageTaken(s, ver, t, limit);
    SweepSucceeds(s, ver, t, limit, w0);
    var o, w := SweepDefault(s.v, s.c, ver, t, limit), FromCursor(s.v.k, b, limit, to);
    PaidSumPushed(s.v.paid, o.v.paid[|s.v.paid|], t, Fees);
  }

  lemma PageFees(s: World, b: Bucket, limit: nat, to: Address)
    requires VaultInv(s.v, s.c, s.px.used)
    ensures var list, i := IdList(s.v.k, b), Cursor(s.v.k, b);
            var end, w := PageEnd(|list|, i, limit), FromCursor(s.v.k, b, limit, to);
            && i <= end <= |list| && w.fee == OpenFees(s.v.k.deposits, list[i..end])
            && OnlyConsumed(s.v.k.deposits, w.k.deposits, list[i..end])
  {
    hide CacheInv, Authorised, PaidInv, PaidAddsUp, BooksInv, Took, FromCursor;
    FromCursorTakes(s.v.k, b, limit, to);
  }

  /** Sweeps with any page limits charge the recorded fees of the stretch they covered, and the surplus's once. */
  lemma {:induction false} PagedCharges(s: World, ver: Address, t: Address, limits: seq<nat>)
    requires Inv(s) && CanSweep(s, ver, t)
    ensures var b, w := Bucket(ver, 0, t), Paged(s, ver, t, limits);
            var list, i, j := IdList(s.v.k, b), Cursor(s.v.k, b), Cursor(w.v.k, b);
            && Inv(w) && CanSweep(w, ver, t) && IdList(w.v.k, b) == list && i <= j <= |list|
            && OnlyConsumed(s.v.k.deposits, w.v.k.deposits, list[i..j])
            && (limits != [] ==> SurplusFee(w, ver, t) == 0)
            && Charged(w, t) - Charged(s, t)
               == FeesOf(s, list[i..j]) + (if limits != [] then SurplusFee(s, ver, t) else 0)
    decreases |limits|
  {
    hide Inv, CanSweep, Exec, Charged, SurplusFee, OnlyConsumed;
    var b := Bucket(ver, 0, t);
    var list, i := IdList(s.v.k, b), Cursor(s.v.k, b);
    CursorInRange(s, b);
    if limits == [] {
      NothingConsumed(s);
      assert list[i..i] == [];
    } else {
      var n := |limits| - 1;
      PagedCharges(s, ver, t, limits[..n]);
      var w := Paged(s, ver, t, limits[..n]);
      var m := Cursor(w.v.k, b);
      SweepOnce(w, ver, t, limits[n]);
      SweepCharges(w, ver, t, limits[n]);
      var x := Exec(w, Sweep(ver, t, limits[n])).w;
      var j := Cursor(x.v.k, b);
      NoSurplusFee(x, ver, t);
      ListIsDistinct(s, b);
      StretchesAdd(s, w, x, list, i, m, j);
    }
  }

  lemma NothingConsumed(s: World)
    ensures OnlyConsumed(s.v.k.deposits, s.v.k.deposits, [])
  {
  }

  lemma NoSurplusFee(s: World, ver: Address, t: Address)
    requires CanSweep(s, ver, t) && Loose(s.v, s.c, ver, t) == Some(0)
    ensures SurplusFee(s, ver, t) == 0
  {
  }

  lemma ListIsDistinct(s: World, b: Bucket)
    requires Inv(s)
    ensures Distinct(IdList(s.v.k, b))
  {
    hide CacheInv, Authorised, PaidInv, PaidAddsUp, CtxOk, Totals, Recorded, Ledger;
    BucketListFacts(s.v.k, b);
  }

  /** Two consecutive stretches of a list. */
  lemma StretchesAdd(s: World, w: World, x: World, list: seq<nat>, i: nat, m: nat, j: nat)
    requires i <= m <= j <= |list| && Distinct(list)
    requires OnlyConsumed(s.v.k.deposits, w.v.k.deposits, list[i..m])
    requires OnlyConsumed(w.v.k.deposits, x.v.k.deposits, list[m..j])
    ensures OnlyConsumed(s.v.k.deposits, x.v.k.deposits, list[i..j])
    ensures FeesOf(s, list[i..j]) == FeesOf(s, list[i..m]) + FeesOf(w, list[m..j])
  {
    hide OpenFees;
    assert list[i..j] == list[i..m] + list[m..j];
    OpenFeesConcat(s.v.k.deposits, list[i..m], list[m..j]);
    OpenFeesApart(s.v.k.deposits, w.v.k.deposits, list[i..m], list[m..j]);
  }

  /** The bucket's cursor has reached the end. */
  predicate Drained(s: World, b: Bucket) {
    Cursor(s.v.k, b) == |IdList(s.v.k, b)|
  }

  /**
   Paging does not matter: any two sequences of page limits that drain a bucket pay the same gross and charge
   the same fees, to the unit.
   */
  lemma PagingKeepsFees(s: World, ver: Address, t: Address, first: seq<nat>, second: seq<nat>)
    requires Reachable(s) && CanSweep(s, ver, t) && first != [] && second != []
    requires Drained(Paged(s, ver, t, first), Bucket(ver, 0, t)) && Drained(Paged(s, ver, t, second), Bucket(ver, 0, t))
    ensures Charged(Paged(s, ver, t, first), t) == Charged(Paged(s, ver, t, second), t)
    ensures PaidGross(Paged(s, ver, t, first), t) == PaidGross(Paged(s, ver, t, second), t)
  {
    hide Inv, CanSweep, Paged, Charged, PaidGross, SurplusFee, OnlyConsumed;
    ReachableInv(s);
    PagedCharges(s, ver, t, first);
    PagedCharges(s, ver, t, second);
    PagedPays(s, ver, t, first);
    PagedPays(s, ver, t, second);
    DrainedIsEmpty(Paged(s, ver, t, first), Bucket(ver, 0, t));
    DrainedIsEmpty(Paged(s, ver, t, second), Bucket(ver, 0, t));
  }

  lemma {:induction false} PagedPays(s: World, ver: Address, t: Address, limits: seq<nat>)
    requires Inv(s) && CanSweep(s, ver, t)
    ensures var b, w := Bucket(ver, 0, t), Paged(s, ver, t, limits);
            && Inv(w) && CanSweep(w, ver, t)
            && (limits != [] ==> Loose(w.v, w.c, ver, t) == Some(0))
            && PaidGross(w, t) - PaidGross(s, t)
               == Get(s.v.k.bucketTotal, b) - Get(w.v.k.bucketTotal, b)
                  + (if limits != [] then Loose(s.v, s.c, ver, t).value else 0)
    decreases |limits|
  {
    hide Inv, CanSweep, Exec, PaidGross;
    LooseReadable(s, ver, t);
    if limits != [] {
      var n := |limits| - 1;
      PagedPays(s, ver, t, limits[..n]);
      SweepOnce(Paged(s, ver, t, limits[..n]), ver, t, limits[n]);
    }
  }

  // ------------------------------------------------------------------ a quote that cannot be paid

  const VERIFIER: Address := 7
  const RICH_ORIGIN := Origin(Key(0, 0), 8, 0)

  /** A released key, one verifier under it, and a native balance of the largest amount there is. */
  function RichWorld(): World {
    var f := FactoryState(1, 1, 0, {9}, map[], 2, NO_PROPOSAL, 0, VERIFIER, NO_PROPOSAL, 3, 3, {3}, NO_PROPOSAL, false);
    var c := Ctx(0, map[VERIFIER := Foreign(Some(0), Some(9), false)], map[], {}, map[(VERIFIER, NATIVE) := 100], f,
                 map[NATIVE := MAX_U256], {});
    World(Vault(NO_BOOKS, NO_CACHE, {}, [], false, 8, 0, 0), Proxy(8, 3, 0, 0, {}), c, [])
  }

  /** Somebody proves a wallet. */
  function RichProof(): Action {
    Enter(RefreshCall(VERIFIER, Proof(RICH_ORIGIN, 5, 1, true), AlphaAttestation(false, 0, 0, 0, 0, false)), [], true)
  }

  /**
   The quote promises what no sweep can pay: the owner is known, `sweepable` answers the whole balance, and
   every sweep reverts, because the fee's product does not fit 256 bits.
   */
  lemma QuoteNobodyCanSweep(limit: nat) returns (s: World)
    ensures Reachable(s) && OwnerOf(s.v.ca, s.c, VERIFIER).Some?
    ensures Quoted(s.v, s.c, VERIFIER, NATIVE) == Some(MAX_U256)
    ensures !Exec(s, Sweep(VERIFIER, NATIVE, limit)).ok
  {
    hide Inv, FromCursor, Pay;
    s := Exec(RichWorld(), RichProof()).w;
    RichStart();
    assert ExecAll(s, []) == s;
    assert ExecAll(RichWorld(), [RichProof()]) == s;
    RichOwner();
    assert !CanSweep(s, VERIFIER, NATIVE);
    SweepsExactlyWhen(s, VERIFIER, NATIVE, limit);
  }

  lemma RichStart()
    ensures Initial(RichWorld())
  {
  }

  /** What the proof leaves in the cache. */
  ghost predicate RichCache(ca: Cache) {
    && Get(ca.owner, VERIFIER) == 5 && Get(ca.latest, VERIFIER) == 1 && Get(ca.rev, VERIFIER) == 0
    && Get(ca.vk, VERIFIER) == 9 && Get(ca.alpha, VERIFIER) == 0 && ca.untracked == 1
  }

  lemma RichApplied()
    ensures var r := Apply(NO_CACHE, RichWorld().c, VERIFIER, RICH_ORIGIN, 5, 1, Unattested);
            r.Some? && RichCache(r.value)
  {
    var c := RichWorld().c;
    assert Revision(c, VERIFIER) == Some(0) && VkHash(c, VERIFIER) == Some(9);
    var ca1 := Installed(NO_CACHE, c, VERIFIER, 5, 1, 0);
    assert Get(ca1.owner, VERIFIER) == 5 && Get(ca1.latest, VERIFIER) == 1 && Get(ca1.rev, VERIFIER) == 0;
  }

  lemma RichProved()
    ensures var s := Exec(RichWorld(), RichProof()).w;
            RichCache(s.v.ca) && s.c == RichWorld().c && s.v.k == NO_BOOKS
  {
    hide Apply, RichCache;
    RichApplied();
    var s, att := RichWorld(), AlphaAttestation(false, 0, 0, 0, 0, false);
    assert !IsAlpha(s.c.f, 9);
    assert Authorise(s.v, s.c, VERIFIER, att) == Some((s.v, Unattested));
    assert Claimable(s.c, VERIFIER) && Verifies(s.c, VERIFIER, s.v.salt, 0, Proof(RICH_ORIGIN, 5, 1, true));
  }

  lemma RichContext()
    ensures var c := RichWorld().c;
            && c.f.defaultVerifier == VERIFIER && Revision(c, VERIFIER) == Some(0) && VkHash(c, VERIFIER) == Some(9)
            && AlphaRevision(c.f, 9) == 0 && Quote(c, VERIFIER, NATIVE) == 100 && Get(c.bal, NATIVE) == MAX_U256
  {
  }

  lemma RichOwner()
    ensures var s := Exec(RichWorld(), RichProof()).w;
            && OwnerOf(s.v.ca, s.c, VERIFIER) == Some(5)
            && Loose(s.v, s.c, VERIFIER, NATIVE) == Some(MAX_U256)
            && LooseFee(s.c, VERIFIER, NATIVE, MAX_U256).None?
            && Quoted(s.v, s.c, VERIFIER, NATIVE) == Some(MAX_U256)
  {
    hide Exec, RichWorld, RichProof, Revision, VkHash, AlphaRevision, Quote;
    RichProved();
    RichContext();
    var s := Exec(RichWorld(), RichProof()).w;
    assert OwnerFresh(s.v.ca, s.c, VERIFIER);
    assert Held(s.v.k, NATIVE) == 0;
    assert Get(s.v.k.bucketTotal, Bucket(VERIFIER, 0, NATIVE)) == 0;
  }
}
