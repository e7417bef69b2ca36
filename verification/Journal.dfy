/** The append-only journal of signed cashflows (`paper_trading/ledger.py`, `paper_trading/liquidation_store.py`). */
module Journal {
  import opened Monetary
  import opened Wrappers

  type AccountId = int
  type EventId = int
  type FillId = int
  type PositionId = int
  type DayId = string

  datatype SourceType = DepositSource | FillSource | LiquidationSource

  /** A financial source: none (null in the database), a fill, or the forced exit of a position. */
  datatype SourceRef = NoRef | FillRef(fill: FillId) | LiquidationRef(position: PositionId)

  datatype Bucket =
    | Cash | EntryFee | ExitFee | Funding | RealizedGross | RealizedNet | ReservedMargin | ReleasedMargin
    | LiquidationLoss | OpeningDeposit | Withdrawal | Adjustment

  datatype Posting = Posting(account: AccountId, event: EventId, source: SourceType, ref: SourceRef, bucket: Bucket,
                             amount: real)

  /** Amounts are quantised as a posting is made. */
  function MakePosting(account: AccountId, event: EventId, source: SourceType, ref: SourceRef, bucket: Bucket,
                       amount: real): Posting
  {
    Posting(account, event, source, ref, bucket, Money(amount))
  }

  // ---------------------------------------------------------------------------
  // Journal entries
  // ---------------------------------------------------------------------------

  predicate SameEntry(p: Posting, q: Posting) {
    p.account == q.account && p.event == q.event && p.source == q.source && p.ref == q.ref
  }

  /** One entry: at least one posting, one account, event and source, no bucket twice. */
  predicate IsEntry(postings: seq<Posting>) {
    && postings != []
    && (forall i :: 0 <= i < |postings| ==> SameEntry(postings[i], postings[0]))
    && forall i, j :: 0 <= i < j < |postings| ==> postings[i].bucket != postings[j].bucket
  }

  /**
   Accepts exactly the entries: something is posted, for one account, event and source, and no bucket twice.
   The account passed beside them is not looked at.
   */
  method PostEntry(account: AccountId, postings: seq<Posting>) returns (r: Result<seq<Posting>>)
    ensures r.Ok? <==> IsEntry(postings)
    ensures r.Ok? <==>
            |postings| > 0
            && forall i, j :: 0 <= i < j < |postings| ==>
                 && postings[i].account == postings[j].account && postings[i].event == postings[j].event
                 && postings[i].source == postings[j].source && postings[i].ref == postings[j].ref
                 && postings[i].bucket != postings[j].bucket
    ensures r.Ok? ==> r.value == postings
  {
    if |postings| == 0 {
      return Err("a journal entry requires at least one posting");
    }
    var first := postings[0];
    var seen: set<Bucket> := {};
    for i := 0 to |postings|
      invariant forall k :: 0 <= k < i ==> SameEntry(postings[k], first) && postings[k].bucket in seen
      invariant forall b :: b in seen ==> exists k :: 0 <= k < i && postings[k].bucket == b
      invariant forall k, m :: 0 <= k < m < i ==> postings[k].bucket != postings[m].bucket
    {
      var p := postings[i];
      if p.account != first.account {
        return Err("all postings must share account_id");
      }
      if p.event != first.event {
        return Err("all postings in one entry must share event_id");
      }
      if p.source != first.source || p.ref != first.ref {
        return Err("all postings in one entry must share financial source");
      }
      if p.bucket in seen {
        return Err("duplicate journal bucket in one event");
      }
      seen := seen + {p.bucket};
    }
    return Ok(postings);
  }

  // ---------------------------------------------------------------------------
  // Balances
  // ---------------------------------------------------------------------------

  /** The projection bucket does not move cash. */
  function Flow(p: Posting, account: AccountId): real {
    if p.account == account && p.bucket != RealizedNet then p.amount else 0.0
  }

  function BalanceOf(postings: seq<Posting>, account: AccountId): real {
    if postings == [] then 0.0
    else BalanceOf(postings[..|postings| - 1], account) + Flow(postings[|postings| - 1], account)
  }

  lemma {:induction false} BalanceAppend(a: seq<Posting>, b: seq<Posting>, account: AccountId)
    ensures BalanceOf(a + b, account) == BalanceOf(a, account) + BalanceOf(b, account)
    decreases |b|
  {
    hide Flow;
    if b == [] {
      assert a + b == a;
    } else {
      BalanceAppend(a, b[..|b| - 1], account);
      assert (a + b)[..|a + b| - 1] == a + b[..|b| - 1];
    }
  }

  /** A posting moves its account's balance by its amount, and no other; the projected net moves none. */
  lemma PostingMoves(postings: seq<Posting>, p: Posting, account: AccountId)
    ensures BalanceOf(postings + [p], account) - BalanceOf(postings, account) ==
            match p.bucket
            case RealizedNet => 0.0
            case _ => if p.account == account then p.amount else 0.0
  {
    assert (postings + [p])[..|postings|] == postings;
  }

  ghost predicate AmountsOnGrid(postings: seq<Posting>) {
    forall i :: 0 <= i < |postings| ==> OnGrid(postings[i].amount)
  }

  lemma {:induction false} BalanceOnGrid(postings: seq<Posting>, account: AccountId)
    requires AmountsOnGrid(postings)
    ensures OnGrid(BalanceOf(postings, account))
  {
    MoneyOfZero();
    hide OnGrid, Money;
    if postings != [] {
      var front := postings[..|postings| - 1];
      BalanceOnGrid(front, account);
      GridSum(BalanceOf(front, account), Flow(postings[|postings| - 1], account));
    }
  }

  /** The sum of an account's cash components; rounding it again is harmless, since every amount is on the grid. */
  method GetAccountBalance(postings: seq<Posting>, account: AccountId) returns (balance: real)
    ensures balance == Money(BalanceOf(postings, account))
    ensures AmountsOnGrid(postings) ==> balance == BalanceOf(postings, account)
  {
    hide Money, OnGrid;
    balance := 0.0;
    for i := 0 to |postings|
      invariant balance == BalanceOf(postings[..i], account)
    {
      var p := postings[i];
      assert postings[..i + 1][..i] == postings[..i];
      if p.account != account {
        continue;
      }
      if p.bucket != RealizedNet {
        balance := balance + p.amount;
      }
    }
    assert postings[..|postings|] == postings;
    if AmountsOnGrid(postings) {
      BalanceOnGrid(postings, account);
      MoneyFixedIffOnGrid(balance);
    }
    balance := Money(balance);
  }

  // ---------------------------------------------------------------------------
  // Entries of fills and forced exits
  // ---------------------------------------------------------------------------

  /** The postings change the balance of one account by `amount`, and no other balance. */
  ghost predicate Moves(postings: seq<Posting>, account: AccountId, amount: real) {
    forall other :: BalanceOf(postings, other) == if other == account then amount else 0.0
  }

  /** Postings of one fill; a close releases its margin only when there is some, and skips a zero result. */
  method BuildFillPostings(account: AccountId, event: EventId, ref: SourceRef, fee: real, isClose: bool, gross: real,
                           reserved: real, released: real) returns (postings: seq<Posting>)
    ensures postings == if isClose then ClosePostings(account, event, FillSource, ref, fee, gross, released, false)
                        else OpenPostings(account, event, ref, fee, reserved)
    ensures IsEntry(postings) && AmountsOnGrid(postings)
    ensures !isClose ==> Moves(postings, account, -Money(reserved) - Money(fee))
    ensures isClose && released >= 0.0 ==> Moves(postings, account, Money(released) - Money(fee) + Money(gross))
  {
    hide Money, OnGrid, IsEntry, AmountsOnGrid, BalanceOf;
    if isClose {
      CloseEntry(account, event, FillSource, ref, fee, gross, released, false);
    } else {
      OpenFlow(account, event, ref, fee, reserved, account);
    }
    forall other ensures !isClose ==>
        BalanceOf(OpenPostings(account, event, ref, fee, reserved), other) ==
        if other == account then -Money(reserved) - Money(fee) else 0.0
    {
      OpenFlow(account, event, ref, fee, reserved, other);
    }
    forall other ensures isClose && released >= 0.0 ==>
        BalanceOf(ClosePostings(account, event, FillSource, ref, fee, gross, released, false), other)
        == if other == account then Money(released) - Money(fee) + Money(gross) else 0.0
    {
      if released >= 0.0 {
        CloseFlow(account, event, FillSource, ref, fee, gross, released, false, other);
      }
    }
    postings := [];
    if isClose {
      if released > 0.0 {
        postings := postings + [MakePosting(account, event, FillSource, ref, ReleasedMargin, released)];
      }
      postings := postings + [MakePosting(account, event, FillSource, ref, ExitFee, -Money(fee))];
      if gross != 0.0 {
        postings := postings + [MakePosting(account, event, FillSource, ref, RealizedGross, gross)];
      }
    } else {
      postings := postings + [MakePosting(account, event, FillSource, ref, ReservedMargin, -Money(reserved))];
      postings := postings + [MakePosting(account, event, FillSource, ref, EntryFee, -Money(fee))];
    }
  }

  /** Postings of one forced exit: a zero result is posted too. */
  method BuildLiquidationPostings(account: AccountId, event: EventId, position: PositionId, fee: real, gross: real,
                                  margin: real)
    returns (postings: seq<Posting>)
    ensures postings ==
            ClosePostings(account, event, LiquidationSource, LiquidationRef(position), fee, Money(gross), margin, true)
    ensures IsEntry(postings) && AmountsOnGrid(postings)
    ensures margin >= 0.0 ==> Moves(postings, account, Money(margin) - Money(fee) + Money(gross))
  {
    hide Money, OnGrid, IsEntry, AmountsOnGrid, BalanceOf;
    MoneyOnGrid(margin);
    MoneyFixedIffOnGrid(Money(margin));
    MoneyOnGrid(gross);
    MoneyFixedIffOnGrid(Money(gross));
    CloseEntry(account, event, LiquidationSource, LiquidationRef(position), fee, Money(gross), margin, true);
    forall other ensures margin >= 0.0 ==>
        BalanceOf(ClosePostings(account, event, LiquidationSource, LiquidationRef(position), fee, Money(gross), margin,
                                true), other)
        == if other == account then Money(margin) - Money(fee) + Money(gross) else 0.0
    {
      if margin >= 0.0 {
        CloseFlow(account, event, LiquidationSource, LiquidationRef(position), fee, Money(gross), margin, true, other);
      }
    }
    var ref := LiquidationRef(position);
    postings := [
      MakePosting(account, event, LiquidationSource, ref, ExitFee, -Money(fee)),
      MakePosting(account, event, LiquidationSource, ref, RealizedGross, Money(gross))];
    if margin > 0.0 {
      postings := [MakePosting(account, event, LiquidationSource, ref, ReleasedMargin, Money(margin))] + postings;
    }
  }

  function OpenPostings(account: AccountId, event: EventId, ref: SourceRef, fee: real, reserved: real): seq<Posting> {
    [MakePosting(account, event, FillSource, ref, ReservedMargin, -Money(reserved)),
     MakePosting(account, event, FillSource, ref, EntryFee, -Money(fee))]
  }

  function ClosePostings(account: AccountId, event: EventId, source: SourceType, ref: SourceRef, fee: real, gross: real,
                         released: real, postZero: bool): seq<Posting>
  {
    (if released > 0.0 then [MakePosting(account, event, source, ref, ReleasedMargin, released)] else [])
    + [MakePosting(account, event, source, ref, ExitFee, -Money(fee))]
    + if postZero || gross != 0.0 then [MakePosting(account, event, source, ref, RealizedGross, gross)] else []
  }

  lemma NegatedMoney(x: real)
    ensures Money(-Money(x)) == -Money(x) && OnGrid(-Money(x))
  {
    MoneyOnGrid(x);
    GridSum(0.0, Money(x));
    MoneyFixedIffOnGrid(-Money(x));
  }

  /** An opening entry takes the margin and the fee from the account, and nothing from any other. */
  lemma OpenFlow(account: AccountId, event: EventId, ref: SourceRef, fee: real, reserved: real, other: AccountId)
    ensures var p := OpenPostings(account, event, ref, fee, reserved);
            && IsEntry(p) && AmountsOnGrid(p)
            && BalanceOf(p, other) == if other == account then -Money(reserved) - Money(fee) else 0.0
  {
    NegatedMoney(reserved);
    NegatedMoney(fee);
    hide Money, OnGrid;
    var p := OpenPostings(account, event, ref, fee, reserved);
    assert p[..1] == [p[0]] && p[..1][..0] == [];
    assert BalanceOf(p[..1], other) == Flow(p[0], other);
  }

  lemma CloseEntry(account: AccountId, event: EventId, source: SourceType, ref: SourceRef, fee: real, gross: real,
                   released: real, postZero: bool)
    ensures var p := ClosePostings(account, event, source, ref, fee, gross, released, postZero); IsEntry(p) && AmountsOnGrid(p)
  {
    hide Money, OnGrid;
    NegatedMoney(fee);
    MoneyOnGrid(released);
    MoneyOnGrid(gross);
  }

  /** A closing entry returns the margin, pays the fee and books the result. */
  lemma CloseFlow(account: AccountId, event: EventId, source: SourceType, ref: SourceRef, fee: real, gross: real,
                  released: real, postZero: bool, other: AccountId)
    requires released >= 0.0
    ensures var p := ClosePostings(account, event, source, ref, fee, gross, released, postZero);
            && IsEntry(p) && AmountsOnGrid(p)
            && BalanceOf(p, other) == if other == account then Money(released) - Money(fee) + Money(gross) else 0.0
  {
    hide Money, OnGrid, BalanceOf, IsEntry, AmountsOnGrid;
    NegatedMoney(fee);
    MoneyOfZero();
    CloseEntry(account, event, source, ref, fee, gross, released, postZero);
    var margin := if released > 0.0 then [MakePosting(account, event, source, ref, ReleasedMargin, released)] else [];
    var exit := [MakePosting(account, event, source, ref, ExitFee, -Money(fee))];
    var result := if postZero || gross != 0.0 then [MakePosting(account, event, source, ref, RealizedGross, gross)] else [];
    BalanceAppend(margin + exit, result, other);
    BalanceAppend(margin, exit, other);
    SingleFlow(margin, other);
    SingleFlow(exit, other);
    SingleFlow(result, other);
  }

  lemma SingleFlow(p: seq<Posting>, account: AccountId)
    requires |p| <= 1
    ensures BalanceOf(p, account) == if p == [] then 0.0 else Flow(p[0], account)
  {
    if p != [] {
      assert p[..0] == [];
    }
  }
}
