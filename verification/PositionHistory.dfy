/** Sequences of accepted updates to one position under fixed prices and funding indices. */
module PositionHistory {
  import opened Felt
  import opened PerpetualTypes
  import opened Funding
  import opened Status
  import opened Transition
  import opened UpdatePosition

  datatype Request = Request(requestKey: int, collateralDelta: felt, assetId: int, syntheticDelta: felt)

  datatype Market = Market(funding: FundingInfo, prices: seq<OraclePrice>, config: GeneralConfig)

  ghost predicate Valid(m: Market) {
    ValidIndices(m.funding.indices) && ValidMarket(m.prices, m.config)
  }

  /** One accepted update; a reported code, like a failed assert, ends the history. */
  function Accept(p: Position, r: Request, m: Market): Outcome<Position> {
    var u :- Apply(p, r.requestKey, r.collateralDelta, r.assetId, r.syntheticDelta, m.funding, m.prices, m.config);
    if u.code == Success then Done(u.updated) else Abort
  }

  function AcceptAll(p: Position, requests: seq<Request>, m: Market): Outcome<Position>
    decreases |requests|
  {
    if requests == [] then Done(p)
    else
      var q :- Accept(p, requests[0], m);
      AcceptAll(q, requests[1..], m)
  }

  /** No result of the history is well leveraged. */
  ghost predicate NeverWellLeveraged(p: Position, requests: seq<Request>, m: Market)
    requires Valid(m)
    decreases |requests|
  {
    if requests == [] then true
    else
      match Accept(p, requests[0], m)
      case Abort => true
      case Done(q) =>
        && !(AllEvaluable(q.assets, m.prices, m.config) && WellLeveraged(q, m.prices, m.config))
        && NeverWellLeveraged(q, requests[1..], m)
  }

  /** The relation of first and last position after a history. */
  ghost predicate SaferThan(q: Position, p: Position, m: Market)
    requires Valid(m)
  {
    var f := ApplyFunding(p, m.funding);
    && f.Done? && ValidPosition(q) && StoredPosition(f.value)
    && AllEvaluable(q.assets, m.prices, m.config)
    && AllEvaluable(f.value.assets, m.prices, m.config)
    && Safer(q, f.value, m.prices, m.config)
  }

  lemma {:induction false} AcceptedStep(p: Position, r: Request, m: Market)
    requires Valid(m) && ValidPosition(p)
    requires Accept(p, r, m).Done?
    requires var q := Accept(p, r, m).value;
      !(AllEvaluable(q.assets, m.prices, m.config) && WellLeveraged(q, m.prices, m.config))
    ensures ValidPosition(Accept(p, r, m).value)
    ensures UpToDate(Accept(p, r, m).value.assets, m.funding.indices)
    ensures SaferThan(Accept(p, r, m).value, p, m)
  {
    ApplyExact(p, r.requestKey, r.collateralDelta, r.assetId, r.syntheticDelta, m.funding, m.prices, m.config);
    FundingRoundsDown(p, m.funding);
  }

  /** Funding leaves an accepted result as it is, so the relation composes. */
  lemma {:induction false} SaferThroughResult(p: Position, p1: Position, q: Position, m: Market)
    requires Valid(m) && ValidPosition(p1) && UpToDate(p1.assets, m.funding.indices)
    requires SaferThan(p1, p, m) && SaferThan(q, p1, m)
    ensures SaferThan(q, p, m)
  {
    FundingIdempotent(p1, m.funding);
    var f0, f1 := ApplyFunding(p, m.funding).value, ApplyFunding(p1, m.funding).value;
    assert Safer(f1, f0, m.prices, m.config);
    SaferTransitive(f0, f1, q, m.prices, m.config);
  }

  /** Along any history in which no result becomes well leveraged, every synthetic holding only
      moves toward zero without changing sign, and the value to risk ratio of the last position is
      not below that of the first one after funding. */
  lemma {:induction false} HistoryIsSafer(p: Position, requests: seq<Request>, m: Market)
    requires Valid(m) && ValidPosition(p) && requests != []
    requires AcceptAll(p, requests, m).Done? && NeverWellLeveraged(p, requests, m)
    ensures SaferThan(AcceptAll(p, requests, m).value, p, m)
    decreases |requests|
  {
    AcceptedStep(p, requests[0], m);
    var p1 := Accept(p, requests[0], m).value;
    if |requests| > 1 {
      HistoryIsSafer(p1, requests[1..], m);
      SaferThroughResult(p, p1, AcceptAll(p1, requests[1..], m).value, m);
    }
  }
}
