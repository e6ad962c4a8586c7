/** Oracle prices (oracle/oracle_price.cairo): a price is accepted when it is a median of prices
    signed by enough distinct configured signers. */
module Oracle {
  import opened Felt
  import opened PerpetualTypes
  import opened MessageHashes
  import opened Orders
  import opened Arithmetic
  import opened ConfigChecks

  const EXTERNAL_PRICE_UPPER_BOUND: int := 0x1000000000000000000000000000000
  const EXTERNAL_PRICE_FIXED_POINT_UNIT: int := 1_000_000_000_000_000_000
  const TIMESTAMP_BOUND: int := 0x100000000

  datatype SignedOraclePrice = SignedOraclePrice(
    signerKey: felt, externalPrice: felt, timestamp: felt, signedAssetId: felt, signatureR: felt, signatureS: felt)

  datatype AssetOraclePrice = AssetOraclePrice(assetId: felt, price: felt, signedPrices: seq<SignedOraclePrice>)

  datatype TimeBounds = TimeBounds(minTime: felt, maxTime: felt)

  // ---- Conversion to internal prices ----

  /** The asserts of unsigned_div_rem on the guessed quotient and remainder. */
  predicate DivRemAccepted(value: int, div: int, q: int, r: int) {
    && 0 <= r < RC_BOUND && 0 <= q < RC_BOUND
    && IsLe(r, div - 1)
    && (value - (q * div + r)) % P == 0
  }

  /** unsigned_div_rem, run with the honest hint, which refuses divisors above P / 2^128. */
  function UnsignedDivRem(value: int, div: int): Outcome<int> {
    if 0 < div <= P / RC_BOUND && 0 <= value && value / div < RC_BOUND then Done(value / div) else Abort
  }

  /** Below that bound every accepted guess is the integer quotient, although the defining equation
      is checked modulo P only. */
  lemma {:induction false} DivRemUnique(value: int, div: int, q: int, r: int)
    requires 0 <= value < P && 0 < div <= P / RC_BOUND
    requires DivRemAccepted(value, div, q, r)
    ensures UnsignedDivRem(value, div) == Done(q)
  {
    assert IsLe(r, div - 1) ==> r < div;
    ProductBound(q, div, RC_BOUND - 1, P / RC_BOUND);
    NonNegativeProduct(q, div);
    assert (RC_BOUND - 1) * (P / RC_BOUND) + P / RC_BOUND <= P;
    CongruentSmall(value, q * div + r);
    Digits(q, r, div);
  }

  function Numerator(externalPrice: int, collateralResolution: int): int {
    externalPrice * collateralResolution * FXP_32_ONE
  }

  function Denominator(resolution: int): int {
    resolution * EXTERNAL_PRICE_FIXED_POINT_UNIT
  }

  /** The internal price of a signed external price. */
  function InternalPrice(externalPrice: int, collateralResolution: int, resolution: int): Outcome<int> {
    var denominator := Denominator(resolution);
    UnsignedDivRem(Numerator(externalPrice, collateralResolution) + denominator / 2, denominator)
  }

  /** The conversion is within half a unit of the exact quotient, and halves round up. */
  lemma {:induction false} ConversionRounds(externalPrice: int, collateralResolution: int, resolution: int)
    requires InternalPrice(externalPrice, collateralResolution, resolution).Done?
    ensures var q := InternalPrice(externalPrice, collateralResolution, resolution).value;
      var n, d := Numerator(externalPrice, collateralResolution), Denominator(resolution);
      -d < 2 * (q * d - n) <= d
  {
    var half := resolution * (EXTERNAL_PRICE_FIXED_POINT_UNIT / 2);
    assert Denominator(resolution) == 2 * half;
    hide Numerator, Denominator;
    NearestQuotient(Numerator(externalPrice, collateralResolution), half);
  }

  /** Configured resolutions and signed prices in range keep the numerator inside the field. */
  lemma {:induction false} NumeratorFits(externalPrice: int, collateralResolution: int, resolution: int)
    requires 0 <= externalPrice < EXTERNAL_PRICE_UPPER_BOUND
    requires 1 <= collateralResolution < ASSET_RESOLUTION_UPPER_BOUND && 1 <= resolution < ASSET_RESOLUTION_UPPER_BOUND
    ensures 0 <= Numerator(externalPrice, collateralResolution) + Denominator(resolution) / 2 < P
  {
    ProductBound(externalPrice, collateralResolution, EXTERNAL_PRICE_UPPER_BOUND, ASSET_RESOLUTION_UPPER_BOUND);
    NonNegativeProduct(externalPrice, collateralResolution);
  }

  // ---- Signatures ----

  /** The message an oracle signs. */
  function PriceMessage(h: PairHash, sig: SignedOraclePrice): int {
    h(sig.signedAssetId, sig.externalPrice * TIMESTAMP_BOUND + sig.timestamp)
  }

  /** What check_price_signature asserts about one signature, other than its conversion. */
  predicate SignatureChecks(h: PairHash, verify: Verifier, bounds: TimeBounds, info: SyntheticAssetInfo,
                            sig: SignedOraclePrice)
  {
    && IsNnLe(sig.externalPrice, EXTERNAL_PRICE_UPPER_BOUND - 1)
    && IsNnLe(sig.timestamp, TIMESTAMP_BOUND)
    && verify(PriceMessage(h, sig), sig.signerKey, sig.signatureR, sig.signatureS)
    && sig.signerKey in info.oracleSigners
    && sig.signedAssetId in info.oracleSignedAssetIds
    && IsInRange(sig.timestamp, bounds.minTime, bounds.maxTime + 1)
  }

  /** sign: the argument must lie strictly between -2^128 and 2^128. */
  function Sign(value: int): Outcome<int> {
    if value == 0 then Done(0)
    else if IsNn(value) then Done(1)
    else if IsNn(-value) then Done(-1)
    else Abort
  }

  /** check_price_signature: whether the signed price is at least, or at most, the median. The
      source names the flags after the median: is_le when the median is the smaller one. */
  function CheckPriceSignature(h: PairHash, verify: Verifier, bounds: TimeBounds, info: SyntheticAssetInfo,
                               median: int, collateralResolution: int, sig: SignedOraclePrice): Outcome<(nat, nat)>
  {
    var _ :- Require(SignatureChecks(h, verify, bounds, info, sig));
    var internal :- InternalPrice(sig.externalPrice, collateralResolution, info.resolution);
    var comparison :- Sign(median - internal);
    Done(if comparison == 0 then (1, 1) else if comparison == 1 then (0, 1) else (1, 0))
  }

  /** check_oracle_price_inner. */
  function CheckOraclePriceInner(h: PairHash, verify: Verifier, bounds: TimeBounds, info: SyntheticAssetInfo,
                                 median: int, collateralResolution: int, sigs: seq<SignedOraclePrice>, lastSigner: int,
                                 nLe: nat, nGe: nat)
    : Outcome<(nat, nat)>
    decreases |sigs|
  {
    if sigs == [] then Done((nLe, nGe))
    else
      var _ :- Require(lastSigner % P < sigs[0].signerKey % P);
      var (isLe, isGe) :- CheckPriceSignature(h, verify, bounds, info, median, collateralResolution, sigs[0]);
      CheckOraclePriceInner(h, verify, bounds, info, median, collateralResolution, sigs[1..], sigs[0].signerKey,
                            nLe + isLe, nGe + isGe)
  }

  /** check_oracle_price. */
  function CheckOraclePrice(h: PairHash, verify: Verifier, bounds: TimeBounds, price: AssetOraclePrice,
                            info: SyntheticAssetInfo, collateralResolution: int): Outcome<()>
  {
    var n := |price.signedPrices|;
    var _ :- Require(IsLe(info.oracleQuorum, n));
    var _ :- Require(IsInRange(price.price, PRICE_LOWER_BOUND, PRICE_UPPER_BOUND));
    var (nLe, nGe) :- CheckOraclePriceInner(h, verify, bounds, info, price.price, collateralResolution,
                                            price.signedPrices, 0, 0, 0);
    var _ :- Require(IsLe(n, nLe * 2));
    Require(IsLe(n, nGe * 2))
  }

  /** The checks on a signature over the integers: price below 2^120, time up to 2^32 and within the bounds,
      verified, under a configured key and asset name. */
  lemma {:induction false} SignatureExact(h: PairHash, verify: Verifier, bounds: TimeBounds, info: SyntheticAssetInfo,
                                          sig: SignedOraclePrice)
    ensures SignatureChecks(h, verify, bounds, info, sig) <==>
            && 0 <= sig.externalPrice < EXTERNAL_PRICE_UPPER_BOUND
            && 0 <= sig.timestamp <= TIMESTAMP_BOUND
            && bounds.minTime <= sig.timestamp <= bounds.maxTime
            && sig.timestamp - bounds.minTime < RC_BOUND && bounds.maxTime - sig.timestamp < RC_BOUND
            && verify(PriceMessage(h, sig), sig.signerKey, sig.signatureR, sig.signatureS)
            && sig.signerKey in info.oracleSigners && sig.signedAssetId in info.oracleSignedAssetIds
  {
  }

  // ---- Counting ----

  /** The converted price of a signature, or 0 where there is none. */
  function Converted(sig: SignedOraclePrice, info: SyntheticAssetInfo, collateralResolution: int): int {
    match InternalPrice(sig.externalPrice, collateralResolution, info.resolution)
    case Abort => 0
    case Done(q) => q
  }

  /** The signatures whose converted price is on the given side of the median. */
  function CountSide(sigs: seq<SignedOraclePrice>, info: SyntheticAssetInfo, collateralResolution: int, median: int,
                     above: bool): nat
  {
    if sigs == [] then 0
    else
      var c := Converted(sigs[0], info, collateralResolution);
      (if (if above then median <= c else c <= median) then 1 else 0)
      + CountSide(sigs[1..], info, collateralResolution, median, above)
  }

  /** Every signature passed the checks and has a converted price, and the keys strictly increase. */
  predicate SignaturesOk(h: PairHash, verify: Verifier, bounds: TimeBounds, info: SyntheticAssetInfo,
                         collateralResolution: int, sigs: seq<SignedOraclePrice>, lastSigner: int)
  {
    && (forall i :: 0 <= i < |sigs| ==>
          && SignatureChecks(h, verify, bounds, info, sigs[i])
          && InternalPrice(sigs[i].externalPrice, collateralResolution, info.resolution).Done?
          && lastSigner % P < sigs[i].signerKey % P)
    && forall i, j :: 0 <= i < j < |sigs| ==> sigs[i].signerKey % P < sigs[j].signerKey % P
  }

  lemma {:induction false} SignaturesOkStep(h: PairHash, verify: Verifier, bounds: TimeBounds,
                                            info: SyntheticAssetInfo, collateralResolution: int,
                                            sigs: seq<SignedOraclePrice>, lastSigner: int)
    requires sigs != []
    ensures SignaturesOk(h, verify, bounds, info, collateralResolution, sigs, lastSigner) <==>
            && SignatureChecks(h, verify, bounds, info, sigs[0])
            && InternalPrice(sigs[0].externalPrice, collateralResolution, info.resolution).Done?
            && lastSigner % P < sigs[0].signerKey % P
            && SignaturesOk(h, verify, bounds, info, collateralResolution, sigs[1..], sigs[0].signerKey)
  {
    hide SignatureChecks, InternalPrice;
    var rest := sigs[1..];
    assert forall i :: 1 <= i < |sigs| ==> sigs[i] == rest[i - 1];
    if SignaturesOk(h, verify, bounds, info, collateralResolution, sigs, lastSigner) {
      forall i, j | 0 <= i < j < |rest|
        ensures rest[i].signerKey % P < rest[j].signerKey % P
      {
        assert sigs[i + 1].signerKey % P < sigs[j + 1].signerKey % P;
      }
    }
  }

  /** One comparison decides the side. */
  lemma {:induction false} SideDecided(median: int, internal: int)
    requires PRICE_LOWER_BOUND <= median < PRICE_UPPER_BOUND && 0 <= internal < RC_BOUND
    ensures Sign(median - internal) == Done(if median == internal then 0 else if median > internal then 1 else -1)
  {
  }

  /** check_oracle_price_inner accepts exactly valid signatures with strictly increasing keys, and
      then counts both sides of the median. */
  lemma {:induction false} InnerExact(h: PairHash, verify: Verifier, bounds: TimeBounds, info: SyntheticAssetInfo,
                                      median: int, collateralResolution: int, sigs: seq<SignedOraclePrice>,
                                      lastSigner: int, nLe: nat, nGe: nat)
    requires PRICE_LOWER_BOUND <= median < PRICE_UPPER_BOUND
    ensures CheckOraclePriceInner(h, verify, bounds, info, median, collateralResolution, sigs, lastSigner, nLe, nGe) ==
            if SignaturesOk(h, verify, bounds, info, collateralResolution, sigs, lastSigner)
            then Done((nLe + CountSide(sigs, info, collateralResolution, median, true),
                       nGe + CountSide(sigs, info, collateralResolution, median, false)))
            else Abort
    decreases |sigs|
  {
    hide SignatureChecks, InternalPrice, Sign, SignaturesOk;
    if sigs == [] {
      assert SignaturesOk(h, verify, bounds, info, collateralResolution, sigs,
                          lastSigner) by { NoSignatures(h, verify, bounds, info, collateralResolution, lastSigner); }
    } else {
      SignaturesOkStep(h, verify, bounds, info, collateralResolution, sigs, lastSigner);
      var internal := InternalPrice(sigs[0].externalPrice, collateralResolution, info.resolution);
      if internal.Done? {
        QuotientInRange(sigs[0].externalPrice, collateralResolution, info.resolution);
        SideDecided(median, internal.value);
        var isLe, isGe := if median <= internal.value then 1 else 0, if internal.value <= median then 1 else 0;
        InnerExact(h, verify, bounds, info, median, collateralResolution, sigs[1..], sigs[0].signerKey, nLe + isLe,
                   nGe + isGe);
      }
    }
  }

  lemma {:induction false} NoSignatures(h: PairHash, verify: Verifier, bounds: TimeBounds, info: SyntheticAssetInfo,
                                        collateralResolution: int, lastSigner: int)
    ensures SignaturesOk(h, verify, bounds, info, collateralResolution, [], lastSigner)
  {
  }

  lemma {:induction false} QuotientInRange(externalPrice: int, collateralResolution: int, resolution: int)
    requires InternalPrice(externalPrice, collateralResolution, resolution).Done?
    ensures 0 <= InternalPrice(externalPrice, collateralResolution, resolution).value < RC_BOUND
  {
    hide Numerator, Denominator;
    var d := Denominator(resolution);
    NonNegativeQuotient(Numerator(externalPrice, collateralResolution) + d / 2, d);
  }

  /** check_oracle_price over the integers. */
  predicate AcceptedPrice(h: PairHash, verify: Verifier, bounds: TimeBounds, price: AssetOraclePrice,
                          info: SyntheticAssetInfo, collateralResolution: int)
  {
    var sigs := price.signedPrices;
    && info.oracleQuorum <= |sigs|
    && PRICE_LOWER_BOUND <= price.price < PRICE_UPPER_BOUND
    && SignaturesOk(h, verify, bounds, info, collateralResolution, sigs, 0)
    && |sigs| <= 2 * CountSide(sigs, info, collateralResolution, price.price, true)
    && |sigs| <= 2 * CountSide(sigs, info, collateralResolution, price.price, false)
  }

  lemma {:induction false} CountBound(sigs: seq<SignedOraclePrice>, info: SyntheticAssetInfo,
                                      collateralResolution: int, median: int, above: bool)
    ensures CountSide(sigs, info, collateralResolution, median, above) <= |sigs|
  {
    if sigs != [] { CountBound(sigs[1..], info, collateralResolution, median, above); }
  }

  lemma {:induction false} CheckOraclePriceExact(h: PairHash, verify: Verifier, bounds: TimeBounds,
                                                 price: AssetOraclePrice, info: SyntheticAssetInfo,
                                                 collateralResolution: int)
    requires 0 <= info.oracleQuorum < RC_BOUND && |price.signedPrices| < MEMORY_BOUND
    ensures CheckOraclePrice(h, verify, bounds, price, info, collateralResolution).Done? <==>
            AcceptedPrice(h, verify, bounds, price, info, collateralResolution)
  {
    hide SignaturesOk, CheckOraclePriceInner;
    var sigs := price.signedPrices;
    if PRICE_LOWER_BOUND <= price.price < PRICE_UPPER_BOUND {
      InnerExact(h, verify, bounds, info, price.price, collateralResolution, sigs, 0, 0, 0);
    }
    CountBound(sigs, info, collateralResolution, price.price, true);
    CountBound(sigs, info, collateralResolution, price.price, false);
  }

  // ---- What an accepted price means ----

  function Signers(sigs: seq<SignedOraclePrice>): set<int> {
    if sigs == [] then {} else {sigs[0].signerKey as int} + Signers(sigs[1..])
  }

  lemma {:induction false} SignersMember(sigs: seq<SignedOraclePrice>, key: int)
    ensures key in Signers(sigs) <==> exists i :: 0 <= i < |sigs| && sigs[i].signerKey == key
  {
    if sigs != [] {
      SignersMember(sigs[1..], key);
      if i :| 0 <= i < |sigs[1..]| && sigs[1..][i].signerKey == key { assert sigs[i + 1].signerKey == key; }
      if i :| 1 <= i < |sigs| && sigs[i].signerKey == key { assert sigs[1..][i - 1].signerKey == key; }
    }
  }

  lemma {:induction false} IncreasingKeysAreDistinct(sigs: seq<SignedOraclePrice>)
    requires forall i, j :: 0 <= i < j < |sigs| ==> sigs[i].signerKey % P < sigs[j].signerKey % P
    ensures |Signers(sigs)| == |sigs|
  {
    if sigs != [] {
      var rest := sigs[1..];
      forall i, j | 0 <= i < j < |rest|
        ensures rest[i].signerKey % P < rest[j].signerKey % P
      {
        assert sigs[i + 1].signerKey % P < sigs[j + 1].signerKey % P;
      }
      IncreasingKeysAreDistinct(rest);
      SignersMember(rest, sigs[0].signerKey);
      assert forall i :: 0 <= i < |rest| ==> rest[i] == sigs[i + 1];
    }
  }

  /** An accepted price carries valid signatures of at least quorum distinct configured signers. */
  lemma {:induction false} QuorumOfSigners(h: PairHash, verify: Verifier, bounds: TimeBounds, price: AssetOraclePrice,
                                           info: SyntheticAssetInfo, collateralResolution: int)
    requires AcceptedPrice(h, verify, bounds, price, info, collateralResolution)
    ensures var signers := Signers(price.signedPrices);
      && |signers| >= info.oracleQuorum
      && forall key :: key in signers ==>
           && key in info.oracleSigners
           && exists i :: 0 <= i < |price.signedPrices| && price.signedPrices[i].signerKey == key
                          && SignatureChecks(h, verify, bounds, info, price.signedPrices[i])
  {
    hide SignatureChecks;
    IncreasingKeysAreDistinct(price.signedPrices);
    forall key | key in Signers(price.signedPrices)
      ensures key in info.oracleSigners
      ensures exists i :: 0 <= i < |price.signedPrices| && price.signedPrices[i].signerKey == key
                          && SignatureChecks(h, verify, bounds, info, price.signedPrices[i])
    {
      SignersMember(price.signedPrices, key);
      var i :| 0 <= i < |price.signedPrices| && price.signedPrices[i].signerKey == key;
      SignerIsConfigured(h, verify, bounds, info, price.signedPrices[i]);
    }
  }

  lemma {:induction false} SignerIsConfigured(h: PairHash, verify: Verifier, bounds: TimeBounds,
                                              info: SyntheticAssetInfo, sig: SignedOraclePrice)
    requires SignatureChecks(h, verify, bounds, info, sig)
    ensures sig.signerKey in info.oracleSigners && sig.signedAssetId in info.oracleSignedAssetIds
  {
  }

  function CountHonest(honest: seq<bool>): nat {
    if honest == [] then 0 else (if honest[0] then 1 else 0) + CountHonest(honest[1..])
  }

  /** A side that holds at least half of the prices meets every strict majority. */
  lemma {:induction false} MajorityMeetsSide(sigs: seq<SignedOraclePrice>, honest: seq<bool>, info: SyntheticAssetInfo,
                                             collateralResolution: int, median: int, above: bool) returns (k: nat)
    requires |honest| == |sigs|
    requires CountSide(sigs, info, collateralResolution, median, above) + CountHonest(honest) > |sigs|
    ensures k < |sigs| && honest[k]
    ensures var c := Converted(sigs[k], info, collateralResolution);
      if above then median <= c else c <= median
  {
    var c := Converted(sigs[0], info, collateralResolution);
    if honest[0] && (if above then median <= c else c <= median) {
      k := 0;
    } else {
      var j := MajorityMeetsSide(sigs[1..], honest[1..], info, collateralResolution, median, above);
      k := j + 1;
    }
  }

  /** If more than half of the signed prices are honest, an accepted price lies between two honest
      converted prices. */
  lemma {:induction false} HonestMajorityBoundsPrice(h: PairHash, verify: Verifier, bounds: TimeBounds,
                                                     price: AssetOraclePrice, info: SyntheticAssetInfo,
                                                     collateralResolution: int, honest: seq<bool>)
    requires AcceptedPrice(h, verify, bounds, price, info, collateralResolution)
    requires |honest| == |price.signedPrices| < 2 * CountHonest(honest)
    ensures exists i, j ::
      && 0 <= i < |honest| && honest[i] && 0 <= j < |honest| && honest[j]
      && Converted(price.signedPrices[i], info,
                   collateralResolution) <= price.price <= Converted(price.signedPrices[j], info, collateralResolution)
  {
    hide SignaturesOk, Converted;
    var i := MajorityMeetsSide(price.signedPrices, honest, info, collateralResolution, price.price, false);
    var j := MajorityMeetsSide(price.signedPrices, honest, info, collateralResolution, price.price, true);
  }

  // ---- The message ----

  /** With the inclusive timestamp bound a message determines asset, price and timestamp, except
      that a timestamp of exactly 2^32 reads as the next price at time 0. */
  lemma {:induction false} MessageDetermines(h: PairHash, a: SignedOraclePrice, b: SignedOraclePrice)
    requires Injective(h)
    requires 0 <= a.timestamp <= TIMESTAMP_BOUND && 0 <= b.timestamp <= TIMESTAMP_BOUND
    ensures PriceMessage(h, a) == PriceMessage(h, b) <==>
            && a.signedAssetId == b.signedAssetId
            && (|| (a.externalPrice == b.externalPrice && a.timestamp == b.timestamp)
                || (a.timestamp == TIMESTAMP_BOUND && b.timestamp == 0 && b.externalPrice == a.externalPrice + 1)
                || (b.timestamp == TIMESTAMP_BOUND && a.timestamp == 0 && a.externalPrice == b.externalPrice + 1))
  {
  }

  // ---- check_oracle_prices ----

  /** check_oracle_prices_inner: advances through the configuration. */
  function CheckOraclePrices(h: PairHash, verify: Verifier, bounds: TimeBounds, prices: seq<AssetOraclePrice>,
                             infos: seq<SyntheticAssetInfo>, collateralResolution: int): Outcome<()>
    decreases |infos|
  {
    if prices == [] then Done(())
    else
      var _ :- Require(infos != []);
      if prices[0].assetId != infos[0].assetId
          then CheckOraclePrices(h, verify, bounds, prices, infos[1..], collateralResolution)
      else
        var _ :- CheckOraclePrice(h, verify, bounds, prices[0], infos[0], collateralResolution);
        CheckOraclePrices(h, verify, bounds, prices[1..], infos[1..], collateralResolution)
  }

  /** signed_prices_to_prices. */
  function SignedPricesToPrices(prices: seq<AssetOraclePrice>): (r: seq<OraclePrice>)
    ensures |r| == |prices|
    ensures forall i :: 0 <= i < |r| ==> r[i] == OraclePrice(prices[i].assetId, prices[i].price)
  {
    if prices == [] then []
    else [OraclePrice(prices[0].assetId, prices[0].price)] + SignedPricesToPrices(prices[1..])
  }

  /** Every price of an accepted list was accepted for a configured asset of the same id, and is in
      the price range. */
  lemma {:induction false} AcceptedPricesInBounds(h: PairHash, verify: Verifier, bounds: TimeBounds,
                                                  prices: seq<AssetOraclePrice>, infos: seq<SyntheticAssetInfo>,
                                                  collateralResolution: int)
    requires CheckOraclePrices(h, verify, bounds, prices, infos, collateralResolution).Done?
    requires forall i :: 0 <= i < |infos| ==> ValidInfo(infos[i])
    requires forall i :: 0 <= i < |prices| ==> |prices[i].signedPrices| < MEMORY_BOUND
    ensures forall i :: 0 <= i < |prices| ==>
              && PRICE_LOWER_BOUND <= prices[i].price < PRICE_UPPER_BOUND
              && exists j :: 0 <= j < |infos| && infos[j].assetId == prices[i].assetId
                             && AcceptedPrice(h, verify, bounds, prices[i], infos[j], collateralResolution)
    decreases |infos|
  {
    hide CheckOraclePrice, AcceptedPrice, ValidSegments;
    if prices != [] {
      var rest := infos[1..];
      var later := if prices[0].assetId == infos[0].assetId then prices[1..] else prices;
      AcceptedPricesInBounds(h, verify, bounds, later, rest, collateralResolution);
      if prices[0].assetId == infos[0].assetId {
        CheckOraclePriceExact(h, verify, bounds, prices[0], infos[0], collateralResolution);
        AcceptedIsInRange(h, verify, bounds, prices[0], infos[0], collateralResolution);
      }
      forall i | 0 <= i < |prices|
        ensures PRICE_LOWER_BOUND <= prices[i].price < PRICE_UPPER_BOUND
        ensures exists j :: 0 <= j < |infos| && infos[j].assetId == prices[i].assetId
                            && AcceptedPrice(h, verify, bounds, prices[i], infos[j], collateralResolution)
      {
        var k := if prices[0].assetId == infos[0].assetId then i - 1 else i;
        if k >= 0 {
          assert prices[i] == later[k];
          var j :| 0 <= j < |rest| && rest[j].assetId == later[k].assetId
                   && AcceptedPrice(h, verify, bounds, later[k], rest[j], collateralResolution);
          assert infos[j + 1] == rest[j];
        }
      }
    }
  }

  lemma {:induction false} AcceptedIsInRange(h: PairHash, verify: Verifier, bounds: TimeBounds, price: AssetOraclePrice,
                                             info: SyntheticAssetInfo, collateralResolution: int)
    requires AcceptedPrice(h, verify, bounds, price, info, collateralResolution)
    ensures PRICE_LOWER_BOUND <= price.price < PRICE_UPPER_BOUND
  {
  }
}
