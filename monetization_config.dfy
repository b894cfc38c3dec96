// The monetization config asset: the ad group ids used for each ad placement, the curated
// purchase spots (which store SKU a UI placement sells), and the playback flags. It is
// read-only data; its lookups are pure.
module MonetizationConfig {
  import opened Wrappers

  /** One curated spot; the sprite and the colour are presentation data and are not kept. */
  datatype CuratedIapSpot = CuratedIapSpot(
    spotId: Option<string>,
    productId: Option<string>,
    titleOverride: Option<string>,
    subtitle: Option<string>,
    callToActionOverride: Option<string>)

  datatype Config = Config(
    interstitialAdGroupId: string,
    rewardedAdGroupId: string,
    curatedIapSpots: seq<CuratedIapSpot>,
    pauseTimeDuringAds: bool,
    muteAudioDuringAds: bool,
    pauseTimeWhenHostHidden: bool,
    muteAudioWhenHostHidden: bool)

  /** The values a new config asset starts with: default ad group ids, no spots, every flag on. */
  const DEFAULT_CONFIG: Config := Config("interstitial.default", "rewarded.default", [], true, true, true, true)

  /** `char.IsWhiteSpace`: the Unicode separators, the C0 controls 9 to 13, U+0085 and U+00A0. */
  predicate IsWhiteSpace(c: char) {
    var u := c as int;
    || 0x09 <= u <= 0x0D || u == 0x20 || u == 0x85 || u == 0xA0 || u == 0x1680
    || 0x2000 <= u <= 0x200A || u == 0x2028 || u == 0x2029 || u == 0x202F || u == 0x205F || u == 0x3000
  }

  /** Empty, or nothing but white space. */
  predicate IsBlank(s: string) {
    forall i :: 0 <= i < |s| ==> IsWhiteSpace(s[i])
  }

  /** `string.IsNullOrWhiteSpace`. */
  predicate IsNullOrWhiteSpace(s: Option<string>) {
    s.None? || IsBlank(s.value)
  }

  /**
   * `List.Find(s => s.SpotId == spotId)`: the first spot whose id equals the one asked for, or
   * nothing when no spot has it (TryGetCuratedSpot answers whether one was found).
   */
  function TryGetCuratedSpot(spots: seq<CuratedIapSpot>, spotId: Option<string>): (r: Option<CuratedIapSpot>)
    ensures r.None? <==> forall i :: 0 <= i < |spots| ==> spots[i].spotId != spotId
    ensures r.Some? ==> exists i :: (0 <= i < |spots| && spots[i] == r.value && spots[i].spotId == spotId
      && forall j :: 0 <= j < i ==> spots[j].spotId != spotId)
    decreases |spots|
  {
    if |spots| == 0 then None
    else if spots[0].spotId == spotId then Some(spots[0])
    else
      var rest := TryGetCuratedSpot(spots[1..], spotId);
      assert forall i :: 1 <= i < |spots| ==> spots[i] == spots[1..][i - 1];
      if rest.Some? then
        ghost var k :| 0 <= k < |spots[1..]| && spots[1..][k] == rest.value && spots[1..][k].spotId == spotId
          && forall j :: 0 <= j < k ==> spots[1..][j].spotId != spotId;
        assert spots[k + 1] == rest.value && forall j :: 0 <= j < k + 1 ==> spots[j].spotId != spotId;
        rest
      else rest
  }

  /**
   * `EnumerateProductIds`: the product ids of the spots in list order, without the null,
   * empty and white-space ones, and without removing duplicates.
   */
  function EnumerateProductIds(spots: seq<CuratedIapSpot>): (r: seq<string>)
    ensures |r| <= |spots|
    ensures forall i :: 0 <= i < |r| ==> !IsBlank(r[i])
    decreases |spots|
  {
    if |spots| == 0 then []
    else if !IsNullOrWhiteSpace(spots[0].productId) then [spots[0].productId.value] + EnumerateProductIds(spots[1..])
    else EnumerateProductIds(spots[1..])
  }

  /** How many spots carry `sku` as their product id. */
  function SpotsSelling(spots: seq<CuratedIapSpot>, sku: string): nat
    decreases |spots|
  {
    if |spots| == 0 then 0
    else (if spots[0].productId == Some(sku) then 1 else 0) + SpotsSelling(spots[1..], sku)
  }

  // ---- Properties ----

  /** The ids of two lists of spots are the ids of the first followed by those of the second. */
  lemma {:induction false} ProductIdsAppend(a: seq<CuratedIapSpot>, b: seq<CuratedIapSpot>)
    ensures EnumerateProductIds(a + b) == EnumerateProductIds(a) + EnumerateProductIds(b)
    decreases |a|
  {
    if |a| == 0 {
      assert a + b == b;
    } else {
      assert (a + b)[1..] == a[1..] + b;
      ProductIdsAppend(a[1..], b);
    }
  }

  /**
   * A SKU that is not blank is listed once for every spot that sells it, and a blank one never:
   * the list is not deduplicated and drops nothing else.
   */
  lemma {:induction false} ProductIdsCount(spots: seq<CuratedIapSpot>, sku: string)
    ensures multiset(EnumerateProductIds(spots))[sku] == if IsBlank(sku) then 0 else SpotsSelling(spots, sku)
    decreases |spots|
  {
    if |spots| > 0 {
      ProductIdsCount(spots[1..], sku);
      if !IsNullOrWhiteSpace(spots[0].productId) {
        assert multiset([spots[0].productId.value] + EnumerateProductIds(spots[1..]))
            == multiset([spots[0].productId.value]) + multiset(EnumerateProductIds(spots[1..]));
      }
    }
  }

  /** A listed id is the product id of some spot, and the id of every non-blank spot is listed. */
  lemma {:induction false} ProductIdsMembers(spots: seq<CuratedIapSpot>, sku: string)
    ensures sku in EnumerateProductIds(spots) <==>
      !IsBlank(sku) && exists i :: 0 <= i < |spots| && spots[i].productId == Some(sku)
    decreases |spots|
  {
    if |spots| > 0 {
      ProductIdsMembers(spots[1..], sku);
      assert forall i :: 1 <= i < |spots| ==> spots[i] == spots[1..][i - 1];
      if exists i :: 0 <= i < |spots| && spots[i].productId == Some(sku) {
        var i :| 0 <= i < |spots| && spots[i].productId == Some(sku);
        if i > 0 {
          assert spots[1..][i - 1].productId == Some(sku);
        }
      }
    }
  }

  /** Two spots selling the same SKU list it twice. */
  lemma {:induction false} SharedSkuListedTwice(a: CuratedIapSpot, b: CuratedIapSpot, sku: string)
    requires a.productId == Some(sku) && b.productId == Some(sku) && !IsBlank(sku)
    ensures EnumerateProductIds([a, b]) == [sku, sku]
  {
    assert [a, b][1..] == [b];
    assert [b][1..] == [];
  }
}
