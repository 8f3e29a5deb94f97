/** Scoring a hostname against every brand (scoring/scorer.py), with the text features abstract. */
module Scoring {
  import opened Wrappers
  import opened Text
  import opened Rounding

  datatype Weights = Weights(knownVariant: real, typoSimilarity: real, registeredLabel: real, subdomain: real,
                             homoglyphBonus: real, keywordBonus: real, maxKeywordHits: int, freeDvBonus: real)

  datatype Features = Features(fuzzers: seq<string>, typo: real, inRegisteredLabel: bool, inSubdomain: bool,
                               homoglyph: bool, keywordHits: seq<string>, freeDv: bool)

  datatype Brand = Brand(name: string, official: set<string>)

  datatype Match = Match(fqdn: string, registeredDomain: string, brand: string, score: real, features: Features)

  /**
   * `registeredDomain` is the public-suffix lookup on a normalised name, and `textFeatures` everything
   * `_features` reads off the name; its free-DV flag is overwritten.
   */
  datatype Scorer = Scorer(weights: Weights, minTypo: real, storeFloor: real, brands: seq<Brand>,
                           freeDvIssuers: seq<string>, registeredDomain: string -> Option<string>,
                           textFeatures: (string, Brand) -> Features)

  function DropDots(s: string): string {
    if s != "" && s[|s| - 1] == '.' then DropDots(s[..|s| - 1]) else s
  }

  function DropWildcard(s: string): string {
    if "*." <= s then s[2..] else s
  }

  /** `normalize_hostname`; None for a name with nothing left. */
  function NormalizeHostname(raw: string): Option<string> {
    var host := DropDots(DropWildcard(Lower(Strip(raw))));
    if host == "" then None else Some(host)
  }

  /** A name with nothing left to take off. */
  lemma NormalFrom(raw: string, host: string)
    requires Lower(Strip(raw)) == host && !("*." <= host) && host != "" && host[|host| - 1] != '.'
    ensures NormalizeHostname(raw) == Some(host)
  {
    assert DropWildcard(host) == host && DropDots(host) == host;
  }

  function Max(a: real, b: real): real {
    if a < b then b else a
  }

  function When(c: bool, x: real): real {
    if c then x else 0.0
  }

  function BaseSignal(s: Scorer, f: Features): real {
    var w := s.weights;
    var typo := When(s.minTypo <= f.typo < 1.0, w.typoSimilarity * f.typo);
    Max(Max(When(f.fuzzers != [], w.knownVariant), typo),
        Max(When(f.inRegisteredLabel, w.registeredLabel), When(f.inSubdomain, w.subdomain)))
  }

  function Bonus(w: Weights, f: Features): real {
    When(f.homoglyph, w.homoglyphBonus)
    + w.keywordBonus * Min(|f.keywordHits|, w.maxKeywordHits) as real
    + When(f.freeDv, w.freeDvBonus)
  }

  /** `_combine`: the strongest base signal, plus bonuses that never stand alone. */
  function Combine(s: Scorer, f: Features): real {
    var base := BaseSignal(s, f);
    if base <= 0.0 then 0.0 else
      var sum := base + Bonus(s.weights, f);
      Round4(if sum < 1.0 then sum else 1.0)
  }

  predicate IsFreeDv(s: Scorer, issuer: Option<string>) {
    issuer.Some? && exists i | 0 <= i < |s.freeDvIssuers| :: Contains(Lower(issuer.value), Lower(s.freeDvIssuers[i]))
  }

  /** The Match `score` builds for one brand, whatever the floor. */
  function MatchFor(s: Scorer, fqdn: string, registered: string, brand: Brand, freeDv: bool): Match {
    var features := s.textFeatures(fqdn, brand).(freeDv := freeDv);
    Match(fqdn, registered, brand.name, Combine(s, features), features)
  }

  function ScoreBrand(s: Scorer, fqdn: string, registered: string, brand: Brand, floor: real,
                      freeDv: bool): seq<Match> {
    var m := MatchFor(s, fqdn, registered, brand, freeDv);
    if registered !in brand.official && m.score >= floor then [m] else []
  }

  function ScoreBrands(s: Scorer, fqdn: string, registered: string, brands: seq<Brand>, floor: real,
                       freeDv: bool): seq<Match> {
    if brands == [] then [] else
      ScoreBrand(s, fqdn, registered, brands[0], floor, freeDv)
        + ScoreBrands(s, fqdn, registered, brands[1..], floor, freeDv)
  }

  /** `Scorer.score`, with the optional overrides of floor and free-DV flag that `rescore` uses. */
  function Score(s: Scorer, raw: string, issuer: Option<string>, floor: Option<real>,
                 freeDv: Option<bool>): seq<Match> {
    var fqdn := NormalizeHostname(raw);
    if fqdn.None? || s.registeredDomain(fqdn.value).None? then [] else
      ScoreBrands(s, fqdn.value, s.registeredDomain(fqdn.value).value, s.brands,
                  if floor.Some? then floor.value else s.storeFloor,
                  if freeDv.Some? then freeDv.value else IsFreeDv(s, issuer))
  }

  method ScoreHost(s: Scorer, raw: string, issuer: Option<string>, floor: Option<real>, freeDv: Option<bool>)
    returns (matches: seq<Match>)
    ensures matches == Score(s, raw, issuer, floor, freeDv)
  {
    matches := [];
    var fqdn := NormalizeHostname(raw);
    if fqdn.None? || s.registeredDomain(fqdn.value).None? {
      return;
    }
    var registered := s.registeredDomain(fqdn.value).value;
    var storeFloor := if floor.Some? then floor.value else s.storeFloor;
    var dv := if freeDv.Some? then freeDv.value else IsFreeDv(s, issuer);
    matches := ScoreEachBrand(s, fqdn.value, registered, storeFloor, dv);
  }

  method ScoreEachBrand(s: Scorer, fqdn: string, registered: string, floor: real, freeDv: bool)
    returns (matches: seq<Match>)
    ensures matches == ScoreBrands(s, fqdn, registered, s.brands, floor, freeDv)
  {
    matches := [];
    for i := 0 to |s.brands|
      invariant matches + ScoreBrands(s, fqdn, registered, s.brands[i..], floor, freeDv)
             == ScoreBrands(s, fqdn, registered, s.brands, floor, freeDv)
    {
      assert s.brands[i..][1..] == s.brands[i + 1..];
      matches := matches + ScoreBrand(s, fqdn, registered, s.brands[i], floor, freeDv);
    }
  }

  // ------------------------------------------------- the issuer and the storage floor

  /** The default configuration, as far as scoring goes. */
  const DEFAULT_WEIGHTS := Weights(1.0, 0.9, 0.6, 0.5, 0.1, 0.1, 2, 0.05)

  predicate SignalClears(weight: real, floor: real) {
    weight <= 0.0 || weight >= floor
  }

  /** Every base signal that counts at all reaches the floor alone, and bonuses only add. */
  ghost predicate SignalsClearFloor(s: Scorer) {
    var w := s.weights;
    && 0.0 < s.storeFloor <= 1.0 && OnGrid(s.storeFloor)
    && SignalClears(w.knownVariant, s.storeFloor)
    && SignalClears(w.registeredLabel, s.storeFloor)
    && SignalClears(w.subdomain, s.storeFloor)
    && 0.0 <= s.minTypo && SignalClears(w.typoSimilarity * s.minTypo, s.storeFloor)
    && (w.typoSimilarity > 0.0 ==> s.minTypo > 0.0)
    && w.homoglyphBonus >= 0.0 && w.keywordBonus >= 0.0 && w.maxKeywordHits >= 0 && w.freeDvBonus >= 0.0
  }

  lemma DefaultsClearFloor(s: Scorer)
    requires s.weights == DEFAULT_WEIGHTS && s.storeFloor == 0.4 && s.minTypo == 0.8
    ensures SignalsClearFloor(s)
  {
    assert 0.4 == Units(4000);
    assert s.weights.typoSimilarity * s.minTypo == 0.9 * 0.8;
  }

  lemma Product(a: real, b: real)
    requires a >= 0.0 && b >= 0.0
    ensures a * b >= 0.0
  {
  }

  lemma ProductMonotone(a: real, b: real, c: real)
    requires a >= 0.0 && b <= c
    ensures a * b <= a * c
  {
  }

  lemma BaseAllOrNothing(s: Scorer, f: Features)
    requires SignalsClearFloor(s)
    ensures BaseSignal(s, f) <= 0.0 || BaseSignal(s, f) >= s.storeFloor
  {
    var w := s.weights;
    if s.minTypo <= f.typo < 1.0 {
      TypoClears(w.typoSimilarity, s.minTypo, f.typo, s.storeFloor);
    }
  }

  lemma TypoClears(weight: real, min: real, typo: real, floor: real)
    requires SignalClears(weight * min, floor) && 0.0 <= min <= typo && (weight > 0.0 ==> min > 0.0)
    ensures SignalClears(weight * typo, floor)
  {
    if weight > 0.0 {
      ProductMonotone(weight, min, typo);
      Product(weight, min);
      assert weight * min > 0.0;
    } else {
      Product(-weight, typo);
      assert (-weight) * typo == -(weight * typo);
    }
  }

  /** A brand is stored exactly when the name alone gives it a base signal. */
  lemma FloorIsBaseSignal(s: Scorer, f: Features)
    requires SignalsClearFloor(s)
    ensures Combine(s, f) >= s.storeFloor <==> BaseSignal(s, f) > 0.0
  {
    BaseAllOrNothing(s, f);
    BonusOnlyAdds(s, f);
    if BaseSignal(s, f) > 0.0 {
      RoundedAboveFloor(BaseSignal(s, f), Bonus(s.weights, f), s.storeFloor);
    }
  }

  lemma BonusOnlyAdds(s: Scorer, f: Features)
    requires SignalsClearFloor(s)
    ensures Bonus(s.weights, f) >= 0.0
  {
    Product(s.weights.keywordBonus, Min(|f.keywordHits|, s.weights.maxKeywordHits) as real);
  }

  lemma RoundedAboveFloor(base: real, bonus: real, floor: real)
    requires floor <= base && 0.0 <= bonus && floor <= 1.0 && OnGrid(floor)
    ensures Round4(if base + bonus < 1.0 then base + bonus else 1.0) >= floor
  {
    RoundMonotone(floor, if base + bonus < 1.0 then base + bonus else 1.0);
    RoundOnGrid(floor);
  }

  function Brands(matches: seq<Match>): set<string> {
    set m | m in matches :: m.brand
  }

  /** The issuer alone never decides whether a brand is stored. */
  ghost predicate IssuerStable(s: Scorer) {
    forall raw, i, j :: Brands(Score(s, raw, i, None, None)) == Brands(Score(s, raw, j, None, None))
  }

  /** The issuer decides the bonus, not whether there is a match at all. */
  lemma StoredAlike(s: Scorer, f: Features, dv: bool)
    requires SignalsClearFloor(s)
    ensures Combine(s, f) >= s.storeFloor <==> Combine(s, f.(freeDv := dv)) >= s.storeFloor
  {
    var f' := f.(freeDv := dv);
    assert BaseSignal(s, f) == BaseSignal(s, f') by { SameBase(s, f, f'); }
    FloorIsBaseSignal(s, f);
    FloorIsBaseSignal(s, f');
  }

  lemma SameBase(s: Scorer, f: Features, f': Features)
    requires f' == f.(freeDv := f'.freeDv)
    ensures BaseSignal(s, f) == BaseSignal(s, f')
  {
  }

  lemma BrandsOfOne(s: Scorer, fqdn: string, registered: string, brand: Brand, dv: bool, dv': bool)
    requires SignalsClearFloor(s)
    ensures Brands(ScoreBrand(s, fqdn, registered, brand, s.storeFloor, dv))
         == Brands(ScoreBrand(s, fqdn, registered, brand, s.storeFloor, dv'))
  {
    var m, m' := MatchFor(s, fqdn, registered, brand, dv), MatchFor(s, fqdn, registered, brand, dv');
    assert m.score >= s.storeFloor <==> m'.score >= s.storeFloor by {
      StoredAlike(s, m.features, dv');
    }
    BrandsOfSingle(m);
    BrandsOfSingle(m');
  }

  lemma BrandsOfSingle(m: Match)
    ensures Brands([m]) == {m.brand}
  {
    assert m in [m];
  }

  lemma {:induction false} BrandsOfScore(s: Scorer, fqdn: string, registered: string, brands: seq<Brand>, dv: bool,
                                         dv': bool)
    requires SignalsClearFloor(s)
    ensures Brands(ScoreBrands(s, fqdn, registered, brands, s.storeFloor, dv))
         == Brands(ScoreBrands(s, fqdn, registered, brands, s.storeFloor, dv'))
  {
    if brands != [] {
      BrandsOfScore(s, fqdn, registered, brands[1..], dv, dv');
      BrandsOfOne(s, fqdn, registered, brands[0], dv, dv');
      BrandsConcat(ScoreBrand(s, fqdn, registered, brands[0], s.storeFloor, dv),
                   ScoreBrands(s, fqdn, registered, brands[1..], s.storeFloor, dv));
      BrandsConcat(ScoreBrand(s, fqdn, registered, brands[0], s.storeFloor, dv'),
                   ScoreBrands(s, fqdn, registered, brands[1..], s.storeFloor, dv'));
    }
  }

  lemma BrandsConcat(a: seq<Match>, b: seq<Match>)
    ensures Brands(a + b) == Brands(a) + Brands(b)
  {
    assert forall m :: m in a + b <==> m in a || m in b;
  }

  /** Under the defaults' conditions the free-DV bonus never moves a brand across the storage floor. */
  lemma ClearingMeansStable(s: Scorer)
    requires SignalsClearFloor(s)
    ensures IssuerStable(s)
  {
    forall raw, i, j
      ensures Brands(Score(s, raw, i, None, None)) == Brands(Score(s, raw, j, None, None))
    {
      var fqdn := NormalizeHostname(raw);
      if fqdn.Some? && s.registeredDomain(fqdn.value).Some? {
        BrandsOfScore(s, fqdn.value, s.registeredDomain(fqdn.value).value, s.brands, IsFreeDv(s, i), IsFreeDv(s, j));
      }
    }
  }

  // ------------------------------------------------- what a score list contains

  /** Every match is about the normalised host, and scored as its own features say. */
  lemma {:induction false} ScoreMembers(s: Scorer, fqdn: string, registered: string, brands: seq<Brand>, floor: real,
                                        dv: bool, k: nat)
    requires k < |ScoreBrands(s, fqdn, registered, brands, floor, dv)|
    ensures var m := ScoreBrands(s, fqdn, registered, brands, floor, dv)[k];
            && m.fqdn == fqdn && m.registeredDomain == registered && m.score >= floor
            && m.score == Combine(s, m.features) && m.features.freeDv == dv
            && exists i :: 0 <= i < |brands| && m == MatchFor(s, fqdn, registered, brands[i], dv)
                           && registered !in brands[i].official
  {
    var here := ScoreBrand(s, fqdn, registered, brands[0], floor, dv);
    if k >= |here| {
      ScoreMembers(s, fqdn, registered, brands[1..], floor, dv, k - |here|);
      var m := ScoreBrands(s, fqdn, registered, brands[1..], floor, dv)[k - |here|];
      var i :| 0 <= i < |brands[1..]| && m == MatchFor(s, fqdn, registered, brands[1..][i], dv)
               && registered !in brands[1..][i].official;
      assert brands[1..][i] == brands[i + 1];
    } else {
      assert here == [MatchFor(s, fqdn, registered, brands[0], dv)];
    }
  }

  /** And every brand that qualifies is in it. */
  lemma {:induction false} ScoreComplete(s: Scorer, fqdn: string, registered: string, brands: seq<Brand>, floor: real,
                                         dv: bool, i: nat)
    requires i < |brands| && registered !in brands[i].official
    requires MatchFor(s, fqdn, registered, brands[i], dv).score >= floor
    ensures MatchFor(s, fqdn, registered, brands[i], dv) in ScoreBrands(s, fqdn, registered, brands, floor, dv)
  {
    if i > 0 {
      ScoreComplete(s, fqdn, registered, brands[1..], floor, dv, i - 1);
      assert brands[1..][i - 1] == brands[i];
    }
  }

  lemma CombineOnGrid(s: Scorer, f: Features)
    ensures OnGrid(Combine(s, f))
  {
    assert 0.0 == Units(0);
    if BaseSignal(s, f) > 0.0 {
      var sum := BaseSignal(s, f) + Bonus(s.weights, f);
      RoundOnGrid(if sum < 1.0 then sum else 1.0);
    }
  }

  ghost predicate DistinctNames(brands: seq<Brand>) {
    forall i, j :: 0 <= i < j < |brands| ==> brands[i].name != brands[j].name
  }
}
