/** Recomputing stored Matches (ingest/rescore.py), and why it agrees with ingestion. */
module Rescore {
  import opened Wrappers
  import opened Text
  import opened Rounding
  import opened Scoring
  import opened Certificates
  import opened Store

  datatype ScoreChange = ScoreChange(key: Key, oldScore: real, newScore: real, wasAlert: bool, isAlert: bool,
                                     features: Features)

  datatype RescoreReport = RescoreReport(checked: nat, changes: seq<ScoreChange>, applied: bool)

  /** Which scoring a row needs: the host, the issuer if it is to be trusted, else the free-DV flag to keep. */
  datatype CacheKey = CacheKey(fqdn: string, issuer: Option<string>, freeDv: Option<bool>)

  predicate Lists(domains: seq<string>, name: string) {
    exists i | 0 <= i < |domains| :: Lower(domains[i]) == name
  }

  /** The linked certificate, if there is one and it names this host. */
  predicate NamesHost(certificates: map<string, Certificate>, fqdn: string, cert: string) {
    cert in certificates && (Lists(certificates[cert].domains, fqdn) || Lists(certificates[cert].domains, "*." + fqdn))
  }

  function CacheKeyOf(certificates: map<string, Certificate>, fqdn: string, row: MatchRow): CacheKey {
    if NamesHost(certificates, fqdn, row.cert) then CacheKey(fqdn, certificates[row.cert].issuerOrg, None)
    else CacheKey(fqdn, None, Some(row.features.freeDv))
  }

  /** `{m.brand: m for m in matches}`. */
  function ByBrand(matches: seq<Match>): map<string, Match> {
    if matches == [] then map[]
    else ByBrand(matches[..|matches| - 1])[matches[|matches| - 1].brand := matches[|matches| - 1]]
  }

  /** `scorer.score(fqdn, issuer, floor=0.0, free_dv=free_dv)`. */
  type ScoreAll = CacheKey -> seq<Match>

  /** Every brand's real score, including those below the storage floor. */
  function AtFloorZero(s: Scorer): ScoreAll {
    (key: CacheKey) => Score(s, key.fqdn, key.issuer, Some(0.0), key.freeDv)
  }

  function Current(score: ScoreAll, key: CacheKey): map<string, Match> {
    ByBrand(score(key))
  }

  /** What a row should hold now. */
  function Rescored(brands: map<string, Match>, threshold: real, brand: string, row: MatchRow): MatchRow {
    var found := brand in brands;
    var figure := if found then brands[brand].score else 0.0;
    row.(score := figure, isAlert := figure >= threshold,
         features := if found then brands[brand].features else row.features)
  }

  predicate Differs(old_: MatchRow, new_: MatchRow) {
    !(-0.000000001 <= new_.score - old_.score <= 0.000000001) || new_.isAlert != old_.isAlert
      || new_.features != old_.features
  }

  function NewRow(score: ScoreAll, threshold: real, certificates: map<string, Certificate>, k: Key,
                  row: MatchRow): MatchRow {
    Rescored(Current(score, CacheKeyOf(certificates, k.fqdn, row)), threshold, k.brand, row)
  }

  function ChangeOf(k: Key, row: MatchRow, next: MatchRow): ScoreChange {
    ScoreChange(k, row.score, next.score, row.isAlert, next.isAlert, next.features)
  }

  /** The row after applying: replaced only if it differs. */
  function Updated(score: ScoreAll, threshold: real, certificates: map<string, Certificate>, k: Key,
                   row: MatchRow): MatchRow {
    var next := NewRow(score, threshold, certificates, k, row);
    if Differs(row, next) then next else row
  }

  function RescoreDb(db: Db, score: ScoreAll, threshold: real): Db {
    db.(matches := map k | k in db.matches :: Updated(score, threshold, db.certificates, k, db.matches[k]))
  }

  /** The keys whose rows a run would change. */
  function Stale(db: Db, score: ScoreAll, threshold: real): set<Key> {
    set k | k in db.matches && Differs(db.matches[k], NewRow(score, threshold, db.certificates, k, db.matches[k]))
  }

  ghost predicate CacheSound(score: ScoreAll, cache: map<CacheKey, map<string, Match>>) {
    forall c :: c in cache ==> cache[c] == Current(score, c)
  }

  ghost predicate ReportsExactly(db: Db, score: ScoreAll, threshold: real, keys: seq<Key>, changes: seq<ScoreChange>) {
    && (forall c :: c in changes ==>
          && c.key in keys && c.key in Stale(db, score, threshold)
          && c == ChangeOf(c.key, db.matches[c.key],
                           NewRow(score, threshold, db.certificates, c.key, db.matches[c.key])))
    && (forall k :: k in keys && k in Stale(db, score, threshold) ==> exists c :: c in changes && c.key == k)
    && OncePerKey(changes)
  }

  ghost predicate OncePerKey(changes: seq<ScoreChange>) {
    forall i, j :: 0 <= i < j < |changes| ==> changes[i].key != changes[j].key
  }

  /** The scoring loop and its cache. */
  method FindChanges(ghost db: Db, certificates: map<string, Certificate>, matches: map<Key, MatchRow>,
                     score: ScoreAll, threshold: real)
    returns (keys: seq<Key>, changes: seq<ScoreChange>)
    requires db.certificates == certificates && db.matches == matches
    ensures Distinct(keys) && Elements(keys) == matches.Keys
    ensures ReportsExactly(db, score, threshold, keys, changes)
  {
    keys := Listed(matches.Keys);
    changes := [];
    var current: map<CacheKey, map<string, Match>> := map[];
    for i := 0 to |keys|
      invariant CacheSound(score, current)
      invariant ReportsExactly(db, score, threshold, keys[..i], changes)
    {
      var k := keys[i];
      assert k in Elements(keys) && keys[..i + 1] == keys[..i] + [k];
      var c := CacheKeyOf(certificates, k.fqdn, matches[k]);
      if c !in current {
        current := current[c := ByBrand(score(c))];
      }
      var next := Rescored(current[c], threshold, k.brand, matches[k]);
      if Differs(matches[k], next) {
        ghost var before := changes;
        changes := changes + [ChangeOf(k, matches[k], next)];
        assert changes[|before|].key == k;
        assert forall x :: x in changes <==> x in before || x == ChangeOf(k, matches[k], next);
      }
    }
    assert keys[..|keys|] == keys;
  }

  /** `rescore`: a dry run unless asked to apply. */
  method RescoreMatches(store: MatchStore, score: ScoreAll, threshold: real, apply: bool)
    returns (report: RescoreReport)
    modifies store
    ensures report.checked == |old(store.matches)| && report.applied == apply
    ensures ReportsAll(old(store.Snapshot()), score, threshold, report.changes)
    ensures |report.changes| == |Stale(old(store.Snapshot()), score, threshold)|
    ensures store.Snapshot() == if apply then RescoreDb(old(store.Snapshot()), score, threshold)
                                else old(store.Snapshot())
  {
    ghost var db := store.Snapshot();
    var keys, changes := FindChanges(db, store.certificates, store.matches, score, threshold);
    DistinctSize(keys);
    report := RescoreReport(|keys|, changes, apply);
    assert ReportsAll(db, score, threshold, changes) by {
      assert forall k :: k in Stale(db, score, threshold) ==> k in Elements(keys);
    }
    AsManyAsStale(db, score, threshold, changes);
    if apply {
      ChangesLeadTo(db, score, threshold, changes);
      ApplyChanges(store, changes, RescoreDb(db, score, threshold).matches);
    }
  }

  /** Overwriting each changed row, and no other, turns one table into the other. */
  ghost predicate LeadsTo(from: map<Key, MatchRow>, goal: map<Key, MatchRow>, changes: seq<ScoreChange>) {
    && from.Keys == goal.Keys
    && (forall c :: c in changes ==> c.key in from && goal[c.key] == Overwritten(from[c.key], c))
    && (forall k :: k in from && from[k] != goal[k] ==> exists j :: 0 <= j < |changes| && changes[j].key == k)
  }

  function Overwritten(row: MatchRow, c: ScoreChange): MatchRow {
    row.(score := c.newScore, isAlert := c.isAlert, features := c.features)
  }

  lemma ChangesLeadTo(db: Db, score: ScoreAll, threshold: real, changes: seq<ScoreChange>)
    requires ReportsAll(db, score, threshold, changes)
    ensures LeadsTo(db.matches, RescoreDb(db, score, threshold).matches, changes)
  {
    var goal := RescoreDb(db, score, threshold).matches;
    forall k | k in db.matches && db.matches[k] != goal[k]
      ensures exists j :: 0 <= j < |changes| && changes[j].key == k
    {
      assert k in Stale(db, score, threshold);
      var c :| c in changes && c.key == k;
      var j :| 0 <= j < |changes| && changes[j] == c;
    }
  }

  /** Part way there: every row is as it was or as it will be, and those already named are as they will be. */
  ghost predicate Underway(from: map<Key, MatchRow>, goal: map<Key, MatchRow>, now: map<Key, MatchRow>,
                           changes: seq<ScoreChange>, n: nat)
    requires n <= |changes|
  {
    && from.Keys == goal.Keys == now.Keys
    && (forall k :: k in now ==> now[k] == from[k] || now[k] == goal[k])
    && (forall j :: 0 <= j < n && changes[j].key in now ==> now[changes[j].key] == goal[changes[j].key])
  }

  lemma Arrived(from: map<Key, MatchRow>, goal: map<Key, MatchRow>, now: map<Key, MatchRow>, changes: seq<ScoreChange>)
    requires LeadsTo(from, goal, changes) && Underway(from, goal, now, changes, |changes|)
    ensures now == goal
  {
    forall k | k in now
      ensures now[k] == goal[k]
    {
      if from[k] != goal[k] {
        var j :| 0 <= j < |changes| && changes[j].key == k;
      }
    }
  }

  /** The UPDATE statements, one change after another. */
  method ApplyChanges(store: MatchStore, changes: seq<ScoreChange>, ghost goal: map<Key, MatchRow>)
    requires LeadsTo(store.matches, goal, changes)
    modifies store`matches
    ensures store.matches == goal
  {
    ghost var from := store.matches;
    for i := 0 to |changes|
      invariant Underway(from, goal, store.matches, changes, i)
    {
      var c := changes[i];
      assert c in changes;
      store.matches := store.matches[c.key := Overwritten(store.matches[c.key], c)];
      assert store.matches[c.key] == goal[c.key];
    }
    Arrived(from, goal, store.matches, changes);
  }

  /** The report names every stale row once, with its new figures, and nothing else. */
  ghost predicate ReportsAll(db: Db, score: ScoreAll, threshold: real, changes: seq<ScoreChange>) {
    && (forall c :: c in changes ==>
          && c.key in Stale(db, score, threshold)
          && c == ChangeOf(c.key, db.matches[c.key],
                           NewRow(score, threshold, db.certificates, c.key, db.matches[c.key])))
    && (forall k :: k in Stale(db, score, threshold) ==> exists c :: c in changes && c.key == k)
    && OncePerKey(changes)
  }

  function KeysReported(changes: seq<ScoreChange>): (keys: seq<Key>)
    ensures |keys| == |changes| && forall i :: 0 <= i < |keys| ==> keys[i] == changes[i].key
  {
    seq(|changes|, i requires 0 <= i < |changes| => changes[i].key)
  }

  lemma ReportedKey(changes: seq<ScoreChange>, k: Key)
    ensures k in KeysReported(changes) <==> exists c :: c in changes && c.key == k
  {
    if c :| c in changes && c.key == k {
      var i :| 0 <= i < |changes| && changes[i] == c;
      assert KeysReported(changes)[i] == k;
    }
    if k in KeysReported(changes) {
      var i :| 0 <= i < |changes| && KeysReported(changes)[i] == k;
      assert changes[i] in changes;
    }
  }

  /** Each stale row is reported once, so there are as many changes as there are stale rows. */
  lemma AsManyAsStale(db: Db, score: ScoreAll, threshold: real, changes: seq<ScoreChange>)
    requires ReportsAll(db, score, threshold, changes)
    ensures |changes| == |Stale(db, score, threshold)|
  {
    var keys, stale := KeysReported(changes), Stale(db, score, threshold);
    DistinctSize(keys);
    forall k ensures k in Elements(keys) <==> k in stale {
      ReportedKey(changes, k);
    }
    assert Elements(keys) == stale;
  }

  // ------------------------------------------------- rescoring what ingestion wrote

  /** The row is the scorer's own output for a name that normalises to the stored one. */
  ghost predicate ScoredAs(s: Scorer, threshold: real, k: Key, row: MatchRow, issuer: Option<string>, raw: string) {
    && NormalizeHostname(raw) == Some(k.fqdn)
    && row.isAlert == (row.score >= threshold)
    && Match(k.fqdn, row.registeredDomain, k.brand, row.score, row.features) in Score(s, raw, issuer, None, None)
  }

  /** Every row came from this scorer, and its certificate row names the issuer it was scored with. */
  ghost predicate FromScorer(s: Scorer, threshold: real, db: Db) {
    forall k :: k in db.matches ==>
      exists issuer, raw ::
        && ScoredAs(s, threshold, k, db.matches[k], issuer, raw)
        && (db.matches[k].cert in db.certificates ==> db.certificates[db.matches[k].cert].issuerOrg == issuer)
  }

  ghost predicate NamesAreNormal(db: Db) {
    forall k :: k in db.matches ==> NormalizeHostname(k.fqdn) == Some(k.fqdn)
  }

  ghost predicate DistinctBrands(matches: seq<Match>) {
    forall j, k :: 0 <= j < k < |matches| ==> matches[j].brand != matches[k].brand
  }

  lemma {:induction false} ByBrandFinds(matches: seq<Match>, i: nat)
    requires i < |matches| && DistinctBrands(matches)
    ensures matches[i].brand in ByBrand(matches) && ByBrand(matches)[matches[i].brand] == matches[i]
  {
    if i < |matches| - 1 {
      ByBrandFinds(matches[..|matches| - 1], i);
    }
  }

  lemma {:induction false} ScoreBrandsDistinct(s: Scorer, fqdn: string, registered: string, brands: seq<Brand>,
                                               floor: real, dv: bool)
    requires DistinctNames(brands)
    ensures DistinctBrands(ScoreBrands(s, fqdn, registered, brands, floor, dv))
  {
    if brands != [] {
      var here, rest := ScoreBrand(s, fqdn, registered, brands[0], floor, dv),
                        ScoreBrands(s, fqdn, registered, brands[1..], floor, dv);
      ScoreBrandsDistinct(s, fqdn, registered, brands[1..], floor, dv);
      forall k | 0 <= k < |rest|
        ensures rest[k].brand != brands[0].name
      {
        ScoreMembers(s, fqdn, registered, brands[1..], floor, dv, k);
        var i :| 0 <= i < |brands[1..]| && rest[k] == MatchFor(s, fqdn, registered, brands[1..][i], dv)
                 && registered !in brands[1..][i].official;
        assert brands[1..][i] == brands[i + 1];
      }
      OneMoreBrand(here, rest, brands[0].name);
    }
  }

  lemma OneMoreBrand(here: seq<Match>, rest: seq<Match>, name: string)
    requires |here| <= 1 && (forall k :: 0 <= k < |here| ==> here[k].brand == name)
    requires DistinctBrands(rest) && forall k :: 0 <= k < |rest| ==> rest[k].brand != name
    ensures DistinctBrands(here + rest)
  {
    assert forall k :: |here| <= k < |here + rest| ==> (here + rest)[k] == rest[k - |here|];
  }

  /** A match found at the storage floor is found again at floor 0, under the same free-DV flag. */
  lemma FoundAgain(s: Scorer, fqdn: string, registered: string, dv: bool, m: Match)
    requires DistinctNames(s.brands) && s.storeFloor >= 0.0
    requires m in ScoreBrands(s, fqdn, registered, s.brands, s.storeFloor, dv)
    ensures m.features.freeDv == dv
    ensures var found := ByBrand(ScoreBrands(s, fqdn, registered, s.brands, 0.0, dv));
            m.brand in found && found[m.brand] == m
  {
    var stored, again := ScoreBrands(s, fqdn, registered, s.brands, s.storeFloor, dv),
                         ScoreBrands(s, fqdn, registered, s.brands, 0.0, dv);
    var k :| 0 <= k < |stored| && stored[k] == m;
    ScoreMembers(s, fqdn, registered, s.brands, s.storeFloor, dv, k);
    var i :| 0 <= i < |s.brands| && m == MatchFor(s, fqdn, registered, s.brands[i], dv)
             && registered !in s.brands[i].official;
    ScoreComplete(s, fqdn, registered, s.brands, 0.0, dv, i);
    var j :| 0 <= j < |again| && again[j] == m;
    ScoreBrandsDistinct(s, fqdn, registered, s.brands, 0.0, dv);
    ByBrandFinds(again, j);
  }

  /** The free-DV flag `rescore` scores a row with. */
  function FlagOf(s: Scorer, key: CacheKey): bool {
    if key.freeDv.Some? then key.freeDv.value else IsFreeDv(s, key.issuer)
  }

  lemma ScoredMember(s: Scorer, threshold: real, k: Key, row: MatchRow, issuer: Option<string>, raw: string)
    requires ScoredAs(s, threshold, k, row, issuer, raw)
    ensures s.registeredDomain(k.fqdn).Some?
    ensures Match(k.fqdn, row.registeredDomain, k.brand, row.score, row.features)
         in ScoreBrands(s, k.fqdn, s.registeredDomain(k.fqdn).value, s.brands, s.storeFloor, IsFreeDv(s, issuer))
  {
  }

  lemma ScoreIs(s: Scorer, fqdn: string, issuer: Option<string>, floor: real, freeDv: Option<bool>)
    requires NormalizeHostname(fqdn) == Some(fqdn) && s.registeredDomain(fqdn).Some?
    ensures Score(s, fqdn, issuer, Some(floor), freeDv)
         == ScoreBrands(s, fqdn, s.registeredDomain(fqdn).value, s.brands, floor,
                        if freeDv.Some? then freeDv.value else IsFreeDv(s, issuer))
  {
  }

  lemma CurrentUnfolds(s: Scorer, key: CacheKey)
    ensures Current(AtFloorZero(s), key) == ByBrand(Score(s, key.fqdn, key.issuer, Some(0.0), key.freeDv))
  {
  }

  lemma CurrentIs(s: Scorer, key: CacheKey)
    requires NormalizeHostname(key.fqdn) == Some(key.fqdn) && s.registeredDomain(key.fqdn).Some?
    ensures Current(AtFloorZero(s), key)
         == ByBrand(ScoreBrands(s, key.fqdn, s.registeredDomain(key.fqdn).value, s.brands, 0.0, FlagOf(s, key)))
  {
    CurrentUnfolds(s, key);
    ScoreIs(s, key.fqdn, key.issuer, 0.0, key.freeDv);
  }

  /** A stored row is found again under any key that scores its host with the same free-DV flag. */
  lemma ScoredAgain(s: Scorer, threshold: real, k: Key, row: MatchRow, issuer: Option<string>, raw: string,
                    key: CacheKey)
    requires ScoredAs(s, threshold, k, row, issuer, raw) && NormalizeHostname(k.fqdn) == Some(k.fqdn)
    requires DistinctNames(s.brands) && s.storeFloor >= 0.0
    ensures row.features.freeDv == IsFreeDv(s, issuer)
    ensures key.fqdn == k.fqdn && FlagOf(s, key) == IsFreeDv(s, issuer) ==>
              var found := Current(AtFloorZero(s), key);
              k.brand in found && found[k.brand].score == row.score && found[k.brand].features == row.features
  {
    ScoredMember(s, threshold, k, row, issuer, raw);
    FoundAgain(s, k.fqdn, s.registeredDomain(k.fqdn).value, IsFreeDv(s, issuer),
               Match(k.fqdn, row.registeredDomain, k.brand, row.score, row.features));
    if key.fqdn == k.fqdn {
      CurrentIs(s, key);
    }
  }

  lemma RowAgrees(s: Scorer, threshold: real, certificates: map<string, Certificate>, k: Key, row: MatchRow,
                  issuer: Option<string>, raw: string)
    requires ScoredAs(s, threshold, k, row, issuer, raw) && NormalizeHostname(k.fqdn) == Some(k.fqdn)
    requires row.cert in certificates ==> certificates[row.cert].issuerOrg == issuer
    requires DistinctNames(s.brands) && s.storeFloor >= 0.0
    ensures NewRow(AtFloorZero(s), threshold, certificates, k, row) == row
  {
    var key := CacheKeyOf(certificates, k.fqdn, row);
    ScoredAgain(s, threshold, k, row, issuer, raw, key);
    KeyKeepsFlag(s, certificates, k.fqdn, row, issuer);
    FoundStays(Current(AtFloorZero(s), key), threshold, k.brand, row);
  }

  /** The key asks for the free-DV flag the row has, by its certificate's issuer or outright. */
  lemma KeyKeepsFlag(s: Scorer, certificates: map<string, Certificate>, fqdn: string, row: MatchRow,
                     issuer: Option<string>)
    requires row.cert in certificates ==> certificates[row.cert].issuerOrg == issuer
    requires row.features.freeDv == IsFreeDv(s, issuer)
    ensures CacheKeyOf(certificates, fqdn, row).fqdn == fqdn
    ensures FlagOf(s, CacheKeyOf(certificates, fqdn, row)) == row.features.freeDv
  {
  }

  lemma FoundStays(found: map<string, Match>, threshold: real, brand: string, row: MatchRow)
    requires row.isAlert == (row.score >= threshold)
    requires brand in found && found[brand].score == row.score && found[brand].features == row.features
    ensures Rescored(found, threshold, brand, row) == row
  {
  }

  /** An unchanged configuration changes nothing: rescoring agrees with ingestion row by row. */
  lemma RescoreAgreesWithIngestion(s: Scorer, threshold: real, db: Db)
    requires FromScorer(s, threshold, db) && NamesAreNormal(db)
    requires DistinctNames(s.brands) && s.storeFloor >= 0.0
    ensures Stale(db, AtFloorZero(s), threshold) == {}
    ensures RescoreDb(db, AtFloorZero(s), threshold) == db
  {
    forall k | k in db.matches
      ensures NewRow(AtFloorZero(s), threshold, db.certificates, k, db.matches[k]) == db.matches[k]
    {
      var row := db.matches[k];
      var issuer, raw :| ScoredAs(s, threshold, k, row, issuer, raw)
        && (row.cert in db.certificates ==> db.certificates[row.cert].issuerOrg == issuer);
      RowAgrees(s, threshold, db.certificates, k, row, issuer, raw);
    }
    NothingDiffers(db, AtFloorZero(s), threshold);
  }

  lemma NothingDiffers(db: Db, score: ScoreAll, threshold: real)
    requires forall k ::
              k in db.matches ==> NewRow(score, threshold, db.certificates, k, db.matches[k]) == db.matches[k]
    ensures Stale(db, score, threshold) == {} && RescoreDb(db, score, threshold) == db
  {
    assert RescoreDb(db, score, threshold).matches == db.matches;
  }

  /** Equal certificate keys mean equal issuers, within the table, within the batch and across the two. */
  ghost predicate KeysNameIssuers(db: Db, rows: seq<Sighting>) {
    && (forall c :: c in db.certificates ==> db.certificates[c].sha256 == c)
    && (forall i, j :: 0 <= i < |rows| && 0 <= j < |rows| && rows[i].cert.sha256 == rows[j].cert.sha256 ==>
          rows[i].cert.issuerOrg == rows[j].cert.issuerOrg)
    && (forall i :: 0 <= i < |rows| && rows[i].cert.sha256 in db.certificates ==>
          db.certificates[rows[i].cert.sha256].issuerOrg == rows[i].cert.issuerOrg)
    && (forall k, i :: k in db.matches && 0 <= i < |rows| && db.matches[k].cert == rows[i].cert.sha256 ==>
          db.matches[k].cert in db.certificates)
  }

  /** Rows as the pipeline buffers them: the scorer's matches for some raw name on that certificate. */
  ghost predicate ScorerRow(s: Scorer, row: Sighting) {
    exists raw ::
      NormalizeHostname(raw) == Some(row.found.fqdn) && row.found in Score(s, raw, row.cert.issuerOrg, None, None)
  }

  ghost predicate ScorerRows(s: Scorer, rows: seq<Sighting>) {
    forall i :: 0 <= i < |rows| ==> ScorerRow(s, rows[i])
  }

  lemma {:induction false} FirstsAreRows(rows: seq<Sighting>, n: nat, r: Sighting)
    requires n <= |rows| && r in Firsts(rows, n)
    ensures r in rows
  {
    if r !in Firsts(rows, n - 1) {
      assert r == rows[n - 1];
    } else {
      FirstsAreRows(rows, n - 1, r);
    }
  }

  lemma {:induction false} BatchCertificateFrom(rows: seq<Sighting>, c: string) returns (i: nat)
    requires c in BatchCertificates(rows)
    ensures i < |rows| && rows[i].cert.sha256 == c && BatchCertificates(rows)[c] == rows[i].cert
  {
    if rows == [] {
      assert false;
    } else if rows[|rows| - 1].cert.sha256 == c {
      i := |rows| - 1;
    } else {
      i := BatchCertificateFrom(rows[..|rows| - 1], c);
    }
  }

  lemma CertificateAfterWrite(db: Db, threshold: real, rows: seq<Sighting>, c: string)
    requires KeysNameIssuers(db, rows) && rows != [] && c in WriteRows(db, threshold, rows).certificates
    ensures c in db.certificates ==> WriteRows(db, threshold, rows).certificates[c] == db.certificates[c]
    ensures c !in db.certificates ==> exists i ::
              0 <= i < |rows| && rows[i].cert == WriteRows(db, threshold, rows).certificates[c]
                                                  && rows[i].cert.sha256 == c
  {
    if c !in db.certificates {
      var firsts := Firsts(rows, |rows|);
      var i := BatchCertificateFrom(firsts, c);
      FirstsAreRows(rows, |rows|, firsts[i]);
      var j :| 0 <= j < |rows| && rows[j] == firsts[i];
    }
  }

  /** Writing a batch of the scorer's rows keeps the table the scorer's. */
  lemma WriteKeepsFromScorer(s: Scorer, threshold: real, db: Db, rows: seq<Sighting>)
    requires FromScorer(s, threshold, db) && ScorerRows(s, rows) && KeysNameIssuers(db, rows) && CertificatesPresent(db)
    ensures FromScorer(s, threshold, WriteRows(db, threshold, rows))
  {
    var after := WriteRows(db, threshold, rows);
    if rows != [] {
      forall k | k in after.matches
        ensures exists issuer, raw ::
          && ScoredAs(s, threshold, k, after.matches[k], issuer, raw)
          && (after.matches[k].cert in after.certificates ==>
                after.certificates[after.matches[k].cert].issuerOrg == issuer)
      {
        InsertKeeps(db.matches, threshold, rows);
        if k in db.matches {
          OldRowStays(s, threshold, db, rows, k);
        } else {
          var i := InsertedFrom(db.matches, threshold, rows, k);
          assert ScorerRow(s, rows[i]);
          var raw :| NormalizeHostname(raw) == Some(rows[i].found.fqdn)
                     && rows[i].found in Score(s, raw, rows[i].cert.issuerOrg, None, None);
          NewRowScored(s, threshold, db, rows, k, i, raw);
        }
      }
    }
  }

  lemma OldRowStays(s: Scorer, threshold: real, db: Db, rows: seq<Sighting>, k: Key)
    requires FromScorer(s, threshold, db) && KeysNameIssuers(db, rows) && CertificatesPresent(db) && rows != []
    requires k in db.matches
    ensures var after := WriteRows(db, threshold, rows);
            k in after.matches && exists issuer, raw ::
              && ScoredAs(s, threshold, k, after.matches[k], issuer, raw)
              && (after.matches[k].cert in after.certificates ==>
                    after.certificates[after.matches[k].cert].issuerOrg == issuer)
  {
    var after := WriteRows(db, threshold, rows);
    InsertKeeps(db.matches, threshold, rows);
    var row := db.matches[k];
    var issuer, raw :| ScoredAs(s, threshold, k, row, issuer, raw)
      && (row.cert in db.certificates ==> db.certificates[row.cert].issuerOrg == issuer);
    CertificateAfterWrite(db, threshold, rows, row.cert);
    assert ScoredAs(s, threshold, k, after.matches[k], issuer, raw);
  }

  lemma NewRowScored(s: Scorer, threshold: real, db: Db, rows: seq<Sighting>, k: Key, i: nat, raw: string)
    requires KeysNameIssuers(db, rows) && i < |rows| && KeyOf(rows[i]) == k
    requires k in InsertMatches(db.matches, threshold, rows)
    requires InsertMatches(db.matches, threshold, rows)[k] == RowOf(threshold, rows[i])
    requires NormalizeHostname(raw) == Some(rows[i].found.fqdn)
    requires rows[i].found in Score(s, raw, rows[i].cert.issuerOrg, None, None)
    ensures var after := WriteRows(db, threshold, rows);
            && ScoredAs(s, threshold, k, after.matches[k], rows[i].cert.issuerOrg, raw)
            && (after.matches[k].cert in after.certificates ==>
                  after.certificates[after.matches[k].cert].issuerOrg == rows[i].cert.issuerOrg)
  {
    var after := WriteRows(db, threshold, rows);
    var c := rows[i].cert.sha256;
    assert after.matches[k].cert == c;
    if c in after.certificates {
      CertificateAfterWrite(db, threshold, rows, c);
    }
    var m := rows[i].found;
    assert m == Match(k.fqdn, m.registeredDomain, k.brand, m.score, m.features);
  }

  // ------------------------------------------------- rescoring twice

  /** Stored scores are whole ten-thousandths, as `_combine` rounds them. */
  ghost predicate GridScores(db: Db) {
    forall k :: k in db.matches ==> OnGrid(db.matches[k].score)
  }

  lemma {:induction false} ByBrandFrom(matches: seq<Match>, b: string) returns (i: nat)
    requires b in ByBrand(matches)
    ensures i < |matches| && matches[i].brand == b && ByBrand(matches)[b] == matches[i]
  {
    if matches == [] {
      assert false;
    } else if matches[|matches| - 1].brand == b {
      i := |matches| - 1;
    } else {
      i := ByBrandFrom(matches[..|matches| - 1], b);
    }
  }

  /** Scores are rounded, and a free-DV flag stated outright is the one that comes back. */
  ghost predicate Sound(score: ScoreAll) {
    forall key, b :: b in Current(score, key) ==>
      && OnGrid(Current(score, key)[b].score)
      && (key.freeDv.Some? ==> Current(score, key)[b].features.freeDv == key.freeDv.value)
  }

  lemma ScorerIsSound(s: Scorer)
    ensures Sound(AtFloorZero(s))
  {
    forall key, b | b in Current(AtFloorZero(s), key)
      ensures OnGrid(Current(AtFloorZero(s), key)[b].score)
      ensures key.freeDv.Some? ==> Current(AtFloorZero(s), key)[b].features.freeDv == key.freeDv.value
    {
      var found := Score(s, key.fqdn, key.issuer, Some(0.0), key.freeDv);
      var i := ByBrandFrom(found, b);
      var fqdn := NormalizeHostname(key.fqdn).value;
      ScoreMembers(s, fqdn, s.registeredDomain(fqdn).value, s.brands, 0.0,
                   if key.freeDv.Some? then key.freeDv.value else IsFreeDv(s, key.issuer), i);
      CombineOnGrid(s, found[i].features);
    }
  }

  /** Applying does not change what a row should hold. */
  lemma SecondRunKeeps(score: ScoreAll, threshold: real, certificates: map<string, Certificate>, k: Key, row: MatchRow)
    requires Sound(score)
    ensures var next := Updated(score, threshold, certificates, k, row);
            !Differs(next, NewRow(score, threshold, certificates, k, next))
  {
    var next := Updated(score, threshold, certificates, k, row);
    assert CacheKeyOf(certificates, k.fqdn, next) == CacheKeyOf(certificates, k.fqdn, row);
  }

  lemma AlertsFollowScores(score: ScoreAll, threshold: real, certificates: map<string, Certificate>, k: Key,
                           row: MatchRow)
    requires Sound(score) && OnGrid(row.score)
    ensures var next := Updated(score, threshold, certificates, k, row);
            OnGrid(next.score) && next.isAlert == (next.score >= threshold)
  {
    var next := NewRow(score, threshold, certificates, k, row);
    assert 0.0 == Units(0);
    if !Differs(row, next) { GridGap(row.score, next.score); }
  }

  /** Whatever the scorer, applying once is enough; no row comes or goes, and alerts follow scores. */
  lemma RescoreSettles(score: ScoreAll, threshold: real, db: Db)
    requires Sound(score)
    ensures var after := RescoreDb(db, score, threshold);
            && Stale(after, score, threshold) == {}
            && after.matches.Keys == db.matches.Keys
            && (GridScores(db) ==>
                  && GridScores(after)
                  && forall k :: k in after.matches ==>
                       after.matches[k].isAlert == (after.matches[k].score >= threshold))
  {
    var after := RescoreDb(db, score, threshold);
    forall k | k in db.matches
      ensures !Differs(after.matches[k], NewRow(score, threshold, db.certificates, k, after.matches[k]))
      ensures OnGrid(db.matches[k].score) ==>
                OnGrid(after.matches[k].score) && after.matches[k].isAlert == (after.matches[k].score >= threshold)
    {
      SecondRunKeeps(score, threshold, db.certificates, k, db.matches[k]);
      if OnGrid(db.matches[k].score) { AlertsFollowScores(score, threshold, db.certificates, k, db.matches[k]); }
    }
  }

  lemma WriteKeepsGrid(s: Scorer, threshold: real, db: Db, rows: seq<Sighting>)
    requires GridScores(db) && ScorerRows(s, rows)
    ensures GridScores(WriteRows(db, threshold, rows))
  {
    var after := WriteRows(db, threshold, rows);
    forall k | k in after.matches
      ensures OnGrid(after.matches[k].score)
    {
      InsertKeeps(db.matches, threshold, rows);
      if k !in db.matches {
        var i := InsertedFrom(db.matches, threshold, rows, k);
        var m := rows[i].found;
        assert ScorerRow(s, rows[i]);
        var raw :| NormalizeHostname(raw) == Some(m.fqdn) && m in Score(s, raw, rows[i].cert.issuerOrg, None, None);
        var found := Score(s, raw, rows[i].cert.issuerOrg, None, None);
        var j :| 0 <= j < |found| && found[j] == m;
        ScoreMembers(s, m.fqdn, s.registeredDomain(m.fqdn).value, s.brands, s.storeFloor,
                     IsFreeDv(s, rows[i].cert.issuerOrg), j);
        CombineOnGrid(s, m.features);
      }
    }
  }

  // ------------------------------------------------- when a stored name normalises to itself

  lemma {:induction false} DropDotsEnds(s: string)
    ensures DropDots(s) <= s && (DropDots(s) == "" || DropDots(s)[|DropDots(s)| - 1] != '.')
    ensures s != "" && s[|s| - 1] != '.' ==> DropDots(s) == s
  {
    if s != "" && s[|s| - 1] == '.' { DropDotsEnds(s[..|s| - 1]); }
  }

  predicate Lowered(s: string) {
    forall i :: 0 <= i < |s| ==> LowerChar(s[i]) == s[i]
  }

  lemma LowerIsLowered(s: string)
    ensures Lowered(Lower(s))
  {
    assert forall c: char :: LowerChar(LowerChar(c)) == LowerChar(c);
  }

  lemma LoweredStays(s: string)
    requires Lowered(s)
    ensures Lower(s) == s && Lowered(DropWildcard(s)) && Lowered(DropDots(s))
  {
    DropDotsEnds(s);
  }

  lemma TrimmedShape(lowered: string)
    requires Lowered(lowered) && DropDots(DropWildcard(lowered)) != ""
    ensures var h := DropDots(DropWildcard(lowered)); h[|h| - 1] != '.' && Lower(h) == h
  {
    LoweredStays(lowered);
    LoweredStays(DropWildcard(lowered));
    DropDotsEnds(DropWildcard(lowered));
    LoweredStays(DropDots(DropWildcard(lowered)));
  }

  lemma StripShorter(s: string)
    ensures |Strip(s)| <= |s|
  {
  }

  lemma NormalExactly(h: string)
    requires h != "" && h[|h| - 1] != '.' && Lower(h) == h
    ensures NormalizeHostname(h) == Some(h) <==> !("*." <= h) && Strip(h) == h
  {
    StripShorter(h);
    DropDotsEnds(DropWildcard(Lower(Strip(h))));
    assert |DropWildcard(Lower(Strip(h)))| <= |Strip(h)|;
  }

  /** A name the scorer stored normalises to itself exactly when no wildcard and no outer white space was left in it. */
  lemma NormalAgainIff(raw: string)
    requires NormalizeHostname(raw).Some?
    ensures var h := NormalizeHostname(raw).value;
            NormalizeHostname(h) == Some(h) <==> !("*." <= h) && !IsSpace(h[0]) && !IsSpace(h[|h| - 1])
  {
    NormalShape(raw);
    NormalExactly(NormalizeHostname(raw).value);
    StripClean(NormalizeHostname(raw).value);
  }

  lemma NormalShape(raw: string)
    requires NormalizeHostname(raw).Some?
    ensures var h := NormalizeHostname(raw).value; h != "" && h[|h| - 1] != '.' && Lower(h) == h
  {
    var stripped := Strip(raw);
    NormalizedFrom(raw, stripped);
    LoweredShape(stripped);
  }

  lemma NormalizedFrom(raw: string, stripped: string)
    requires stripped == Strip(raw) && NormalizeHostname(raw).Some?
    ensures NormalizeHostname(raw).value == DropDots(DropWildcard(Lower(stripped)))
  {
  }

  lemma LoweredShape(stripped: string)
    requires DropDots(DropWildcard(Lower(stripped))) != ""
    ensures var h := DropDots(DropWildcard(Lower(stripped))); h[|h| - 1] != '.' && Lower(h) == h
  {
    LowerIsLowered(stripped);
    TrimmedShape(Lower(stripped));
  }

  /** No wildcard and no outer white space. */
  predicate Clean(h: string) {
    h != "" && !("*." <= h) && !IsSpace(h[0]) && !IsSpace(h[|h| - 1])
  }

  /** A name with nothing to strip or lower. */
  lemma NormalizeAsIs(s: string)
    requires s != "" && !IsSpace(s[0]) && !IsSpace(s[|s| - 1]) && Lowered(s) && DropDots(DropWildcard(s)) != ""
    ensures NormalizeHostname(s) == Some(DropDots(DropWildcard(s)))
  {
    StripClean(s);
    LoweredStays(s);
  }

  /** Only one wildcard is taken off: a name with two is stored under one that would be looked up as another. */
  lemma TwoWildcards()
    ensures NormalizeHostname("*.*.a") == Some("*.a") && NormalizeHostname("*.a") == Some("a")
  {
    assert "*.*.a"[2..] == "*.a" && "*.a"[2..] == "a";
    assert DropDots("*.a") == "*.a" && DropDots("a") == "a";
    NormalizeAsIs("*.*.a");
    NormalizeAsIs("*.a");
  }

  // ------------------------------------------------- exactly which rows an unchanged configuration reports

  /** A row says what its name, normalised once more, scores at floor 0 under the free-DV flag it was stored with. */
  ghost predicate Restates(s: Scorer, k: Key, row: MatchRow) {
    RestatedBy(Score(s, k.fqdn, None, Some(0.0), Some(row.features.freeDv)), k.brand, row)
  }

  ghost predicate RestatedBy(found: seq<Match>, brand: string, row: MatchRow) {
    if exists m :: m in found && m.brand == brand then
      exists m :: m in found && m.brand == brand && m.score == row.score && m.features == row.features
    else row.score == 0.0
  }

  /** Of distinct brands, the dictionary holds the one match there is. */
  lemma ByBrandHolds(found: seq<Match>, brand: string, row: MatchRow)
    requires DistinctBrands(found)
    ensures RestatedBy(found, brand, row) <==>
              if brand in ByBrand(found)
              then ByBrand(found)[brand].score == row.score && ByBrand(found)[brand].features == row.features
              else row.score == 0.0
  {
    forall m | m in found
      ensures m.brand in ByBrand(found) && ByBrand(found)[m.brand] == m
    {
      var i :| 0 <= i < |found| && found[i] == m;
      ByBrandFinds(found, i);
    }
    if brand in ByBrand(found) {
      var i := ByBrandFrom(found, brand);
      assert found[i] in found && found[i].brand == brand;
    }
  }

  lemma ScoredDistinct(s: Scorer, fqdn: string, issuer: Option<string>, floor: Option<real>, freeDv: Option<bool>)
    requires DistinctNames(s.brands)
    ensures DistinctBrands(Score(s, fqdn, issuer, floor, freeDv))
  {
    var name := NormalizeHostname(fqdn);
    if name.Some? && s.registeredDomain(name.value).Some? {
      ScoreBrandsDistinct(s, name.value, s.registeredDomain(name.value).value, s.brands,
                          if floor.Some? then floor.value else s.storeFloor,
                          if freeDv.Some? then freeDv.value else IsFreeDv(s, issuer));
    }
  }

  /** What is scored depends on the issuer only through the flag. */
  lemma ScoredByFlag(s: Scorer, key: CacheKey)
    ensures AtFloorZero(s)(key) == Score(s, key.fqdn, None, Some(0.0), Some(FlagOf(s, key)))
  {
  }

  /** A stored row's figures: rounded, and with the flag of its issuer. */
  lemma StoredFigures(s: Scorer, threshold: real, k: Key, row: MatchRow, issuer: Option<string>, raw: string)
    requires ScoredAs(s, threshold, k, row, issuer, raw)
    ensures OnGrid(row.score) && row.features.freeDv == IsFreeDv(s, issuer)
  {
    ScoredMember(s, threshold, k, row, issuer, raw);
    var registered := s.registeredDomain(k.fqdn).value;
    var found := ScoreBrands(s, k.fqdn, registered, s.brands, s.storeFloor, IsFreeDv(s, issuer));
    var i :| 0 <= i < |found| && found[i] == Match(k.fqdn, row.registeredDomain, k.brand, row.score, row.features);
    ScoreMembers(s, k.fqdn, registered, s.brands, s.storeFloor, IsFreeDv(s, issuer), i);
    CombineOnGrid(s, found[i].features);
  }

  /** With rounded scores, "within a billionth" is equality. */
  lemma DiffersIff(found: map<string, Match>, threshold: real, brand: string, row: MatchRow)
    requires OnGrid(row.score) && row.isAlert == (row.score >= threshold)
    requires brand in found ==> OnGrid(found[brand].score)
    ensures Differs(row, Rescored(found, threshold, brand, row)) <==>
              !(if brand in found then found[brand].score == row.score && found[brand].features == row.features
                else row.score == 0.0)
  {
    var next := Rescored(found, threshold, brand, row);
    assert 0.0 == Units(0);
    if -0.000000001 <= next.score - row.score <= 0.000000001 { GridGap(next.score, row.score); }
  }

  /** An unchanged configuration reports exactly the rows whose name, normalised once more, scores otherwise. */
  lemma StaleIff(s: Scorer, threshold: real, db: Db, k: Key)
    requires FromScorer(s, threshold, db) && DistinctNames(s.brands) && k in db.matches
    ensures k in Stale(db, AtFloorZero(s), threshold) <==> !Restates(s, k, db.matches[k])
  {
    var row := db.matches[k];
    var issuer, raw :| ScoredAs(s, threshold, k, row, issuer, raw)
                       && (row.cert in db.certificates ==> db.certificates[row.cert].issuerOrg == issuer);
    var key := CacheKeyOf(db.certificates, k.fqdn, row);
    StoredFigures(s, threshold, k, row, issuer, raw);
    KeyKeepsFlag(s, db.certificates, k.fqdn, row, issuer);
    StaleRow(s, threshold, k, row, key);
  }

  lemma StaleRow(s: Scorer, threshold: real, k: Key, row: MatchRow, key: CacheKey)
    requires DistinctNames(s.brands) && OnGrid(row.score) && row.isAlert == (row.score >= threshold)
    requires key.fqdn == k.fqdn && FlagOf(s, key) == row.features.freeDv
    ensures Differs(row, Rescored(Current(AtFloorZero(s), key), threshold, k.brand, row)) <==> !Restates(s, k, row)
  {
    ScoredByFlag(s, key);
    ScoredDistinct(s, k.fqdn, None, Some(0.0), Some(row.features.freeDv));
    ByBrandHolds(AtFloorZero(s)(key), k.brand, row);
    ScorerIsSound(s);
    DiffersIff(Current(AtFloorZero(s), key), threshold, k.brand, row);
  }

  /** So it reports nothing exactly when every row is restated. */
  lemma NothingStaleIff(s: Scorer, threshold: real, db: Db)
    requires FromScorer(s, threshold, db) && DistinctNames(s.brands)
    ensures Stale(db, AtFloorZero(s), threshold) == {} <==>
              forall k :: k in db.matches ==> Restates(s, k, db.matches[k])
  {
    forall k | k in db.matches
      ensures k in Stale(db, AtFloorZero(s), threshold) <==> !Restates(s, k, db.matches[k])
    {
      StaleIff(s, threshold, db, k);
    }
  }

  /** A scorer whose text features see the wildcard, and the row it stores for `*.*.a`. */
  function WildcardScorer(): Scorer {
    Scorer(DEFAULT_WEIGHTS, 0.8, 0.4, [Brand("b", {})], [], host => Some(host),
           (host, brand) => Features([], 0.0, false, host == "*.a", false, [], false))
  }

  function WildcardRow(threshold: real): MatchRow {
    MatchRow("*.a", 0.5, 0.5 >= threshold, Features([], 0.0, false, true, false, [], false), "c", 0)
  }

  const WILDCARD_KEY := Key("*.a", "b")

  lemma ScoredForOne(s: Scorer, fqdn: string, registered: string, brand: Brand, floor: real, freeDv: bool)
    ensures ScoreBrands(s, fqdn, registered, [brand], floor, freeDv)
         == ScoreBrand(s, fqdn, registered, brand, floor, freeDv)
  {
    assert [brand][1..] == [];
  }

  lemma WildcardFigures()
    ensures var s := WildcardScorer();
            && Combine(s, Features([], 0.0, false, true, false, [], false)) == 0.5
            && Combine(s, Features([], 0.0, false, false, false, [], false)) == 0.0
  {
    assert 0.5 == Units(5000);
    RoundOnGrid(0.5);
  }

  /** At ingestion the wildcard is seen ... */
  lemma WildcardStored()
    requires NormalizeHostname("*.*.a") == Some("*.a")
    ensures Score(WildcardScorer(), "*.*.a", None, None, None)
         == [Match("*.a", "*.a", "b", 0.5, Features([], 0.0, false, true, false, [], false))]
  {
    var s := WildcardScorer();
    WildcardFigures();
    ScoredForOne(s, "*.a", "*.a", Brand("b", {}), 0.4, false);
    assert ScoreBrand(s, "*.a", "*.a", Brand("b", {}), 0.4, false)
        == [Match("*.a", "*.a", "b", 0.5, Features([], 0.0, false, true, false, [], false))];
  }

  /** ... and when the row is scored again it is gone. */
  lemma WildcardGone()
    requires NormalizeHostname("*.a") == Some("a")
    ensures Score(WildcardScorer(), "*.a", None, Some(0.0), Some(false))
         == [Match("a", "a", "b", 0.0, Features([], 0.0, false, false, false, [], false))]
  {
    var s := WildcardScorer();
    WildcardFigures();
    assert "a" != "*.a" by { assert |"a"| != |"*.a"|; }
    ScoredForOne(s, "a", "a", Brand("b", {}), 0.0, false);
    assert ScoreBrand(s, "a", "a", Brand("b", {}), 0.0, false)
        == [Match("a", "a", "b", 0.0, Features([], 0.0, false, false, false, [], false))];
  }

  function OneRow(k: Key, row: MatchRow): Db {
    Db(map[], map[k := row], map[], 0, map[], 0)
  }

  lemma OneRowScored(s: Scorer, threshold: real, k: Key, row: MatchRow, raw: string)
    requires ScoredAs(s, threshold, k, row, None, raw)
    ensures FromScorer(s, threshold, OneRow(k, row))
  {
    var db := OneRow(k, row);
    assert db.matches[k] == row && row.cert !in db.certificates;
    forall l | l in db.matches ensures l == k {}
  }

  lemma NotRestated(found: seq<Match>, brand: string, row: MatchRow)
    requires |found| == 1 && found[0].brand == brand && found[0].score != row.score
    ensures !RestatedBy(found, brand, row)
  {
    assert found[0] in found;
  }

  lemma OneRowStale(s: Scorer, threshold: real, k: Key, row: MatchRow, found: seq<Match>)
    requires DistinctNames(s.brands) && FromScorer(s, threshold, OneRow(k, row))
    requires Score(s, k.fqdn, None, Some(0.0), Some(row.features.freeDv)) == found
    requires !RestatedBy(found, k.brand, row)
    ensures k in Stale(OneRow(k, row), AtFloorZero(s), threshold)
  {
    assert OneRow(k, row).matches[k] == row;
    StaleIff(s, threshold, OneRow(k, row), k);
  }

  lemma WildcardScored(threshold: real)
    ensures ScoredAs(WildcardScorer(), threshold, WILDCARD_KEY, WildcardRow(threshold), None, "*.*.a")
  {
    TwoWildcards();
    WildcardStored();
    assert Score(WildcardScorer(), "*.*.a", None, None, None)[0].fqdn == "*.a";
  }

  /** That row is the scorer's own, and the same scorer reports it. */
  lemma WildcardIsStale(threshold: real)
    ensures var s, db := WildcardScorer(), OneRow(WILDCARD_KEY, WildcardRow(threshold));
            && FromScorer(s, threshold, db) && DistinctNames(s.brands)
            && WILDCARD_KEY in Stale(db, AtFloorZero(s), threshold)
  {
    TwoWildcards();
    WildcardGone();
    WildcardScored(threshold);
    OneRowScored(WildcardScorer(), threshold, WILDCARD_KEY, WildcardRow(threshold), "*.*.a");
    var again := Match("a", "a", "b", 0.0, Features([], 0.0, false, false, false, [], false));
    NotRestated([again], "b", WildcardRow(threshold));
    OneRowStale(WildcardScorer(), threshold, WILDCARD_KEY, WildcardRow(threshold), [again]);
  }
}
