/** Ingestion followed by rescoring: what a whole stream of certificates leaves for `rescore` to find. */
module Lifecycle {
  import opened Wrappers
  import opened Text
  import opened Scoring
  import opened Certificates
  import opened Store
  import opened Pipeline
  import opened Rescore

  const EMPTY := Db(map[], map[], map[], 0, map[], 0)

  /** Each certificate key was seen with one issuer only. */
  ghost predicate OneIssuerPerKey(messages: seq<Message>) {
    forall i, j :: 0 <= i < |messages| && 0 <= j < |messages| && messages[i].Observed? && messages[j].Observed?
                   && messages[i].cert.sha256 == messages[j].cert.sha256 ==>
      messages[i].cert.issuerOrg == messages[j].cert.issuerOrg
  }

  /** What the feed sends: anything but a certificate, one that lacks a field, or a whole one. */
  datatype RawMessage = OtherType | Incomplete | Whole(update: Update)

  /** `parse_message`. */
  function Parse(hash: string -> string, raw: RawMessage): Message {
    match raw
    case OtherType => NotACertificate
    case Incomplete => Malformed
    case Whole(update) => Observed(CertificateOf(hash, update))
  }

  function ParseAll(hash: string -> string, feed: seq<RawMessage>): (messages: seq<Message>)
    ensures |messages| == |feed| && forall i :: 0 <= i < |feed| ==> messages[i] == Parse(hash, feed[i])
  {
    seq(|feed|, i requires 0 <= i < |feed| => Parse(hash, feed[i]))
  }

  function LeavesOf(feed: seq<RawMessage>): set<Leaf> {
    set i | 0 <= i < |feed| && feed[i].Whole? :: feed[i].update.leaf
  }

  /** The keys `parse_message` derives name one issuer each. */
  lemma ParsedKeysNameIssuers(hash: string -> string, feed: seq<RawMessage>)
    requires NoCollision(hash, LeavesOf(feed)) && FingerprintsIdentify(LeavesOf(feed))
    ensures OneIssuerPerKey(ParseAll(hash, feed))
  {
    var messages := ParseAll(hash, feed);
    forall i, j | 0 <= i < |messages| && 0 <= j < |messages| && messages[i].Observed? && messages[j].Observed?
                  && messages[i].cert.sha256 == messages[j].cert.sha256
      ensures messages[i].cert.issuerOrg == messages[j].cert.issuerOrg
    {
      var l, m := feed[i].update.leaf, feed[j].update.leaf;
      assert l in LeavesOf(feed) && m in LeavesOf(feed);
      SameKeySameIssuer(hash, LeavesOf(feed), l, m);
    }
  }

  function Issuers(messages: seq<Message>): map<string, Option<string>> {
    if messages == [] then map[] else
      var last := messages[|messages| - 1];
      if last.Observed? then Issuers(messages[..|messages| - 1])[last.cert.sha256 := last.cert.issuerOrg]
      else Issuers(messages[..|messages| - 1])
  }

  lemma {:induction false} IssuersHold(messages: seq<Message>, i: nat)
    requires OneIssuerPerKey(messages) && i < |messages| && messages[i].Observed?
    ensures messages[i].cert.sha256 in Issuers(messages)
    ensures Issuers(messages)[messages[i].cert.sha256] == messages[i].cert.issuerOrg
  {
    if i < |messages| - 1 {
      IssuersHold(messages[..|messages| - 1], i);
    }
  }

  predicate NamesIssuer(issuers: map<string, Option<string>>, cert: Certificate) {
    cert.sha256 in issuers && issuers[cert.sha256] == cert.issuerOrg
  }

  ghost predicate RowsNamed(issuers: map<string, Option<string>>, rows: seq<Sighting>) {
    forall i :: 0 <= i < |rows| ==> NamesIssuer(issuers, rows[i].cert)
  }

  ghost predicate TableNamed(issuers: map<string, Option<string>>, db: Db) {
    forall c :: c in db.certificates ==> db.certificates[c].sha256 == c && NamesIssuer(issuers, db.certificates[c])
  }

  ghost predicate NamesNamed(issuers: map<string, Option<string>>, names: seq<Name>) {
    forall i :: 0 <= i < |names| ==> NamesIssuer(issuers, names[i].cert)
  }

  lemma {:induction false} StreamNamed(issuers: map<string, Option<string>>, messages: seq<Message>)
    requires forall i :: 0 <= i < |messages| && messages[i].Observed? ==> NamesIssuer(issuers, messages[i].cert)
    ensures NamesNamed(issuers, Stream(messages))
  {
    if messages != [] {
      StreamNamed(issuers, messages[1..]);
      var here := MessageNames(messages[0]);
      assert Stream(messages) == here + Stream(messages[1..]);
    }
  }

  /** Rows that get past the seen set are the scorer's own, on certificates of the stream. */
  lemma {:induction false} KeptAreScorers(s: Scorer, issuers: map<string, Option<string>>, full: FullFn,
                                          seen: set<string>, names: seq<Name>)
    requires NamesNamed(issuers, names)
    ensures ScorerRows(s, KeptRows(Defaults(s), full, seen, names))
    ensures RowsNamed(issuers, KeptRows(Defaults(s), full, seen, names))
    decreases |names|
  {
    if names != [] {
      var n, score := names[0], Defaults(s);
      if n.hostname in seen {
        KeptAreScorers(s, issuers, full, seen, names[1..]);
      } else {
        KeptAreScorers(s, issuers, full, Remember(seen, full, n.hostname), names[1..]);
        RowsAreScorers(s, n);
        assert RowsNamed(issuers, RowsOf(score, n));
        ScorerRowsConcat(s, RowsOf(score, n), KeptRows(score, full, Remember(seen, full, n.hostname), names[1..]));
      }
    }
  }

  lemma RowsAreScorers(s: Scorer, n: Name)
    ensures ScorerRows(s, RowsOf(Defaults(s), n))
  {
    var rows := RowsOf(Defaults(s), n);
    forall i | 0 <= i < |rows|
      ensures ScorerRow(s, rows[i])
    {
      var fqdn := NormalizeHostname(n.hostname).value;
      ScoreMembers(s, fqdn, s.registeredDomain(fqdn).value, s.brands, s.storeFloor, IsFreeDv(s, n.cert.issuerOrg), i);
    }
  }

  lemma ScorerRowsConcat(s: Scorer, a: seq<Sighting>, b: seq<Sighting>)
    requires ScorerRows(s, a) && ScorerRows(s, b)
    ensures ScorerRows(s, a + b)
  {
    assert forall i :: 0 <= i < |a + b| ==> (a + b)[i] == if i < |a| then a[i] else b[i - |a|];
  }

  lemma ScorerRowsSplit(s: Scorer, a: seq<Sighting>, b: seq<Sighting>)
    requires ScorerRows(s, a + b)
    ensures ScorerRows(s, a) && ScorerRows(s, b)
  {
    assert forall i :: 0 <= i < |a| ==> a[i] == (a + b)[i];
    assert forall i :: 0 <= i < |b| ==> b[i] == (a + b)[|a| + i];
  }

  lemma NamedSplit(issuers: map<string, Option<string>>, a: seq<Sighting>, b: seq<Sighting>)
    requires RowsNamed(issuers, a + b)
    ensures RowsNamed(issuers, a) && RowsNamed(issuers, b)
  {
    assert forall i :: 0 <= i < |a| ==> a[i] == (a + b)[i];
    assert forall i :: 0 <= i < |b| ==> b[i] == (a + b)[|a| + i];
  }

  /** What ingestion keeps from batch to batch. */
  ghost predicate Ingested(s: Scorer, threshold: real, issuers: map<string, Option<string>>, db: Db) {
    FromScorer(s, threshold, db) && TableNamed(issuers, db) && CertificatesPresent(db) && GridScores(db)
  }

  lemma TableStaysNamed(issuers: map<string, Option<string>>, threshold: real, db: Db, rows: seq<Sighting>)
    requires TableNamed(issuers, db) && RowsNamed(issuers, rows) && KeysNameIssuers(db, rows)
    ensures TableNamed(issuers, WriteRows(db, threshold, rows))
  {
    var after := WriteRows(db, threshold, rows);
    forall c | rows != [] && c in after.certificates
      ensures after.certificates[c].sha256 == c && NamesIssuer(issuers, after.certificates[c])
    {
      CertificateAfterWrite(db, threshold, rows, c);
    }
  }

  lemma BatchKeepsIngested(s: Scorer, threshold: real, issuers: map<string, Option<string>>, db: Db,
                           rows: seq<Sighting>)
    requires Ingested(s, threshold, issuers, db) && ScorerRows(s, rows) && RowsNamed(issuers, rows)
    ensures Ingested(s, threshold, issuers, WriteRows(db, threshold, rows))
  {
    assert KeysNameIssuers(db, rows);
    TableStaysNamed(issuers, threshold, db, rows);
    WriteKeepsFromScorer(s, threshold, db, rows);
    WriteKeepsCertificates(db, threshold, rows);
    WriteKeepsGrid(s, threshold, db, rows);
  }

  lemma {:induction false} BatchesAreIngested(s: Scorer, threshold: real, issuers: map<string, Option<string>>,
                                              batches: seq<seq<Sighting>>)
    requires ScorerRows(s, Flat(batches)) && RowsNamed(issuers, Flat(batches))
    ensures Ingested(s, threshold, issuers, WriteBatches(EMPTY, threshold, batches))
  {
    if batches != [] {
      var front, last := batches[..|batches| - 1], batches[|batches| - 1];
      ScorerRowsSplit(s, Flat(front), last);
      NamedSplit(issuers, Flat(front), last);
      BatchesAreIngested(s, threshold, issuers, front);
      BatchKeepsIngested(s, threshold, issuers, WriteBatches(EMPTY, threshold, front), last);
    }
  }

  // ------------------------------------------------- names that are stored as they are looked up

  /** Nothing is left to take off the name once it is normalised. */
  predicate CleanName(raw: string) {
    NormalizeHostname(raw).Some? ==> Clean(NormalizeHostname(raw).value)
  }

  predicate IsNormal(h: string) {
    NormalizeHostname(h) == Some(h)
  }

  /** Every name in the feed is such as `p` asks for. */
  ghost predicate FeedHas(p: string -> bool, feed: seq<RawMessage>) {
    forall i :: 0 <= i < |feed| && feed[i].Whole? ==> DomainsHave(p, feed[i].update.domains)
  }

  ghost predicate DomainsHave(p: string -> bool, domains: seq<string>) {
    forall j :: 0 <= j < |domains| ==> p(domains[j])
  }

  ghost predicate StreamHas(p: string -> bool, names: seq<Name>) {
    forall i :: 0 <= i < |names| ==> p(names[i].hostname)
  }

  lemma {:induction false} StreamFrom(p: string -> bool, messages: seq<Message>)
    requires forall i :: 0 <= i < |messages| && messages[i].Observed? ==> DomainsHave(p, messages[i].cert.domains)
    ensures StreamHas(p, Stream(messages))
  {
    if messages != [] {
      StreamFrom(p, messages[1..]);
      assert Stream(messages) == MessageNames(messages[0]) + Stream(messages[1..]);
    }
  }

  /** Every row is of a name such as `ok` asks for. */
  ghost predicate RowsAre(ok: string -> bool, rows: seq<Sighting>) {
    forall i :: 0 <= i < |rows| ==> ok(rows[i].found.fqdn)
  }

  lemma RowsAreConcat(ok: string -> bool, a: seq<Sighting>, b: seq<Sighting>)
    requires RowsAre(ok, a) && RowsAre(ok, b)
    ensures RowsAre(ok, a + b)
  {
    assert forall i :: 0 <= i < |a + b| ==> (a + b)[i] == if i < |a| then a[i] else b[i - |a|];
  }

  lemma {:induction false} KeptAre(ok: string -> bool, score: ScoreFn, full: FullFn, seen: set<string>,
                                   names: seq<Name>)
    requires forall i :: 0 <= i < |names| ==> RowsAre(ok, RowsOf(score, names[i]))
    ensures RowsAre(ok, KeptRows(score, full, seen, names))
    decreases |names|
  {
    if names != [] {
      var n := names[0];
      if n.hostname in seen {
        KeptAre(ok, score, full, seen, names[1..]);
      } else {
        var more := Remember(seen, full, n.hostname);
        KeptAre(ok, score, full, more, names[1..]);
        RowsAreConcat(ok, RowsOf(score, n), KeptRows(score, full, more, names[1..]));
      }
    }
  }

  lemma StoredAre(ok: string -> bool, threshold: real, batches: seq<seq<Sighting>>)
    requires RowsAre(ok, Flat(batches))
    ensures forall k :: k in WriteBatches(EMPTY, threshold, batches).matches ==> ok(k.fqdn)
  {
    BatchingInvisible(EMPTY, threshold, batches);
    InsertKeeps(map[], threshold, Flat(batches));
    forall k | k in Keys(Flat(batches))
      ensures ok(k.fqdn)
    {
      var i :| 0 <= i < |Flat(batches)| && KeyOf(Flat(batches)[i]) == k;
    }
  }

  /** Names that lead to rows such as `ok` asks for, and to nothing else in the table. */
  lemma FeedStores(p: string -> bool, ok: string -> bool, score: ScoreFn, threshold: real, hash: string -> string,
                   feed: seq<RawMessage>, full: FullFn, batches: seq<seq<Sighting>>)
    requires Flat(batches) == KeptRows(score, full, {}, Stream(ParseAll(hash, feed))) && FeedHas(p, feed)
    requires forall n: Name :: p(n.hostname) ==> RowsAre(ok, RowsOf(score, n))
    ensures forall k :: k in WriteBatches(EMPTY, threshold, batches).matches ==> ok(k.fqdn)
  {
    StreamFrom(p, ParseAll(hash, feed));
    KeptAre(ok, score, full, {}, Stream(ParseAll(hash, feed)));
    StoredAre(ok, threshold, batches);
  }

  lemma RowOfClean(s: Scorer, n: Name, i: nat)
    requires CleanName(n.hostname) && i < |RowsOf(Defaults(s), n)|
    ensures IsNormal(RowsOf(Defaults(s), n)[i].found.fqdn)
  {
    var fqdn := NormalizeHostname(n.hostname).value;
    ScoreMembers(s, fqdn, s.registeredDomain(fqdn).value, s.brands, s.storeFloor, IsFreeDv(s, n.cert.issuerOrg), i);
    NormalAgainIff(n.hostname);
  }

  lemma FeedIsNormal(s: Scorer, threshold: real, hash: string -> string, feed: seq<RawMessage>, full: FullFn,
                     batches: seq<seq<Sighting>>)
    requires Flat(batches) == KeptRows(Defaults(s), full, {}, Stream(ParseAll(hash, feed))) && FeedHas(CleanName, feed)
    ensures NamesAreNormal(WriteBatches(EMPTY, threshold, batches))
  {
    forall n: Name | CleanName(n.hostname)
      ensures RowsAre(IsNormal, RowsOf(Defaults(s), n))
    {
      forall i | 0 <= i < |RowsOf(Defaults(s), n)| ensures IsNormal(RowsOf(Defaults(s), n)[i].found.fqdn) {
        RowOfClean(s, n, i);
      }
    }
    FeedStores(CleanName, IsNormal, Defaults(s), threshold, hash, feed, full, batches);
  }

  // ------------------------------------------------- from the feed to a rescored table

  lemma FeedIsIngested(s: Scorer, threshold: real, messages: seq<Message>, full: FullFn, batches: seq<seq<Sighting>>)
    requires Flat(batches) == KeptRows(Defaults(s), full, {}, Stream(messages)) && OneIssuerPerKey(messages)
    ensures Ingested(s, threshold, Issuers(messages), WriteBatches(EMPTY, threshold, batches))
  {
    var issuers := Issuers(messages);
    forall i | 0 <= i < |messages| && messages[i].Observed?
      ensures NamesIssuer(issuers, messages[i].cert)
    {
      IssuersHold(messages, i);
    }
    StreamNamed(issuers, messages);
    KeptAreScorers(s, issuers, full, {}, Stream(messages));
    BatchesAreIngested(s, threshold, issuers, batches);
  }

  /**
   * Ingest any feed, flushed at any points, and rescore with the same configuration: nothing changes exactly if every
   * row restates what its name scores, as it does if every name is clean. Rescore with any other, and a second run
   * changes nothing, no row has come or gone, and alerts follow scores.
   */
  lemma RescoreAfterIngestion(s: Scorer, threshold: real, hash: string -> string, feed: seq<RawMessage>, full: FullFn,
                              batches: seq<seq<Sighting>>, other: ScoreAll, otherThreshold: real)
    requires Flat(batches) == KeptRows(Defaults(s), full, {}, Stream(ParseAll(hash, feed)))
    requires NoCollision(hash, LeavesOf(feed)) && FingerprintsIdentify(LeavesOf(feed))
    requires DistinctNames(s.brands) && s.storeFloor >= 0.0 && Sound(other)
    ensures var db := WriteBatches(EMPTY, threshold, batches);
            && (Stale(db, AtFloorZero(s), threshold) == {} <==>
                  forall k :: k in db.matches ==> Restates(s, k, db.matches[k]))
            && (FeedHas(CleanName, feed) ==> Stale(db, AtFloorZero(s), threshold) == {})
            && var after := RescoreDb(db, other, otherThreshold);
               && Stale(after, other, otherThreshold) == {} && after.matches.Keys == db.matches.Keys
               && forall k ::
                 k in after.matches ==> after.matches[k].isAlert == (after.matches[k].score >= otherThreshold)
  {
    ParsedKeysNameIssuers(hash, feed);
    FeedIsIngested(s, threshold, ParseAll(hash, feed), full, batches);
    var db := WriteBatches(EMPTY, threshold, batches);
    NothingStaleIff(s, threshold, db);
    if FeedHas(CleanName, feed) {
      FeedIsNormal(s, threshold, hash, feed, full, batches);
      RescoreAgreesWithIngestion(s, threshold, db);
    }
    RescoreSettles(other, otherThreshold, db);
  }
}
