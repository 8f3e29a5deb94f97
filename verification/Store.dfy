/** The database behind the pipeline (ingest/store.py): tables as maps, queries by what they mean. */
module Store {
  import opened Wrappers
  import opened Scoring
  import opened Certificates
  import opened Captures

  // ------------------------------------------------- rows

  datatype Key = Key(fqdn: string, brand: string)

  datatype MatchRow = MatchRow(registeredDomain: string, score: real, isAlert: bool, features: Features,
                               cert: string, firstSeenAt: int)

  datatype CaptureRow = CaptureRow(result: CaptureResult, vantage: Option<string>)

  datatype Label = Phishing | Parked | Legitimate | Unreachable | Unknown | ErrorRow

  datatype Verdict = Verdict(kind: Label, confidence: real, brand: Option<string>, evidence: string)

  datatype VerdictRow = VerdictRow(captureId: nat, fqdn: string, backend: string, model: Option<string>, kind: Label,
                                   confidence: real, brand: Option<string>, evidence: Option<string>,
                                   classifiedAt: int, error: Option<string>, alertedAt: Option<int>)

  datatype Db = Db(certificates: map<string, Certificate>, matches: map<Key, MatchRow>,
                   captures: map<nat, CaptureRow>, nextCapture: nat,
                   verdicts: map<nat, VerdictRow>, nextVerdict: nat)

  /** A Match together with the certificate it was seen on. */
  datatype Sighting = Sighting(cert: Certificate, found: Match)

  // ------------------------------------------------- matches and certificates

  function KeyOf(s: Sighting): Key {
    Key(s.found.fqdn, s.found.brand)
  }

  function RowOf(threshold: real, s: Sighting): MatchRow {
    MatchRow(s.found.registeredDomain, s.found.score, s.found.score >= threshold, s.found.features, s.cert.sha256,
             s.cert.seenAt)
  }

  /** INSERT ... ON CONFLICT DO NOTHING: the first sighting wins. */
  function InsertMatch(matches: map<Key, MatchRow>, threshold: real, s: Sighting): map<Key, MatchRow> {
    if KeyOf(s) in matches then matches else matches[KeyOf(s) := RowOf(threshold, s)]
  }

  /** Row after row, with no batching and no dictionary in between. */
  function InsertMatches(matches: map<Key, MatchRow>, threshold: real, rows: seq<Sighting>): map<Key, MatchRow>
    decreases |rows|
  {
    if rows == [] then matches else InsertMatches(InsertMatch(matches, threshold, rows[0]), threshold, rows[1..])
  }

  /** The certificates a batch files: those of its first sightings, a later one of the same key replacing an earlier. */
  function BatchCertificates(rows: seq<Sighting>): map<string, Certificate> {
    if rows == [] then map[]
    else BatchCertificates(rows[..|rows| - 1])[rows[|rows| - 1].cert.sha256 := rows[|rows| - 1].cert]
  }

  function IsFirst(rows: seq<Sighting>, i: nat): bool
    requires i < |rows|
  {
    forall j | 0 <= j < i :: KeyOf(rows[j]) != KeyOf(rows[i])
  }

  /** The batch with repeated (hostname, brand) pairs dropped. */
  function Firsts(rows: seq<Sighting>, n: nat): seq<Sighting>
    requires n <= |rows|
  {
    if n == 0 then [] else Firsts(rows, n - 1) + if IsFirst(rows, n - 1) then [rows[n - 1]] else []
  }

  function WriteRows(db: Db, threshold: real, rows: seq<Sighting>): Db {
    if rows == [] then db else
      db.(certificates := BatchCertificates(Firsts(rows, |rows|)) + db.certificates,
          matches := InsertMatches(db.matches, threshold, rows))
  }

  lemma {:induction false} InsertConcat(matches: map<Key, MatchRow>, threshold: real, a: seq<Sighting>,
                                        b: seq<Sighting>)
    ensures InsertMatches(matches, threshold, a + b)
         == InsertMatches(InsertMatches(matches, threshold, a), threshold, b)
    decreases |a|
  {
    if a == [] {
      assert a + b == b;
    } else {
      assert (a + b)[1..] == a[1..] + b;
      InsertConcat(InsertMatch(matches, threshold, a[0]), threshold, a[1..], b);
    }
  }

  function Keys(rows: seq<Sighting>): set<Key> {
    set r | r in rows :: KeyOf(r)
  }

  lemma KeysConcat(a: seq<Sighting>, b: seq<Sighting>)
    ensures Keys(a + b) == Keys(a) + Keys(b)
  {
    assert forall r :: r in a + b <==> r in a || r in b;
  }

  /** Rows already there stay as they are, and exactly the batch's keys are added. */
  lemma {:induction false} InsertKeeps(matches: map<Key, MatchRow>, threshold: real, rows: seq<Sighting>)
    ensures InsertMatches(matches, threshold, rows).Keys == matches.Keys + Keys(rows)
    ensures forall k :: k in matches ==> InsertMatches(matches, threshold, rows)[k] == matches[k]
    decreases |rows|
  {
    if rows != [] {
      var next := InsertMatch(matches, threshold, rows[0]);
      InsertKeeps(next, threshold, rows[1..]);
      assert rows == [rows[0]] + rows[1..];
      KeysConcat([rows[0]], rows[1..]);
      assert rows[0] in [rows[0]] && Keys([rows[0]]) == {KeyOf(rows[0])};
    }
  }

  /** A batch whose keys are all known changes nothing. */
  lemma {:induction false} InsertKnown(matches: map<Key, MatchRow>, threshold: real, rows: seq<Sighting>)
    requires Keys(rows) <= matches.Keys
    ensures InsertMatches(matches, threshold, rows) == matches
  {
    if rows != [] {
      assert rows[0] in rows && KeyOf(rows[0]) in Keys(rows);
      assert forall r :: r in rows[1..] ==> r in rows;
      InsertKnown(matches, threshold, rows[1..]);
    }
  }

  lemma {:induction false} FirstsInsertAlike(matches: map<Key, MatchRow>, threshold: real, rows: seq<Sighting>, n: nat)
    requires n <= |rows|
    ensures InsertMatches(matches, threshold, Firsts(rows, n)) == InsertMatches(matches, threshold, rows[..n])
    ensures Keys(Firsts(rows, n)) == Keys(rows[..n])
  {
    if n > 0 {
      var last := rows[n - 1];
      FirstsInsertAlike(matches, threshold, rows, n - 1);
      assert rows[..n] == rows[..n - 1] + [last];
      InsertConcat(matches, threshold, rows[..n - 1], [last]);
      KeysConcat(rows[..n - 1], [last]);
      KeysConcat(Firsts(rows, n - 1), [last]);
      if IsFirst(rows, n - 1) {
        InsertConcat(matches, threshold, Firsts(rows, n - 1), [last]);
      } else {
        var j :| 0 <= j < n - 1 && KeyOf(rows[j]) == KeyOf(last);
        assert rows[..n - 1][j] in rows[..n - 1];
        assert Firsts(rows, n) == Firsts(rows, n - 1);
        InsertKeeps(matches, threshold, rows[..n - 1]);
        KeyOfSingle(last);
        InsertKnown(InsertMatches(matches, threshold, rows[..n - 1]), threshold, [last]);
      }
    }
  }

  lemma KeyOfSingle(s: Sighting)
    ensures Keys([s]) == {KeyOf(s)}
  {
    assert s in [s];
  }

  /** Each match points at a certificate row. */
  ghost predicate CertificatesPresent(db: Db) {
    forall k :: k in db.matches ==> db.matches[k].cert in db.certificates
  }

  lemma {:induction false} BatchHasCertificates(rows: seq<Sighting>, i: nat)
    requires i < |rows|
    ensures rows[i].cert.sha256 in BatchCertificates(rows)
  {
    if i < |rows| - 1 {
      BatchHasCertificates(rows[..|rows| - 1], i);
    }
  }

  lemma {:induction false} InsertedFrom(matches: map<Key, MatchRow>, threshold: real, rows: seq<Sighting>, k: Key)
    returns (i: nat)
    requires k in InsertMatches(matches, threshold, rows) && k !in matches
    ensures i < |rows| && KeyOf(rows[i]) == k && InsertMatches(matches, threshold, rows)[k] == RowOf(threshold, rows[i])
    decreases |rows|
  {
    if rows == [] {
      assert false;
    } else if KeyOf(rows[0]) == k {
      i := 0;
      InsertKeeps(InsertMatch(matches, threshold, rows[0]), threshold, rows[1..]);
    } else {
      i := InsertedFrom(InsertMatch(matches, threshold, rows[0]), threshold, rows[1..], k);
      i := i + 1;
    }
  }

  lemma WriteKeepsCertificates(db: Db, threshold: real, rows: seq<Sighting>)
    requires CertificatesPresent(db)
    ensures CertificatesPresent(WriteRows(db, threshold, rows))
  {
    if rows != [] {
      var firsts := Firsts(rows, |rows|);
      FirstsInsertAlike(db.matches, threshold, rows, |rows|);
      assert rows[..|rows|] == rows;
      var after := WriteRows(db, threshold, rows);
      forall k | k in after.matches
        ensures after.matches[k].cert in after.certificates
      {
        if k in db.matches {
          InsertKeeps(db.matches, threshold, rows);
        } else {
          var i := InsertedFrom(db.matches, threshold, firsts, k);
          BatchHasCertificates(firsts, i);
        }
      }
    }
  }

  /** One `write` after another. */
  function WriteBatches(db: Db, threshold: real, batches: seq<seq<Sighting>>): Db {
    if batches == [] then db
    else WriteRows(WriteBatches(db, threshold, batches[..|batches| - 1]), threshold, batches[|batches| - 1])
  }

  function Flat(batches: seq<seq<Sighting>>): seq<Sighting> {
    if batches == [] then [] else Flat(batches[..|batches| - 1]) + batches[|batches| - 1]
  }

  /** How rows are grouped into batches does not show in the table, and no match loses its certificate. */
  lemma {:induction false} BatchingInvisible(db: Db, threshold: real, batches: seq<seq<Sighting>>)
    ensures WriteBatches(db, threshold, batches).matches == InsertMatches(db.matches, threshold, Flat(batches))
    ensures CertificatesPresent(db) ==> CertificatesPresent(WriteBatches(db, threshold, batches))
  {
    if batches != [] {
      var front, last := batches[..|batches| - 1], batches[|batches| - 1];
      BatchingInvisible(db, threshold, front);
      InsertConcat(db.matches, threshold, Flat(front), last);
      if CertificatesPresent(db) {
        WriteKeepsCertificates(WriteBatches(db, threshold, front), threshold, last);
      }
    }
  }

  // ------------------------------------------------- paging: ORDER BY ... LIMIT

  ghost predicate TotalPreorder<T(!new)>(s: set<T>, before: (T, T) -> bool) {
    && (forall a, b :: a in s && b in s ==> before(a, b) || before(b, a))
    && (forall a, b, c :: a in s && b in s && c in s && before(a, b) && before(b, c) ==> before(a, c))
  }

  /** The first `limit` of `s` in the given order. */
  ghost predicate IsPage<T(!new)>(q: seq<T>, s: set<T>, before: (T, T) -> bool, limit: nat) {
    && |q| == Min(limit, |s|)
    && Distinct(q)
    && (forall i :: 0 <= i < |q| ==> q[i] in s)
    && (forall i, j :: 0 <= i < j < |q| ==> before(q[i], q[j]))
    && (forall i, x :: 0 <= i < |q| && x in s && x !in q ==> before(q[i], x))
  }

  lemma PageTakes<T(!new)>(q: seq<T>, s: set<T>, before: (T, T) -> bool, limit: nat)
    requires IsPage(q, s, before, limit)
    ensures Distinct(q) && Elements(q) <= s && |Elements(q)| == Min(limit, |s|)
    ensures s - (s - Elements(q)) == Elements(q)
  {
    DistinctSize(q);
  }

  /** A page with room for everything holds everything. */
  lemma FullPage<T(!new)>(q: seq<T>, s: set<T>, before: (T, T) -> bool, limit: nat)
    requires IsPage(q, s, before, limit) && limit >= |s|
    ensures Elements(q) == s
  {
    PageTakes(q, s, before, limit);
    assert |s| == |Elements(q)| + |s - Elements(q)|;
  }

  method Foremost<T(==,!new)>(s: set<T>, before: (T, T) -> bool) returns (best: T)
    requires s != {} && TotalPreorder(s, before)
    ensures best in s && forall x :: x in s ==> before(best, x)
  {
    best :| best in s;
    assert before(best, best);
    var rest := s - {best};
    while rest != {}
      invariant best in s && rest <= s
      invariant forall x :: x in s - rest ==> before(best, x)
      decreases rest
    {
      var x :| x in rest;
      assert before(x, x);
      if !before(best, x) {
        best := x;
      }
      rest := rest - {x};
    }
  }

  method TakePage<T(==,!new)>(s: set<T>, before: (T, T) -> bool, limit: nat) returns (q: seq<T>)
    requires TotalPreorder(s, before)
    ensures IsPage(q, s, before, limit)
  {
    q := [];
    var rest := s;
    while |q| < limit && rest != {}
      invariant |q| <= limit && Distinct(q) && rest <= s
      invariant forall x :: x in s <==> x in q || x in rest
      invariant forall x :: x in q ==> x !in rest
      invariant |q| + |rest| == |s|
      invariant forall i, j :: 0 <= i < j < |q| ==> before(q[i], q[j])
      invariant forall i, x :: 0 <= i < |q| && x in rest ==> before(q[i], x)
      decreases rest
    {
      var x := Foremost(rest, before);
      q, rest := q + [x], rest - {x};
    }
  }

  // ------------------------------------------------- captures

  predicate CapturedAfter(captures: map<nat, CaptureRow>, fqdn: string, cutoff: int) {
    exists id | id in captures :: captures[id].result.fqdn == fqdn && captures[id].result.capturedAt > cutoff
  }

  /** Hosts with an alert and no capture after `cutoff`, which is now less the recapture window. */
  function PendingHosts(db: Db, cutoff: int): set<string> {
    set k | k in db.matches && db.matches[k].isAlert && !CapturedAfter(db.captures, k.fqdn, cutoff) :: k.fqdn
  }

  predicate IsAlertOf(matches: map<Key, MatchRow>, k: Key, fqdn: string) {
    k in matches && matches[k].isAlert && k.fqdn == fqdn
  }

  /** max(score) of one host's alerts is at least that of another's. */
  predicate ScoresAtLeast(matches: map<Key, MatchRow>, f: string, g: string) {
    forall k | k in matches :: IsAlertOf(matches, k, g) ==>
      exists l | l in matches :: IsAlertOf(matches, l, f) && matches[l].score >= matches[k].score
  }

  /** min(first_seen_at) of one host's alerts is at least that of another's. */
  predicate SeenAtLeast(matches: map<Key, MatchRow>, f: string, g: string) {
    forall l | l in matches :: IsAlertOf(matches, l, f) ==>
      exists k | k in matches :: IsAlertOf(matches, k, g) && matches[l].firstSeenAt >= matches[k].firstSeenAt
  }

  /** ORDER BY max(score) DESC, min(first_seen_at) DESC. */
  predicate HostBefore(matches: map<Key, MatchRow>, f: string, g: string) {
    ScoresAtLeast(matches, f, g) && (ScoresAtLeast(matches, g, f) ==> SeenAtLeast(matches, f, g))
  }

  function HostOrder(matches: map<Key, MatchRow>): (string, string) -> bool {
    (f, g) => HostBefore(matches, f, g)
  }

  lemma ScoresTransitive(matches: map<Key, MatchRow>, f: string, g: string, h: string)
    requires ScoresAtLeast(matches, f, g) && ScoresAtLeast(matches, g, h)
    ensures ScoresAtLeast(matches, f, h)
  {
  }

  lemma SeenTransitive(matches: map<Key, MatchRow>, f: string, g: string, h: string)
    requires SeenAtLeast(matches, f, g) && SeenAtLeast(matches, g, h)
    ensures SeenAtLeast(matches, f, h)
  {
  }

  lemma HostOrderTotal(matches: map<Key, MatchRow>, f: string, g: string)
    ensures HostBefore(matches, f, g) || HostBefore(matches, g, f)
  {
    ScoresTotal(matches, f, g);
    SeenTotal(matches, f, g);
  }

  lemma ScoresTotal(matches: map<Key, MatchRow>, f: string, g: string)
    ensures ScoresAtLeast(matches, f, g) || ScoresAtLeast(matches, g, f)
  {
    if !ScoresAtLeast(matches, f, g) {
      var k :| k in matches && IsAlertOf(matches, k, g)
               && !exists l | l in matches :: IsAlertOf(matches, l, f) && matches[l].score >= matches[k].score;
      assert ScoresAtLeast(matches, g, f);
    }
  }

  lemma SeenTotal(matches: map<Key, MatchRow>, f: string, g: string)
    ensures SeenAtLeast(matches, f, g) || SeenAtLeast(matches, g, f)
  {
    if !SeenAtLeast(matches, f, g) {
      var l :| l in matches && IsAlertOf(matches, l, f)
               && !exists k | k in matches ::
                 IsAlertOf(matches, k, g) && matches[l].firstSeenAt >= matches[k].firstSeenAt;
      assert SeenAtLeast(matches, g, f);
    }
  }

  lemma HostOrderTransitive(matches: map<Key, MatchRow>, f: string, g: string, h: string)
    requires HostBefore(matches, f, g) && HostBefore(matches, g, h)
    ensures HostBefore(matches, f, h)
  {
    ScoresTransitive(matches, f, g, h);
    if ScoresAtLeast(matches, h, f) {
      ScoresTransitive(matches, h, f, g);
      ScoresTransitive(matches, g, h, f);
      SeenTransitive(matches, f, g, h);
    }
  }

  // ------------------------------------------------- verdicts

  predicate Judges(v: VerdictRow, id: nat, backend: string, model: Option<string>) {
    v.captureId == id && v.backend == backend && (model.None? || v.model == model)
  }

  /** Captures with no verdict from this backend and model; no model stands for any model. */
  function PendingCaptureIds(db: Db, backend: string, model: Option<string>): set<nat> {
    set id | id in db.captures && !exists v | v in db.verdicts :: Judges(db.verdicts[v], id, backend, model)
  }

  /** UNIQUE (capture_id, backend, model) as SQL reads it: a NULL model conflicts with nothing. */
  predicate Conflicts(verdicts: map<nat, VerdictRow>, id: nat, backend: string, model: Option<string>) {
    model.Some? && exists v | v in verdicts ::
      verdicts[v].captureId == id && verdicts[v].backend == backend && verdicts[v].model == model
  }

  function NewVerdict(id: nat, fqdn: string, backend: string, model: Option<string>, verdict: Option<Verdict>,
                      now: int, error: Option<string>): VerdictRow {
    VerdictRow(id, fqdn, backend, model,
               if verdict.Some? then verdict.value.kind else ErrorRow,
               if verdict.Some? then verdict.value.confidence else 0.0,
               if verdict.Some? then verdict.value.brand else None,
               if verdict.Some? then Some(verdict.value.evidence) else None,
               now, error, None)
  }

  function AddCapture(db: Db, row: CaptureRow): Db {
    db.(captures := db.captures[db.nextCapture := row], nextCapture := db.nextCapture + 1)
  }

  /** A skipped row still uses up a sequence number. */
  function AddVerdict(db: Db, row: VerdictRow): Db {
    if Conflicts(db.verdicts, row.captureId, row.backend, row.model) then db.(nextVerdict := db.nextVerdict + 1)
    else db.(verdicts := db.verdicts[db.nextVerdict := row], nextVerdict := db.nextVerdict + 1)
  }

  datatype Policy = Policy(labels: set<Label>, minConfidence: real)

  predicate KnownByScoring(matches: map<Key, MatchRow>, fqdn: string) {
    exists k | k in matches :: k.fqdn == fqdn
  }

  predicate Meets(p: Policy, v: VerdictRow) {
    v.kind in p.labels && v.confidence >= p.minConfidence
  }

  /** Verdicts the policy wants announced and nobody has been told about. */
  function PendingAlertIds(db: Db, p: Policy): set<nat> {
    set v | v in db.verdicts && db.verdicts[v].captureId in db.captures && db.verdicts[v].alertedAt.None?
            && KnownByScoring(db.matches, db.verdicts[v].fqdn) && Meets(p, db.verdicts[v])
  }

  function Alerted(db: Db, id: nat, now: int): Db {
    if id in db.verdicts then db.(verdicts := db.verdicts[id := db.verdicts[id].(alertedAt := Some(now))]) else db
  }

  function Clearable(db: Db, backend: string, model: Option<string>): set<nat> {
    set v | v in db.verdicts && db.verdicts[v].backend == backend && (model.None? || db.verdicts[v].model == model)
  }

  function FailedVerdicts(db: Db, backend: string): set<nat> {
    set v | v in db.verdicts && db.verdicts[v].backend == backend && db.verdicts[v].kind.ErrorRow?
  }

  /** ORDER BY verdict_id DESC. */
  predicate Newer(a: nat, b: nat) { a >= b }

  predicate AlertBefore(verdicts: map<nat, VerdictRow>, a: nat, b: nat) {
    a in verdicts && b in verdicts &&
    (verdicts[a].confidence > verdicts[b].confidence || (verdicts[a].confidence == verdicts[b].confidence && a >= b))
  }

  predicate CapturedBefore(captures: map<nat, CaptureRow>, a: nat, b: nat) {
    a in captures && b in captures && captures[a].result.capturedAt >= captures[b].result.capturedAt
  }

  function CaptureOrder(captures: map<nat, CaptureRow>): (nat, nat) -> bool {
    (a: nat, b: nat) => CapturedBefore(captures, a, b)
  }

  function AlertOrder(verdicts: map<nat, VerdictRow>): (nat, nat) -> bool {
    (a: nat, b: nat) => AlertBefore(verdicts, a, b)
  }

  // ------------------------------------------------- the store

  datatype PendingClassification = PendingClassification(captureId: nat, capture: CaptureRow)

  class MatchStore {
    const alertThreshold: real
    var certificates: map<string, Certificate>
    var matches: map<Key, MatchRow>
    var captures: map<nat, CaptureRow>
    var nextCapture: nat
    var verdicts: map<nat, VerdictRow>
    var nextVerdict: nat

    constructor (alertThreshold: real)
      ensures this.alertThreshold == alertThreshold && Snapshot() == Db(map[], map[], map[], 0, map[], 0)
    {
      this.alertThreshold := alertThreshold;
      certificates, matches, captures, nextCapture, verdicts, nextVerdict := map[], map[], map[], 0, map[], 0;
    }

    function Snapshot(): Db
      reads this
    {
      Db(certificates, matches, captures, nextCapture, verdicts, nextVerdict)
    }

    /** The batch's first sightings in order, through a dictionary keyed by (hostname, brand). */
    method Dedupe(rows: seq<Sighting>) returns (firsts: seq<Sighting>)
      ensures firsts == Firsts(rows, |rows|)
    {
      var order: seq<Key>, unique: map<Key, Sighting> := [], map[];
      firsts := [];
      for i := 0 to |rows|
        invariant unique.Keys == Keys(rows[..i])
        invariant forall k :: k in order ==> k in unique
        invariant |order| == |firsts| && forall j :: 0 <= j < |order| ==> unique[order[j]] == firsts[j]
        invariant firsts == Firsts(rows, i)
      {
        assert rows[..i + 1] == rows[..i] + [rows[i]];
        KeysConcat(rows[..i], [rows[i]]);
        KeyOfSingle(rows[i]);
        FirstMeansNewKey(rows, i);
        if KeyOf(rows[i]) !in unique {
          order, unique := order + [KeyOf(rows[i])], unique[KeyOf(rows[i]) := rows[i]];
          firsts := firsts + [unique[KeyOf(rows[i])]];
        }
      }
      assert rows[..|rows|] == rows;
    }

    method Write(rows: seq<Sighting>) returns (inserted: nat)
      modifies this
      ensures Snapshot() == WriteRows(old(Snapshot()), alertThreshold, rows)
      ensures inserted == |matches| - |old(matches)|
    {
      if rows == [] {
        return 0;
      }
      var firsts := Dedupe(rows);
      var certs: map<string, Certificate> := map[];
      for i := 0 to |firsts|
        invariant certs == BatchCertificates(firsts[..i])
      {
        assert firsts[..i + 1][..i] == firsts[..i];
        certs := certs[firsts[i].cert.sha256 := firsts[i].cert];
      }
      assert firsts[..|firsts|] == firsts;
      certificates := certs + certificates;
      var before := |matches|;
      ghost var start := matches;
      for i := 0 to |firsts|
        invariant InsertMatches(matches, alertThreshold, firsts[i..]) == InsertMatches(start, alertThreshold, firsts)
        invariant captures == old(captures) && nextCapture == old(nextCapture)
        invariant verdicts == old(verdicts) && nextVerdict == old(nextVerdict)
        invariant certificates == certs + old(certificates)
        invariant before <= |matches|
      {
        assert firsts[i..][1..] == firsts[i + 1..];
        if KeyOf(firsts[i]) !in matches {
          matches := matches[KeyOf(firsts[i]) := RowOf(alertThreshold, firsts[i])];
        }
      }
      FirstsInsertAlike(start, alertThreshold, rows, |rows|);
      assert rows[..|rows|] == rows;
      inserted := |matches| - before;
    }

    method PendingCaptures(limit: nat, cutoff: int) returns (hosts: seq<string>)
      ensures IsPage(hosts, PendingHosts(Snapshot(), cutoff), HostOrder(matches), limit)
    {
      var pending := PendingHosts(Snapshot(), cutoff);
      PendingHostsOrdered(Snapshot(), cutoff);
      hosts := TakePage(pending, HostOrder(matches), limit);
    }

    /** Of these hostnames, the ones with no capture after `cutoff`, order preserved. */
    method Uncaptured(fqdns: seq<string>, cutoff: int) returns (todo: seq<string>)
      ensures todo == FilterUncaptured(captures, fqdns, cutoff)
    {
      todo := [];
      for i := 0 to |fqdns|
        invariant todo == FilterUncaptured(captures, fqdns[..i], cutoff)
      {
        assert fqdns[..i + 1][..i] == fqdns[..i];
        if !CapturedAfter(captures, fqdns[i], cutoff) {
          todo := todo + [fqdns[i]];
        }
      }
      assert fqdns[..|fqdns|] == fqdns;
    }

    method SaveCapture(result: CaptureResult, vantage: Option<string>)
      modifies this
      ensures Snapshot() == AddCapture(old(Snapshot()), CaptureRow(result, vantage))
    {
      captures := captures[nextCapture := CaptureRow(result, vantage)];
      nextCapture := nextCapture + 1;
    }

    method PendingClassifications(limit: nat, backend: string, model: Option<string>)
      returns (ids: seq<nat>, rows: seq<PendingClassification>)
      ensures IsPage(ids, PendingCaptureIds(Snapshot(), backend, model), CaptureOrder(captures), limit)
      ensures |rows| == |ids|
      ensures forall i ::
                0 <= i < |ids| ==> ids[i] in captures && rows[i] == PendingClassification(ids[i], captures[ids[i]])
    {
      var table := captures;
      ids := TakePage(PendingCaptureIds(Snapshot(), backend, model), CaptureOrder(captures), limit);
      rows := seq(|ids|, i requires 0 <= i < |ids| && ids[i] in table => PendingClassification(ids[i], table[ids[i]]));
    }

    method SaveVerdict(row: VerdictRow) returns (written: bool)
      requires row.alertedAt.None?
      modifies this
      ensures Snapshot() == AddVerdict(old(Snapshot()), row)
      ensures written <==> !Conflicts(old(verdicts), row.captureId, row.backend, row.model)
    {
      written := !Conflicts(verdicts, row.captureId, row.backend, row.model);
      if written {
        verdicts := verdicts[nextVerdict := row];
      }
      nextVerdict := nextVerdict + 1;
    }

    method PendingAlerts(p: Policy, limit: nat) returns (ids: seq<nat>)
      ensures IsPage(ids, PendingAlertIds(Snapshot(), p), AlertOrder(verdicts), limit)
    {
      ids := TakePage(PendingAlertIds(Snapshot(), p), AlertOrder(verdicts), limit);
    }

    method MarkAlerted(id: nat, now: int)
      modifies this
      ensures Snapshot() == Alerted(old(Snapshot()), id, now)
    {
      if id in verdicts {
        verdicts := verdicts[id := verdicts[id].(alertedAt := Some(now))];
      }
    }

    /** Drops the newest `limit` verdicts of a backend and model; without a limit, up to a million. */
    method ClearVerdicts(backend: string, model: Option<string>, limit: Option<nat>)
      returns (count: nat, ghost cleared: seq<nat>)
      modifies this
      ensures IsPage(cleared, Clearable(old(Snapshot()), backend, model), Newer,
                     if limit.Some? then limit.value else 1_000_000)
      ensures count == |cleared|
      ensures Snapshot() == old(Snapshot()).(verdicts := old(verdicts) - Elements(cleared))
    {
      var ids := TakePage(Clearable(Snapshot(), backend, model), Newer, if limit.Some? then limit.value else 1_000_000);
      cleared := ids;
      count := |ids|;
      verdicts := verdicts - Elements(ids);
    }

    method ClearFailedVerdicts(backend: string) returns (count: nat)
      modifies this
      ensures Snapshot() == old(Snapshot()).(verdicts := old(verdicts) - FailedVerdicts(old(Snapshot()), backend))
      ensures count == |FailedVerdicts(old(Snapshot()), backend)|
    {
      var failed := FailedVerdicts(Snapshot(), backend);
      var before := |verdicts|;
      assert verdicts.Keys == (verdicts - failed).Keys + failed;
      verdicts := verdicts - failed;
      count := before - |verdicts|;
    }
  }

  function FilterUncaptured(captures: map<nat, CaptureRow>, fqdns: seq<string>, cutoff: int): seq<string> {
    if fqdns == [] then [] else
      var last := fqdns[|fqdns| - 1];
      FilterUncaptured(captures, fqdns[..|fqdns| - 1], cutoff)
      + if CapturedAfter(captures, last, cutoff) then [] else [last]
  }

  lemma FirstMeansNewKey(rows: seq<Sighting>, i: nat)
    requires i < |rows|
    ensures IsFirst(rows, i) <==> KeyOf(rows[i]) !in Keys(rows[..i])
  {
    assert forall j :: 0 <= j < i ==> rows[..i][j] == rows[j];
    if KeyOf(rows[i]) in Keys(rows[..i]) {
      var r :| r in rows[..i] && KeyOf(r) == KeyOf(rows[i]);
      var j :| 0 <= j < i && rows[..i][j] == r;
    }
    if !IsFirst(rows, i) {
      var j :| 0 <= j < i && KeyOf(rows[j]) == KeyOf(rows[i]);
      assert rows[..i][j] in rows[..i];
    }
  }

  lemma PendingHostsOrdered(db: Db, cutoff: int)
    ensures TotalPreorder(PendingHosts(db, cutoff), HostOrder(db.matches))
  {
    var pending := PendingHosts(db, cutoff);
    forall f, g | f in pending && g in pending
      ensures HostBefore(db.matches, f, g) || HostBefore(db.matches, g, f)
    {
      HostOrderTotal(db.matches, f, g);
    }
    forall f, g, h | HostBefore(db.matches, f, g) && HostBefore(db.matches, g, h)
      ensures HostBefore(db.matches, f, h)
    {
      HostOrderTransitive(db.matches, f, g, h);
    }
  }
}
