/** Ingestion (ingest/pipeline.py): dedup and batching, against the plain first-sighting fold. */
module Pipeline {
  import opened Wrappers
  import opened Text
  import opened Rounding
  import opened Scoring
  import opened Certificates
  import opened Store

  /** `scorer.score` with its default floor, as the pipeline is handed it. */
  type ScoreFn = (string, Option<string>) -> seq<Match>

  function Defaults(s: Scorer): ScoreFn {
    (raw, issuer) => Score(s, raw, issuer, None, None)
  }

  /** When the set of seen hostnames counts as full. The results below hold however that is decided. */
  type FullFn = set<string> -> bool

  const SEEN_CAPACITY := 1_000_000

  const AtCapacity: FullFn := seen => |seen| >= SEEN_CAPACITY

  /** A feed message after parsing. */
  datatype Message = NotACertificate | Malformed | Observed(cert: Certificate)

  datatype PipelineStats = PipelineStats(messages: nat, certificates: nat, malformed: nat, hostnamesScored: nat,
                                         matchesBuffered: nat, matchesNew: nat)

  /** One hostname of one certificate. */
  datatype Name = Name(cert: Certificate, hostname: string)

  function NamesOf(cert: Certificate): (names: seq<Name>)
    ensures |names| == |cert.domains|
    ensures forall i :: 0 <= i < |names| ==> names[i] == Name(cert, cert.domains[i])
  {
    seq(|cert.domains|, i requires 0 <= i < |cert.domains| => Name(cert, cert.domains[i]))
  }

  function Stream(messages: seq<Message>): seq<Name> {
    if messages == [] then [] else
      (if messages[0].Observed? then NamesOf(messages[0].cert) else []) + Stream(messages[1..])
  }

  /** The rows one hostname contributes. */
  function RowsOf(score: ScoreFn, n: Name): (rows: seq<Sighting>)
    ensures var found := score(n.hostname, n.cert.issuerOrg);
            |rows| == |found| && forall i :: 0 <= i < |rows| ==> rows[i] == Sighting(n.cert, found[i])
  {
    var found := score(n.hostname, n.cert.issuerOrg);
    seq(|found|, i requires 0 <= i < |found| => Sighting(n.cert, found[i]))
  }

  /** Everything, with no dedup. */
  function AllRows(score: ScoreFn, names: seq<Name>): seq<Sighting> {
    if names == [] then [] else RowsOf(score, names[0]) + AllRows(score, names[1..])
  }

  /** `seen` is cleared when full, then takes the new hostname. */
  function Remember(seen: set<string>, full: FullFn, hostname: string): set<string> {
    (if full(seen) then {} else seen) + {hostname}
  }

  function SeenAfter(full: FullFn, seen: set<string>, names: seq<Name>): set<string>
    decreases |names|
  {
    if names == [] then seen
    else if names[0].hostname in seen then SeenAfter(full, seen, names[1..])
    else SeenAfter(full, Remember(seen, full, names[0].hostname), names[1..])
  }

  /** What gets past the bounded `seen` set. */
  function KeptRows(score: ScoreFn, full: FullFn, seen: set<string>, names: seq<Name>): seq<Sighting>
    decreases |names|
  {
    if names == [] then []
    else if names[0].hostname in seen then KeptRows(score, full, seen, names[1..])
    else RowsOf(score, names[0]) + KeptRows(score, full, Remember(seen, full, names[0].hostname), names[1..])
  }

  /** How many hostnames get past it. */
  function KeptCount(full: FullFn, seen: set<string>, names: seq<Name>): nat
    decreases |names|
  {
    if names == [] then 0
    else if names[0].hostname in seen then KeptCount(full, seen, names[1..])
    else 1 + KeptCount(full, Remember(seen, full, names[0].hostname), names[1..])
  }

  lemma {:induction false} SeenConcat(full: FullFn, seen: set<string>, a: seq<Name>, b: seq<Name>)
    ensures SeenAfter(full, seen, a + b) == SeenAfter(full, SeenAfter(full, seen, a), b)
    ensures KeptCount(full, seen, a + b) == KeptCount(full, seen, a) + KeptCount(full, SeenAfter(full, seen, a), b)
    decreases |a|
  {
    if a == [] {
      assert a + b == b;
    } else {
      assert (a + b)[1..] == a[1..] + b;
      SeenConcat(full, if a[0].hostname in seen then seen else Remember(seen, full, a[0].hostname), a[1..], b);
    }
  }

  lemma {:induction false} KeptConcat(score: ScoreFn, full: FullFn, seen: set<string>, a: seq<Name>, b: seq<Name>)
    ensures KeptRows(score, full, seen, a + b)
         == KeptRows(score, full, seen, a) + KeptRows(score, full, SeenAfter(full, seen, a), b)
    decreases |a|
  {
    if a == [] {
      assert a + b == b;
    } else {
      assert (a + b)[1..] == a[1..] + b;
      KeptConcat(score, full, if a[0].hostname in seen then seen else Remember(seen, full, a[0].hostname), a[1..], b);
    }
  }

  /** How many messages the loop takes: the limit is only looked at after a message. */
  function Taken(messages: seq<Message>, maxMessages: Option<nat>): seq<Message> {
    if maxMessages.None? then messages
    else messages[..Min(|messages|, if maxMessages.value < 1 then 1 else maxMessages.value)]
  }

  /** Scores one hostname and appends its matches to the buffer. */
  method BufferMatches(n: Name, score: ScoreFn, buffer0: seq<Sighting>) returns (buffer: seq<Sighting>)
    ensures buffer == buffer0 + RowsOf(score, n)
  {
    buffer := buffer0;
    var found := score(n.hostname, n.cert.issuerOrg);
    for j := 0 to |found|
      invariant buffer == buffer0 + RowsOf(score, n)[..j]
    {
      buffer := buffer + [Sighting(n.cert, found[j])];
    }
  }

  function NextSeen(seen: set<string>, full: FullFn, hostname: string): set<string> {
    if hostname in seen then seen else Remember(seen, full, hostname)
  }

  lemma NameStep(score: ScoreFn, full: FullFn, seen0: set<string>, names: seq<Name>, i: nat)
    requires i < |names|
    ensures var seen, n := SeenAfter(full, seen0, names[..i]), names[i];
            && SeenAfter(full, seen0, names[..i + 1]) == NextSeen(seen, full, n.hostname)
            && KeptCount(full, seen0, names[..i + 1])
               == KeptCount(full, seen0, names[..i]) + (if n.hostname in seen then 0 else 1)
            && KeptRows(score, full, seen0, names[..i + 1])
               == KeptRows(score, full, seen0, names[..i]) + if n.hostname in seen then [] else RowsOf(score, n)
  {
    var seen, n := SeenAfter(full, seen0, names[..i]), names[i];
    assert names[..i + 1] == names[..i] + [n];
    SeenConcat(full, seen0, names[..i], [n]);
    KeptConcat(score, full, seen0, names[..i], [n]);
    assert [n][1..] == [] && RowsOf(score, n) + [] == RowsOf(score, n);
  }

  /** The loop over a certificate's hostnames. */
  method ScoreCertificate(cert: Certificate, score: ScoreFn, full: FullFn, seen0: set<string>, buffer0: seq<Sighting>)
    returns (seen: set<string>, buffer: seq<Sighting>, scored: nat)
    ensures seen == SeenAfter(full, seen0, NamesOf(cert))
    ensures buffer == buffer0 + KeptRows(score, full, seen0, NamesOf(cert))
    ensures scored == KeptCount(full, seen0, NamesOf(cert))
  {
    seen, buffer, scored := seen0, buffer0, 0;
    ghost var names := NamesOf(cert);
    for i := 0 to |cert.domains|
      invariant seen == SeenAfter(full, seen0, names[..i])
      invariant buffer == buffer0 + KeptRows(score, full, seen0, names[..i])
      invariant scored == KeptCount(full, seen0, names[..i])
    {
      NameStep(score, full, seen0, names, i);
      var unseen;
      seen, buffer, unseen := ScoreName(Name(cert, cert.domains[i]), score, full, seen, buffer);
      scored := scored + if unseen then 1 else 0;
    }
    assert names[..|names|] == names;
  }

  /** A hostname already seen is skipped; another is remembered, in an emptied set if that is full, and scored. */
  method ScoreName(n: Name, score: ScoreFn, full: FullFn, seen0: set<string>, buffer0: seq<Sighting>)
    returns (seen: set<string>, buffer: seq<Sighting>, unseen: bool)
    ensures unseen <==> n.hostname !in seen0
    ensures seen == NextSeen(seen0, full, n.hostname)
    ensures buffer == buffer0 + if unseen then RowsOf(score, n) else []
  {
    seen, buffer, unseen := seen0, buffer0, n.hostname !in seen0;
    if unseen {
      if full(seen) {
        seen := {};
      }
      seen := seen + {n.hostname};
      buffer := BufferMatches(n, score, buffer);
    }
  }

  function MessageNames(m: Message): seq<Name> {
    if m.Observed? then NamesOf(m.cert) else []
  }

  lemma {:induction false} StreamConcat(a: seq<Message>, b: seq<Message>)
    ensures Stream(a + b) == Stream(a) + Stream(b)
  {
    if a == [] {
      assert a + b == b;
    } else {
      assert (a + b)[1..] == a[1..] + b;
      StreamConcat(a[1..], b);
    }
  }

  lemma MessageStep(score: ScoreFn, full: FullFn, messages: seq<Message>, i: nat)
    requires i < |messages|
    ensures var before, names := Stream(messages[..i]), MessageNames(messages[i]);
            && SeenAfter(full, {}, Stream(messages[..i + 1])) == SeenAfter(full, SeenAfter(full, {}, before), names)
            && KeptRows(score, full, {}, Stream(messages[..i + 1]))
               == KeptRows(score, full, {}, before) + KeptRows(score, full, SeenAfter(full, {}, before), names)
  {
    var m := messages[i];
    assert messages[..i + 1] == messages[..i] + [m];
    StreamConcat(messages[..i], [m]);
    assert Stream([m]) == MessageNames(m) by { assert [m][1..] == []; }
    SeenConcat(full, {}, Stream(messages[..i]), MessageNames(m));
    KeptConcat(score, full, {}, Stream(messages[..i]), MessageNames(m));
  }

  /** One message: counted, parsed, and its hostnames scored. */
  method TakeMessage(m: Message, score: ScoreFn, full: FullFn, seen0: set<string>, buffer0: seq<Sighting>,
                     stats0: PipelineStats)
    returns (seen: set<string>, buffer: seq<Sighting>, stats: PipelineStats)
    ensures seen == SeenAfter(full, seen0, MessageNames(m))
    ensures buffer == buffer0 + KeptRows(score, full, seen0, MessageNames(m))
    ensures stats.messages == stats0.messages + 1
    ensures stats.certificates == stats0.certificates + if m.Observed? then 1 else 0
    ensures stats.malformed == stats0.malformed + if m.Malformed? then 1 else 0
    ensures stats.matchesBuffered == stats0.matchesBuffered + |KeptRows(score, full, seen0, MessageNames(m))|
    ensures stats.hostnamesScored == stats0.hostnamesScored + KeptCount(full, seen0, MessageNames(m))
    ensures stats.matchesNew == stats0.matchesNew
  {
    seen, buffer, stats := seen0, buffer0, stats0.(messages := stats0.messages + 1);
    if m.Malformed? {
      stats := stats.(malformed := stats.malformed + 1);
    } else if m.Observed? {
      var scored := 0;
      seen, buffer, scored := ScoreCertificate(m.cert, score, full, seen, buffer);
      stats := stats.(certificates := stats.certificates + 1, hostnamesScored := stats.hostnamesScored + scored,
                      matchesBuffered := stats.matchesBuffered + (|buffer| - |buffer0|));
    }
  }

  /**
   * `run_pipeline`. `timer(i)` is whether the flush interval has passed after message `i`; a cancelled
   * run is one whose message stream ends early. Whatever the flush points, the table ends up as if every
   * row that got past `seen` had been inserted alone.
   */
  method RunPipeline(messages: seq<Message>, score: ScoreFn, store: MatchStore, timer: nat -> bool, flushMaxRows: int,
                     maxMessages: Option<nat>, full: FullFn)
    returns (stats: PipelineStats, ghost batches: seq<seq<Sighting>>)
    modifies store
    ensures store.Snapshot() == WriteBatches(old(store.Snapshot()), store.alertThreshold, batches)
    ensures Flat(batches) == KeptRows(score, full, {}, Stream(Taken(messages, maxMessages)))
    ensures store.matches == InsertMatches(old(store.matches), store.alertThreshold, Flat(batches))
    ensures old(CertificatesPresent(store.Snapshot())) ==> CertificatesPresent(store.Snapshot())
    ensures stats.matchesNew == |store.matches| - |old(store.matches)|
    ensures stats.matchesBuffered == |Flat(batches)|
    ensures stats.messages == |Taken(messages, maxMessages)|
  {
    var buffer, seen;
    buffer, stats, seen, batches := Consume(messages, score, store, timer, flushMaxRows, maxMessages, full);
    assert messages[..stats.messages] == Taken(messages, maxMessages);
    buffer, stats, batches := FlushIfDue(store, buffer, true, stats, old(store.Snapshot()), batches);
    assert Flat(batches) + [] == Flat(batches);
    BatchingInvisible(old(store.Snapshot()), store.alertThreshold, batches);
  }

  /** After `n` messages: the seen set, the rows that got past it, and their number. */
  ghost predicate Caught(score: ScoreFn, full: FullFn, messages: seq<Message>, n: nat, seen: set<string>,
                         rows: seq<Sighting>, count: nat)
    requires n <= |messages|
  {
    && seen == SeenAfter(full, {}, Stream(messages[..n]))
    && rows == KeptRows(score, full, {}, Stream(messages[..n]))
    && count == |rows|
  }

  lemma CatchUp(score: ScoreFn, full: FullFn, messages: seq<Message>, n: nat, seen: set<string>, rows: seq<Sighting>,
                count: nat, seen': set<string>, rows': seq<Sighting>, count': nat)
    requires n < |messages| && Caught(score, full, messages, n, seen, rows, count)
    requires seen' == SeenAfter(full, seen, MessageNames(messages[n]))
    requires rows' == rows + KeptRows(score, full, seen, MessageNames(messages[n]))
    requires count' == count + |KeptRows(score, full, seen, MessageNames(messages[n]))|
    ensures Caught(score, full, messages, n + 1, seen', rows', count')
  {
    MessageStep(score, full, messages, n);
  }

  lemma NothingCaught(score: ScoreFn, full: FullFn, messages: seq<Message>)
    ensures Caught(score, full, messages, 0, {}, Flat([]) + [], 0)
  {
    assert messages[..0] == [];
  }

  /** The message loop; what is left in the buffer is for the final flush. */
  method Consume(messages: seq<Message>, score: ScoreFn, store: MatchStore, timer: nat -> bool, flushMaxRows: int,
                 maxMessages: Option<nat>, full: FullFn)
    returns (buffer: seq<Sighting>, stats: PipelineStats, seen: set<string>, ghost batches: seq<seq<Sighting>>)
    modifies store
    ensures store.Snapshot() == WriteBatches(old(store.Snapshot()), store.alertThreshold, batches)
    ensures stats.messages == |Taken(messages, maxMessages)|
    ensures Caught(score, full, messages, stats.messages, seen, Flat(batches) + buffer, stats.matchesBuffered)
    ensures stats.matchesNew == |store.matches| - |old(store.matches)|
  {
    stats := PipelineStats(0, 0, 0, 0, 0, 0);
    buffer, batches, seen := [], [], {};
    ghost var start, size := store.Snapshot(), |store.matches|;
    NothingCaught(score, full, messages);
    var i := 0;
    while i < |messages|
      invariant i <= |messages| && stats.messages == i
      invariant maxMessages.Some? && i > 0 ==> i < maxMessages.value
      invariant Caught(score, full, messages, i, seen, Flat(batches) + buffer, stats.matchesBuffered)
      invariant stats.matchesNew == |store.matches| - size
      invariant store.Snapshot() == WriteBatches(start, store.alertThreshold, batches)
    {
      i := i + 1;
      seen, buffer, stats, batches :=
        TakeNext(messages, i - 1, score, store, timer(i), flushMaxRows, full, seen, buffer, stats, start, batches);
      if maxMessages.Some? && stats.messages >= maxMessages.value {
        break;
      }
    }
  }

  lemma Regroup<T>(a: seq<T>, b: seq<T>, c: seq<T>)
    ensures a + (b + c) == a + b + c
  {
  }

  /** One message, then a flush if one is due. */
  method TakeAndFlush(m: Message, score: ScoreFn, store: MatchStore, timeIsUp: bool, flushMaxRows: int, full: FullFn,
                      seen0: set<string>, buffer0: seq<Sighting>, stats0: PipelineStats, ghost start: Db,
                      ghost batches0: seq<seq<Sighting>>)
    returns (seen: set<string>, buffer: seq<Sighting>, stats: PipelineStats, ghost batches: seq<seq<Sighting>>)
    requires store.Snapshot() == WriteBatches(start, store.alertThreshold, batches0)
    modifies store
    ensures store.Snapshot() == WriteBatches(start, store.alertThreshold, batches)
    ensures seen == SeenAfter(full, seen0, MessageNames(m))
    ensures Flat(batches) + buffer == Flat(batches0) + buffer0 + KeptRows(score, full, seen0, MessageNames(m))
    ensures stats.messages == stats0.messages + 1
    ensures stats.matchesBuffered == stats0.matchesBuffered + |KeptRows(score, full, seen0, MessageNames(m))|
    ensures stats.matchesNew - stats0.matchesNew == |store.matches| - |old(store.matches)|
  {
    seen, buffer, stats := TakeMessage(m, score, full, seen0, buffer0, stats0);
    Regroup(Flat(batches0), buffer0, KeptRows(score, full, seen0, MessageNames(m)));
    buffer, stats, batches := FlushIfDue(store, buffer, |buffer| >= flushMaxRows || timeIsUp, stats, start, batches0);
  }

  /** One turn of the loop, as it moves the whole run forward. */
  method TakeNext(messages: seq<Message>, i: nat, score: ScoreFn, store: MatchStore, timeIsUp: bool, flushMaxRows: int,
                  full: FullFn, seen0: set<string>, buffer0: seq<Sighting>, stats0: PipelineStats, ghost start: Db,
                  ghost batches0: seq<seq<Sighting>>)
    returns (seen: set<string>, buffer: seq<Sighting>, stats: PipelineStats, ghost batches: seq<seq<Sighting>>)
    requires i < |messages| && Caught(score, full, messages, i, seen0, Flat(batches0) + buffer0, stats0.matchesBuffered)
    requires store.Snapshot() == WriteBatches(start, store.alertThreshold, batches0)
    modifies store
    ensures store.Snapshot() == WriteBatches(start, store.alertThreshold, batches)
    ensures Caught(score, full, messages, i + 1, seen, Flat(batches) + buffer, stats.matchesBuffered)
    ensures stats.messages == stats0.messages + 1
    ensures stats.matchesNew - stats0.matchesNew == |store.matches| - |old(store.matches)|
  {
    seen, buffer, stats, batches :=
      TakeAndFlush(messages[i], score, store, timeIsUp, flushMaxRows, full, seen0, buffer0, stats0, start, batches0);
    CatchUp(score, full, messages, i, seen0, Flat(batches0) + buffer0, stats0.matchesBuffered, seen,
            Flat(batches) + buffer, stats.matchesBuffered);
  }

  /** The inner `flush`: the buffer becomes the next batch. */
  method FlushIfDue(store: MatchStore, buffer0: seq<Sighting>, due: bool, stats0: PipelineStats, ghost start: Db,
                    ghost batches0: seq<seq<Sighting>>)
    returns (buffer: seq<Sighting>, stats: PipelineStats, ghost batches: seq<seq<Sighting>>)
    requires store.Snapshot() == WriteBatches(start, store.alertThreshold, batches0)
    modifies store
    ensures store.Snapshot() == WriteBatches(start, store.alertThreshold, batches)
    ensures Flat(batches) + buffer == Flat(batches0) + buffer0
    ensures due ==> buffer == []
    ensures stats == stats0.(matchesNew := stats.matchesNew)
    ensures stats.matchesNew - stats0.matchesNew == |store.matches| - |old(store.matches)|
  {
    buffer, stats, batches := buffer0, stats0, batches0;
    if due {
      var inserted := store.Write(buffer);
      batches := batches + [buffer];
      assert batches[..|batches| - 1] == batches0;
      buffer, stats := [], stats.(matchesNew := stats.matchesNew + inserted);
    }
  }

  // ------------------------------------------------- dedup by hostname

  function MatchKeys(found: seq<Match>): set<Key> {
    set m | m in found :: Key(m.fqdn, m.brand)
  }

  /** The issuer never decides which rows a hostname contributes, only what they say. */
  ghost predicate Stable(score: ScoreFn) {
    forall raw, i, j :: MatchKeys(score(raw, i)) == MatchKeys(score(raw, j))
  }

  lemma KeysOfRows(score: ScoreFn, n: Name)
    ensures Keys(RowsOf(score, n)) == MatchKeys(score(n.hostname, n.cert.issuerOrg))
  {
    var found, rows := score(n.hostname, n.cert.issuerOrg), RowsOf(score, n);
    forall k
      ensures k in Keys(rows) <==> k in MatchKeys(found)
    {
      if k in Keys(rows) {
        var r :| r in rows && KeyOf(r) == k;
        var i :| 0 <= i < |rows| && rows[i] == r;
        assert found[i] in found;
      }
      if k in MatchKeys(found) {
        var m :| m in found && Key(m.fqdn, m.brand) == k;
        var i :| 0 <= i < |found| && found[i] == m;
        assert rows[i] in rows;
      }
    }
  }

  /** Everything a remembered hostname could contribute, under any issuer, is already stored. */
  ghost predicate Covered(score: ScoreFn, seen: set<string>, matches: map<Key, MatchRow>) {
    forall n: Name :: n.hostname in seen ==> Keys(RowsOf(score, n)) <= matches.Keys
  }

  lemma ScoringCovers(score: ScoreFn, n: Name, m: Name)
    requires Stable(score) && n.hostname == m.hostname
    ensures Keys(RowsOf(score, n)) == Keys(RowsOf(score, m))
  {
    KeysOfRows(score, n);
    KeysOfRows(score, m);
  }

  lemma StillCovered(score: ScoreFn, full: FullFn, seen: set<string>, n: Name, matches: map<Key, MatchRow>,
                     threshold: real)
    requires Stable(score) && Covered(score, seen, matches)
    ensures Covered(score, Remember(seen, full, n.hostname), InsertMatches(matches, threshold, RowsOf(score, n)))
  {
    InsertKeeps(matches, threshold, RowsOf(score, n));
    forall m: Name | m.hostname in Remember(seen, full, n.hostname)
      ensures Keys(RowsOf(score, m)) <= InsertMatches(matches, threshold, RowsOf(score, n)).Keys
    {
      if m.hostname == n.hostname { ScoringCovers(score, n, m); }
    }
  }

  /** With a stable issuer, the bounded `seen` set is invisible whenever and however often it is cleared. */
  lemma {:induction false} DedupInvisible(score: ScoreFn, full: FullFn, seen: set<string>, names: seq<Name>,
                                          matches: map<Key, MatchRow>, threshold: real)
    requires Stable(score) && Covered(score, seen, matches)
    ensures InsertMatches(matches, threshold, KeptRows(score, full, seen, names))
         == InsertMatches(matches, threshold, AllRows(score, names))
    decreases |names|
  {
    if names != [] {
      var n, rows := names[0], RowsOf(score, names[0]);
      InsertConcat(matches, threshold, rows, AllRows(score, names[1..]));
      if n.hostname in seen {
        InsertKnown(matches, threshold, rows);
        DedupInvisible(score, full, seen, names[1..], matches, threshold);
      } else {
        var next, seen' := InsertMatches(matches, threshold, rows), Remember(seen, full, n.hostname);
        StillCovered(score, full, seen, n, matches, threshold);
        DedupInvisible(score, full, seen', names[1..], next, threshold);
        InsertConcat(matches, threshold, rows, KeptRows(score, full, seen', names[1..]));
      }
    }
  }

  /** Dedup leaves the table of this stream, starting empty, as the plain fold makes it. */
  ghost predicate Invisible(score: ScoreFn, full: FullFn, threshold: real, messages: seq<Message>) {
    InsertMatches(map[], threshold, KeptRows(score, full, {}, Stream(messages)))
      == InsertMatches(map[], threshold, AllRows(score, Stream(messages)))
  }

  lemma TwoSightings(score: ScoreFn, full: FullFn, n: Name, m: Name)
    requires n.hostname == m.hostname && n.cert.domains == m.cert.domains == [n.hostname]
    ensures var names := Stream([Observed(n.cert), Observed(m.cert)]);
            && AllRows(score, names) == RowsOf(score, n) + RowsOf(score, m)
            && KeptRows(score, full, {}, names) == RowsOf(score, n)
  {
    var messages := [Observed(n.cert), Observed(m.cert)];
    assert messages[1..] == [Observed(m.cert)] && messages[1..][1..] == [];
    assert NamesOf(n.cert) == [n] && NamesOf(m.cert) == [m];
    assert Stream(messages[1..]) == [m];
    assert Stream(messages) == [n, m] && [n, m][1..] == [m] && [m][1..] == [];
    assert n.hostname in Remember({}, full, n.hostname);
    assert KeptRows(score, full, Remember({}, full, n.hostname), [m]) == [];
    assert AllRows(score, [m]) == RowsOf(score, m);
  }

  lemma SecondIssuerLost(score: ScoreFn, full: FullFn, threshold: real, raw: string,
                         i: Option<string>, j: Option<string>, k: Key)
    returns (messages: seq<Message>)
    requires k in MatchKeys(score(raw, j)) && k !in MatchKeys(score(raw, i))
    ensures !Invisible(score, full, threshold, messages)
  {
    var c, d := Certificate("c", 0, i, 0, 0, None, [raw]), Certificate("d", 0, j, 0, 0, None, [raw]);
    messages := [Observed(c), Observed(d)];
    var n, m := Name(c, raw), Name(d, raw);
    TwoSightings(score, full, n, m);
    KeysOfRows(score, n);
    KeysOfRows(score, m);
    KeysConcat(RowsOf(score, n), RowsOf(score, m));
    InsertKeeps(map[], threshold, RowsOf(score, n));
    InsertKeeps(map[], threshold, RowsOf(score, n) + RowsOf(score, m));
  }

  /**
   * The exact condition: dropping repeated hostnames never shows, on any stream, if and only if the issuer never
   * decides storage.
   */
  lemma DedupInvisibleIff(score: ScoreFn, full: FullFn, threshold: real)
    ensures (forall messages :: Invisible(score, full, threshold, messages)) <==> Stable(score)
  {
    if Stable(score) {
      forall messages
        ensures Invisible(score, full, threshold, messages)
      {
        DedupInvisible(score, full, {}, Stream(messages), map[], threshold);
      }
    } else {
      var raw, i, j :| MatchKeys(score(raw, i)) != MatchKeys(score(raw, j));
      var a, b := MatchKeys(score(raw, i)), MatchKeys(score(raw, j));
      if k :| k in b && k !in a {
        var messages := SecondIssuerLost(score, full, threshold, raw, i, j, k);
      } else {
        assert exists k :: k in a && k !in b;
        var k :| k in a && k !in b;
        var messages := SecondIssuerLost(score, full, threshold, raw, j, i, k);
      }
    }
  }

  // ------------------------------------------------- the scorer's own stability

  lemma ScorerKeys(s: Scorer, raw: string, issuer: Option<string>, k: Key)
    ensures k in MatchKeys(Score(s, raw, issuer, None, None)) <==>
              NormalizeHostname(raw) == Some(k.fqdn) && k.brand in Brands(Score(s, raw, issuer, None, None))
  {
    var found := Score(s, raw, issuer, None, None);
    var fqdn := NormalizeHostname(raw);
    forall i | 0 <= i < |found|
      ensures fqdn == Some(found[i].fqdn)
    {
      ScoreMembers(s, fqdn.value, s.registeredDomain(fqdn.value).value, s.brands, s.storeFloor, IsFreeDv(s, issuer), i);
    }
    if k in MatchKeys(found) {
      var m :| m in found && Key(m.fqdn, m.brand) == k;
      var i :| 0 <= i < |found| && found[i] == m;
    }
    if fqdn == Some(k.fqdn) && k.brand in Brands(found) {
      var m :| m in found && m.brand == k.brand;
      var i :| 0 <= i < |found| && found[i] == m;
    }
  }

  lemma StableScorer(s: Scorer)
    requires IssuerStable(s)
    ensures Stable(Defaults(s))
  {
    var score := Defaults(s);
    forall raw, i, j
      ensures MatchKeys(score(raw, i)) == MatchKeys(score(raw, j))
    {
      forall k
        ensures k in MatchKeys(score(raw, i)) <==> k in MatchKeys(score(raw, j))
      {
        ScorerKeys(s, raw, i, k);
        ScorerKeys(s, raw, j, k);
        assert Brands(Score(s, raw, i, None, None)) == Brands(Score(s, raw, j, None, None));
      }
    }
  }

  /** With the default weights the whole of ingestion is the plain fold: no batching, no dedup, no cleared set. */
  method Ingest(messages: seq<Message>, s: Scorer, store: MatchStore, timer: nat -> bool, flushMaxRows: int,
                maxMessages: Option<nat>) returns (stats: PipelineStats)
    requires SignalsClearFloor(s)
    modifies store
    ensures store.matches
         == InsertMatches(old(store.matches), store.alertThreshold,
                          AllRows(Defaults(s), Stream(Taken(messages, maxMessages))))
    ensures stats.matchesNew == |store.matches| - |old(store.matches)|
    ensures old(CertificatesPresent(store.Snapshot())) ==> CertificatesPresent(store.Snapshot())
  {
    ghost var batches;
    stats, batches := RunPipeline(messages, Defaults(s), store, timer, flushMaxRows, maxMessages, AtCapacity);
    ClearingMeansStable(s);
    StableScorer(s);
    DedupInvisible(Defaults(s), AtCapacity, {}, Stream(Taken(messages, maxMessages)), old(store.matches),
                   store.alertThreshold);
  }

  // ------------------------------------------------- a configuration where the issuer decides

  const ISSUER := "le"

  /** The default weights under a floor between a subdomain hit and one with a free certificate. */
  function EdgyScorer(): Scorer {
    Scorer(DEFAULT_WEIGHTS, 0.8, 0.52, [Brand("b", {})], [ISSUER], host => Some(host),
           (host, brand) => Features([], 0.0, false, true, false, [], false))
  }

  lemma EdgyScores()
    ensures var s, f := EdgyScorer(), EdgyScorer().textFeatures("a", Brand("b", {}));
            Combine(s, f.(freeDv := false)) == 0.5 && Combine(s, f.(freeDv := true)) == 0.55
  {
    assert 0.5 == Units(5000) && 0.55 == Units(5500);
    RoundOnGrid(0.5);
    RoundOnGrid(0.55);
  }

  lemma EdgyIssuer()
    ensures !IsFreeDv(EdgyScorer(), None) && IsFreeDv(EdgyScorer(), Some(ISSUER))
  {
    assert OccursAt(Lower(ISSUER), Lower(ISSUER), 0);
    assert Contains(Lower(ISSUER), Lower(EdgyScorer().freeDvIssuers[0]));
  }

  lemma OneLetterIsNormal()
    ensures NormalizeHostname("a") == Some("a")
  {
    NormA();
    NormalFrom("a", "a");
  }

  /** There the issuer decides what is stored, and some stream is not stored whole. */
  lemma IssuerDecides(full: FullFn, threshold: real)
    ensures Defaults(EdgyScorer())("a", None) == [] && |Defaults(EdgyScorer())("a", Some(ISSUER))| == 1
    ensures exists messages :: !Invisible(Defaults(EdgyScorer()), full, threshold, messages)
  {
    var s := EdgyScorer();
    EdgyScores();
    EdgyIssuer();
    OneLetterIsNormal();
    assert s.brands[1..] == [];
    var one := Defaults(s)("a", Some(ISSUER));
    assert one == ScoreBrand(s, "a", "a", s.brands[0], 0.52, true) + [];
    assert one[0] in one;
    assert Key(one[0].fqdn, one[0].brand) in MatchKeys(one) && MatchKeys(Defaults(s)("a", None)) == {};
    DedupInvisibleIff(Defaults(s), full, threshold);
  }
}
