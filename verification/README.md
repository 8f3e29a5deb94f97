# Phish-Hunter, verified

A Dafny model of Phish-Hunter, an unattended pipeline over one small database. It ingests certificates from
Certificate Transparency, scores their hostnames against brands, has an untrusted container visit the suspicious
ones, validates what the container writes, classifies the captures, announces phishing once, and lets an analyst
label sites into evaluation files. Verify it with `dafny verify dfyconfig.toml`.

## How the model is built

The database is a record of maps (`Store.Db`); a query is the set it selects together with the order of its
`ORDER BY` (`Store.IsPage`). `Store.MatchStore` is the class that holds the tables, and each of its methods is proved
against a function on `Db`. Each runner is a method on that class, proved against a specification function, and the
lemmas are about those functions. Scores are exact reals rounded half to even at four decimals. Text is `string`, with
Python's `splitlines`, `strip`, `replace` and `split` written out (`Text`). JSON is written by a concrete printer
(`Json`), proved injective; reading it back is a parameter that inverts the printer.

What the program cannot know is a parameter, and every theorem is for all of its values: what a container leaves behind
and how it ends, what the file system answers about a path, if it answers at all, what a model answers, which sinks
refuse, which saves fail, when the flush timer fires, when the seen set counts as full, what the ingest task flushes
while another stage waits, and the clock.

Where to start:

- `Pipeline.Ingest`, `Pipeline.DedupInvisibleIff`: dedup and batching are invisible, and the exact condition for it.
- `Lifecycle.RescoreAfterIngestion`: rescoring agrees with ingestion over any feed, keys and issuers parsed from it.
- `Handoff.ImportResults`, `RoundTrip.HonestRunReturns`, `RoundTrip.ReaderExists`: the importer is its specification
  on any text, and accepts everything an honest container can write.
- `Triage.AnnouncedIsJustified` and `Watch.RunWatch`: the safety of announcing, over every interleaving.
- `Watch.FoundAndAnnouncedInOneCycle`: and the other way, a finding is announced in the cycle that finds it.
- `CaptureRunner.StillPendingIff` and the three drain theorems: what leaves each queue, and in how many runs.
- `LabelBytes.OtherBytesStayIff`, `Labels.NotedAtMostOnce`, `Datasets.LabelsNeverRepeat`: the label files.

## Where a promise holds only under a condition

- Dropping a hostname seen before is invisible exactly when the issuer never decides
  whether a brand is stored (`Pipeline.DedupInvisibleIff`); the default weights guarantee that
  (`Scoring.DefaultsClearFloor`, `Scoring.ClearingMeansStable`); under another floor they do not
  (`Pipeline.IssuerDecides`).
- `is_valid_hostname` is matched with `$`, so a final newline passes, and lower-casing turns a Kelvin sign into `k`.
  Such a host does not name itself in its URL (`Hostnames.HostRoundTripIff`, `Hostnames.AcceptedButNotAscii`). The label
  bound of the expression is 64 characters, not the 63 of section 2.3.4 of RFC 1035; the model keeps 64.
- A loose skeleton is not a function of the skeleton for letters that only look like `i`
  (`Skeletons.StrayICounterexample`); `Skeletons.LooseFactorsIff` says exactly when it is.
- An accepted result carries the container's own timestamp. A site whose result is dated before the recapture window
  stays pending although it was visited (`CaptureRunner.StillPendingIff`, `CaptureRunner.BackDatedStaysPending`).
- `import_results` is said never to raise on bad content. It does: `stored_capture_file` cannot resolve a path with a
  NUL in it, and `is_file` cannot look up one with a name of more than 255 characters; the field bound of 300 lets both
  through (`Handoff.HostilePathRaises`). It raises exactly when the results file cannot be read, or some line about a
  target without a result yet either finds an unsupported scheme in the job, or is an ok visit at a candidate URL whose
  screenshot path cannot be resolved or looked up, or whose screenshot is good and page path cannot be resolved
  (`Handoff.ImportResults`, `Handoff.RaisesIffBreaksOff`). The whole batch is then lost, good results included
  (`Handoff.NulLosesBatch`), and every host stays pending (`CaptureRunner.PendingAfterRunIff`,
  `CaptureRunner.NulLeavesAllPending`).
- Capture schemes are not validated. With none, or an unsupported one, a capture run saves nothing, and unless the
  execution failed it raises (`CaptureRunner.RunCaptures`, `CaptureRunner.UnusableAcceptsNothing`).
- `UNIQUE (capture_id, backend, model)` does not compare NULL models. One verdict each rests on the pending query and
  the single classification stage instead (`ClassifyRunner.NullModelNotGuarded`, `Triage.OneVerdictEach`).
- "Announced once" needs the mark to be stored. A finding whose mark failed after a sink took it is sent again; that is
  the one way for a second notice (`Triage.AnnouncedOnce`).
- "Every other line is left byte for byte" holds for a relabel exactly when every other line already ends as the file
  will (`LabelBytes.OtherBytesStayIff`), a missing final newline apart (`LabelBytes.OnlyNewlineAddedIff`), and for a new
  line exactly when all lines do, the last perhaps cut short (`LabelBytes.OldTextStaysIff`). In a file of mixed newlines
  another line does change (`LabelBytes.MixedFileChanges`).
- `str.splitlines` also breaks at form feeds, file separators and Unicode line separators, which the loader does not.
  The two see the same lines exactly when a text has no such break (`Datasets.SameLinesIff`). A label leaves no site in
  twice exactly under the condition of `Datasets.WrittenReadsOnceIff`; where loader and editor agree it always holds
  (`Datasets.LabelsNeverRepeat`). A site the editor cannot see is the failing case (`Datasets.HiddenSiteRepeats`), and a
  note with a raw U+2028 in it is an input (`Datasets.SeparatorRepeats`, `LabelCodec.LabelsCanRepeat`).
- Rescoring with an unchanged configuration reports exactly the rows whose name, normalised once more, scores otherwise
  (`Rescore.StaleIff`). A stored name is a fixpoint of `normalize_hostname` exactly under the condition of
  `Rescore.NormalAgainIff`; one of two wildcards is not (`Rescore.TwoWildcards`), and such a row is reported
  (`Rescore.WildcardIsStale`).

## Model

| member | source | states |
|---|---|---|
| Scoring.ScoreHost | src/lookalike_hunter/scoring/scorer.py:134-166 | the loop over brands returns exactly `Score`: nothing for an unusable name, official domains left out, only scores at or above the floor, floor and free-DV flag overridable |
| Scoring.ScoreMembers | src/lookalike_hunter/scoring/scorer.py:145-166 | every match is about the normalised host, carries its own features' combined score, reaches the floor, and belongs to a brand whose official domains do not include the registered one |
| Scoring.ScoreComplete | src/lookalike_hunter/scoring/scorer.py:145-166 | and every brand that qualifies is in the list |
| Scoring.FloorIsBaseSignal | src/lookalike_hunter/scoring/scorer.py:221-245 | when each base weight is zero or clears the floor, a brand is stored exactly when the name alone gives it a base signal: no bonus lifts or sinks it, rounding included |
| Scoring.DefaultsClearFloor | src/lookalike_hunter/scoring/scorer.py:221-245 | the default weights, floor and typo bound meet that condition |
| Scoring.ClearingMeansStable | src/lookalike_hunter/scoring/scorer.py:221-245 | hence the issuer never decides which brands a name is stored for |
| Scoring.CombineOnGrid | src/lookalike_hunter/scoring/scorer.py:243-245 | a combined score is a whole number of ten-thousandths |
| Pipeline.ScoreName | src/lookalike_hunter/ingest/pipeline.py:61-70 | a hostname in the seen set is skipped; another is remembered, in an emptied set if that was full, and all its matches are buffered |
| Pipeline.ScoreCertificate | src/lookalike_hunter/ingest/pipeline.py:61-70 | over a certificate's names: the seen set, the buffered rows and the number scored are those of the specification |
| Pipeline.TakeMessage | src/lookalike_hunter/ingest/pipeline.py:51-70 | each message is counted once, as a certificate, malformed, or neither |
| Pipeline.FlushIfDue | src/lookalike_hunter/ingest/pipeline.py:43-48 | a flush turns the buffer into one more batch, and counts exactly the rows the table gained |
| Pipeline.Consume | src/lookalike_hunter/ingest/pipeline.py:50-75 | the message limit is looked at only after a message; written batches plus buffer are the rows that got past the seen set, in order |
| Pipeline.RunPipeline | src/lookalike_hunter/ingest/pipeline.py:30-80 | for any stream, any flush points and any fullness rule the table is that of inserting the kept rows one by one; `matches_new` is the growth of the table and every match keeps a certificate row |
| Pipeline.DedupInvisible | src/lookalike_hunter/ingest/pipeline.py:61-67 | if the issuer never decides storage, dropping seen hostnames is invisible, whenever and however often the set is cleared |
| Pipeline.DedupInvisibleIff | src/lookalike_hunter/ingest/pipeline.py:61-67 | and only then: with an issuer that decides storage some stream loses a row to dedup |
| Pipeline.IssuerDecides | src/lookalike_hunter/scoring/scorer.py:221-245 | such a configuration exists: with the default weights and a floor between 0.5 and 0.55 a subdomain hit is stored for one issuer and not for another, so some stream loses a row |
| Pipeline.StableScorer | src/lookalike_hunter/scoring/scorer.py:134-166 | a scorer whose issuers are stable is such a scoring function |
| Pipeline.Ingest | src/lookalike_hunter/ingest/pipeline.py:30-80 | with weights that clear the floor, the whole of ingestion is the plain first-sighting fold over every (certificate, hostname) pair: no batching, no dedup, no cleared set |
| Store.MatchStore.Dedupe | src/lookalike_hunter/ingest/store.py:275-279 | `setdefault` keeps, in order, the first row of each (hostname, brand) pair |
| Store.MatchStore.Write | src/lookalike_hunter/ingest/store.py:265-317 | the transaction leaves the tables of `WriteRows` and returns how many matches are new |
| Store.InsertKeeps | src/lookalike_hunter/ingest/store.py:298-314 | inserting with conflicts skipped keeps every row already there and adds exactly the batch's new keys |
| Store.FirstsInsertAlike | src/lookalike_hunter/ingest/store.py:275-279 | deduplicating a batch first does not change what the table ends up holding |
| Store.BatchingInvisible | src/lookalike_hunter/ingest/store.py:265-317 | how rows are grouped into batches does not show in the table, and no match is left without its certificate |
| Store.WriteKeepsCertificates | src/lookalike_hunter/ingest/store.py:280-314 | after a write every match points at a certificate row |
| Certificates.IdentityNamesIssuer | src/lookalike_hunter/ingest/parse.py:46-53 | equal identity texts mean equal issuers, whatever bars serials, dates or names contain |
| Certificates.DerivedKeyIsNoFingerprint | src/lookalike_hunter/ingest/parse.py:34-35 | a derived key is never equal to a fingerprint the feed sent |
| Certificates.SameKeySameIssuer | src/lookalike_hunter/ingest/parse.py:38-54 | equal certificate keys mean equal issuer organisations; for derived keys that rests only on no two identity texts hashing alike |
| Certificates.KeyNotEmpty | src/lookalike_hunter/ingest/parse.py:72-88 | no certificate key is empty, so the last check of `parse_message` never fails |
| Json.PrintInjective | src/lookalike_hunter/ingest/parse.py:46-46 | printed JSON determines the value printed |
| Json.FieldsPrefixFree | src/lookalike_hunter/ingest/parse.py:46-53 | a printed object determines where it ends, whatever text follows it |
| Rescore.FindChanges | src/lookalike_hunter/ingest/rescore.py:72-102 | the cached scoring loop reports exactly the rows whose score, alert flag or features differ, each with its new figures |
| Rescore.RescoreMatches | src/lookalike_hunter/ingest/rescore.py:56-113 | a dry run changes nothing; applying turns the table into the rescored one; the report counts every row and names exactly the stale ones, each once |
| Rescore.AsManyAsStale | src/lookalike_hunter/ingest/rescore.py:72-96 | there are as many changes in the report as stale rows in the table |
| Rescore.ApplyChanges | src/lookalike_hunter/ingest/rescore.py:97-111 | the updates overwrite the named rows and no others |
| Rescore.RescoreAgreesWithIngestion | src/lookalike_hunter/ingest/rescore.py:72-113 | on a table written from the scorer's own output, with stored names normal and brand names distinct, rescoring with the same scorer and threshold changes nothing |
| Rescore.StaleIff | src/lookalike_hunter/ingest/rescore.py:72-96 | exactly which rows the same scorer and threshold report: those whose name, normalised once more, no longer scores the stored figures for that brand at floor 0 under the stored free-DV flag; no condition on names or floor |
| Rescore.NothingStaleIff | src/lookalike_hunter/ingest/rescore.py:56-113 | so the same configuration reports nothing if and only if every row is so restated |
| Rescore.WildcardIsStale | src/lookalike_hunter/ingest/rescore.py:56-113 | an input: the row a scorer stored for `*.*.a`, which that scorer reports |
| Rescore.WriteKeepsFromScorer | src/lookalike_hunter/ingest/store.py:265-317 | writing scorer rows whose certificate keys name one issuer each keeps the table the scorer's own |
| Rescore.ScorerIsSound | src/lookalike_hunter/scoring/scorer.py:134-166 | at floor 0 scores are rounded, and a free-DV flag stated outright is the one stored |
| Rescore.RescoreSettles | src/lookalike_hunter/ingest/rescore.py:72-113 | with any scorer, applying once is enough: a second run reports nothing, no (hostname, brand) key comes or goes, and every row alerts exactly when its score reaches the threshold |
| Rescore.NormalAgainIff | src/lookalike_hunter/scoring/scorer.py:53-56 | a normalised name normalises to itself exactly when it starts with no wildcard and has no outer white space |
| Rescore.TwoWildcards | src/lookalike_hunter/scoring/scorer.py:53-56 | an input: `*.*.a` is stored as `*.a`, which normalises to `a` |
| Lifecycle.KeptAreScorers | src/lookalike_hunter/ingest/pipeline.py:61-70 | every row ingestion buffers is the scorer's output for a name of that certificate |
| Lifecycle.ParsedKeysNameIssuers | src/lookalike_hunter/ingest/parse.py:61-89 | in the certificates parsed from any feed equal keys name equal issuers, without hash collisions among its identities and with fingerprints that identify |
| Lifecycle.FeedIsNormal | src/lookalike_hunter/ingest/pipeline.py:50-80 | if no raw name of the feed keeps a wildcard or outer white space once normalised, every stored name normalises to itself |
| Lifecycle.RescoreAfterIngestion | src/lookalike_hunter/ingest/rescore.py:56-113 | end to end, from feed messages to a rescored table: ingest any feed with any flush points, then rescore; the same configuration changes nothing if and only if every row restates what its name scores, and so if nothing is left to take off the normalised names; any other settles in one run. Issuers per key are derived from how `parse_message` makes keys |
| Negatives.StripNegativesLoop | src/lookalike_hunter/scoring/scorer.py:84-87 | the loop replaces the negative tokens in turn |
| Negatives.NegativesGone | src/lookalike_hunter/scoring/scorer.py:84-87 | afterwards no negative token occurs: a later replacement never restores an earlier one |
| Negatives.StrippingIsExact | src/lookalike_hunter/scoring/scorer.py:84-92 | a space-free token occurs in the stripped text if and only if it occurs in the original outside every removed span |
| Negatives.TokenIsGenuine | src/lookalike_hunter/scoring/scorer.py:89-92 | `contains_token` reports a token only where the original text has one, untouched by any negative |
| Negatives.LooseWordIsGenuine | src/lookalike_hunter/scoring/scorer.py:94-101 | `matches_loose_word` likewise |
| Skeletons.DecodeLabelsLoop | src/lookalike_hunter/scoring/normalize.py:50-58 | labels are decoded one by one, in order |
| Skeletons.LooseSkeletonLoop | src/lookalike_hunter/scoring/normalize.py:71-76 | the loop over the two-character confusables computes the loose skeleton |
| Skeletons.LooseHasNoPairs | src/lookalike_hunter/scoring/normalize.py:45-47 | after both left-to-right passes the text holds neither `rn` nor `vv` |
| Skeletons.LooseIdempotentIff | src/lookalike_hunter/scoring/normalize.py:66-76 | applying the loose skeleton twice is applying it once exactly when no character but `i` folded to `i` |
| Skeletons.LooseFactorsIff | src/lookalike_hunter/scoring/normalize.py:66-76 | the loose skeleton is a function of the skeleton under exactly the same condition |
| Skeletons.StrayICounterexample | src/lookalike_hunter/scoring/normalize.py:22-47 | Cyrillic, Greek and dotless i share the skeleton of `i` but not its loose skeleton |
| Skeletons.SkeletonDistributes | src/lookalike_hunter/scoring/normalize.py:66-68 | inside a raw label the skeleton of a concatenation is the concatenation of skeletons |
| Skeletons.TokenSurvives | src/lookalike_hunter/scoring/normalize.py:66-68 | a raw token written in a raw label is still there in the label's skeleton |
| Hostnames.CandidateUrls | src/lookalike_hunter/capture/policy.py:106-119 | one URL per scheme in order; refused exactly when a scheme is unsupported |
| Hostnames.HostRoundTripIff | src/lookalike_hunter/capture/policy.py:76-119 | for every accepted name or dotted quad, with or without a port, parsing its URL by section 3.2 of RFC 3986 gives back exactly that name and port, no userinfo and path `/`, if and only if the host is printable ASCII |
| Hostnames.AcceptedButNotAscii | src/lookalike_hunter/capture/policy.py:29-34 | a final newline and a Kelvin sign are accepted and do not round-trip |
| Hostnames.RefusalAgreesWithName | src/lookalike_hunter/capture/policy.py:60-73 | the private-address refusal decided on the URL is the one the name itself deserves |
| Hostnames.UrlNamesHost | src/lookalike_hunter/capture/policy.py:106-119 | a URL determines the scheme and host it was built from |
| Captures.StoredCaptureFile | src/lookalike_hunter/capture/models.py:42-55 | a stored path that can be resolved leads below the capture directory or nowhere |
| Captures.StoredFileIsInside | src/lookalike_hunter/capture/models.py:42-55 | whatever text was stored, if it can be resolved the file found is a plain path below that directory, without a NUL |
| Captures.PosixRoundTrip | src/lookalike_hunter/capture/models.py:42-55 | a plain relative path written with slashes and read back names the same file, and only a loop of links keeps it from being resolved |
| Handoff.ResultWriter.constructor | src/lookalike_hunter/capture/handoff.py:104-106 | the file starts empty |
| Handoff.ResultWriter.Write | src/lookalike_hunter/capture/handoff.py:108-129 | appends exactly one line, that of the bounded record, and a newline |
| Handoff.ImportResults | src/lookalike_hunter/capture/handoff.py:194-226 | for any text in any kind of file, the report is the specified one: the first valid line of each requested host accepted, every other non-blank line refused with its reason and line number. It raises if and only if the file cannot be read or some line breaks the import off: one about a target no earlier line was accepted for, if the job has an unsupported scheme, or if the line is an ok visit at a candidate URL and its screenshot path cannot be resolved or looked up, or its screenshot is good and its page path cannot be resolved |
| Handoff.RaisesIffBreaksOff | src/lookalike_hunter/capture/handoff.py:209-226 | the specified report counts an exception among its reasons if and only if some line breaks the import off |
| Handoff.ReportNamesNoRaise | src/lookalike_hunter/capture/handoff.py:194-226 | so in a report that is returned every refusal is one the source has |
| Handoff.HostilePathRaises | src/lookalike_hunter/capture/handoff.py:245-254 | a target's ok line at a candidate URL raises if its screenshot path holds a NUL, or is one name over 255 characters in a file system that refuses those |
| Handoff.NulLosesBatch | src/lookalike_hunter/capture/handoff.py:194-254 | an input: two lines within all bounds, the first acceptable, the second with a NUL for its screenshot; the import raises |
| Handoff.EveryLineAccounted | src/lookalike_hunter/capture/handoff.py:209-226 | accepted plus rejected is the number of non-blank lines |
| Handoff.ResultsAreFirsts | src/lookalike_hunter/capture/handoff.py:209-242 | each accepted result is the first valid line of a requested host, in file order |
| Handoff.FirstsAreAccepted | src/lookalike_hunter/capture/handoff.py:209-242 | every first valid line is accepted: an earlier invalid one never blocks it |
| Handoff.OneResultPerHost | src/lookalike_hunter/capture/handoff.py:229-242 | accepted hosts are distinct and requested, and a host is answered exactly when some line is valid for it |
| Handoff.AcceptedIsSound | src/lookalike_hunter/capture/handoff.py:229-279 | however hostile the container: an accepted result is for a target, over a candidate URL, an ok one has a PNG at a plain path below the capture directory, and no other result keeps a path |
| RoundTrip.RecordFits | src/lookalike_hunter/capture/handoff.py:108-184 | the writer's trimming meets every bound of the host's record |
| RoundTrip.HonestFileIsAccepted | src/lookalike_hunter/capture/handoff.py:108-226 | the round trip: for any page content, reading what an honest container wrote does not raise, everything is accepted in order, with no rejection, and equals the trimmed visit |
| RoundTrip.WriteAll | src/lookalike_hunter/capture/handoff.py:97-129 | writing visits one after another produces exactly that file |
| RoundTrip.HonestFileFits | src/lookalike_hunter/capture/handoff.py:37-50 | for at most 20 targets the file never exceeds the size limit, even at twelve characters for each after escaping |
| RoundTrip.HonestRunReturns | src/lookalike_hunter/capture/handoff.py:93-242 | together: up to twenty honest visits, written and read back without an exception, are all accepted, with no condition on the size |
| RoundTrip.LineInjective | src/lookalike_hunter/capture/handoff.py:108-129 | different records make different lines |
| RoundTrip.ReaderExists | src/lookalike_hunter/capture/handoff.py:210-216 | so there is a reader that inverts the writer |
| CaptureRunner.FromKeys | src/lookalike_hunter/capture/runner.py:156-156 | keeps each host once and loses none |
| CaptureRunner.RecordWithoutResult | src/lookalike_hunter/capture/runner.py:212-240 | tries, in job order, one error row for each unanswered target, going on after a failed save |
| CaptureRunner.SaveResults | src/lookalike_hunter/capture/runner.py:188-209 | tries every accepted result in order, with the job's own vantage; counts attempts, failures and statuses |
| CaptureRunner.Save | src/lookalike_hunter/capture/runner.py:180-209 | error rows first unless the execution failed, then the accepted results |
| CaptureRunner.RunCaptures | src/lookalike_hunter/capture/runner.py:137-177 | targets given, else a page of pending hosts; no targets, nothing happens; otherwise the database and counters after the visit are the specified ones, for any schemes, container output and ending, with flushes during the wait. An exception reaches the caller if and only if the executor raised one, the import did, an error row is due over schemes that make no URL, or the job's files cannot be deleted; nothing is saved in the second and third case |
| CaptureRunner.UnusableAcceptsNothing | src/lookalike_hunter/capture/policy.py:106-119 | over a job with no scheme or an unsupported one no result is ever accepted |
| CaptureRunner.OneRowPerTarget | src/lookalike_hunter/capture/runner.py:180-240 | an executor that returns gives exactly one row per distinct target, the accepted result or the host's error row; a failed execution only the accepted ones |
| CaptureRunner.TargetsAccounted | src/lookalike_hunter/capture/runner.py:180-209 | attempted plus missing is the number of distinct targets, and statuses add up to the attempts |
| CaptureRunner.PendingAfterSaves | src/lookalike_hunter/ingest/store.py:319-343 | the pending hosts lose exactly those with a saved row newer than the cutoff |
| CaptureRunner.StillPendingIff | src/lookalike_hunter/capture/runner.py:180-240 | exactly when a target stays pending: its accepted result is dated before the window, or it has none and no error row was due |
| CaptureRunner.PendingAfterRunIff | src/lookalike_hunter/capture/runner.py:137-240 | the same of a whole run with flushes: a target stays pending if and only if the run can save nothing, for its schemes or an import that raised, or its accepted result is dated before the window, or it has none and no error row was due |
| CaptureRunner.NulLeavesAllPending | src/lookalike_hunter/capture/runner.py:164-168 | an input: after the batch with the NUL line both its hosts are pending, the one with a good result too |
| CaptureRunner.BackDatedStaysPending | src/lookalike_hunter/capture/runner.py:187-199 | an input: one valid line dated 0 is accepted, and its host stays pending |
| CaptureRunner.RunIsFull | src/lookalike_hunter/capture/runner.py:137-177 | a run that neither fails, nor has its import broken off, nor dates a capture before the window captures its whole page, whatever is flushed meanwhile short of an alert about a new host |
| CaptureRunner.FlushesKeepAlerts | src/lookalike_hunter/ingest/store.py:298-314 | flushes touch no capture and take no alert host away, and if what reaches the threshold is about alert hosts already known, they add none |
| CaptureRunner.CapturesDrain | src/lookalike_hunter/capture/runner.py:137-177 | full runs empty the pending list after exactly ceil(n / limit) runs, whatever else happens during and between them that touches no capture and makes no new alert host |
| CaptureRunner.FreshFeedTargets | src/lookalike_hunter/capture/feed_entries.py:23-53 | targets are the specified page of the newest entries |
| CaptureRunner.FeedTargetsFresh | src/lookalike_hunter/capture/feed_entries.py:23-53 | they are distinct, listed recently and never captured, and no such site is left out while there is room |
| Store.MatchStore.PendingCaptures | src/lookalike_hunter/ingest/store.py:319-343 | a page of the hosts with an alert and no capture after the cutoff, best score first, then latest first sighting |
| Store.MatchStore.Uncaptured | src/lookalike_hunter/ingest/store.py:345-363 | the hosts with no capture after the cutoff, order preserved |
| Store.MatchStore.SaveCapture | src/lookalike_hunter/ingest/store.py:365-390 | adds one row under the next number |
| Store.MatchStore.PendingClassifications | src/lookalike_hunter/ingest/store.py:392-427 | a page of the captures with no verdict of this backend and model, newest first, each with its row |
| Store.MatchStore.SaveVerdict | src/lookalike_hunter/ingest/store.py:429-485 | adds the row unless one conflicts, and says which; a missing model conflicts with nothing |
| Store.MatchStore.PendingAlerts | src/lookalike_hunter/ingest/store.py:487-513 | a page of the unannounced verdicts that meet the policy and are about a host in matches, surest first |
| Store.MatchStore.MarkAlerted | src/lookalike_hunter/ingest/store.py:515-520 | sets the one row's time of announcement |
| Store.MatchStore.ClearVerdicts | src/lookalike_hunter/ingest/store.py:522-542 | drops exactly the newest rows of the backend and model, up to the limit |
| Store.MatchStore.ClearFailedVerdicts | src/lookalike_hunter/ingest/store.py:544-551 | drops exactly the backend's error rows and counts them |
| Store.TakePage | src/lookalike_hunter/ingest/store.py:333-341 | the first `limit` elements of a set in a given total preorder |
| Store.PendingHostsOrdered | src/lookalike_hunter/ingest/store.py:333-341 | ordering by best score, then latest first sighting, is a total preorder on the pending hosts |
| ClassifyRunner.ClassifyOne | src/lookalike_hunter/classify/runner.py:98-147 | a failed visit is judged unreachable and a missing screenshot unknown without the model; otherwise the answer, or the failure cut to 500 characters, is saved after whatever was flushed meanwhile; it raises exactly when no verdict can be had and saved |
| ClassifyRunner.RunClassifications | src/lookalike_hunter/classify/runner.py:78-155 | a run judges a page of the pending captures in order, up to the first whose verdict cannot be had and saved, and leaves the specified verdicts; a run that finishes counts each capture as failed or labelled |
| ClassifyRunner.FlushCommutes | src/lookalike_hunter/watch.py:8-9 | flushes between store calls and verdict rows may happen in any order |
| ClassifyRunner.AddPending | src/lookalike_hunter/ingest/store.py:452-485 | a verdict for a pending capture is never skipped, keeps verdicts unique, and settles that capture alone |
| ClassifyRunner.RunSettlesPage | src/lookalike_hunter/classify/runner.py:88-155 | a run adds one verdict per capture of its page, keeps at most one per (capture, backend, model), and takes exactly that page off the pending list |
| ClassifyRunner.ClassificationsDrain | src/lookalike_hunter/classify/runner.py:78-155 | pending captures are gone after exactly ceil(n / limit) runs, failures included |
| ClassifyRunner.NullModelNotGuarded | src/lookalike_hunter/ingest/store.py:200-200 | without a model the UNIQUE constraint stops nothing: a second verdict for a judged capture would be stored |
| AlertRunner.Deliver | src/lookalike_hunter/alert/runner.py:65-78 | every sink is tried whatever the others do; deliveries and refusals add up to the sinks |
| AlertRunner.AnnounceOne | src/lookalike_hunter/alert/runner.py:65-84 | a finding is marked exactly when at least one sink took it and the store can; it raises exactly when one took it and the store cannot |
| AlertRunner.RunAlerts | src/lookalike_hunter/alert/runner.py:36-86 | no sinks, nothing happens; otherwise a page of pending findings is tried in order, up to the first that is sent and cannot be marked; those taken are marked, and a run that finishes has the specified counters |
| AlertRunner.AttemptsAccounted | src/lookalike_hunter/alert/runner.py:65-78 | deliveries plus failures is findings times sinks |
| AlertRunner.ConsideredAccounted | src/lookalike_hunter/alert/runner.py:52-84 | considered is sent plus refused by every sink |
| AlertRunner.PendingAfterMarks | src/lookalike_hunter/ingest/store.py:487-520 | a run takes exactly what it announced off the pending list: what all sinks refused stays |
| AlertRunner.AlertsDrain | src/lookalike_hunter/alert/runner.py:36-86 | with one sink that works, all pending findings are announced after exactly ceil(n / limit) runs |
| Draining.Drains | src/lookalike_hunter/capture/runner.py:137-177 | a queue that loses a batch of up to `limit` at a time is empty after exactly ceil(n / limit) batches |
| Triage.RowsAreMade | src/lookalike_hunter/capture/runner.py:180-240 | every row saved after a visit is for a target of its own job, over a URL of that job, from its vantage point, with a screenshot inside if it succeeded |
| Triage.EndVisitKeepsInv | src/lookalike_hunter/capture/runner.py:158-167 | whatever the container left, importing it keeps the invariant |
| Triage.AddedKeepsInv | src/lookalike_hunter/classify/runner.py:98-147 | so does each saved verdict, of any backend and model |
| Triage.AnnounceKeepsInv | src/lookalike_hunter/alert/runner.py:52-84 | so does an alert run, broken off anywhere, the finding it broke off at told of or not |
| Triage.MatchesStepKeepsInv | src/lookalike_hunter/watch.py:8-9 | so does anything that only adds or rewrites matches: a flush or a rescore between any two steps |
| Triage.ClearKeepsInv | src/lookalike_hunter/ingest/store.py:522-551 | so does clearing verdicts |
| Triage.StepKeepsInv | src/lookalike_hunter/watch.py:48-115 | every step of every stage keeps the invariant, classifications of any number of backends and models among them |
| Triage.AnnouncedIsJustified | src/lookalike_hunter/watch.py:48-115 | in every reachable state a stored verdict that any sink was told of meets the policy, is about a host in matches, and rests on a capture of that host made for a job the host built, status ok, screenshot inside the capture directory (policy without unreachable and unknown) |
| Triage.AnnouncedOnce | src/lookalike_hunter/alert/runner.py:1-7 | in every reachable state a verdict was sent again only where the store had failed to record the time before; a verdict is marked exactly when a recorded notice says so, and none marked is pending |
| Triage.OneVerdictEach | src/lookalike_hunter/ingest/store.py:200-200 | in every reachable state there is at most one verdict per (capture, backend, model), a missing model included, with any number of backends and models sharing the table |
| Watch.CaptureStage | src/lookalike_hunter/watch.py:59-67 | the capture stage is a run of the state machine, whatever it runs into |
| Watch.FeedStage | src/lookalike_hunter/watch.py:68-87 | so is the feed stage |
| Watch.ClassifyStage | src/lookalike_hunter/watch.py:88-103 | so is classification, which may break off after any number of verdicts; its verdicts are those of the page it worked on |
| Watch.AlertStage | src/lookalike_hunter/watch.py:104-115 | so is announcing, which may break off after any number of findings; if it does not, it announces exactly as many as it says |
| Watch.RunCycle | src/lookalike_hunter/watch.py:48-115 | a whole cycle is a run of the state machine, stages that fail or break off included; the last two stages work on what the ones before left |
| ClassifyRunner.AnswerIsStored | src/lookalike_hunter/classify/runner.py:98-147 | each answer of a run is stored as it is |
| Watch.FoundAndAnnouncedInOneCycle | src/lookalike_hunter/watch.py:1-9 | the interval is the detection latency: after any cycle, by what `RunCycle` ensures, a capture that waited for its classification and that the model calls a finding has been announced, when nothing broke off, both stages had room and one sink works |
| Watch.RunWatch | src/lookalike_hunter/watch.py:118-163 | for any number of cycles the database stays that of a reachable state; the loop ends early only when ingestion stopped, and otherwise what ingestion had buffered is flushed last |
| Labels.FileFormatIsGood | src/lookalike_hunter/eval/feedback.py:184-191 | the header and comments are no entries, and a dumped object that a line could say is one line that reads back |
| Labels.RelabelledReadable | src/lookalike_hunter/eval/feedback.py:167-181 | an object that a line can say is still one after a relabel |
| LabelCodec.DumpTells | src/lookalike_hunter/eval/feedback.py:103-103 | dumped with sorted keys, different such objects give different lines |
| LabelCodec.FaithfulCodec | src/lookalike_hunter/eval/feedback.py:184-191 | so a reader as the editor needs it exists: what the theorems ask of JSON can be had |
| Labels.EditLines | src/lookalike_hunter/eval/feedback.py:97-125 | the first line of the site is replaced in place, else one is appended, after the header in an empty file |
| Labels.RecordLabel | src/lookalike_hunter/eval/feedback.py:68-126 | refused exactly for a label that describes a visit or a bad hostname; otherwise the specified text and the label before |
| Labels.CanonicalIff | src/lookalike_hunter/eval/feedback.py:91-94 | reading lines and writing them back reproduces the file exactly when it has one newline style and a final newline |
| LabelBytes.CanonicalEnds | src/lookalike_hunter/eval/feedback.py:91-94 | those are the files in which every line ends alike |
| LabelBytes.GlueSplit | src/lookalike_hunter/eval/feedback.py:94-94 | a text is its lines and what ends each of them, whatever line breaks it has |
| LabelBytes.OtherBytesStayIff | src/lookalike_hunter/eval/feedback.py:88-126 | a relabel keeps every byte before and after the site's own line if and only if every other line ends with the newline the file is written with |
| LabelBytes.OnlyNewlineAddedIff | src/lookalike_hunter/eval/feedback.py:88-126 | in a file without a final newline one is added, and a relabel of an earlier line changes nothing else around it if and only if all other endings are that newline |
| LabelBytes.OldTextStaysIff | src/lookalike_hunter/eval/feedback.py:105-125 | a new site's line leaves the old text as the beginning of the new if and only if all lines end with that newline, the last perhaps with a beginning of it |
| LabelBytes.MixedFileChanges | src/lookalike_hunter/eval/feedback.py:91-94 | an input: in a comment ended by a line feed before an entry ended by carriage return and line feed, the comment's line changes |
| LabelBytes.OwnEndingFree | src/lookalike_hunter/eval/feedback.py:91-94 | the ending of the site's own line does not matter: the reverse mixture is kept, though not canonical |
| Labels.LineCount | src/lookalike_hunter/eval/feedback.py:88-126 | the number of lines grows by 0 or 1, plus the header on an empty file |
| Labels.RelabelledKeeps | src/lookalike_hunter/eval/feedback.py:167-181 | a relabel sets the judgement, touches no other key but the note, and leaves the note alone when a human had judged before |
| Labels.RecordTwice | src/lookalike_hunter/eval/feedback.py:68-126 | the same label on the same day again changes nothing |
| Labels.NotedAtMostOnce | src/lookalike_hunter/eval/feedback.py:177-180 | over a site's whole history of human labels its note changes at the first or never, and the last label is the one shown |
| LabelFiles.CurrentLabels | src/lookalike_hunter/eval/feedback.py:52-65 | the labels of a file, a later line for the same site winning |
| LabelFiles.AllCurrentLabels | src/lookalike_hunter/eval/feedback.py:138-144 | the feed files in order, then the tracked dataset over them |
| LabelFiles.LabelDestination | src/lookalike_hunter/eval/feedback.py:147-164 | where the site already is; else the tracked dataset if scoring found it, else the feed labels file |
| LabelFiles.EditShows | src/lookalike_hunter/eval/feedback.py:88-126 | an edit adds the site if new and changes its shown label only |
| LabelFiles.LabelFolder.Label | src/lookalike_hunter/eval/feedback.py:68-164 | routing then writing is the specified step on the folder of files |
| LabelFiles.StepShows | src/lookalike_hunter/eval/feedback.py:138-164 | after a label the combined view shows it for that site and is unchanged elsewhere, in whatever order files are read |
| LabelFiles.TrailKeepsUnique | src/lookalike_hunter/eval/feedback.py:147-164 | over every sequence of labels no hostname appears twice in a file or in two files |
| LabelFiles.UnscoredNeverTracked | src/lookalike_hunter/eval/feedback.py:147-164 | a site neither found by scoring nor tracked before never enters the tracked dataset |
| Datasets.SameLinesIff | src/lookalike_hunter/eval/dataset.py:116-121 | the loader and the editor see the same lines if and only if every place `splitlines` breaks at is a line feed or a carriage return |
| Datasets.ReadSites | src/lookalike_hunter/eval/dataset.py:116-121 | all entries in order, or the first line refused |
| Datasets.LoadDataset | src/lookalike_hunter/eval/dataset.py:124-136 | accepted exactly when no line is bad, no site repeats and there is a site; a repeated site is reported exactly when there is one |
| Datasets.LoadAllDatasets | src/lookalike_hunter/eval/dataset.py:139-161 | all sites of all files, in order, exactly if each file can be loaded and no site is in twice, in one file or in two; of loadable files it complains of a repeated site exactly if there is one |
| Datasets.WrittenReadsOnceIff | src/lookalike_hunter/eval/dataset.py:139-161 | one label leaves no site in twice, for the loader, if and only if what the editor sees in the file it goes to has none twice and, like the site itself, is in no other file as the loader reads it |
| Datasets.LabelsNeverRepeat | src/lookalike_hunter/eval/dataset.py:139-161 | where loader and editor agree on the sites of the files, every sequence of labels leaves that so, and never changes whether a site is in twice |
| Datasets.PlainNeverRepeat | src/lookalike_hunter/eval/dataset.py:139-161 | in particular, from files with plain line breaks and no site in twice, no sequence of labels puts one in twice |
| Datasets.HiddenSiteRepeats | src/lookalike_hunter/eval/feedback.py:147-164 | a site the loader finds and the editor does not is the failing case: one label puts it into a second file |
| Datasets.SeparatorRepeats | src/lookalike_hunter/eval/feedback.py:57-58 | an input: a feed file of one object with a raw U+2028 in its note, and a label for its site |
| LabelCodec.LabelsCanRepeat | src/lookalike_hunter/eval/feedback.py:57-58 | and a reader with the round trip of JSON for which those files and that label go wrong |
| McNemar.CombIsBinomial | src/lookalike_hunter/eval/stats.py:78-84 | the summed terms are the binomial coefficients |
| McNemar.OutcomesComplete | src/lookalike_hunter/eval/stats.py:70-84 | the outcomes counted are all sequences of n coin flips |
| McNemar.OutcomesDistinct | src/lookalike_hunter/eval/stats.py:70-84 | each once, 2^n in all |
| McNemar.ExactPValue | src/lookalike_hunter/eval/stats.py:70-84 | the p-value is exactly the share of the 2^n outcomes at least as lopsided as the observed split, so the cap at 1 hides nothing |
| McNemar.OneIffEven | src/lookalike_hunter/eval/stats.py:70-84 | it never exceeds 1 and is 1 exactly when the counts differ by at most 1 |
| McNemar.StrictlyFalls | src/lookalike_hunter/eval/stats.py:70-84 | it is symmetric and strictly falls as a split of the same size gets more lopsided |
| McNemar.DiscordantSymmetric | src/lookalike_hunter/eval/stats.py:87-98 | swapping the arms swaps the counts and keeps the p-value; the counts leave out exactly the agreements |
| Metrics.CountPairs | src/lookalike_hunter/eval/metrics.py:50-58 | the confusion dictionary holds every cell's count |
| Metrics.ComputeMetrics | src/lookalike_hunter/eval/metrics.py:45-89 | classes, confusion, accuracy, every class's figures and the macro averages are those of the definition |
| Metrics.TotalAnyOrder | src/lookalike_hunter/eval/metrics.py:83-89 | the macro sums do not depend on the order of the classes |
| Metrics.MatrixAddsUp | src/lookalike_hunter/eval/metrics.py:50-81 | rows add up to supports, columns to predictions, all cells to the number of sites |
| Metrics.SplitPairs | src/lookalike_hunter/eval/arms.py:108-114 | each group holds its predictions in order, and no group is empty |
| Metrics.GroupsAddUp | src/lookalike_hunter/eval/arms.py:108-130 | the per-source matrices add up, cell by cell, to the whole arm's |
| Sweep.SweepThresholds | src/lookalike_hunter/eval/sweep.py:50-85 | one point per threshold asked for, in ascending order, each as defined |
| Sweep.SweepMonotone | src/lookalike_hunter/eval/sweep.py:60-84 | as the threshold rises, alerts, true positives and recall never rise, and caught plus missed phishing stays constant |
| Sweep.ScoringOnlyArm | src/lookalike_hunter/eval/arms.py:133-170 | the arm's report and the sweep's point at the configured threshold agree on phishing |
| Sweep.SweepMeetsMetrics | src/lookalike_hunter/eval/sweep.py:60-84 | at the configured threshold the sweep's counts and ratios equal the phishing class of the metrics on the arm's predictions |

## Left out

- Browser, container, Docker, DNS and WebSocket guards: an executor is any results file, any files on disk and any ending.
- The model client and its retries: a classifier is any verdict or failure for each capture; latency, token and cost columns are not kept.
- Webhook and file sinks: a sink accepts or refuses each notification; the text of a notification is not modelled.
- DuckDB itself, lock retries and schema migration: a store call happens or fails as a whole.
- Pipeline.RunPipeline: does not model a `write` that raises, because a failed flush ends ingestion with the exception.
- Rows of `pending_captures` besides the hostname, `suspected_brand` and the score shown in an alert: nothing else depends on them.
- Watch.RunWatch: runs a stated number of cycles, the unbounded loop being the same loop for every number; an interrupt in the middle of a cycle is a step of the state machine (`Triage.LeaveStage`) and not of this method.
- AlertRunner.RunAlerts: a sink refuses or accepts; one that fails with another exception breaks the run off, which only the state machine covers (`Triage.Announce`).
- dnstwist, public suffixes, similarity and keyword features: `Scoring.Scorer` takes them as functions of the normalised name and the brand.
- Diacritic stripping and lower-casing beyond ASCII and the Kelvin sign: a per-character map in `Skeletons`, absent elsewhere.
- IPv6 literals in hosts: `Hostnames.HostRoundTripIff` is for names and dotted quads.
- JSON parsing and field validation: a decoder into typed fields; JSON numbers are whole. SHA-256 is any function without a collision among the identities seen.
- The order of keys inside a nested object of a label line, and so its text in a note: the reader gives such values in key order.
- Where a symbolic link leads: paths are segment lists with `..` resolved. Loops of links and paths that cannot be looked up are any; PNG content is a flag on a file.
- CaptureRunner.Save: a save that fails with anything but a lock or database error ends the source's run, which is not modelled. A job file that cannot be written raises before anything happens, as an unreadable store does in `Watch.CaptureStage`.
- Json.PrintInjective: a Dafny `char` is a Unicode scalar value, so this does not speak of a text with a lone surrogate, which a Python string can hold; nor does `RoundTrip.HonestRunReturns` of a page title with one.
- Floating-point rounding: scores, ratios and p-values are exact.
- Order of `rescore`'s report by hostname and brand: the report is a set of changes in some order.
- Datasets.LoadDataset: the other checks of a line (label, date, basis, missing fields) are one predicate.
- The bootstrap, report Markdown, the other arms, the dashboard, the command line, configuration, archive, backup and deployment.
- Atomic replacement of a label file: writing the file is one step.
- Prompt building, defanging and other text hygiene.
