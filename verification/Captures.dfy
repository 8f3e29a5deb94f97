/** Results of a visit, and where a stored path leads (capture/models.py). */
module Captures {
  import opened Wrappers
  import opened Text

  datatype Status = Ok | Timeout | DnsError | ConnectionError | Blocked | Error

  datatype Signals = Signals(title: Option<string>, formCount: int, hasPasswordInput: bool, hasCredentialField: bool,
                             crossDomainFormTargets: seq<string>, iframeCount: int, passwordInputCount: int)

  /** An absolute directory, or a path relative to one, as its segments. */
  type Path = seq<string>

  datatype CaptureResult = CaptureResult(fqdn: string, url: string, status: Status, capturedAt: int, durationMs: int,
                                         finalUrl: Option<string>, httpStatus: Option<int>, screenshot: Option<Path>,
                                         html: Option<Path>, signals: Option<Signals>, error: Option<string>)

  function NonTrivial(parts: seq<string>): seq<string> {
    if parts == [] then [] else
      (if parts[0] == "" || parts[0] == "." then [] else [parts[0]]) + NonTrivial(parts[1..])
  }

  /** `path.resolve()` from a directory: ".." climbs, stopping at the root. */
  function Resolve(from: Path, parts: seq<string>): Path
    decreases |parts|
  {
    if parts == [] then from
    else if parts[0] == ".." then Resolve(if from == [] then [] else from[..|from| - 1], parts[1..])
    else Resolve(from + [parts[0]], parts[1..])
  }

  function Posix(p: Path): string {
    if p == [] then "." else Join("/", p)
  }

  const NUL := '\0'

  /** Stored texts whose path runs into a loop of symbolic links, as the file system has it. */
  type Loops = string -> bool

  /** Whether `Path.resolve` raises: for a NUL character, wherever it stands, and for a loop of links. */
  predicate Unresolvable(stored: Option<string>, loops: Loops) {
    stored.Some? && stored.value != "" && (NUL in stored.value || loops(stored.value))
  }

  /**
   * `stored_capture_file`, where it does not raise: the file a stored path names, or None if that is outside `base`.
   */
  function StoredCaptureFile(stored: Option<string>, base: Path): (file: Option<Path>)
    ensures file.Some? ==> base <= file.value
  {
    if stored.None? || stored.value == "" then None else
      var from := if stored.value[0] == '/' then [] else base;
      var resolved := Resolve(from, NonTrivial(Split(stored.value, '/')));
      if base <= resolved then Some(resolved) else None
  }

  predicate PlainSegment(s: string) {
    s != "" && s != "." && s != ".." && '/' !in s && NUL !in s
  }

  predicate PlainPath(p: Path) {
    forall i :: 0 <= i < |p| ==> PlainSegment(p[i])
  }

  lemma {:induction false} NonTrivialOf(parts: seq<string>)
    requires forall p :: p in parts ==> '/' !in p
    ensures forall p :: p in NonTrivial(parts) ==> p in parts && p != "" && p != "." && '/' !in p
    ensures PlainPath(parts) ==> NonTrivial(parts) == parts
  {
    if parts != [] {
      NonTrivialOf(parts[1..]);
      assert PlainPath(parts) ==> PlainSegment(parts[0]) && PlainPath(parts[1..]) by {
        assert forall i :: 0 <= i < |parts[1..]| ==> parts[1..][i] == parts[i + 1];
      }
      assert parts == [parts[0]] + parts[1..];
    }
  }

  lemma {:induction false} ResolvePlain(from: Path, parts: seq<string>)
    requires PlainPath(parts)
    ensures Resolve(from, parts) == from + parts
    decreases |parts|
  {
    if parts != [] {
      assert PlainSegment(parts[0]);
      assert forall i :: 0 <= i < |parts[1..]| ==> parts[1..][i] == parts[i + 1];
      ResolvePlain(from + [parts[0]], parts[1..]);
      assert from + [parts[0]] + parts[1..] == from + parts;
    } else {
      assert from + parts == from;
    }
  }

  lemma {:induction false} ResolveStaysPlain(from: Path, parts: seq<string>)
    requires PlainPath(from) && forall p :: p in parts ==> p != "" && p != "." && '/' !in p && NUL !in p
    ensures PlainPath(Resolve(from, parts))
    decreases |parts|
  {
    if parts != [] {
      assert parts[0] in parts;
      ResolveStaysPlain(if parts[0] == ".." then (if from == [] then [] else from[..|from| - 1]) else from + [parts[0]],
                        parts[1..]);
    }
  }

  lemma {:induction false} SplitFrom(s: string, c: char, p: string, x: char)
    requires p in Split(s, c) && x in p
    ensures x in s
  {
    if s != "" {
      var rest := Split(s[1..], c);
      if s[0] == c {
        if p in rest { SplitFrom(s[1..], c, p, x); }
      } else if p == [s[0]] + rest[0] {
        if x in rest[0] { SplitFrom(s[1..], c, rest[0], x); }
      } else {
        SplitFrom(s[1..], c, p, x);
      }
    }
  }

  /** Whatever text the container stored, the file it leads to is a plain path below the capture directory. */
  lemma StoredFileIsInside(stored: Option<string>, base: Path, loops: Loops)
    requires PlainPath(base) && !Unresolvable(stored, loops) && StoredCaptureFile(stored, base).Some?
    ensures base <= StoredCaptureFile(stored, base).value && PlainPath(StoredCaptureFile(stored, base).value[|base|..])
  {
    var parts := Split(stored.value, '/');
    NonTrivialOf(parts);
    forall p | p in NonTrivial(parts) ensures NUL !in p { if NUL in p { SplitFrom(stored.value, '/', p, NUL); } }
    ResolveStaysPlain(if stored.value[0] == '/' then [] else base, NonTrivial(parts));
    var file := StoredCaptureFile(stored, base).value;
    assert forall i :: 0 <= i < |file[|base|..]| ==> file[|base|..][i] == file[|base| + i];
  }

  lemma JoinStarts(p: Path)
    requires p != [] && PlainSegment(p[0])
    ensures Join("/", p) != "" && Join("/", p)[0] == p[0][0] && p[0][0] != '/'
  {
    assert p[0][0] in p[0];
  }

  lemma {:induction false} NoNulInJoin(p: Path)
    requires PlainPath(p)
    ensures NUL !in Join("/", p)
  {
    if |p| > 1 {
      NoNulInJoin(p[1..]);
      assert PlainSegment(p[0]);
    }
  }

  /** A relative path written out and read back names the same file, and nothing but a loop keeps it from that. */
  lemma PosixRoundTrip(p: Path, base: Path)
    requires p != [] && PlainPath(p)
    ensures StoredCaptureFile(Some(Posix(p)), base) == Some(base + p)
    ensures forall loops: Loops :: Unresolvable(Some(Posix(p)), loops) <==> loops(Posix(p))
  {
    JoinStarts(p);
    NoNulInJoin(p);
    assert forall s :: s in p ==> '/' !in s;
    SplitJoin(p, '/');
    NonTrivialOf(p);
    ResolvePlain(base, p);
  }
}
