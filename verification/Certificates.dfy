/** Certificate keys (ingest/parse.py). */
module Certificates {
  import opened Wrappers
  import opened Text
  import opened Json

  datatype Certificate = Certificate(sha256: string, seenAt: int, issuerOrg: Option<string>, notBefore: int,
                                     notAfter: int, ctLog: Option<string>, domains: seq<string>)

  /** What a message says about a leaf: the issuer's fields in key order, and text for the rest. */
  datatype Leaf = Leaf(sha256: string, issuer: seq<Field>, serialNumber: string, notBefore: string, notAfter: string,
                       sortedDomains: seq<string>)

  const EMPTY_INPUT_SHA256 := "e3b0c44298fc1c149afbf4c8996fb92427ae41e4649b934ca495991b7852b855"
  const DERIVED_KEY_PREFIX := "issuer-serial:"

  function Identity(leaf: Leaf): string {
    Print(Obj(leaf.issuer)) + ("|" +
      if leaf.serialNumber != "" then leaf.serialNumber
      else leaf.notBefore + "|" + leaf.notAfter + "|" + Join(",", leaf.sortedDomains))
  }

  /** `_issuer_serial_key`. */
  function IssuerSerialKey(hash: string -> string, leaf: Leaf): string {
    DERIVED_KEY_PREFIX + hash(Identity(leaf))
  }

  function Fingerprint(leaf: Leaf): string {
    Lower(Replace(leaf.sha256, ":", ""))
  }

  predicate NeedsDerivedKey(leaf: Leaf) {
    Fingerprint(leaf) in {"", EMPTY_INPUT_SHA256}
  }

  /** The key `parse_message` files a certificate under. */
  function CertificateKey(hash: string -> string, leaf: Leaf): string {
    if NeedsDerivedKey(leaf) then IssuerSerialKey(hash, leaf) else Fingerprint(leaf)
  }

  /** `issuer.get("O")`. */
  function Organisation(issuer: seq<Field>): Option<string> {
    if issuer == [] then None
    else if issuer[0].key == "O" then (if issuer[0].value.Str? then Some(issuer[0].value.s) else None)
    else Organisation(issuer[1..])
  }

  /** A certificate_update message with the fields the code relies on. */
  datatype Update = Update(leaf: Leaf, seenAt: int, notBefore: int, notAfter: int, ctLog: Option<string>,
                           domains: seq<string>)

  /** `parse_message` on such a message. */
  function CertificateOf(hash: string -> string, u: Update): Certificate {
    Certificate(CertificateKey(hash, u.leaf), u.seenAt, Organisation(u.leaf.issuer), u.notBefore, u.notAfter, u.ctLog,
                u.domains)
  }

  /** No key is empty, so the last check of `parse_message` never fails. */
  lemma KeyNotEmpty(hash: string -> string, leaf: Leaf)
    ensures CertificateKey(hash, leaf) != ""
  {
  }

  /** Nothing hashed to the same text as something else did. */
  ghost predicate NoCollision(hash: string -> string, leaves: set<Leaf>) {
    forall l, m :: l in leaves && m in leaves && hash(Identity(l)) == hash(Identity(m)) ==> Identity(l) == Identity(m)
  }

  /** Printing an issuer leaves no doubt where it ends, whatever bars the rest may hold. */
  lemma IdentityNamesIssuer(l: Leaf, m: Leaf)
    requires Identity(l) == Identity(m)
    ensures l.issuer == m.issuer
  {
    var x := "|" + if l.serialNumber != "" then l.serialNumber
      else l.notBefore + "|" + l.notAfter + "|" + Join(",", l.sortedDomains);
    var y := "|" + if m.serialNumber != "" then m.serialNumber
      else m.notBefore + "|" + m.notAfter + "|" + Join(",", m.sortedDomains);
    ContainerStarts(Obj(l.issuer), x);
    ContainerStarts(Obj(m.issuer), y);
    SamePrefix("{", "{", ObjectTail(l.issuer, x), ObjectTail(m.issuer, y));
    FieldsPrefixFree(l.issuer, m.issuer, x, y);
  }

  lemma {:induction false} ColonsRemoved(s: string)
    ensures ':' !in Replace(s, ":", "")
  {
    if s != "" { ColonsRemoved(s[1..]); }
  }

  /** A derived key is never mistaken for a fingerprint the feed sent. */
  lemma DerivedKeyIsNoFingerprint(hash: string -> string, l: Leaf, m: Leaf)
    ensures IssuerSerialKey(hash, l) != Fingerprint(m)
  {
    var bare := Replace(m.sha256, ":", "");
    ColonsRemoved(m.sha256);
    var key := IssuerSerialKey(hash, l);
    assert key[13] == ':';
    forall k | 0 <= k < |bare| ensures Fingerprint(m)[k] != ':' {
      assert bare[k] in bare;
    }
  }

  /** A genuine fingerprint identifies a certificate, so its issuer. */
  ghost predicate FingerprintsIdentify(leaves: set<Leaf>) {
    forall l, m :: l in leaves && m in leaves && !NeedsDerivedKey(l) && Fingerprint(l) == Fingerprint(m) ==>
      l.issuer == m.issuer
  }

  /** Equal keys mean equal issuers: what `rescore` relies on when it reads the issuer back. */
  lemma SameKeySameIssuer(hash: string -> string, leaves: set<Leaf>, l: Leaf, m: Leaf)
    requires NoCollision(hash, leaves) && FingerprintsIdentify(leaves) && l in leaves && m in leaves
    requires CertificateKey(hash, l) == CertificateKey(hash, m)
    ensures Organisation(l.issuer) == Organisation(m.issuer)
  {
    DerivedKeyIsNoFingerprint(hash, l, m);
    DerivedKeyIsNoFingerprint(hash, m, l);
    if NeedsDerivedKey(l) {
      SamePrefix(DERIVED_KEY_PREFIX, DERIVED_KEY_PREFIX, hash(Identity(l)), hash(Identity(m)));
      IdentityNamesIssuer(l, m);
    }
  }
}
