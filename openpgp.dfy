/** The parts of the Sequoia libraries the plugin calls into, as values.
    Parsing, signing, signature validation, the keystore service and the
    on-disk certificate store are not modelled; each appears as a function
    whose outcome the model takes as given (an oracle). */
module OpenPgp {
  import opened Common

  /** A file-system path: on Unix an `OsStr`, that is, bytes. */
  type Path = seq<byte>

  /** `openpgp::KeyHandle`: a fingerprint or a key ID. */
  datatype KeyHandle = ByFingerprint(fingerprint: seq<byte>) | ByKeyId(keyId: seq<byte>)

  /** The upper-case hexadecimal digit for `n`. */
  function HexDigit(n: int): (d: byte)
    requires 0 <= n < 16
    ensures 0x30 <= d <= 0x39 || 0x41 <= d <= 0x46
  {
    if n < 10 then (0x30 + n) as byte else (0x41 + n - 10) as byte
  }

  /** `Fingerprint::to_hex`: two upper-case hexadecimal digits per byte, the
      high nibble first, without separators or terminator. */
  function Hex(bytes: seq<byte>): (r: seq<byte>)
    ensures |r| == 2 * |bytes|
    ensures forall i :: 0 <= i < |bytes| ==>
              r[2 * i] == HexDigit(bytes[i] as int / 16) && r[2 * i + 1] == HexDigit(bytes[i] as int % 16)
  {
    if bytes == [] then []
    else [HexDigit(bytes[0] as int / 16), HexDigit(bytes[0] as int % 16)] + Hex(bytes[1..])
  }

  /** Every byte of a hexadecimal fingerprint is a printable ASCII digit,
      in particular never NUL. */
  lemma {:induction false} HexIsAsciiDigits(bytes: seq<byte>)
    ensures forall i :: 0 <= i < |Hex(bytes)| ==> 0x30 <= Hex(bytes)[i] < 0x80
    ensures NUL !in Hex(bytes)
  {
    var h := Hex(bytes);
    forall i | 0 <= i < |h|
      ensures 0x30 <= h[i] < 0x80
    {
      var j := i / 2;
      assert 0 <= j < |bytes|;
      if i == 2 * j {
        assert h[i] == HexDigit(bytes[j] as int / 16);
      } else {
        assert i == 2 * j + 1;
        assert h[i] == HexDigit(bytes[j] as int % 16);
      }
    }
  }

  /** `openpgp::Cert`: identified by its primary key's fingerprint; the rest
      of the certificate is carried as opaque bytes. */
  datatype Cert = Cert(fingerprint: seq<byte>, rest: seq<byte>)

  /** `LazyCert`: a certificate held by a store, parsed on `to_cert()`. */
  datatype LazyCert = LazyCert(toCert: Result<Cert>)

  /** One entry of a signature group: `Ok(GoodChecksum)` carries the
      certificate of the key that made the signature, `Err(VerificationError)`
      carries why the signature was not accepted. */
  datatype SignatureCheck = Good(cert: Cert) | Bad(reason: Failure)

  /** `MessageLayer`: one layer of a parsed message, outermost first. */
  datatype MessageLayer =
    | Compression
    | Encryption
    | SignatureGroup(results: seq<SignatureCheck>)

  /** A key found in the keystore (`sequoia_keystore::Key`). */
  datatype Key = Key(fingerprint: seq<byte>)

  /** What the streaming verifier does with one signed message. Either it
      fails on its own (malformed input, I/O), or it asks the helper for the
      certificates of `issuers`, validates every signature against the
      certificates it gets back (`structureFor`) and yields the literal
      `content`. `whileReading` says whether the engine calls the helper
      while the content is read (`read_to_end`, whose errors are
      `io::Error`s) rather than while the verifier is built
      (`with_policy`). */
  datatype VerifierRun =
    | Malformed(error: Failure)
    | Verifying(issuers: seq<KeyHandle>, structureFor: seq<Cert> -> seq<MessageLayer>, content: seq<byte>,
                whileReading: bool)

  /** The OpenPGP engine. `signMessage(key, unlocked, data)` is the signed,
      literal-wrapped message the engine writes for `data` with `key`, given
      whether the keystore holds that key unlocked. */
  datatype Library = Library(
    parseKeyHandle: seq<byte> -> Result<KeyHandle>,
    parseKeyring: seq<byte> -> Result<seq<Cert>>,
    signMessage: (Key, bool, seq<byte>) -> Result<seq<byte>>,
    verifier: seq<byte> -> VerifierRun)

  /** A connection to the keystore service: key lookup, and the outcome of
      unlocking a key with a password (`None` is success). */
  datatype KeystoreBackend = KeystoreBackend(
    find: KeyHandle -> Result<seq<Key>>,
    unlock: (Key, seq<byte>) -> Option<Failure>)

  /** The environment a mechanism is opened in: the platform data directory
      (`dirs::data_dir()`), building a keystore context and connecting to it
      (rooted at a home directory, or ephemeral for `None`), and opening the
      certificate directory at a path, which yields its lookup function. */
  datatype Platform = Platform(
    dataDir: Option<Path>,
    connect: Option<Path> -> Result<KeystoreBackend>,
    openCertDirectory: Path -> Result<KeyHandle -> Result<seq<LazyCert>>>)

  /** A certificate store: one opened on a directory, whose lookups the model
      takes as given, or an in-memory one holding the certificates inserted
      into it. */
  datatype CertStore =
    | OnDisk(path: Path, lookup: KeyHandle -> Result<seq<LazyCert>>)
    | InMemory(certs: seq<Cert>)

  /** Whether `id` names the primary key whose fingerprint is `fingerprint`
      (for a version 4 key, the key ID is the fingerprint's last 8 bytes). */
  predicate Aliases(id: KeyHandle, fingerprint: seq<byte>) {
    match id
    case ByFingerprint(fp) => fp == fingerprint
    case ByKeyId(kid) => |fingerprint| >= 8 && kid == fingerprint[|fingerprint| - 8..]
  }

  /** The certificates of `certs` whose primary key `id` names, in order. */
  function Matching(certs: seq<Cert>, id: KeyHandle): (r: seq<Cert>)
    ensures forall c :: c in r <==> c in certs && Aliases(id, c.fingerprint)
  {
    if certs == [] then []
    else (if Aliases(id, certs[0].fingerprint) then [certs[0]] else []) + Matching(certs[1..], id)
  }

  /** Store entries for certificates that are already parsed. */
  function Parsed(certs: seq<Cert>): seq<LazyCert> {
    if certs == [] then [] else [LazyCert(Ok(certs[0]))] + Parsed(certs[1..])
  }

  /** The bytes a key handle is made of. */
  function HandleBytes(id: KeyHandle): seq<byte> {
    match id
    case ByFingerprint(fp) => fp
    case ByKeyId(kid) => kid
  }

  /** The store's `NotFound` error for `id`: it wraps no `io::Error`, and
      its text names the handle in hexadecimal. */
  function NotFound(id: KeyHandle): (f: Failure)
    ensures !f.isIo
    ensures Hex(HandleBytes(id)) <= f.text
  {
    Failure(false, Hex(HandleBytes(id)) + Ascii(" was not found"))
  }

  /** `lookup_by_cert`: the store's entries for the certificate `id` names;
      a store that holds none reports `NotFound` rather than an empty list. */
  function Lookup(store: CertStore, id: KeyHandle): Result<seq<LazyCert>> {
    match store
    case OnDisk(_, lookup) => lookup(id)
    case InMemory(certs) =>
      var found := Matching(certs, id);
      if found == [] then Err(NotFound(id)) else Ok(Parsed(found))
  }
}
