/** The signing mechanism of capi/src/signature.rs: a keystore connection
    and a certificate store, opened on a home directory or built in memory
    from a keyring, with the `sign` and `verify` operations. */
module Mechanisms {
  import opened Common
  import opened OpenPgp
  import opened Verification

  const NO_DATA_DIRECTORY: Failure := Adhoc("unable to determine XDG data directory")
  const NO_MATCHING_KEY: Failure := Adhoc("No matching key")
  const SEQUOIA: Path := Ascii("sequoia")
  const CERTS: Path := Ascii("certs")

  /** Whether appending a relative component to `base` needs a separator. */
  predicate NeedsSeparator(base: Path) {
    base != [] && base[|base| - 1] != SLASH
  }

  /** `base.join(name)` for a relative, one-component `name`: `name` follows
      `base`, separated by a slash unless `base` is empty or already ends
      in one. */
  function Join(base: Path, name: Path): (r: Path)
    ensures |r| == |base| + |name| + (if NeedsSeparator(base) then 1 else 0)
    ensures r[..|base|] == base
    ensures r[|r| - |name|..] == name
    ensures base != [] ==> r[|r| - |name| - 1] == SLASH
  {
    if NeedsSeparator(base) then base + [SLASH] + name else base + name
  }

  /** The home directory `from_directory` settles on: a non-empty `dir` as
      it is; for an empty one, "sequoia" under the platform data directory,
      or an error when there is none. */
  function HomeDirectory(dir: Path, dataDir: Option<Path>): (r: Result<Path>)
    ensures dir != [] ==> r == Ok(dir)
    ensures dir == [] ==> (r.Err? <==> dataDir.None?)
    ensures r.Err? ==> r.error == NO_DATA_DIRECTORY
    ensures dir == [] && dataDir.Some? ==>
              r.Ok? && |r.value| >= |dataDir.value| + |SEQUOIA|
              && r.value[..|dataDir.value|] == dataDir.value
              && r.value[|r.value| - |SEQUOIA|..] == SEQUOIA
  {
    if dir == [] then
      match dataDir
      case None => Err(NO_DATA_DIRECTORY)
      case Some(d) => Ok(Join(d, SEQUOIA))
    else Ok(dir)
  }

  /** With no directory given, the certificates live in "sequoia/certs"
      under the data directory; with one given, in its "certs" entry. */
  lemma CertDirectoryLayout(dir: Path, dataDir: Option<Path>)
    requires HomeDirectory(dir, dataDir).Ok?
    ensures dir != [] && NeedsSeparator(dir) ==>
              Join(HomeDirectory(dir, dataDir).value, CERTS) == dir + [SLASH] + CERTS
    ensures dir == [] && NeedsSeparator(dataDir.value) ==>
              Join(HomeDirectory(dir, dataDir).value, CERTS)
                == dataDir.value + [SLASH] + SEQUOIA + [SLASH] + CERTS
  {
  }

  /** What a successful `verify` hands back: the literal content and the
      certificate of the accepted signer. */
  datatype VerifiedMessage = VerifiedMessage(content: seq<byte>, signer: Cert)

  /** An error the helper returns while `read_to_end` runs: the engine
      hands it back as an `io::Error` with the same text, which `?` then
      wraps. */
  function ThroughRead(e: Failure): (f: Failure)
    ensures f.isIo && f.text == e.text
  {
    Failure(true, e.text)
  }

  /** A helper failure as `verify` passes it on. */
  function Surfaced(whileReading: bool, e: Failure): Failure {
    if whileReading then ThroughRead(e) else e
  }

  /** The outcome of `verify` on a run of the verifier against `store`: the
      verifier's own failure, the helper's `get_certs` failure, the helper's
      `check` failure, or the content with the signer `check` recorded. A
      helper failure met while reading reaches `verify` as an I/O error. */
  function VerifyOutcome(store: CertStore, run: VerifierRun): Result<VerifiedMessage> {
    match run
    case Malformed(e) => Err(e)
    case Verifying(ids, structureFor, content, whileReading) =>
      match CertsFor(store, ids)
      case Err(e) => Err(Surfaced(whileReading, e))
      case Ok(certs) =>
        match Decide(structureFor(certs))
        case Accept(c) => Ok(VerifiedMessage(content, c))
        case UnexpectedStructure => Err(Surfaced(whileReading, UNEXPECTED_STRUCTURE))
        case NoValidSignature => Err(Surfaced(whileReading, NO_VALID_SIGNATURE))
  }

  /** How `verify`'s own rejections are classified: when the helper runs
      while the verifier is built, a rejection by `check` keeps its ad-hoc,
      non-I/O error; when it runs while the content is read, every failure
      of the helper reaches the caller as an I/O error, with its text kept. */
  lemma RejectionKinds(store: CertStore, run: VerifierRun)
    requires run.Verifying? && VerifyOutcome(store, run).Err?
    ensures run.whileReading ==> VerifyOutcome(store, run).error.isIo
    ensures !run.whileReading && CertsFor(store, run.issuers).Ok? ==>
              VerifyOutcome(store, run).error in {UNEXPECTED_STRUCTURE, NO_VALID_SIGNATURE}
              && !VerifyOutcome(store, run).error.isIo
    ensures run.whileReading && CertsFor(store, run.issuers).Ok? ==>
              VerifyOutcome(store, run).error.text in {UNEXPECTED_STRUCTURE.text, NO_VALID_SIGNATURE.text}
  {
  }

  /** Every good signature in `layers` was made by one of `certs`. */
  ghost predicate Vouched(layers: seq<MessageLayer>, certs: seq<Cert>) {
    forall k, i ::
      (0 <= k < |layers| && layers[k].SignatureGroup? && 0 <= i < |layers[k].results| && layers[k].results[i].Good?)
        ==> layers[k].results[i].cert in certs
  }

  /** A verifier that reports a signature good only against a certificate
      the helper supplied. */
  ghost predicate Sound(run: VerifierRun) {
    run.Verifying? ==> forall certs :: Vouched(run.structureFor(certs), certs)
  }

  lemma {:induction false} AcceptedSignerVouched(layers: seq<MessageLayer>, certs: seq<Cert>)
    requires Vouched(layers, certs) && Decide(layers).Accept?
    ensures Decide(layers).signer in certs
  {
    match layers[0] {
      case SignatureGroup(results) =>
        if FirstGood(results).None? {
          assert Vouched(layers[1..], certs) by {
            forall k, i | 0 <= k < |layers[1..]| && layers[1..][k].SignatureGroup? && 0 <= i < |layers[1..][k].results|
                          && layers[1..][k].results[i].Good?
              ensures layers[1..][k].results[i].cert in certs
            {
              assert layers[1..][k] == layers[k + 1];
            }
          }
          AcceptedSignerVouched(layers[1..], certs);
        } else {
          var i :| 0 <= i < |results| && results[i] == Good(FirstGood(results).value);
        }
      case _ =>
    }
  }

  /** With a sound verifier, the signer `verify` reports is a certificate
      the store resolved for the message's issuers; in particular a message
      whose issuers the store knows nothing about is never accepted. */
  lemma SignerComesFromStore(store: CertStore, run: VerifierRun)
    requires Sound(run) && VerifyOutcome(store, run).Ok?
    ensures run.Verifying? && CertsFor(store, run.issuers).Ok?
    ensures VerifyOutcome(store, run).value.signer in CertsFor(store, run.issuers).value
  {
    var certs := CertsFor(store, run.issuers).value;
    AcceptedSignerVouched(run.structureFor(certs), certs);
  }

  /** A mechanism built from a keyring accepts only signers from that
      keyring whose primary key the message names as an issuer. */
  lemma EphemeralAcceptsOnlyItsKeyring(certs: seq<Cert>, run: VerifierRun)
    requires Sound(run) && VerifyOutcome(InMemory(certs), run).Ok?
    ensures VerifyOutcome(InMemory(certs), run).value.signer in certs
    ensures exists i :: 0 <= i < |run.issuers|
                        && Aliases(run.issuers[i], VerifyOutcome(InMemory(certs), run).value.signer.fingerprint)
  {
    SignerComesFromStore(InMemory(certs), run);
    InMemoryResolvesOnlyItsOwn(certs, run.issuers);
  }

  /** A mechanism built from a keyring rejects every message one of whose
      issuers names no certificate of the keyring, with the store's
      `NotFound` error for the first such issuer (passed on as an I/O error
      when the helper runs while the content is read), whatever its
      signatures. */
  lemma EphemeralRejectsUnknownIssuers(certs: seq<Cert>, run: VerifierRun, k: nat)
    requires run.Verifying? && k < |run.issuers| && Matching(certs, run.issuers[k]) == []
    ensures VerifyOutcome(InMemory(certs), run).Err?
    ensures exists j :: 0 <= j < |run.issuers| && Matching(certs, run.issuers[j]) == []
                        && VerifyOutcome(InMemory(certs), run).error == Surfaced(run.whileReading, NotFound(run.issuers[j]))
  {
    var store := InMemory(certs);
    InMemoryResolvesOnlyItsOwn(certs, run.issuers);
    CertsForFirstError(store, run.issuers);
    var j :| 0 <= j < |run.issuers| && Resolve(store, run.issuers[j]) == CertsFor(store, run.issuers);
    ResolveInMemory(certs, run.issuers[j]);
  }

  /** `check` looks at the outermost layers first: a good signature group on
      the outside accepts the message whatever follows it, and a compression
      or encryption layer on the outside rejects it whatever follows. */
  lemma OuterLayerDecides(results: seq<SignatureCheck>, rest: seq<MessageLayer>, outer: MessageLayer)
    requires FirstGood(results).Some? && !outer.SignatureGroup?
    ensures Decide([SignatureGroup(results)] + rest) == Accept(FirstGood(results).value)
    ensures Decide([outer] + rest) == UnexpectedStructure
  {
  }

  /** What `sign` returns, and the keys the keystore holds unlocked after it. */
  datatype Signing = Signing(result: Result<seq<byte>>, unlocked: set<Key>)

  /** `sign` on a keystore holding `unlocked`: parse the key handle, find its
      keys, fail with "No matching key" when there are none, unlock the
      first with the password when one is given, and sign with it. */
  function SignOutcome(lib: Library, backend: KeystoreBackend, unlocked: set<Key>,
                       keyHandle: seq<byte>, password: Option<seq<byte>>, data: seq<byte>): Signing
  {
    match lib.parseKeyHandle(keyHandle)
    case Err(e) => Signing(Err(e), unlocked)
    case Ok(handle) =>
      match backend.find(handle)
      case Err(e) => Signing(Err(e), unlocked)
      case Ok(keys) =>
        if |keys| == 0 then Signing(Err(NO_MATCHING_KEY), unlocked)
        else
          match password
          case None => Signing(lib.signMessage(keys[0], keys[0] in unlocked, data), unlocked)
          case Some(p) =>
            match backend.unlock(keys[0], p)
            case Some(e) => Signing(Err(e), unlocked)
            case None => Signing(lib.signMessage(keys[0], true, data), unlocked + {keys[0]})
  }

  /** When the keystore finds no key for the handle, `sign` fails with "No
      matching key", produces nothing and unlocks nothing. */
  lemma SignNeedsAMatchingKey(lib: Library, backend: KeystoreBackend, unlocked: set<Key>,
                              keyHandle: seq<byte>, password: Option<seq<byte>>, data: seq<byte>)
    requires lib.parseKeyHandle(keyHandle).Ok? && backend.find(lib.parseKeyHandle(keyHandle).value) == Ok([])
    ensures SignOutcome(lib, backend, unlocked, keyHandle, password, data) == Signing(Err(NO_MATCHING_KEY), unlocked)
  {
  }

  /** Only a failed unlock or a successful one changes what `sign` does with
      a password: a failed unlock of the first key aborts the call with that
      error; a successful one leaves the key unlocked and signs with it. */
  lemma SignUnlocksFirstKey(lib: Library, backend: KeystoreBackend, unlocked: set<Key>,
                            keyHandle: seq<byte>, password: seq<byte>, data: seq<byte>)
    requires lib.parseKeyHandle(keyHandle).Ok?
    requires var found := backend.find(lib.parseKeyHandle(keyHandle).value); found.Ok? && found.value != []
    ensures var key := backend.find(lib.parseKeyHandle(keyHandle).value).value[0];
            var run := SignOutcome(lib, backend, unlocked, keyHandle, Some(password), data);
            && (backend.unlock(key, password).Some? ==> run == Signing(Err(backend.unlock(key, password).value), unlocked))
            && (backend.unlock(key, password).None? ==>
                  run == Signing(lib.signMessage(key, true, data), unlocked + {key}))
  {
  }

  /** Whatever `sign` returns on success is the engine's message for the
      first key found, and `sign` only ever adds that key to the unlocked
      ones. */
  lemma SignUsesFirstKey(lib: Library, backend: KeystoreBackend, unlocked: set<Key>,
                         keyHandle: seq<byte>, password: Option<seq<byte>>, data: seq<byte>)
    requires SignOutcome(lib, backend, unlocked, keyHandle, password, data).result.Ok?
    ensures lib.parseKeyHandle(keyHandle).Ok?
    ensures var found := backend.find(lib.parseKeyHandle(keyHandle).value);
            && found.Ok? && found.value != []
            && SignOutcome(lib, backend, unlocked, keyHandle, password, data).result
                 == lib.signMessage(found.value[0], found.value[0] in SignOutcome(lib, backend, unlocked, keyHandle, password, data).unlocked, data)
            && SignOutcome(lib, backend, unlocked, keyHandle, password, data).unlocked - unlocked <= {found.value[0]}
  {
  }

  /** The first failure `from_directory` meets, if any. */
  function FromDirectoryFailure(dir: Path, platform: Platform): Option<Failure> {
    match HomeDirectory(dir, platform.dataDir)
    case Err(e) => Some(e)
    case Ok(home) =>
      match platform.connect(Some(home))
      case Err(e) => Some(e)
      case Ok(_) =>
        match platform.openCertDirectory(Join(home, CERTS))
        case Err(e) => Some(e)
        case Ok(_) => None
  }

  /** The first failure `ephemeral` meets, if any. */
  function EphemeralFailure(lib: Library, platform: Platform, keyring: seq<byte>): Option<Failure> {
    match lib.parseKeyring(keyring)
    case Err(e) => Some(e)
    case Ok(_) =>
      match platform.connect(None)
      case Err(e) => Some(e)
      case Ok(_) => None
  }

  /** The keystore connection; unlocking a key is remembered for later
      calls on the same connection. */
  class Keystore {
    const backend: KeystoreBackend
    var unlocked: set<Key>

    constructor (backend: KeystoreBackend)
      ensures this.backend == backend && unlocked == {}
    {
      this.backend := backend;
      unlocked := {};
    }

    /** `key.unlock(password)`. */
    method Unlock(key: Key, password: seq<byte>) returns (r: Option<Failure>)
      modifies this
      ensures r == backend.unlock(key, password)
      ensures unlocked == if r.None? then old(unlocked) + {key} else old(unlocked)
    {
      r := backend.unlock(key, password);
      if r.None? {
        unlocked := unlocked + {key};
      }
    }
  }

  class Mechanism {
    const keystore: Keystore
    const certstore: CertStore

    constructor (keystore: Keystore, certstore: CertStore)
      ensures this.keystore == keystore && this.certstore == certstore
    {
      this.keystore := keystore;
      this.certstore := certstore;
    }

    /** `sign`: parse the key handle, find its keys, fail with "No matching
        key" when there are none, unlock the first with the password if one
        is given, and sign `data` with it. Nothing is returned but the
        complete signed message or an error. */
    method Sign(lib: Library, keyHandle: seq<byte>, password: Option<seq<byte>>, data: seq<byte>)
      returns (r: Result<seq<byte>>)
      modifies keystore
      ensures r == SignOutcome(lib, keystore.backend, old(keystore.unlocked), keyHandle, password, data).result
      ensures keystore.unlocked == SignOutcome(lib, keystore.backend, old(keystore.unlocked), keyHandle, password, data).unlocked
    {
      var handle := lib.parseKeyHandle(keyHandle);
      if handle.Err? {
        return Err(handle.error);
      }
      var keys := keystore.backend.find(handle.value);
      if keys.Err? {
        return Err(keys.error);
      }
      if |keys.value| == 0 {
        return Err(NO_MATCHING_KEY);
      }
      var key := keys.value[0];
      if password.Some? {
        var failed := keystore.Unlock(key, password.value);
        if failed.Some? {
          return Err(failed.value);
        }
      }
      return lib.signMessage(key, key in keystore.unlocked, data);
    }

    /** `verify`: run the verifier with a fresh helper over this mechanism's
        certificate store, then report the content together with the signer
        the helper recorded, which exists exactly when `verify` succeeds. */
    method Verify(lib: Library, signature: seq<byte>) returns (r: Result<VerifiedMessage>, ghost recorded: Option<Cert>)
      ensures r == VerifyOutcome(certstore, lib.verifier(signature))
      ensures r.Ok? <==> recorded.Some?
      ensures r.Ok? ==> r.value.signer == recorded.value
    {
      var helper := new Helper(certstore);
      var run := lib.verifier(signature);
      if run.Malformed? {
        return Err(run.error), helper.signer;
      }
      var certs := helper.GetCerts(run.issuers);
      if certs.Err? {
        return Err(Surfaced(run.whileReading, certs.error)), helper.signer;
      }
      assert certs == CertsFor(certstore, run.issuers);
      ghost var decision := Decide(run.structureFor(certs.value));
      var checked := helper.Check(run.structureFor(certs.value));
      if checked.Err? {
        assert !decision.Accept?;
        return Err(Surfaced(run.whileReading, checked.error)), helper.signer;
      }
      assert decision.Accept? && helper.signer == Some(decision.signer);
      var content := run.content;
      recorded := helper.signer;
      match helper.signer {
        case Some(signer) =>
          r := Ok(VerifiedMessage(content, signer));
        case None =>
          assert false;
      }
    }
  }

  /** `from_directory`: settle on the home directory, connect a keystore
      rooted there and open the certificate store in its "certs" entry; the
      first failure is returned. */
  method FromDirectory(dir: Path, platform: Platform) returns (r: Result<Mechanism>)
    ensures r.Err? <==> FromDirectoryFailure(dir, platform).Some?
    ensures r.Err? ==> r.error == FromDirectoryFailure(dir, platform).value
    ensures HomeDirectory(dir, platform.dataDir).Err? ==> r == Err(NO_DATA_DIRECTORY)
    ensures HomeDirectory(dir, platform.dataDir).Ok? ==>
              var home := HomeDirectory(dir, platform.dataDir).value;
              var backend := platform.connect(Some(home));
              var certDirectory := platform.openCertDirectory(Join(home, CERTS));
              && (backend.Err? ==> r == Err(backend.error))
              && (backend.Ok? && certDirectory.Err? ==> r == Err(certDirectory.error))
              && (backend.Ok? && certDirectory.Ok? ==>
                    && r.Ok? && fresh(r.value) && fresh(r.value.keystore)
                    && r.value.keystore.backend == backend.value
                    && r.value.keystore.unlocked == {}
                    && r.value.certstore == OnDisk(Join(home, CERTS), certDirectory.value))
  {
    var home := HomeDirectory(dir, platform.dataDir);
    if home.Err? {
      return Err(home.error);
    }
    var backend := platform.connect(Some(home.value));
    if backend.Err? {
      return Err(backend.error);
    }
    var keystore := new Keystore(backend.value);
    var path := Join(home.value, CERTS);
    var certDirectory := platform.openCertDirectory(path);
    if certDirectory.Err? {
      return Err(certDirectory.error);
    }
    var mechanism := new Mechanism(keystore, OnDisk(path, certDirectory.value));
    return Ok(mechanism);
  }

  /** `ephemeral`: parse the keyring, insert every certificate into an empty
      in-memory store, and connect an ephemeral keystore. */
  method Ephemeral(lib: Library, platform: Platform, keyring: seq<byte>) returns (r: Result<Mechanism>)
    ensures r.Err? <==> EphemeralFailure(lib, platform, keyring).Some?
    ensures r.Err? ==> r.error == EphemeralFailure(lib, platform, keyring).value
    ensures lib.parseKeyring(keyring).Err? ==> r == Err(lib.parseKeyring(keyring).error)
    ensures lib.parseKeyring(keyring).Ok? ==>
              var backend := platform.connect(None);
              && (backend.Err? ==> r == Err(backend.error))
              && (backend.Ok? ==>
                    && r.Ok? && fresh(r.value) && fresh(r.value.keystore)
                    && r.value.keystore.backend == backend.value
                    && r.value.keystore.unlocked == {}
                    && r.value.certstore == InMemory(lib.parseKeyring(keyring).value))
  {
    var parsed := lib.parseKeyring(keyring);
    if parsed.Err? {
      return Err(parsed.error);
    }
    var certs := parsed.value;
    var inserted: seq<Cert> := [];
    for i := 0 to |certs|
      invariant inserted == certs[..i]
    {
      inserted := inserted + [certs[i]];
    }
    assert certs[..|certs|] == certs;
    var backend := platform.connect(None);
    if backend.Err? {
      return Err(backend.error);
    }
    var keystore := new Keystore(backend.value);
    var mechanism := new Mechanism(keystore, InMemory(inserted));
    return Ok(mechanism);
  }
}
