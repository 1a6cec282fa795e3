/** The C entry points of capi/src/signature.rs. Each returns a pointer the
    caller then owns (tracked in `Heap.live`) or null; on null it has written
    an error into the caller's nullable `err_ptr` slot. A C string argument
    is the bytes before its terminator, so it holds no NUL; the null checks
    the entry points assert are the non-null parameter types. */
module Capi {
  import opened Common
  import opened OpenPgp
  import opened Ownership
  import opened ErrorChannel
  import opened CStrings
  import opened Mechanisms

  /** The boxed result of `pgp_sign`: the signed message. */
  class Signature {
    const data: seq<byte>

    constructor (data: seq<byte>)
      ensures this.data == data
    {
      this.data := data;
    }
  }

  /** The boxed result of `pgp_verify`. */
  class VerificationResult {
    const content: seq<byte>
    const signer: Cert

    constructor (content: seq<byte>, signer: Cert)
      ensures this.content == content && this.signer == signer
    {
      this.content := content;
      this.signer := signer;
    }
  }

  /** The `size_t` a `data_len` pointer designates. */
  class SizeSlot {
    var value: nat

    constructor ()
      ensures value == 0
    {
      value := 0;
    }
  }

  /** `pgp_mechanism_new_from_directory`: a new mechanism, or null with the
      failure of `from_directory` reported. */
  method PgpMechanismNewFromDirectory(heap: Heap, platform: Platform, dir: seq<byte>, errPtr: ErrorSlot?)
    returns (m: Mechanism?)
    requires NUL !in dir
    modifies heap, errPtr
    ensures m == null <==> FromDirectoryFailure(dir, platform).Some?
    ensures m != null ==>
              var home := HomeDirectory(dir, platform.dataDir).value;
              && fresh(m) && fresh(m.keystore)
              && m.keystore.backend == platform.connect(Some(home)).value
              && m.keystore.unlocked == {}
              && m.certstore == OnDisk(Join(home, CERTS), platform.openCertDirectory(Join(home, CERTS)).value)
              && heap.live == old(heap.live) + {m}
              && SlotUnchanged(errPtr)
    ensures m == null ==> Reported(heap, errPtr, FromDirectoryFailure(dir, platform).value)
  {
    var r := FromDirectory(dir, platform);
    match r {
      case Ok(mechanism) =>
        heap.IntoRaw(mechanism);
        m := mechanism;
      case Err(e) =>
        SetErrorFrom(heap, errPtr, e);
        m := null;
    }
  }

  /** `pgp_mechanism_new_ephemeral`: a new mechanism over the keyring's
      certificates, or null with the failure of `ephemeral` reported. */
  method PgpMechanismNewEphemeral(heap: Heap, lib: Library, platform: Platform, keyring: seq<byte>, errPtr: ErrorSlot?)
    returns (m: Mechanism?)
    modifies heap, errPtr
    ensures m == null <==> EphemeralFailure(lib, platform, keyring).Some?
    ensures m != null ==>
              && fresh(m) && fresh(m.keystore)
              && m.keystore.backend == platform.connect(None).value
              && m.keystore.unlocked == {}
              && m.certstore == InMemory(lib.parseKeyring(keyring).value)
              && heap.live == old(heap.live) + {m}
              && SlotUnchanged(errPtr)
    ensures m == null ==> Reported(heap, errPtr, EphemeralFailure(lib, platform, keyring).value)
  {
    var r := Ephemeral(lib, platform, keyring);
    match r {
      case Ok(mechanism) =>
        heap.IntoRaw(mechanism);
        m := mechanism;
      case Err(e) =>
        SetErrorFrom(heap, errPtr, e);
        m := null;
    }
  }

  /** `pgp_mechanism_free`: reclaim a mechanism the caller owns. */
  method PgpMechanismFree(heap: Heap, m: Mechanism)
    requires m in heap.live
    modifies heap
    ensures heap.live == old(heap.live) - {m}
  {
    heap.Drop(m);
  }

  /** `pgp_signature_free`: reclaim a signature the caller owns. */
  method PgpSignatureFree(heap: Heap, s: Signature)
    requires s in heap.live
    modifies heap
    ensures heap.live == old(heap.live) - {s}
  {
    heap.Drop(s);
  }

  /** `pgp_verification_result_free`: reclaim a result the caller owns. */
  method PgpVerificationResultFree(heap: Heap, v: VerificationResult)
    requires v in heap.live
    modifies heap
    ensures heap.live == old(heap.live) - {v}
  {
    heap.Drop(v);
  }

  /** `pgp_signature_get_data`: the signed message, its length stored
      through `data_len`. */
  method PgpSignatureGetData(heap: Heap, s: Signature, dataLen: SizeSlot) returns (data: seq<byte>)
    requires s in heap.live
    modifies dataLen
    ensures data == s.data && dataLen.value == |s.data|
  {
    dataLen.value := |s.data|;
    data := s.data;
  }

  /** `pgp_verification_result_get_content`: the verified content, its
      length stored through `data_len`. */
  method PgpVerificationResultGetContent(heap: Heap, v: VerificationResult, dataLen: SizeSlot) returns (data: seq<byte>)
    requires v in heap.live
    modifies dataLen
    ensures data == v.content && dataLen.value == |v.content|
  {
    dataLen.value := |v.content|;
    data := v.content;
  }

  /** What `pgp_verification_result_get_signer` hands back as written: the
      hexadecimal fingerprint is given to `CStr::from_bytes_with_nul`, and
      null is returned when that refuses it. */
  function SignerAsWritten(signer: Cert): Option<seq<byte>> {
    FromBytesWithNul(Hex(signer.fingerprint))
  }

  /** `to_hex` appends no terminator, and a hexadecimal digit is never NUL,
      so the getter as written returns null for every signer. */
  lemma {:induction false} SignerAsWrittenIsNull(signer: Cert)
    ensures SignerAsWritten(signer) == None
  {
    var h := Hex(signer.fingerprint);
    HexIsAsciiDigits(signer.fingerprint);
    if |h| > 0 {
      assert h[|h| - 1] in h;
      assert h[|h| - 1] != NUL;
    }
  }

  /** The C string the getter evidently means to return: the hexadecimal
      fingerprint with a terminator appended (`CString::new(to_hex())`). */
  function SignerString(signer: Cert): (r: seq<byte>)
    ensures |r| == 2 * |signer.fingerprint| + 1 && r[|r| - 1] == NUL
  {
    Hex(signer.fingerprint) + [NUL]
  }

  /** A C reader of the corrected getter's string sees exactly the
      hexadecimal fingerprint, and `from_bytes_with_nul` accepts it. */
  lemma {:induction false} SignerStringReadsAsHex(signer: Cert)
    ensures CView(SignerString(signer)) == Hex(signer.fingerprint)
    ensures FromBytesWithNul(SignerString(signer)) == Some(Hex(signer.fingerprint))
  {
    var h := Hex(signer.fingerprint);
    var s := SignerString(signer);
    HexIsAsciiDigits(signer.fingerprint);
    assert s[..|h|] == h;
    TruncatedAtFirstNul(s, |h|);
    FromBytesWithNulOfTerminated(h);
  }

  /** `pgp_verification_result_get_signer`, corrected: the signer's
      fingerprint as a C string. */
  method PgpVerificationResultGetSigner(heap: Heap, v: VerificationResult) returns (p: seq<byte>)
    requires v in heap.live
    ensures p == SignerString(v.signer)
    ensures CView(p) == Hex(v.signer.fingerprint)
  {
    p := SignerString(v.signer);
    SignerStringReadsAsHex(v.signer);
  }

  /** What `pgp_sign` does: decode the key handle and then the password as
      UTF-8, failing on the first that is not, and otherwise `sign`. */
  function PgpSignOutcome(lib: Library, backend: KeystoreBackend, unlocked: set<Key>,
                          keyHandle: seq<byte>, password: Option<seq<byte>>, data: seq<byte>): Signing
  {
    match ToStr(keyHandle)
    case Err(e) => Signing(Err(e), unlocked)
    case Ok(handle) =>
      if password.Some? && ToStr(password.value).Err? then Signing(Err(ToStr(password.value).error), unlocked)
      else SignOutcome(lib, backend, unlocked, handle, password, data)
  }

  /** A key handle or password that is not UTF-8 fails `pgp_sign` with an
      `Unknown` error before the keystore is consulted. */
  lemma Utf8CheckedFirst(lib: Library, backend: KeystoreBackend, unlocked: set<Key>,
                         keyHandle: seq<byte>, password: Option<seq<byte>>, data: seq<byte>)
    requires !ValidUtf8(keyHandle) || (password.Some? && !ValidUtf8(password.value))
    ensures var run := PgpSignOutcome(lib, backend, unlocked, keyHandle, password, data);
            && run.result.Err? && KindOf(run.result.error) == Unknown
            && run.unlocked == unlocked
            && run.result.error == Utf8Failure(if !ValidUtf8(keyHandle) then keyHandle else password.value)
  {
  }

  /** A hexadecimal key handle, such as the fingerprint the signer getter
      returns, always passes the UTF-8 check, and so does an ASCII password:
      `pgp_sign` then signs exactly as `sign` does. */
  lemma HexKeyHandlesReachSign(lib: Library, backend: KeystoreBackend, unlocked: set<Key>,
                               fingerprint: seq<byte>, password: Option<seq<byte>>, data: seq<byte>)
    requires password.Some? ==> forall i :: 0 <= i < |password.value| ==> password.value[i] < 0x80
    ensures PgpSignOutcome(lib, backend, unlocked, Hex(fingerprint), password, data)
            == SignOutcome(lib, backend, unlocked, Hex(fingerprint), password, data)
  {
    HexIsAsciiDigits(fingerprint);
    AsciiIsValidUtf8(Hex(fingerprint));
    if password.Some? {
      AsciiIsValidUtf8(password.value);
    }
  }

  /** `pgp_sign`: a new signature holding the signed message, or null with
      the failure reported; the keystore keeps any key the call unlocked. */
  method PgpSign(heap: Heap, lib: Library, mechanism: Mechanism, keyHandle: seq<byte>,
                 password: Option<seq<byte>>, data: seq<byte>, errPtr: ErrorSlot?)
    returns (s: Signature?)
    requires mechanism in heap.live
    requires NUL !in keyHandle && (password.Some? ==> NUL !in password.value)
    modifies heap, errPtr, mechanism.keystore
    ensures var run := PgpSignOutcome(lib, mechanism.keystore.backend, old(mechanism.keystore.unlocked),
                                      keyHandle, password, data);
            && mechanism.keystore.unlocked == run.unlocked
            && (s == null <==> run.result.Err?)
            && (s != null ==>
                  && fresh(s) && s.data == run.result.value
                  && heap.live == old(heap.live) + {s}
                  && SlotUnchanged(errPtr))
            && (s == null ==> Reported(heap, errPtr, run.result.error))
  {
    var handle := ToStr(keyHandle);
    if handle.Err? {
      SetErrorFrom(heap, errPtr, handle.error);
      return null;
    }
    var pass: Option<seq<byte>> := None;
    if password.Some? {
      var decoded := ToStr(password.value);
      if decoded.Err? {
        SetErrorFrom(heap, errPtr, decoded.error);
        return null;
      }
      pass := Some(decoded.value);
    }
    var r := mechanism.Sign(lib, handle.value, pass, data);
    match r {
      case Ok(signed) =>
        s := new Signature(signed);
        heap.IntoRaw(s);
      case Err(e) =>
        SetErrorFrom(heap, errPtr, e);
        s := null;
    }
  }

  /** `pgp_verify`: a new result holding the verified content and its
      signer, or null with the failure reported. */
  method PgpVerify(heap: Heap, lib: Library, mechanism: Mechanism, signature: seq<byte>, errPtr: ErrorSlot?)
    returns (v: VerificationResult?)
    requires mechanism in heap.live
    modifies heap, errPtr
    ensures var outcome := VerifyOutcome(mechanism.certstore, lib.verifier(signature));
            && (v == null <==> outcome.Err?)
            && (v != null ==>
                  && fresh(v)
                  && v.content == outcome.value.content && v.signer == outcome.value.signer
                  && heap.live == old(heap.live) + {v}
                  && SlotUnchanged(errPtr))
            && (v == null ==> Reported(heap, errPtr, outcome.error))
  {
    var r, _ := mechanism.Verify(lib, signature);
    match r {
      case Ok(message) =>
        v := new VerificationResult(message.content, message.signer);
        heap.IntoRaw(v);
      case Err(e) =>
        SetErrorFrom(heap, errPtr, e);
        v := null;
    }
  }
}
