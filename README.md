# go-sequoia-plugin C API: a Dafny model

The plugin lets Go code sign and verify OpenPGP messages through Sequoia.
It does this through a small Rust library with a C ABI. This project models
that library's core:

- the signing **mechanism** (`capi/src/signature.rs`). It is opened on a
  home directory, or built in memory from a keyring. It holds a keystore
  connection and a certificate store, and it offers `sign` and `verify`.
- the **verification helper** (`Helper`). The streaming verifier asks it for
  certificates (`get_certs`). It then decides from the validated message
  structure whether to accept the message, and records the signer (`check`).
- the **C entry points** (`pgp_*`). Each one returns an owned pointer, or
  returns null after writing an error into the caller's nullable `err_ptr`
  slot.
- the **error channel** (`capi/src/error.rs`). It covers the error kinds,
  `set_error`, `set_error_from` and `pgp_error_free`.

The Sequoia crates appear as oracle functions held in values: parsing,
signing, signature validation, the keystore service and the on-disk
certificate store (`OpenPgp.Library`, `OpenPgp.KeystoreBackend`,
`OpenPgp.Platform`, `OpenPgp.VerifierRun`). The model proves what the
plugin's own code does with their answers. Objects handed across the C
boundary are tracked in `Ownership.Heap.live`, the set of boxes the caller
owns. Freeing an object the caller does not own, or reading from one, is a
precondition.

Modules, one per file:

- `Common`: bytes, `Option`, `Result`, and `Failure` (an `anyhow::Error`).
- `OpenPgp`: the library oracles, certificate stores, and hexadecimal fingerprints.
- `CStrings`: `CStr::to_str` UTF-8 validation and its error, and `CStr::from_bytes_with_nul`.
- `Ownership`: the caller's boxes.
- `ErrorChannel`: `error.rs`.
- `Verification`: the helper.
- `Mechanisms`: the mechanism.
- `Capi`: the entry points.

Notes on what the code does:

- **`check` scans every layer, outermost first.** It rejects the message at
  the first layer that is not a signature group. It accepts at the first
  signature group that has a good signature, with that signature's
  certificate. It passes over signature groups without one.
  `Verification.ScanStopsAt`, `Verification.DecideAppend` and
  `Mechanisms.OuterLayerDecides` state this.
- **"No matching key" is an `Unknown` error.** `sign` raises it with
  `anyhow!`, and `set_error_from` classifies every error that is not an
  `io::Error` as `Unknown`.
- **Nothing produces `InvalidArgument`.** Arguments that are not UTF-8 are
  reported by `pgp_sign` through `set_error_from` too, as `Unknown` errors.
  Only an explicit `set_error` call could produce that kind
  (`ErrorChannel.NoInvalidArgumentFromFailures`).
- **A helper failure met while reading is an I/O error.** When the engine
  calls the helper during `read_to_end`, the helper's error comes back as an
  `io::Error`, so `pgp_verify` reports it as `IoError`
  (`Mechanisms.RejectionKinds`).

## Model

| member | source | states |
|---|---|---|
| OpenPgp.Matching | capi/src/signature.rs:123 | the in-memory lookup returns exactly the inserted certificates whose fingerprint, or last 8 fingerprint bytes for a key ID, the handle names |
| OpenPgp.NotFound | capi/src/signature.rs:123 | the store's lookup failure for an unknown handle does not wrap an `io::Error`, and its text starts with the handle in hexadecimal |
| OpenPgp.Hex | capi/src/signature.rs:226-227 | `to_hex` writes two upper-case hexadecimal digits per fingerprint byte, high nibble first |
| OpenPgp.HexIsAsciiDigits | capi/src/signature.rs:227 | every byte of a hexadecimal fingerprint is ASCII, and none is NUL |
| OpenPgp.HexDigit | capi/src/signature.rs:227 | a nibble is written as `0`-`9` or `A`-`F` |
| CStrings.Run | capi/src/signature.rs:246 | the UTF-8 decoder consumes between 1 and 4 bytes at a time, never more than the lead byte announces |
| CStrings.ValidUpTo | capi/src/signature.rs:246 | the well-formed prefix found by `to_str` is no longer than the input |
| CStrings.StopsAtIllFormed | capi/src/signature.rs:246-252 | when `to_str` fails, it stops inside the input, at bytes that do not start a complete character |
| CStrings.AsciiIsValidUtf8 | capi/src/signature.rs:246 | an ASCII key handle or password always passes `to_str` |
| CStrings.ErrorLen | capi/src/signature.rs:246-250 | `Utf8Error::error_len` is absent for a truncated character and otherwise between 1 and 3 |
| CStrings.Decimal | capi/src/signature.rs:249 | a position is formatted with one or more decimal digits, without a leading zero unless it is zero |
| CStrings.DecimalValue | capi/src/signature.rs:249 | the digits `{}` writes for a position read back as that position |
| CStrings.Utf8Failure | capi/src/signature.rs:246-250 | the error `to_str` reports does not wrap an `io::Error` |
| CStrings.ToStr | capi/src/signature.rs:246-252 | `to_str` succeeds exactly on well-formed UTF-8, returns the same bytes, and otherwise fails with a non-I/O error |
| CStrings.FromBytesWithNul | capi/src/signature.rs:227 | `from_bytes_with_nul` accepts exactly when the only NUL is the last byte, and returns what precedes it |
| CStrings.FromBytesWithNulOfTerminated | capi/src/signature.rs:227 | a NUL-free string with a terminator appended is read back unchanged |
| ErrorChannel.KindOf | capi/src/error.rs:38-42 | the kind is `IoError` if and only if the error wraps an `io::Error`, and `Unknown` otherwise |
| ErrorChannel.NoInvalidArgumentFromFailures | capi/src/error.rs:36-42 | `set_error_from` never yields `InvalidArgument` |
| ErrorChannel.CView | capi/src/error.rs:47 | a C reader sees a prefix of the buffer without NUL, which ends at the first NUL if there is one |
| ErrorChannel.CViewOfNulFree | capi/src/error.rs:30 | a message without NUL reaches C unchanged |
| ErrorChannel.TruncatedAtFirstNul | capi/src/error.rs:47 | without the NUL check, a C reader of a message with an interior NUL sees it cut at that NUL |
| ErrorChannel.SetError | capi/src/error.rs:25-34 | with a null slot, nothing is written; an interior NUL panics before anything is written; otherwise the slot holds one fresh error of the given kind, whose message reads back exactly, and the caller owns it and its message |
| ErrorChannel.SetErrorFrom | capi/src/error.rs:36-51 | with a null slot, nothing is written; otherwise the slot holds one fresh error classified by `KindOf`, whose message is the error's text with NUL bytes kept |
| ErrorChannel.ErrorFree | capi/src/error.rs:20-23 | as written: only the record is released; the message buffer stays allocated and is never reclaimed |
| ErrorChannel.ErrorFreeWithMessage | capi/src/error.rs:20-23 | corrected: the record and its message buffer are both released |
| ErrorChannel.FreedErrorLeaksMessage | capi/src/error.rs:14-23 | a reported error freed as written leaves its message allocated; freed as corrected it leaves nothing |
| Ownership.Heap.IntoRaw | capi/src/signature.rs:165 | `Box::into_raw` adds exactly the boxed object to what the caller owns |
| Ownership.Heap.Drop | capi/src/signature.rs:191 | `drop(Box::from_raw(..))` removes exactly that object, which the caller must own |
| Verification.FirstGood | capi/src/signature.rs:135 | there is no good result if and only if every result is bad; otherwise it is the first good result |
| Verification.ScanStopsAt | capi/src/signature.rs:132-141 | the scan ends at the first layer that is not an inconclusive group: a non-group rejects the message, and a group accepts it with its first good result's certificate |
| Verification.NoValidSignatureIff | capi/src/signature.rs:132-144 | "No valid signature" if and only if every layer is a group without a good result, including the empty structure |
| Verification.DecideAppend | capi/src/signature.rs:132-144 | layers after the deciding one are never examined, and inconclusive layers do not end the scan |
| Verification.ThenAssociative | capi/src/signature.rs:120-129 | concatenating partial results with first-error propagation is associative |
| Verification.MaterializeAppend | capi/src/signature.rs:124-126 | converting the entries of two lists is the concatenation of both conversions, or the first error |
| Verification.CertsForAppend | capi/src/signature.rs:120-129 | `get_certs` over two runs of handles is the first run's result followed by the second's, or the first error |
| Verification.CertsForOk | capi/src/signature.rs:120-129 | `get_certs` succeeds if and only if every lookup and conversion does, and then returns exactly the certificates resolved for some handle |
| Verification.CertsForFirstError | capi/src/signature.rs:123-125 | a failed `get_certs` returns the error of the first handle that failed, and every handle before it succeeded |
| Verification.NothingMatched | capi/src/signature.rs:120-128 | when every lookup succeeds with no entries, the result is an empty list, not an error |
| Verification.MaterializeParsed | capi/src/signature.rs:54-56 | certificates inserted parsed convert back to themselves, in order |
| Verification.ResolveInMemory | capi/src/signature.rs:123-126 | an in-memory lookup resolves the matching inserted certificates, or reports `NotFound` when there are none |
| Verification.InMemoryResolvesOnlyItsOwn | capi/src/signature.rs:120-129 | over an in-memory store, `get_certs` succeeds if and only if every handle names an inserted certificate, and then resolves only inserted certificates one of the handles names |
| Verification.Helper.GetCerts | capi/src/signature.rs:120-129 | the nested loop returns `CertsFor`: the in-order concatenation of every match, or the first failure |
| Verification.Helper.Check | capi/src/signature.rs:131-145 | the loop returns the result of `Decide`; the signer is set to the accepted certificate on acceptance and left unchanged otherwise |
| Mechanisms.Join | capi/src/signature.rs:32-42 | joining keeps the base as a prefix and the name as a suffix, with a separator in between when the base needs one |
| Mechanisms.HomeDirectory | capi/src/signature.rs:29-35 | a non-empty path is used as it is; an empty path becomes data_dir/`sequoia`, or fails when there is no data directory |
| Mechanisms.CertDirectoryLayout | capi/src/signature.rs:29-42 | the certificate directory is home/`certs`, that is dir/`certs` or data_dir/`sequoia`/`certs` |
| Mechanisms.SignNeedsAMatchingKey | capi/src/signature.rs:70-75 | when no key is found, `sign` fails with "No matching key", produces nothing and unlocks nothing |
| Mechanisms.SignUnlocksFirstKey | capi/src/signature.rs:76-78 | with a password, a failed unlock of the first key aborts the call with that error, and a successful one unlocks it and signs with it |
| Mechanisms.SignUsesFirstKey | capi/src/signature.rs:70-89 | a successful `sign` returns the message signed with the first key found, and at most that key becomes unlocked |
| Mechanisms.AcceptedSignerVouched | capi/src/signature.rs:131-145 | when every good signature comes from a supplied certificate, the accepted signer is one of them |
| Mechanisms.SignerComesFromStore | capi/src/signature.rs:92-111 | with a sound verifier, the signer `verify` reports is a certificate the store resolved for the message's issuers |
| Mechanisms.EphemeralAcceptsOnlyItsKeyring | capi/src/signature.rs:49-62 | a keyring-built mechanism accepts only signers from the keyring that one of the message's issuers names |
| Mechanisms.EphemeralRejectsUnknownIssuers | capi/src/signature.rs:120-129 | a keyring-built mechanism rejects a message with an issuer unknown to the keyring, with the store's `NotFound` error for the first such issuer, passed on as an I/O error when the helper runs while reading |
| Mechanisms.OuterLayerDecides | capi/src/signature.rs:132-141 | an outer group with a good signature accepts whatever follows it, and an outer non-group rejects whatever follows it |
| Mechanisms.Keystore.Unlock | capi/src/signature.rs:77 | a successful unlock adds the key to the unlocked keys; a failed one changes nothing |
| Mechanisms.Mechanism.Sign | capi/src/signature.rs:64-90 | the result and the new unlocked keys are those of `SignOutcome` |
| Mechanisms.Mechanism.Verify | capi/src/signature.rs:92-111 | the result is `VerifyOutcome`: it succeeds if and only if the helper recorded a signer, which is then the result's signer |
| Mechanisms.ThroughRead | capi/src/signature.rs:100 | a helper error returned during `read_to_end` reaches `verify` as an `io::Error` with the same text |
| Mechanisms.RejectionKinds | capi/src/signature.rs:98-100 | a rejection by `check` while the verifier is built is a non-I/O "Unexpected message structure" or "No valid signature"; any helper failure while reading is an I/O error with the same text |
| Mechanisms.FromDirectory | capi/src/signature.rs:28-47 | fails with the first failure among the home path, the keystore connection and opening home/`certs`; otherwise a fresh mechanism over those, with nothing unlocked |
| Mechanisms.Ephemeral | capi/src/signature.rs:49-62 | fails with the keyring parse error or the ephemeral keystore's failure; otherwise a fresh mechanism whose in-memory store holds the parsed certificates in order |
| Capi.PgpMechanismNewFromDirectory | capi/src/signature.rs:157-171 | null if and only if `from_directory` fails, and then that failure is reported; otherwise the caller owns a fresh mechanism connected to the keystore at the home directory, over the on-disk store at home/`certs`, with nothing unlocked, and the slot is not written |
| Capi.PgpMechanismNewEphemeral | capi/src/signature.rs:173-187 | null if and only if `ephemeral` fails, and then that failure is reported; otherwise the caller owns a fresh mechanism connected to an ephemeral keystore, over the keyring's certificates, with nothing unlocked, and the slot is not written |
| Capi.PgpMechanismFree | capi/src/signature.rs:189-192 | the mechanism is no longer owned by the caller |
| Capi.PgpSignatureFree | capi/src/signature.rs:194-197 | the signature is no longer owned by the caller |
| Capi.PgpSignatureGetData | capi/src/signature.rs:199-206 | returns the signed message and stores its length through `data_len` |
| Capi.PgpVerificationResultFree | capi/src/signature.rs:208-211 | the result is no longer owned by the caller |
| Capi.PgpVerificationResultGetContent | capi/src/signature.rs:213-220 | returns the verified content and stores its length through `data_len` |
| Capi.SignerAsWrittenIsNull | capi/src/signature.rs:222-231 | as written, the signer getter returns null for every signer |
| Capi.SignerString | capi/src/signature.rs:222-231 | corrected: the returned string is the hexadecimal fingerprint plus one terminator |
| Capi.SignerStringReadsAsHex | capi/src/signature.rs:222-231 | a C reader of the corrected string sees exactly the hexadecimal fingerprint, and `from_bytes_with_nul` accepts it |
| Capi.PgpVerificationResultGetSigner | capi/src/signature.rs:222-231 | corrected getter: returns the signer's fingerprint as a C string |
| Capi.Utf8CheckedFirst | capi/src/signature.rs:246-264 | a key handle or password that is not UTF-8 fails `pgp_sign` with an `Unknown` error carrying `to_str`'s error, before the keystore is consulted |
| Capi.HexKeyHandlesReachSign | capi/src/signature.rs:246-267 | a hexadecimal key handle and an absent or ASCII password always pass decoding, so `pgp_sign` then behaves exactly as `sign` |
| Capi.PgpSign | capi/src/signature.rs:233-274 | null if and only if decoding or `sign` fails, and then that failure is reported; otherwise a fresh signature holding `sign`'s message, and the slot is not written; any key unlocked stays unlocked |
| Capi.PgpVerify | capi/src/signature.rs:276-294 | null if and only if `verify` fails, and then that failure is reported; otherwise a fresh result holding the verified content and signer, and the slot is not written |

## Left out

- Parsing, signing and signature validation are oracles. These are `PacketParser`, `CertParser`, `Signer`, `LiteralWriter`, `VerifierBuilder` and `StandardPolicy`. The model does not state that a signed message verifies. `Mechanisms.Sound` assumes the verifier reports a signature good only against a supplied certificate, and the lemmas that need this state it as a precondition.
- The keystore service is an oracle: `find_key`, `unlock`, and building and connecting a context. So is `CertStore::open` and the on-disk store's `lookup_by_cert`. `dirs::data_dir()` is a parameter.
- OpenPgp.NotFound: the exact wording of the certificate store's not-found error comes from sequoia-cert-store, which is not part of this model. Only its non-I/O class and its leading hexadecimal handle are stated.
- `CertStore::update` is taken as an infallible append. Merging a certificate inserted twice, and a failing update, are not modelled.
- `sign`'s writer pipeline (`Signer::build`, `write_all`, `finalize`) is a single oracle call. Which of its steps failed is not distinguished.
- `verify` is modelled with the verifier either failing before it calls the helper, or calling `get_certs` and then `check`, either while the verifier is built or while the content is read. An engine failure between those two calls, or after `check`, is not modelled. Neither is the `message_processed` assertion.
- The lifetime of the pointers the getters return is not modelled. Those are the data, content and signer pointers, and they borrow from their owner.
- Panics from the null-pointer assertions of `pgp_sign` and `pgp_verify` are not modelled. Parameters that must not be null have non-null types.
- `pgp_verify_detached` is declared in `capi/include/sequoia.h` but is not implemented in the crate; it is not part of this model.
- The Go side is not part of this model: plugin loading, cgo marshalling, and turning a null signer into an empty string.

## Findings

| source | as written | input that shows it | evidently intended | confidence | as-written member | corrected member |
|---|---|---|---|---|---|---|
| capi/src/signature.rs:222-231 | the hexadecimal fingerprint is passed to `CStr::from_bytes_with_nul`, which requires a final NUL that `to_hex` never writes, so the getter returns null | any verification result, for example a signer whose fingerprint is the byte 0xAB ("AB" has no terminator) | return the fingerprint as a NUL-terminated string that stays alive while the result does | high (not executed) | Capi.SignerAsWrittenIsNull | Capi.SignerStringReadsAsHex |
| capi/src/error.rs:14-23 | `pgp_error_free` drops the boxed `Error`, but its `message` field is a raw pointer from `CString::into_raw` that nothing reclaims, so every freed error leaks its message | any error reported through a non-null slot and then freed | also reclaim the message with `CString::from_raw` | high (not executed) | ErrorChannel.FreedErrorLeaksMessage | ErrorChannel.ErrorFreeWithMessage |
