/** The verification helper of capi/src/signature.rs: the callback object
    the streaming verifier asks for certificates (`get_certs`) and whose
    `check` decides, from the validated message structure, whether the
    message carries a signature the caller trusts, recording its signer. */
module Verification {
  import opened Common
  import opened OpenPgp

  const UNEXPECTED_STRUCTURE: Failure := Adhoc("Unexpected message structure")
  const NO_VALID_SIGNATURE: Failure := Adhoc("No valid signature")

  /** How a scan of the message layers ends. */
  datatype Decision = Accept(signer: Cert) | UnexpectedStructure | NoValidSignature

  /** `results.iter().find(|r| r.is_ok())`: the certificate of the first
      signature that checked out. */
  function FirstGood(results: seq<SignatureCheck>): (r: Option<Cert>)
    ensures r.None? <==> forall i :: 0 <= i < |results| ==> results[i].Bad?
    ensures r.Some? ==> exists i :: 0 <= i < |results| && results[i] == Good(r.value)
                                    && forall j :: 0 <= j < i ==> results[j].Bad?
  {
    if results == [] then None
    else if results[0].Good? then Some(results[0].cert)
    else FirstGood(results[1..])
  }

  /** A layer the scan passes over: a signature group with no good signature. */
  predicate Inconclusive(layer: MessageLayer) {
    layer.SignatureGroup? && FirstGood(layer.results).None?
  }

  /** The scan of `check`, layer by layer, outermost first: a layer that is
      not a signature group rejects the message, a group with a good
      signature accepts it, a group without one is passed over. */
  function Decide(structure: seq<MessageLayer>): Decision {
    if structure == [] then NoValidSignature
    else match structure[0]
      case SignatureGroup(results) =>
        (match FirstGood(results)
         case Some(c) => Accept(c)
         case None => Decide(structure[1..]))
      case _ => UnexpectedStructure
  }

  /** What `check` returns for a decision. */
  function CheckResult(d: Decision): Result<()> {
    match d
    case Accept(_) => Ok(())
    case UnexpectedStructure => Err(UNEXPECTED_STRUCTURE)
    case NoValidSignature => Err(NO_VALID_SIGNATURE)
  }

  /** The scan ends at the first layer that is not an inconclusive signature
      group: it rejects the message when that layer is not a signature group,
      and otherwise accepts it with the certificate of the first good
      signature in the group. */
  lemma {:induction false} ScanStopsAt(structure: seq<MessageLayer>, k: nat)
    requires k < |structure|
    requires forall j :: 0 <= j < k ==> Inconclusive(structure[j])
    requires !Inconclusive(structure[k])
    ensures structure[k].SignatureGroup? ==>
              FirstGood(structure[k].results).Some?
              && Decide(structure) == Accept(FirstGood(structure[k].results).value)
    ensures !structure[k].SignatureGroup? ==> Decide(structure) == UnexpectedStructure
  {
    if k > 0 {
      assert Inconclusive(structure[0]);
      assert Decide(structure) == Decide(structure[1..]);
      ScanStopsAt(structure[1..], k - 1);
    }
  }

  /** `check` fails with "No valid signature" exactly when every layer is a
      signature group without a good signature; in particular for an empty
      structure. */
  lemma {:induction false} NoValidSignatureIff(structure: seq<MessageLayer>)
    ensures Decide(structure) == NoValidSignature <==>
            forall j :: 0 <= j < |structure| ==> Inconclusive(structure[j])
  {
    if structure != [] {
      NoValidSignatureIff(structure[1..]);
      if Inconclusive(structure[0]) {
        assert Decide(structure) == Decide(structure[1..]);
        assert forall j :: 1 <= j < |structure| ==> structure[j] == structure[1..][j - 1];
      }
    }
  }

  /** Layers after the deciding one are never looked at, and layers that
      decide nothing do not end the scan. */
  lemma {:induction false} DecideAppend(a: seq<MessageLayer>, b: seq<MessageLayer>)
    ensures Decide(a + b) == if Decide(a) == NoValidSignature then Decide(b) else Decide(a)
  {
    if a == [] {
      assert a + b == b;
    } else {
      assert (a + b)[0] == a[0];
      assert (a + b)[1..] == a[1..] + b;
      DecideAppend(a[1..], b);
    }
  }

  /** Joins the certificates of two steps of `get_certs`, or keeps the first
      error (`?` propagation). */
  function Then(x: Result<seq<Cert>>, y: Result<seq<Cert>>): Result<seq<Cert>> {
    match x
    case Err(_) => x
    case Ok(a) => (match y case Err(_) => y case Ok(b) => Ok(a + b))
  }

  /** `lc.to_cert()?` over a lookup's entries, in order. */
  function Materialize(entries: seq<LazyCert>): Result<seq<Cert>> {
    if entries == [] then Ok([])
    else
      var first := match entries[0].toCert case Err(e) => Err(e) case Ok(c) => Ok([c]);
      Then(first, Materialize(entries[1..]))
  }

  /** One pass of `get_certs`' outer loop: look `id` up, then materialise
      every match. */
  function Resolve(store: CertStore, id: KeyHandle): Result<seq<Cert>> {
    match Lookup(store, id)
    case Err(e) => Err(e)
    case Ok(entries) => Materialize(entries)
  }

  /** What `get_certs` returns for `ids`. */
  function CertsFor(store: CertStore, ids: seq<KeyHandle>): Result<seq<Cert>> {
    if ids == [] then Ok([]) else Then(Resolve(store, ids[0]), CertsFor(store, ids[1..]))
  }

  lemma ThenAssociative(x: Result<seq<Cert>>, y: Result<seq<Cert>>, z: Result<seq<Cert>>)
    ensures Then(Then(x, y), z) == Then(x, Then(y, z))
  {
    if x.Ok? && y.Ok? && z.Ok? {
      assert (x.value + y.value) + z.value == x.value + (y.value + z.value);
    }
  }

  lemma {:induction false} MaterializeAppend(a: seq<LazyCert>, b: seq<LazyCert>)
    ensures Materialize(a + b) == Then(Materialize(a), Materialize(b))
  {
    if a == [] {
      assert a + b == b;
      var m := Materialize(b);
      if m.Ok? { assert [] + m.value == m.value; }
    } else {
      assert (a + b)[0] == a[0];
      assert (a + b)[1..] == a[1..] + b;
      MaterializeAppend(a[1..], b);
      var first := match a[0].toCert case Err(e) => Err(e) case Ok(c) => Ok([c]);
      ThenAssociative(first, Materialize(a[1..]), Materialize(b));
    }
  }

  /** `get_certs` over two runs of key handles is the first run's result
      followed by the second's, or the first error met. */
  lemma {:induction false} CertsForAppend(store: CertStore, a: seq<KeyHandle>, b: seq<KeyHandle>)
    ensures CertsFor(store, a + b) == Then(CertsFor(store, a), CertsFor(store, b))
  {
    if a == [] {
      assert a + b == b;
      var m := CertsFor(store, b);
      if m.Ok? { assert [] + m.value == m.value; }
    } else {
      assert (a + b)[0] == a[0];
      assert (a + b)[1..] == a[1..] + b;
      CertsForAppend(store, a[1..], b);
      ThenAssociative(Resolve(store, a[0]), CertsFor(store, a[1..]), CertsFor(store, b));
    }
  }

  /** `get_certs` succeeds exactly when every lookup and every conversion
      succeeds, and then returns the matches of each key handle, in the order
      of the handles: a certificate is in the result exactly when it was
      resolved for one of them. */
  lemma {:induction false} CertsForOk(store: CertStore, ids: seq<KeyHandle>)
    ensures CertsFor(store, ids).Ok? <==> forall i :: 0 <= i < |ids| ==> Resolve(store, ids[i]).Ok?
    ensures CertsFor(store, ids).Ok? ==>
              forall c :: c in CertsFor(store, ids).value <==>
                exists i :: 0 <= i < |ids| && c in Resolve(store, ids[i]).value
  {
    if ids != [] {
      CertsForOk(store, ids[1..]);
      assert forall i :: 1 <= i < |ids| ==> ids[i] == ids[1..][i - 1];
      if CertsFor(store, ids).Ok? {
        var head := Resolve(store, ids[0]).value;
        var tail := CertsFor(store, ids[1..]).value;
        assert CertsFor(store, ids).value == head + tail;
        forall c | c in CertsFor(store, ids).value
          ensures exists i :: 0 <= i < |ids| && c in Resolve(store, ids[i]).value
        {
          if c !in head {
            var i :| 0 <= i < |ids[1..]| && c in Resolve(store, ids[1..][i]).value;
            assert c in Resolve(store, ids[i + 1]).value;
          }
        }
        forall c, i | 0 <= i < |ids| && c in Resolve(store, ids[i]).value
          ensures c in CertsFor(store, ids).value
        {
          if i > 0 {
            assert ids[i] == ids[1..][i - 1];
          }
        }
      }
    }
  }

  /** `get_certs` stops at the first failed lookup or conversion and
      returns that error. */
  lemma {:induction false} CertsForFirstError(store: CertStore, ids: seq<KeyHandle>)
    requires CertsFor(store, ids).Err?
    ensures exists k :: 0 <= k < |ids| && Resolve(store, ids[k]) == CertsFor(store, ids)
                        && forall j :: 0 <= j < k ==> Resolve(store, ids[j]).Ok?
  {
    if Resolve(store, ids[0]).Err? {
      assert Resolve(store, ids[0]) == CertsFor(store, ids);
    } else {
      assert CertsFor(store, ids) == CertsFor(store, ids[1..]);
      CertsForFirstError(store, ids[1..]);
      var k :| 0 <= k < |ids[1..]| && Resolve(store, ids[1..][k]) == CertsFor(store, ids[1..])
               && forall j :: 0 <= j < k ==> Resolve(store, ids[1..][j]).Ok?;
      assert ids[k + 1] == ids[1..][k];
      assert forall j :: 1 <= j < k + 1 ==> ids[j] == ids[1..][j - 1];
    }
  }

  /** `get_certs` adds no failure of its own: when every lookup succeeds
      without entries, it returns an empty list. */
  lemma {:induction false} NothingMatched(store: CertStore, ids: seq<KeyHandle>)
    requires forall i :: 0 <= i < |ids| ==> Lookup(store, ids[i]) == Ok([])
    ensures CertsFor(store, ids) == Ok([])
  {
    if ids != [] {
      assert Resolve(store, ids[0]) == Ok([]);
      assert forall i :: 0 <= i < |ids[1..]| ==> ids[1..][i] == ids[i + 1];
      NothingMatched(store, ids[1..]);
      var none: seq<Cert> := [];
      assert none + none == none;
    }
  }

  lemma {:induction false} MaterializeParsed(certs: seq<Cert>)
    ensures Materialize(Parsed(certs)) == Ok(certs)
  {
    if certs != [] {
      var entries := Parsed(certs);
      assert entries[0] == LazyCert(Ok(certs[0])) && entries[1..] == Parsed(certs[1..]);
      MaterializeParsed(certs[1..]);
      assert [certs[0]] + certs[1..] == certs;
    }
  }

  /** An in-memory lookup resolves a key handle to the inserted
      certificates it names, and fails when there are none. */
  lemma ResolveInMemory(certs: seq<Cert>, id: KeyHandle)
    ensures Resolve(InMemory(certs), id)
            == if Matching(certs, id) == [] then Err(NotFound(id)) else Ok(Matching(certs, id))
  {
    MaterializeParsed(Matching(certs, id));
  }

  /** Over an in-memory store, `get_certs` succeeds exactly when every key
      handle names an inserted certificate, and then resolves only
      certificates inserted into the store whose primary key one of the
      handles names: a certificate that was never inserted is never
      resolved. */
  lemma InMemoryResolvesOnlyItsOwn(certs: seq<Cert>, ids: seq<KeyHandle>)
    ensures CertsFor(InMemory(certs), ids).Ok? <==> forall i :: 0 <= i < |ids| ==> Matching(certs, ids[i]) != []
    ensures CertsFor(InMemory(certs), ids).Ok? ==>
              forall c :: c in CertsFor(InMemory(certs), ids).value <==>
                c in certs && exists i :: 0 <= i < |ids| && Aliases(ids[i], c.fingerprint)
  {
    var store := InMemory(certs);
    forall i | 0 <= i < |ids|
      ensures Resolve(store, ids[i]) == if Matching(certs, ids[i]) == [] then Err(NotFound(ids[i])) else Ok(Matching(certs, ids[i]))
    {
      ResolveInMemory(certs, ids[i]);
    }
    CertsForOk(store, ids);
    if CertsFor(store, ids).Ok? {
      var found := CertsFor(store, ids).value;
      forall c
        ensures c in found <==> c in certs && exists i :: 0 <= i < |ids| && Aliases(ids[i], c.fingerprint)
      {
        if c in found {
          var i :| 0 <= i < |ids| && c in Resolve(store, ids[i]).value;
          assert c in Matching(certs, ids[i]);
        }
        if c in certs && exists i :: 0 <= i < |ids| && Aliases(ids[i], c.fingerprint) {
          var i :| 0 <= i < |ids| && Aliases(ids[i], c.fingerprint);
          assert c in Matching(certs, ids[i]);
          assert c in Resolve(store, ids[i]).value;
        }
      }
    }
  }

  /** The helper the verifier calls back: it reads the mechanism's
      certificate store and records the accepted signature's signer. */
  class Helper {
    const certstore: CertStore
    var signer: Option<Cert>

    constructor (certstore: CertStore)
      ensures this.certstore == certstore && signer == None
    {
      this.certstore := certstore;
      signer := None;
    }

    /** `get_certs`: for each key handle in order, append every certificate
        the store matches with it; the first lookup or conversion error ends
        the call. */
    method GetCerts(ids: seq<KeyHandle>) returns (r: Result<seq<Cert>>)
      ensures r == CertsFor(certstore, ids)
    {
      var certs: seq<Cert> := [];
      for i := 0 to |ids|
        invariant CertsFor(certstore, ids[..i]) == Ok(certs)
      {
        assert ids == ids[..i] + ids[i..];
        CertsForAppend(certstore, ids[..i], ids[i..]);
        assert CertsFor(certstore, ids[..i + 1]) == Then(Ok(certs), Resolve(certstore, ids[i])) by {
          assert ids[..i + 1] == ids[..i] + [ids[i]];
          CertsForAppend(certstore, ids[..i], [ids[i]]);
          var one := Resolve(certstore, ids[i]);
          if one.Ok? { assert one.value + [] == one.value; }
        }
        var matches := Lookup(certstore, ids[i]);
        if matches.Err? {
          return Err(matches.error);
        }
        var entries := matches.value;
        ghost var before := certs;
        for j := 0 to |entries|
          invariant Materialize(entries[..j]).Ok?
          invariant certs == before + Materialize(entries[..j]).value
        {
          assert entries[..j + 1] == entries[..j] + [entries[j]];
          MaterializeAppend(entries[..j], [entries[j]]);
          assert entries == entries[..j] + entries[j..];
          MaterializeAppend(entries[..j], entries[j..]);
          match entries[j].toCert {
            case Err(e) =>
              return Err(e);
            case Ok(c) =>
              certs := certs + [c];
          }
        }
        assert entries[..|entries|] == entries;
      }
      assert ids[..|ids|] == ids;
      return Ok(certs);
    }

    /** `check`: scan the layers; on the first signature group with a good
        signature record its certificate as the signer and accept. The
        signer is left alone whenever the message is not accepted. */
    method Check(structure: seq<MessageLayer>) returns (r: Result<()>)
      modifies this
      ensures r == CheckResult(Decide(structure))
      ensures signer == if Decide(structure).Accept? then Some(Decide(structure).signer) else old(signer)
    {
      for i := 0 to |structure|
        invariant Decide(structure[i..]) == Decide(structure)
        invariant signer == old(signer)
      {
        assert structure[i..][0] == structure[i];
        assert structure[i..][1..] == structure[i + 1..];
        match structure[i] {
          case SignatureGroup(results) =>
            var result := FirstGood(results);
            if result.Some? {
              signer := Some(result.value);
              return Ok(());
            }
          case _ =>
            return Err(UNEXPECTED_STRUCTURE);
        }
      }
      return Err(NO_VALID_SIGNATURE);
    }
  }
}
