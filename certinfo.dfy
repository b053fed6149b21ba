/** Finding the certificate in a PEM or DER file, and the self-signed test of the
    certificate report (business/certinfo.go). */
module CertInfo {
  import opened Base
  import opened X509

  /** The payloads of the blocks pem.Decode finds one after another in `rest`, stopping
      when `rest` is empty or holds no further block. */
  function PemChain(pem: PemCodec, rest: Bytes): seq<Bytes>
    requires Consumes(pem)
    decreases |rest|
  {
    if |rest| == 0 then []
    else
      match pem.decode(rest)
      case None => []
      case Some((block, after)) => [block.bytes] + PemChain(pem, after)
  }

  /** What decodePem returns: the payloads of the blocks pem.Decode finds one after
      another, or the whole input as a single entry when pem.Decode finds no block. */
  function PemBlocks(pem: PemCodec, fileBytes: Bytes): (blocks: seq<Bytes>)
    requires Consumes(pem)
    ensures |blocks| >= 1
    ensures pem.decode(fileBytes).None? ==> blocks == [fileBytes]
    ensures pem.decode(fileBytes).Some? ==> blocks[0] == pem.decode(fileBytes).value.0.bytes
  {
    match pem.decode(fileBytes)
    case None => [fileBytes]
    case Some((block, rest)) => [block.bytes] + PemChain(pem, rest)
  }

  /** decodePem. */
  method DecodePem(pem: PemCodec, fileBytes: Bytes) returns (blockBytes: seq<Bytes>)
    requires Consumes(pem)
    ensures blockBytes == PemBlocks(pem, fileBytes)
    ensures |blockBytes| >= 1
  {
    var first := pem.decode(fileBytes);
    if first.None? {
      return [fileBytes];
    }
    blockBytes := [first.value.0.bytes];
    var rest := first.value.1;
    while |rest| > 0
      invariant blockBytes + PemChain(pem, rest) == PemBlocks(pem, fileBytes)
      decreases |rest|
    {
      var next := pem.decode(rest);
      if next.None? {
        break;
      }
      assert PemChain(pem, rest) == [next.value.0.bytes] + PemChain(pem, next.value.1);
      blockBytes := blockBytes + [next.value.0.bytes];
      rest := next.value.1;
    }
  }

  /** The bytes of a file made of PEM-encoded blocks, one after another. */
  function EncodeAll(pem: PemCodec, blocks: seq<PemBlock>): Bytes {
    if blocks == [] then [] else pem.encode(blocks[0]) + EncodeAll(pem, blocks[1..])
  }

  function Payloads(blocks: seq<PemBlock>): (r: seq<Bytes>)
    ensures |r| == |blocks|
    ensures forall i :: 0 <= i < |blocks| ==> r[i] == blocks[i].bytes
  {
    if blocks == [] then [] else [blocks[0].bytes] + Payloads(blocks[1..])
  }

  lemma {:induction false} ChainOfEncodings(pem: PemCodec, blocks: seq<PemBlock>, junk: Bytes)
    requires Consumes(pem) && ReadsBack(pem)
    requires junk == [] || pem.decode(junk).None?
    ensures PemChain(pem, EncodeAll(pem, blocks) + junk) == Payloads(blocks)
    decreases |blocks|
  {
    if blocks == [] {
      assert EncodeAll(pem, blocks) + junk == junk;
    } else {
      var tail := EncodeAll(pem, blocks[1..]) + junk;
      var whole := pem.encode(blocks[0]) + tail;
      assert EncodeAll(pem, blocks) + junk == whole;
      assert pem.decode(whole) == Some((blocks[0], tail));
      assert |tail| < |whole|;
      ChainOfEncodings(pem, blocks[1..], junk);
      assert PemChain(pem, whole) == [blocks[0].bytes] + PemChain(pem, tail);
    }
  }

  /** A file made of PEM blocks, possibly followed by bytes that hold no further block,
      yields exactly the blocks' payloads, in file order; the trailing bytes are
      dropped. */
  lemma DecodeConcatenation(pem: PemCodec, blocks: seq<PemBlock>, junk: Bytes)
    requires Consumes(pem) && ReadsBack(pem)
    requires |blocks| >= 1
    requires junk == [] || pem.decode(junk).None?
    ensures PemBlocks(pem, EncodeAll(pem, blocks) + junk) == Payloads(blocks)
  {
    var tail := EncodeAll(pem, blocks[1..]) + junk;
    assert EncodeAll(pem, blocks) + junk == pem.encode(blocks[0]) + tail;
    assert pem.decode(pem.encode(blocks[0]) + tail) == Some((blocks[0], tail));
    ChainOfEncodings(pem, blocks[1..], junk);
  }

  /** decodeCert: a certificate exactly when parsing succeeds, an error exactly when it
      fails. */
  function DecodeCert(crypto: Crypto, der: Bytes): (r: (Option<Certificate>, Option<string>))
    ensures r.0.None? <==> crypto.parseCertificate(der).Failure?
    ensures r.1.Some? <==> crypto.parseCertificate(der).Failure?
    ensures r.0.Some? ==> Success(r.0.value) == crypto.parseCertificate(der)
  {
    match crypto.parseCertificate(der)
    case Failure(reason) => (None, Some(reason))
    case Success(cert) => (Some(cert), None)
  }

  /** Block `i` is the first block that parses as a certificate. */
  ghost predicate FirstParsing(crypto: Crypto, blocks: seq<Bytes>, i: int) {
    && 0 <= i < |blocks|
    && crypto.parseCertificate(blocks[i]).Success?
    && forall j :: 0 <= j < i ==> crypto.parseCertificate(blocks[j]).Failure?
  }

  /** LoadCertFromFile. */
  method LoadCertFromFile(fs: FileSystem, path: string, pem: PemCodec, crypto: Crypto)
    returns (r: Result<Certificate, Error>)
    requires Consumes(pem)
    ensures ReadFile(fs, path).Failure? ==> r == Failure(ReadFailed(path))
    ensures ReadFile(fs, path).Success? && r.Success? ==>
      exists i :: FirstParsing(crypto, PemBlocks(pem, fs.files[path]), i)
        && crypto.parseCertificate(PemBlocks(pem, fs.files[path])[i]) == Success(r.value)
    ensures ReadFile(fs, path).Success? && r.Failure? ==>
      r.error == NotACertificate
      && forall i :: 0 <= i < |PemBlocks(pem, fs.files[path])| ==>
           crypto.parseCertificate(PemBlocks(pem, fs.files[path])[i]).Failure?
  {
    var read := ReadFile(fs, path);
    if read.Failure? {
      return Failure(read.error);
    }
    var blocks := DecodePem(pem, read.value);

    var cert: Option<Certificate> := None;
    ghost var found := 0;
    for i := 0 to |blocks|
      invariant cert.None?
      invariant forall j :: 0 <= j < i ==> crypto.parseCertificate(blocks[j]).Failure?
    {
      var decoded := DecodeCert(crypto, blocks[i]);
      cert := decoded.0;
      if cert.None? || decoded.1.Some? {
        continue;
      }
      found := i;
      break;
    }
    if cert.None? {
      return Failure(NotACertificate);
    }
    assert FirstParsing(crypto, blocks, found);
    return Success(cert.value);
  }

  /** certTemplateParams.SelfSigned. */
  predicate SelfSigned(cert: Certificate)
    ensures SelfSigned(cert) <==>
      cert.subject.commonName == cert.issuer.commonName && cert.subject.serialNumber == cert.issuer.serialNumber
  {
    if cert.subject.commonName != cert.issuer.commonName then false
    else if cert.subject.serialNumber != cert.issuer.serialNumber then false
    else true
  }

  /** Only the common name and serial-number attributes decide: two certificates that
      agree on them get the same answer whatever their other name attributes, and a
      certificate issued under its own subject name is self-signed. */
  lemma SelfSignedIgnoresOtherAttributes(a: Certificate, b: Certificate)
    requires a.subject.commonName == b.subject.commonName && a.subject.serialNumber == b.subject.serialNumber
    requires a.issuer.commonName == b.issuer.commonName && a.issuer.serialNumber == b.issuer.serialNumber
    ensures SelfSigned(a) == SelfSigned(b)
    ensures a.issuer == a.subject ==> SelfSigned(a)
  {
  }
}
