/** The X.509 structures the program builds and inspects, restricted to the fields it
    reads or writes, and the library operations it calls, which stay opaque: each is a
    function value supplied by the caller. */
module X509 {
  import opened Base

  /** pkix.Name: the distinguished name attributes the program uses. */
  datatype Name = Name(
    commonName: string,
    serialNumber: string,
    country: seq<string>,
    organization: seq<string>,
    organizationalUnit: seq<string>,
    streetAddress: seq<string>,
    locality: seq<string>,
    province: seq<string>,
    postalCode: seq<string>)

  /** The zero value pkix.Name{}. */
  const EmptyName := Name("", "", [], [], [], [], [], [], [])

  /** The key usage bits of RFC 5280 section 4.2.1.3 that the program sets. */
  datatype KeyUsage = DigitalSignature | CertSign

  /** The extended key usage purposes of RFC 5280 section 4.2.1.12 that the program sets. */
  datatype ExtKeyUsage = ClientAuth | ServerAuth

  /** time.Now().AddDate(years, months, days): a point in time relative to the moment
      the template is built. */
  datatype TimeOffset = AddDate(years: int, months: int, days: int)

  type IP = Bytes

  /** A public key in its PKIX encoding. */
  datatype PublicKey = PublicKey(pkix: Bytes)

  /** An RSA private key: its PKCS #1 encoding (x509.MarshalPKCS1PrivateKey) and its
      public half. */
  datatype RsaKey = RsaKey(pkcs1: Bytes, publicKey: PublicKey)

  /** x509.Certificate, as a template handed to CreateCertificate or as the result of
      ParseCertificate. NotBefore is always "now" and is not represented. */
  datatype Certificate = Certificate(
    serialNumber: nat,
    subject: Name,
    issuer: Name,
    dnsNames: seq<string>,
    ipAddresses: seq<IP>,
    notAfter: TimeOffset,
    isCA: bool,
    basicConstraintsValid: bool,
    keyUsage: set<KeyUsage>,
    extKeyUsage: seq<ExtKeyUsage>)

  /** x509.CertificateRequest as returned by ParseCertificateRequest. */
  datatype CertificateRequest = CertificateRequest(
    subject: Name,
    dnsNames: seq<string>,
    ipAddresses: seq<IP>,
    publicKey: PublicKey)

  /** The template handed to x509.CreateCertificateRequest. */
  datatype RequestTemplate = RequestTemplate(subject: Name, dnsNames: seq<string>, ipAddresses: seq<IP>)

  /** pem.Block without headers: its type (the label of the BEGIN line) and the decoded bytes. */
  datatype PemBlock = PemBlock(blockType: string, bytes: Bytes)

  const PemCertificate := "CERTIFICATE"
  const PemRsaPrivateKey := "RSA PRIVATE KEY"

  /** The crypto/x509 and crypto/rsa calls. A library error is the `Failure` reason; a
      signature check gives `None` when the signature is good. */
  datatype Crypto = Crypto(
    parseCertificate: Bytes -> Result<Certificate, string>,
    parseCertificateRequest: Bytes -> Result<CertificateRequest, string>,
    parsePkcs1PrivateKey: Bytes -> Result<RsaKey, string>,
    checkRequestSignature: CertificateRequest -> Option<string>,
    checkSignatureFrom: (Certificate, Certificate) -> Option<string>,
    createCertificate: (Certificate, Certificate, PublicKey, RsaKey) -> Result<Bytes, string>,
    createCertificateRequest: (RequestTemplate, RsaKey) -> Result<Bytes, string>,
    generateKey: int -> Result<RsaKey, string>)

  /** encoding/pem: `decode` gives the first block and the bytes after it, or `None`
      when no block can be found; `encode` frames a block (writing into memory or a
      file that accepts the write never fails). */
  datatype PemCodec = PemCodec(decode: Bytes -> Option<(PemBlock, Bytes)>, encode: PemBlock -> Bytes)

  /** pem.Decode always consumes the block it returns, so the rest is shorter than the
      input. */
  ghost predicate Consumes(pem: PemCodec) {
    forall b :: pem.decode(b).Some? ==> |pem.decode(b).value.1| < |b|
  }

  /** pem.Decode reads back what pem.Encode wrote, whatever follows it. */
  ghost predicate ReadsBack(pem: PemCodec) {
    forall block, tail :: pem.decode(pem.encode(block) + tail) == Some((block, tail))
  }
}
