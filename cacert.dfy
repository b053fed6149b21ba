/** Building a self-signed root CA certificate and its key (business/cacert.go). */
module CaCert {
  import opened Base
  import opened X509
  import opened Text
  import opened Serial

  const DefaultKeyBits := 4096
  const DefaultExpiration := AddDate(0, 3, 0)

  /** A CaCertOpt closure. SubjectAlternativeName and IpAddress are the appenders whose
      bodies are commented out in the package but which the ca-cert command calls; they
      are modelled as those commented-out bodies. */
  datatype CaCertOpt =
    | ExpirationMonths(months: int)
    | ExpirationDays(days: int)
    | SubjectAlternativeName(san: string)
    | IpAddress(ip: IP)

  predicate IsExpiration(opt: CaCertOpt) {
    opt.ExpirationMonths? || opt.ExpirationDays?
  }

  /** The expiration date after applying `opts` in order to a record whose date was
      `start`: each expiration option overwrites the date. */
  function ExpirationAfter(start: TimeOffset, opts: seq<CaCertOpt>): TimeOffset
    decreases |opts|
  {
    if opts == [] then start
    else
      match opts[|opts| - 1]
      case ExpirationMonths(months) => AddDate(0, months, 0)
      case ExpirationDays(days) => AddDate(0, 0, days)
      case _ => ExpirationAfter(start, opts[..|opts| - 1])
  }

  /** The SAN arguments of `opts`, in order. */
  function SansOf(opts: seq<CaCertOpt>): seq<string>
    decreases |opts|
  {
    if opts == [] then []
    else
      var last := opts[|opts| - 1];
      SansOf(opts[..|opts| - 1]) + (if last.SubjectAlternativeName? then [last.san] else [])
  }

  /** The IP arguments of `opts`, in order. */
  function IpsOf(opts: seq<CaCertOpt>): seq<IP>
    decreases |opts|
  {
    if opts == [] then []
    else
      var last := opts[|opts| - 1];
      IpsOf(opts[..|opts| - 1]) + (if last.IpAddress? then [last.ip] else [])
  }

  /** The last expiration option decides the date, whatever comes after it; with no
      expiration option the starting date stays. */
  lemma {:induction false} LastExpirationWins(start: TimeOffset, opts: seq<CaCertOpt>, i: int)
    requires 0 <= i < |opts| && IsExpiration(opts[i])
    requires forall j :: i < j < |opts| ==> !IsExpiration(opts[j])
    ensures ExpirationAfter(start, opts) ==
      (if opts[i].ExpirationMonths? then AddDate(0, opts[i].months, 0) else AddDate(0, 0, opts[i].days))
    decreases |opts|
  {
    if i < |opts| - 1 {
      var init := opts[..|opts| - 1];
      LastExpirationWins(start, init, i);
    }
  }

  lemma {:induction false} NoExpirationKeepsStart(start: TimeOffset, opts: seq<CaCertOpt>)
    requires forall j :: 0 <= j < |opts| ==> !IsExpiration(opts[j])
    ensures ExpirationAfter(start, opts) == start
    decreases |opts|
  {
    if opts != [] {
      NoExpirationKeepsStart(start, opts[..|opts| - 1]);
    }
  }

  /** Applying `a` and then `b` is applying `a + b`. */
  lemma {:induction false} OptionsCompose(start: TimeOffset, a: seq<CaCertOpt>, b: seq<CaCertOpt>)
    ensures ExpirationAfter(start, a + b) == ExpirationAfter(ExpirationAfter(start, a), b)
    ensures SansOf(a + b) == SansOf(a) + SansOf(b)
    ensures IpsOf(a + b) == IpsOf(a) + IpsOf(b)
    decreases |b|
  {
    if b == [] {
      assert a + b == a;
    } else {
      var b' := b[..|b| - 1];
      assert (a + b)[..|a + b| - 1] == a + b';
      OptionsCompose(start, a, b');
    }
  }

  /** A list of SAN options yields exactly their arguments, no IP, and leaves the
      expiration date alone. */
  lemma {:induction false} SanOptions(start: TimeOffset, sans: seq<string>)
    ensures var opts := seq(|sans|, i requires 0 <= i < |sans| => SubjectAlternativeName(sans[i]));
      SansOf(opts) == sans && IpsOf(opts) == [] && ExpirationAfter(start, opts) == start
    decreases |sans|
  {
    if sans != [] {
      var init := sans[..|sans| - 1];
      SanOptions(start, init);
      var opts := seq(|sans|, i requires 0 <= i < |sans| => SubjectAlternativeName(sans[i]));
      assert opts[..|opts| - 1] == seq(|init|, i requires 0 <= i < |init| => SubjectAlternativeName(init[i]));
      assert sans == init + [sans[|sans| - 1]];
    }
  }

  /** A list of IP options yields exactly their arguments, no SAN, and leaves the
      expiration date alone. */
  lemma {:induction false} IpOptions(start: TimeOffset, ips: seq<IP>)
    ensures var opts := seq(|ips|, i requires 0 <= i < |ips| => IpAddress(ips[i]));
      IpsOf(opts) == ips && SansOf(opts) == [] && ExpirationAfter(start, opts) == start
    decreases |ips|
  {
    if ips != [] {
      var init := ips[..|ips| - 1];
      IpOptions(start, init);
      var opts := seq(|ips|, i requires 0 <= i < |ips| => IpAddress(ips[i]));
      assert opts[..|opts| - 1] == seq(|init|, i requires 0 <= i < |init| => IpAddress(init[i]));
      assert ips == init + [ips[|ips| - 1]];
    }
  }

  /** CaCertOpts: the record the options are applied to. */
  class CaCertOpts {
    var name: Name
    var expirationDate: TimeOffset
    var ipAddresses: seq<IP>
    var sans: seq<string>
    var keyBits: int

    /** The literal of lines 56-60: the given name, expiry in three months, 4096-bit keys. */
    constructor (name: Name)
      ensures this.name == name && expirationDate == DefaultExpiration
      ensures ipAddresses == [] && sans == [] && keyBits == DefaultKeyBits
    {
      this.name := name;
      expirationDate := DefaultExpiration;
      ipAddresses := [];
      sans := [];
      keyBits := DefaultKeyBits;
    }

    /** Calls the option closure on this record. */
    method Apply(opt: CaCertOpt)
      modifies this
      ensures expirationDate == ExpirationAfter(old(expirationDate), [opt])
      ensures sans == old(sans) + SansOf([opt])
      ensures ipAddresses == old(ipAddresses) + IpsOf([opt])
      ensures name == old(name) && keyBits == old(keyBits)
    {
      match opt
      case ExpirationMonths(months) =>
        expirationDate := AddDate(0, months, 0);
      case ExpirationDays(days) =>
        expirationDate := AddDate(0, 0, days);
      case SubjectAlternativeName(san) =>
        sans := sans + [san];
      case IpAddress(ip) =>
        ipAddresses := ipAddresses + [ip];
    }
  }

  /** The certificate template NewCaCert builds from the command's inputs and the
      sixteen UUID bytes. The options' SANs and IPs are not copied into it. */
  function CaTemplate(commonName: string, name: Name, opts: seq<CaCertOpt>, uuid: Bytes): Certificate {
    var serial := BigEndian(uuid);
    Certificate(serial, name.(commonName := commonName, serialNumber := Decimal(serial)), EmptyName, [], [],
                ExpirationAfter(DefaultExpiration, opts), true, true,
                {DigitalSignature, CertSign}, [ClientAuth, ServerAuth])
  }

  /** The CA template marks a CA with valid basic constraints, may sign digitally and
      sign certificates, serves client and server authentication, expires when the
      options say, carries the given common name, and has a serial whose sixteen bytes
      are the UUID's and whose decimal string is the subject's serial-number attribute;
      it never lists SANs or IP addresses, whatever the options hold. */
  lemma CaTemplateFacts(commonName: string, name: Name, opts: seq<CaCertOpt>, uuid: Bytes)
    requires |uuid| == 16
    ensures var t := CaTemplate(commonName, name, opts, uuid);
      && t.isCA && t.basicConstraintsValid
      && t.keyUsage == {DigitalSignature, CertSign} && t.extKeyUsage == [ClientAuth, ServerAuth]
      && t.notAfter == ExpirationAfter(DefaultExpiration, opts)
      && t.subject.commonName == commonName
      && t.subject.(commonName := name.commonName, serialNumber := name.serialNumber) == name
      && t.serialNumber < Pow256(16) && ToBigEndian(t.serialNumber, 16) == uuid
      && ParseDecimal(t.subject.serialNumber) == t.serialNumber
      && t.dnsNames == [] && t.ipAddresses == []
  {
    BigEndianBound(uuid);
    BytesRoundTrip(uuid);
    DecimalRoundTrip(BigEndian(uuid));
  }

  /** generateCaCertAndKeys: a key of the given size, a certificate signed by its own
      template, both PEM-encoded. An error from CreateCertificate is overwritten by the
      later PEM encoding, so a failed signing yields a CERTIFICATE block with no bytes. */
  function GenerateCaCertAndKeys(keyBits: int, template: Certificate, crypto: Crypto, pem: PemCodec)
    : (r: Result<(Bytes, Bytes), Error>)
    ensures crypto.generateKey(keyBits).Failure? ==> r == Failure(Library(crypto.generateKey(keyBits).error))
    ensures crypto.generateKey(keyBits).Success? ==> r.Success?
  {
    match crypto.generateKey(keyBits)
    case Failure(reason) => Failure(Library(reason))
    case Success(priv) =>
      var created := crypto.createCertificate(template, template, priv.publicKey, priv);
      var der := if created.Success? then created.value else [];
      Success((pem.encode(PemBlock(PemCertificate, der)), pem.encode(PemBlock(PemRsaPrivateKey, priv.pkcs1))))
  }

  /** Read back with pem.Decode, the two outputs are single blocks labelled CERTIFICATE
      and RSA PRIVATE KEY: the certificate block holds what CreateCertificate produced
      with the template as both subject and issuer (or nothing when it failed), the key
      block the PKCS #1 form of the generated key. */
  lemma CaOutputsReadBack(keyBits: int, template: Certificate, crypto: Crypto, pem: PemCodec)
    requires ReadsBack(pem)
    requires crypto.generateKey(keyBits).Success?
    ensures var priv := crypto.generateKey(keyBits).value;
      var created := crypto.createCertificate(template, template, priv.publicKey, priv);
      var (cert, key) := GenerateCaCertAndKeys(keyBits, template, crypto, pem).value;
      && pem.decode(cert) == Some((PemBlock(PemCertificate, if created.Success? then created.value else []), []))
      && pem.decode(key) == Some((PemBlock(PemRsaPrivateKey, priv.pkcs1), []))
  {
    var priv := crypto.generateKey(keyBits).value;
    var created := crypto.createCertificate(template, template, priv.publicKey, priv);
    var certBlock := PemBlock(PemCertificate, if created.Success? then created.value else []);
    var keyBlock := PemBlock(PemRsaPrivateKey, priv.pkcs1);
    assert pem.encode(certBlock) + [] == pem.encode(certBlock);
    assert pem.decode(pem.encode(certBlock) + []) == Some((certBlock, []));
    assert pem.encode(keyBlock) + [] == pem.encode(keyBlock);
    assert pem.decode(pem.encode(keyBlock) + []) == Some((keyBlock, []));
  }

  /** NewCaCert. `uuid` is the outcome of uuid.NewRandom: its sixteen bytes or its
      error. */
  method NewCaCert(commonName: string, name: Name, opts: seq<CaCertOpt>, uuid: Result<Bytes, string>,
                   crypto: Crypto, pem: PemCodec)
    returns (r: Result<(Bytes, Bytes), Error>)
    requires uuid.Success? ==> |uuid.value| == 16
    ensures uuid.Failure? ==> r == Failure(Library(uuid.error))
    ensures uuid.Success? ==>
      r == GenerateCaCertAndKeys(DefaultKeyBits, CaTemplate(commonName, name, opts, uuid.value), crypto, pem)
  {
    var caOpts := new CaCertOpts(name);
    caOpts.name := caOpts.name.(commonName := commonName);
    for i := 0 to |opts|
      invariant caOpts.name == name.(commonName := commonName) && caOpts.keyBits == DefaultKeyBits
      invariant caOpts.expirationDate == ExpirationAfter(DefaultExpiration, opts[..i])
      invariant caOpts.sans == SansOf(opts[..i]) && caOpts.ipAddresses == IpsOf(opts[..i])
    {
      OptionsCompose(DefaultExpiration, opts[..i], [opts[i]]);
      assert opts[..i + 1] == opts[..i] + [opts[i]];
      caOpts.Apply(opts[i]);
    }
    assert opts[..|opts|] == opts;

    if uuid.Failure? {
      return Failure(Library(uuid.error));
    }
    var serial := SetBytes(uuid.value);
    caOpts.name := caOpts.name.(serialNumber := Decimal(serial));

    var caCert := Certificate(serial, caOpts.name, EmptyName, [], [], caOpts.expirationDate, true, true,
                              {DigitalSignature, CertSign}, [ClientAuth, ServerAuth]);
    r := GenerateCaCertAndKeys(caOpts.keyBits, caCert, crypto, pem);
  }
}
