/** Issuing a certificate from a signing request with a CA certificate and key
    (business/sign.go). */
module Sign {
  import opened Base
  import opened X509
  import opened Text

  /** CertType is a Go int; the three declared values come from iota. */
  type CertType = int
  const CertTypeServerAuth: CertType := 0
  const CertTypeCA: CertType := 1
  const CertTypeClientAuth: CertType := 2

  /** What a certificate type grants: validity end, key usage (RFC 5280 section
      4.2.1.3) and extended key usage (RFC 5280 section 4.2.1.12). */
  datatype Policy = Policy(notAfter: TimeOffset, keyUsage: set<KeyUsage>, extKeyUsage: seq<ExtKeyUsage>)

  /** The switch over the certificate type; `None` is the default branch. */
  function IssuancePolicy(certType: CertType): Option<Policy> {
    if certType == CertTypeServerAuth then
      Some(Policy(AddDate(0, 3, 0), {DigitalSignature}, [ClientAuth, ServerAuth]))
    else if certType == CertTypeClientAuth then
      Some(Policy(AddDate(0, 0, 30), {DigitalSignature}, [ClientAuth]))
    else if certType == CertTypeCA then
      Some(Policy(AddDate(0, 6, 0), {DigitalSignature, CertSign}, [ClientAuth, ServerAuth]))
    else
      None
  }

  /** Only the three declared types are known; every known type may sign digitally and
      authenticate clients; only the CA type may sign certificates; only the client
      type is barred from server authentication; validity is three months, thirty
      days and six months respectively. */
  lemma PolicyByType(certType: CertType)
    ensures IssuancePolicy(certType).Some? <==> certType in {CertTypeServerAuth, CertTypeCA, CertTypeClientAuth}
    ensures IssuancePolicy(certType).Some? ==>
      var p := IssuancePolicy(certType).value;
      && DigitalSignature in p.keyUsage
      && (CertSign in p.keyUsage <==> certType == CertTypeCA)
      && ClientAuth in p.extKeyUsage
      && (ServerAuth in p.extKeyUsage <==> certType != CertTypeClientAuth)
      && p.notAfter == (if certType == CertTypeServerAuth then AddDate(0, 3, 0)
                        else if certType == CertTypeClientAuth then AddDate(0, 0, 30)
                        else AddDate(0, 6, 0))
    ensures certType == CertTypeServerAuth ==>
      IssuancePolicy(certType).value.keyUsage == {DigitalSignature}
      && IssuancePolicy(certType).value.extKeyUsage == [ClientAuth, ServerAuth]
    ensures certType == CertTypeClientAuth ==>
      IssuancePolicy(certType).value.keyUsage == {DigitalSignature}
      && IssuancePolicy(certType).value.extKeyUsage == [ClientAuth]
  {
  }

  /** The template SignCsr hands to x509.CreateCertificate for a known type. */
  function IssuedTemplate(csr: CertificateRequest, serial: nat, p: Policy): Certificate {
    Certificate(serial, csr.subject.(serialNumber := Decimal(serial)), EmptyName, csr.dnsNames, csr.ipAddresses,
                p.notAfter, false, false, p.keyUsage, p.extKeyUsage)
  }

  /** The issued template carries the request's identity unchanged except that the
      subject's serial-number attribute is the decimal string of the certificate's
      serial (and so reads back as that serial); it never asserts CA basic constraints,
      not even for the CA type, whose key usage does include certificate signing. */
  lemma IssuedTemplateFacts(csr: CertificateRequest, serial: nat, certType: CertType)
    requires IssuancePolicy(certType).Some?
    ensures var t := IssuedTemplate(csr, serial, IssuancePolicy(certType).value);
      && t.serialNumber == serial
      && t.subject.(serialNumber := csr.subject.serialNumber) == csr.subject
      && ParseDecimal(t.subject.serialNumber) == serial
      && t.dnsNames == csr.dnsNames && t.ipAddresses == csr.ipAddresses
      && !t.isCA && !t.basicConstraintsValid
      && (certType == CertTypeCA ==> CertSign in t.keyUsage)
  {
    DecimalRoundTrip(serial);
  }

  /** Lines 21-45: the three files are read, then parsed, each step stopping at its
      first error. */
  function SigningInputs(fs: FileSystem, csrFile: string, caCertFile: string, caKeyFile: string, crypto: Crypto)
    : (r: Result<(CertificateRequest, Certificate, RsaKey), Error>)
    ensures r.Success? ==> csrFile in fs.files && caCertFile in fs.files && caKeyFile in fs.files
    ensures r.Success? ==>
      && crypto.parseCertificateRequest(fs.files[csrFile]) == Success(r.value.0)
      && crypto.parseCertificate(fs.files[caCertFile]) == Success(r.value.1)
      && crypto.parsePkcs1PrivateKey(fs.files[caKeyFile]) == Success(r.value.2)
  {
    match ReadFile(fs, csrFile)
    case Failure(e) => Failure(e)
    case Success(csrBytes) =>
      match ReadFile(fs, caCertFile)
      case Failure(e) => Failure(e)
      case Success(caCertBytes) =>
        match ReadFile(fs, caKeyFile)
        case Failure(e) => Failure(e)
        case Success(caKeyBytes) =>
          match crypto.parseCertificateRequest(csrBytes)
          case Failure(reason) => Failure(Library(reason))
          case Success(csr) =>
            match crypto.parseCertificate(caCertBytes)
            case Failure(reason) => Failure(Library(reason))
            case Success(caCert) =>
              match crypto.parsePkcs1PrivateKey(caKeyBytes)
              case Failure(reason) => Failure(Library(reason))
              case Success(caKey) => Success((csr, caCert, caKey))
  }

  /** The certificate SignCsr returns and the common name it reports. */
  datatype Issued = Issued(der: Bytes, commonName: string)

  /** `issued` is what SignCsr may return: every check passed, the certificate was made
      from the issued template, signed with the CA key under the CA certificate, it
      parses and verifies against the CA, and the name reported is the new
      certificate's subject common name. */
  ghost predicate IssuedFrom(fs: FileSystem, csrFile: string, caCertFile: string, caKeyFile: string,
                             certType: CertType, crypto: Crypto, serial: Result<nat, string>, issued: Issued) {
    var inputs := SigningInputs(fs, csrFile, caCertFile, caKeyFile, crypto);
    && inputs.Success? && serial.Success? && IssuancePolicy(certType).Some?
    && var (csr, caCert, caKey) := inputs.value;
    && caCert.isCA && crypto.checkRequestSignature(csr).None?
    && crypto.createCertificate(IssuedTemplate(csr, serial.value, IssuancePolicy(certType).value), caCert, csr.publicKey, caKey)
       == Success(issued.der)
    && crypto.parseCertificate(issued.der).Success?
    && crypto.checkSignatureFrom(crypto.parseCertificate(issued.der).value, caCert).None?
    && issued.commonName == crypto.parseCertificate(issued.der).value.subject.commonName
  }

  /** business.SignCsr. `serial` is the outcome of generateSerialNumber, which is not
      part of this model. */
  method SignCsr(fs: FileSystem, csrFile: string, caCertFile: string, caKeyFile: string, certType: CertType,
                 crypto: Crypto, serial: Result<nat, string>)
    returns (r: Result<Issued, Error>)
    // Reading or parsing an input fails: that error, unchanged.
    ensures var inputs := SigningInputs(fs, csrFile, caCertFile, caKeyFile, crypto);
      inputs.Failure? ==> r == Failure(inputs.error)
    // The issuer must be a CA; this is decided before the request's signature is looked at.
    ensures var inputs := SigningInputs(fs, csrFile, caCertFile, caKeyFile, crypto);
      inputs.Success? && !inputs.value.1.isCA ==> r == Failure(NotACaCert(caCertFile))
    // A request whose self-signature is bad is refused, before a serial is used.
    ensures var inputs := SigningInputs(fs, csrFile, caCertFile, caKeyFile, crypto);
      inputs.Success? && inputs.value.1.isCA && crypto.checkRequestSignature(inputs.value.0).Some? ==>
        r == Failure(CsrSignatureInvalid(crypto.checkRequestSignature(inputs.value.0).value))
    ensures var inputs := SigningInputs(fs, csrFile, caCertFile, caKeyFile, crypto);
      inputs.Success? && inputs.value.1.isCA && crypto.checkRequestSignature(inputs.value.0).None? && serial.Failure? ==>
        r == Failure(Library(serial.error))
    // An unknown certificate type gives no certificate, and the dedicated error once every earlier check passed.
    ensures IssuancePolicy(certType).None? ==> r.Failure?
    ensures var inputs := SigningInputs(fs, csrFile, caCertFile, caKeyFile, crypto);
      (inputs.Success? && inputs.value.1.isCA && crypto.checkRequestSignature(inputs.value.0).None? && serial.Success?
       && IssuancePolicy(certType).None?) ==> r == Failure(UnknownCertType)
    ensures r.Success? ==> IssuedFrom(fs, csrFile, caCertFile, caKeyFile, certType, crypto, serial, r.value)
    // Conversely, when every step succeeds a certificate is returned.
    ensures var inputs := SigningInputs(fs, csrFile, caCertFile, caKeyFile, crypto);
      (&& inputs.Success? && inputs.value.1.isCA && crypto.checkRequestSignature(inputs.value.0).None?
       && serial.Success? && IssuancePolicy(certType).Some?
       && var created := crypto.createCertificate(IssuedTemplate(inputs.value.0, serial.value, IssuancePolicy(certType).value),
                                                  inputs.value.1, inputs.value.0.publicKey, inputs.value.2);
       && created.Success? && crypto.parseCertificate(created.value).Success?
       && crypto.checkSignatureFrom(crypto.parseCertificate(created.value).value, inputs.value.1).None?)
      ==> r.Success?
  {
    var inputs := SigningInputs(fs, csrFile, caCertFile, caKeyFile, crypto);
    if inputs.Failure? {
      return Failure(inputs.error);
    }
    var (csr, caCert, caKey) := inputs.value;
    if !caCert.isCA {
      return Failure(NotACaCert(caCertFile));
    }
    var signatureError := crypto.checkRequestSignature(csr);
    if signatureError.Some? {
      return Failure(CsrSignatureInvalid(signatureError.value));
    }
    if serial.Failure? {
      return Failure(Library(serial.error));
    }

    // The literal leaves NotAfter, KeyUsage and ExtKeyUsage at their zero values.
    var template := Certificate(serial.value, csr.subject, EmptyName, csr.dnsNames, csr.ipAddresses,
                                AddDate(0, 0, 0), false, false, {}, []);
    template := template.(subject := template.subject.(serialNumber := Decimal(serial.value)));
    if certType == CertTypeServerAuth {
      template := template.(notAfter := AddDate(0, 3, 0), keyUsage := {DigitalSignature},
                            extKeyUsage := [ClientAuth, ServerAuth]);
    } else if certType == CertTypeClientAuth {
      template := template.(notAfter := AddDate(0, 0, 30), keyUsage := {DigitalSignature},
                            extKeyUsage := [ClientAuth]);
    } else if certType == CertTypeCA {
      template := template.(notAfter := AddDate(0, 6, 0), keyUsage := {DigitalSignature, CertSign},
                            extKeyUsage := [ClientAuth, ServerAuth]);
    } else {
      return Failure(UnknownCertType);
    }
    assert template == IssuedTemplate(csr, serial.value, IssuancePolicy(certType).value);

    var created := crypto.createCertificate(template, caCert, csr.publicKey, caKey);
    if created.Failure? {
      return Failure(Library(created.error));
    }
    var newCert := crypto.parseCertificate(created.value);
    if newCert.Failure? {
      return Failure(Library(newCert.error));
    }
    var chainError := crypto.checkSignatureFrom(newCert.value, caCert);
    if chainError.Some? {
      return Failure(CaSignatureInvalid(chainError.value));
    }
    return Success(Issued(created.value, newCert.value.subject.commonName));
  }
}
