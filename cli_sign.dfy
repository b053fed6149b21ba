/** The `sign` command (app/certcli/sign.go): checks the flags and arguments, chooses
    the certificate type, signs the request and writes the certificate. An exit
    status is returned instead of ending the process. */
module SignCommand {
  import opened Base
  import opened X509
  import opened Text
  import opened Sign

  /** The switch of lines 58-66: "is-ca" first, then "is-client", else a server
      certificate. */
  function CertTypeFor(isCA: bool, isClient: bool): CertType {
    if isCA then CertTypeCA
    else if isClient then CertTypeClientAuth
    else CertTypeServerAuth
  }

  /** Each accepted flag combination selects its own type, and every type the command
      can select is known to SignCsr, so "unknown certificate type" never reaches the
      command line. */
  lemma CertTypeChoice(isCA: bool, isClient: bool)
    requires !(isCA && isClient)
    ensures CertTypeFor(isCA, isClient) == CertTypeCA <==> isCA
    ensures CertTypeFor(isCA, isClient) == CertTypeClientAuth <==> isClient
    ensures CertTypeFor(isCA, isClient) == CertTypeServerAuth <==> !isCA && !isClient
    ensures IssuancePolicy(CertTypeFor(isCA, isClient)).Some?
  {
    PolicyByType(CertTypeFor(isCA, isClient));
  }

  /** sign, with `positional` the arguments left after the flags. `serial` is the
      outcome of the serial-number generator. */
  method SignFile(positional: seq<string>, isCA: bool, isClient: bool, certOut: string,
                  fs: FileSystem, crypto: Crypto, serial: Result<nat, string>)
    returns (status: int, fs': FileSystem)
    ensures status in {0, 1}
    ensures status == 1 ==> fs' == fs
    ensures |positional| < 3 || (isCA && isClient) ==> status == 1
    ensures status == 0 ==>
      && |positional| >= 3 && !(isCA && isClient)
      && exists issued: Issued ::
           && IssuedFrom(fs, positional[0], positional[1], positional[2], CertTypeFor(isCA, isClient), crypto, serial, issued)
           && fs' == fs.(files := fs.files[OrDefault(certOut, issued.commonName + ".cer") := issued.der])
  {
    if |positional| < 3 {
      return 1, fs;
    }
    if isCA && isClient {
      return 1, fs;
    }
    var certType := CertTypeFor(isCA, isClient);
    var csrFile, caCertFile, caKeyFile := positional[0], positional[1], positional[2];

    var signed := SignCsr(fs, csrFile, caCertFile, caKeyFile, certType, crypto, serial);
    if signed.Failure? {
      return 1, fs;
    }
    var out := signed.value.commonName + ".cer";
    if certOut != "" {
      out := certOut;
    }
    var written := WriteFile(fs, out, signed.value.der);
    if written.Failure? {
      return 1, fs;
    }
    assert IssuedFrom(fs, csrFile, caCertFile, caKeyFile, certType, crypto, serial, signed.value);
    return 0, written.value;
  }
}
