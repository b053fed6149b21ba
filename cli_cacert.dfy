/** The `ca-cert` command (app/certcli/cacert.go): checks and normalises the common
    name, builds the options, prompts for the name, creates the CA certificate and key
    and writes them. An exit status is returned instead of ending the process. */
module CaCertCommand {
  import opened Base
  import opened X509
  import opened Text
  import opened CertName
  import opened CaCert

  /** Line 59: lower-cased, trimmed of surrounding white space, and stripped of every
      space character. */
  function NormaliseCommonName(raw: string): string {
    RemoveSpaces(TrimSpace(ToLower(raw)))
  }

  /** A normalised common name holds no space and no upper-case ASCII letter. */
  lemma NormalisedFacts(raw: string)
    ensures forall i :: 0 <= i < |NormaliseCommonName(raw)| ==>
      NormaliseCommonName(raw)[i] != ' ' && !('A' <= NormaliseCommonName(raw)[i] <= 'Z')
  {
    var lower := ToLower(raw);
    var trimmed := TrimSpace(lower);
    var r := RemoveSpaces(trimmed);
    ToLowerHasNoUpper(raw);
    TrimSpaceFromInput(lower);
    RemoveSpacesFromInput(trimmed);
    forall i | 0 <= i < |r| ensures !('A' <= r[i] <= 'Z') {
      var j :| 0 <= j < |trimmed| && trimmed[j] == r[i];
      var k :| 0 <= k < |lower| && lower[k] == trimmed[j];
    }
  }

  /** The emptiness check looks at the raw argument, so a name made only of spaces is
      accepted and normalises to the empty name. */
  lemma BlankNameAccepted()
    ensures " " != "" && NormaliseCommonName(" ") == ""
  {
    assert ToLower(" ") == " ";
    assert TrimLeft(" ") == "";
    assert TrimRight("") == "";
    assert RemoveSpaces("") == "";
  }

  /** The expiration option of lines 69-74: months if positive, else days if positive,
      else none. */
  function ExpirationOption(expireMonths: int, expireDays: int): seq<CaCertOpt> {
    if expireMonths > 0 then [ExpirationMonths(expireMonths)]
    else if expireDays > 0 then [ExpirationDays(expireDays)]
    else []
  }

  /** The options of lines 67-81: the expiration option, then one per SAN, then one
      per IP, each group in command-line order. */
  function CaOptionList(expireMonths: int, expireDays: int, sans: seq<string>, ips: seq<IP>): seq<CaCertOpt> {
    ExpirationOption(expireMonths, expireDays)
      + seq(|sans|, i requires 0 <= i < |sans| => SubjectAlternativeName(sans[i]))
      + seq(|ips|, i requires 0 <= i < |ips| => IpAddress(ips[i]))
  }

  /** Applied, those options expire the certificate after the positive month count if
      there is one, else after the positive day count, else after the default three
      months; and they carry the command line's SANs and IPs in order. */
  lemma OptionListEffect(expireMonths: int, expireDays: int, sans: seq<string>, ips: seq<IP>)
    ensures var opts := CaOptionList(expireMonths, expireDays, sans, ips);
      && ExpirationAfter(DefaultExpiration, opts) ==
           (if expireMonths > 0 then AddDate(0, expireMonths, 0)
            else if expireDays > 0 then AddDate(0, 0, expireDays)
            else DefaultExpiration)
      && SansOf(opts) == sans && IpsOf(opts) == ips
  {
    var e := ExpirationOption(expireMonths, expireDays);
    var a := seq(|sans|, i requires 0 <= i < |sans| => SubjectAlternativeName(sans[i]));
    var b := seq(|ips|, i requires 0 <= i < |ips| => IpAddress(ips[i]));
    var start := ExpirationAfter(DefaultExpiration, e);
    OptionsCompose(DefaultExpiration, e, a);
    OptionsCompose(DefaultExpiration, e + a, b);
    SanOptions(start, sans);
    IpOptions(start, ips);
    if e != [] {
      assert e == [] + [e[0]];
    }
  }

  /** The switch and the two appending loops of lines 67-81. */
  method CaCertOptions(expireMonths: int, expireDays: int, sans: seq<string>, ips: seq<IP>)
    returns (opts: seq<CaCertOpt>)
    ensures opts == CaOptionList(expireMonths, expireDays, sans, ips)
  {
    opts := [];
    if expireMonths > 0 {
      opts := opts + [ExpirationMonths(expireMonths)];
    } else if expireDays > 0 {
      opts := opts + [ExpirationDays(expireDays)];
    }
    ghost var expiration := opts;
    for i := 0 to |sans|
      invariant opts == expiration + seq(i, j requires 0 <= j < i => SubjectAlternativeName(sans[j]))
    {
      opts := opts + [SubjectAlternativeName(sans[i])];
    }
    ghost var named := opts;
    for i := 0 to |ips|
      invariant opts == named + seq(i, j requires 0 <= j < i => IpAddress(ips[j]))
    {
      opts := opts + [IpAddress(ips[i])];
    }
  }

  /** cacert, with `positional` the arguments left after the flags and `uuid` the
      outcome of uuid.NewRandom. */
  method CreateCaCert(positional: seq<string>, certOut: string, keyOut: string, expireMonths: int, expireDays: int,
                      sans: seq<string>, ips: seq<IP>, stdin: seq<string>, uuid: Result<Bytes, string>,
                      crypto: Crypto, pem: PemCodec, fs: FileSystem)
    returns (status: int, fs': FileSystem)
    requires uuid.Success? ==> |uuid.value| == 16
    ensures status in {0, 1}
    // A missing or empty argument, a cancelled prompt, or a failure to create the
    // certificate exits 1 without writing anything.
    ensures (|| |positional| < 1 || positional[0] == "" || Prompt(EmptyName, stdin).1.Some?
             || uuid.Failure? || crypto.generateKey(DefaultKeyBits).Failure?) ==>
      status == 1 && fs' == fs
    // Success writes the PEM certificate and the PEM key of the CA built from the
    // normalised name, the prompted attributes and the options, to the chosen paths.
    ensures status == 0 ==>
      && |positional| >= 1 && positional[0] != "" && Prompt(EmptyName, stdin).1.None? && uuid.Success?
      && crypto.generateKey(DefaultKeyBits).Success?
      && var commonName := NormaliseCommonName(positional[0]);
      && var template := CaTemplate(commonName, Prompt(EmptyName, stdin).0,
                                    CaOptionList(expireMonths, expireDays, sans, ips), uuid.value);
      && var (cert, key) := GenerateCaCertAndKeys(DefaultKeyBits, template, crypto, pem).value;
      fs'.files == fs.files[OrDefault(certOut, commonName + ".cer") := cert][OrDefault(keyOut, commonName + ".key") := key]
    // Conversely, when every input is there and both paths can be written, it succeeds.
    ensures (&& |positional| >= 1 && positional[0] != "" && Prompt(EmptyName, stdin).1.None? && uuid.Success?
             && crypto.generateKey(DefaultKeyBits).Success?
             && var commonName := NormaliseCommonName(positional[0]);
             && var certPath := OrDefault(certOut, commonName + ".cer");
             && var keyPath := OrDefault(keyOut, commonName + ".key");
             && certPath !in fs.unreachable && certPath !in fs.readOnly
             && keyPath !in fs.unreachable && keyPath !in fs.readOnly) ==>
      status == 0
  {
    if |positional| < 1 {
      return 1, fs;
    }
    var commonName := positional[0];
    if commonName == "" {
      return 1, fs;
    }
    commonName := NormaliseCommonName(commonName);
    var certPath := OrDefault(certOut, commonName + ".cer");
    var keyPath := OrDefault(keyOut, commonName + ".key");

    var opts := CaCertOptions(expireMonths, expireDays, sans, ips);
    var name, err := PromptCertNameDetails(stdin);
    if err.Some? {
      return 1, fs;
    }
    var generated := NewCaCert(commonName, name, opts, uuid, crypto, pem);
    if generated.Failure? {
      return 1, fs;
    }
    var written := WriteFile(fs, certPath, generated.value.0);
    if written.Failure? {
      return 1, fs;
    }
    fs' := written.value;
    written := WriteFile(fs', keyPath, generated.value.1);
    if written.Failure? {
      return 1, fs';
    }
    return 0, written.value;
  }
}
