/** The `csr` command (app/certcli/csr.go): checks the SAN, IP and client flags, builds
    the options, prompts for the name, generates the request and key and writes them.
    An exit status is returned instead of ending the process. */
module CsrCommand {
  import opened Base
  import opened X509
  import opened Text
  import opened CertName
  import opened Csr

  /** The checks of lines 58-66: with no SAN and no IP the request must be for a
      client; a client request may carry neither. */
  predicate Accepted(sans: seq<string>, ips: seq<IP>, isClient: bool) {
    if |sans| == 0 && |ips| == 0 && !isClient then false
    else if isClient && (|sans| > 0 || |ips| > 0) then false
    else true
  }

  /** The flags are accepted exactly for a client request with neither SANs nor IPs,
      or a non-client request with at least one of them. */
  lemma AcceptedExactly(sans: seq<string>, ips: seq<IP>, isClient: bool)
    ensures Accepted(sans, ips, isClient) <==>
      (isClient && sans == [] && ips == []) || (!isClient && (sans != [] || ips != []))
  {
  }

  /** The options of lines 68-75: one AddSan per SAN, then one AddIP per IP, each group
      in command-line order. */
  function CsrOptionList(sans: seq<string>, ips: seq<IP>): seq<CsrOpt> {
    seq(|sans|, i requires 0 <= i < |sans| => AddSan(sans[i])) + seq(|ips|, i requires 0 <= i < |ips| => AddIP(ips[i]))
  }

  /** Applied, those options give the request exactly the command line's SANs and IPs,
      in order. */
  lemma OptionListContents(sans: seq<string>, ips: seq<IP>)
    ensures SansIn(CsrOptionList(sans, ips)) == sans
    ensures IpsIn(CsrOptionList(sans, ips)) == ips
  {
    var a := seq(|sans|, i requires 0 <= i < |sans| => AddSan(sans[i]));
    var b := seq(|ips|, i requires 0 <= i < |ips| => AddIP(ips[i]));
    OptionsCompose(a, b);
    SanOptions(sans);
    IpOptions(ips);
  }

  /** The two appending loops of lines 68-75. */
  method CsrOptions(sans: seq<string>, ips: seq<IP>) returns (opts: seq<CsrOpt>)
    ensures opts == CsrOptionList(sans, ips)
    ensures SansIn(opts) == sans && IpsIn(opts) == ips
  {
    opts := [];
    for i := 0 to |sans|
      invariant opts == seq(i, j requires 0 <= j < i => AddSan(sans[j]))
    {
      opts := opts + [AddSan(sans[i])];
    }
    ghost var sanOpts := opts;
    for i := 0 to |ips|
      invariant opts == sanOpts + seq(i, j requires 0 <= j < i => AddIP(ips[j]))
    {
      opts := opts + [AddIP(ips[i])];
    }
    OptionListContents(sans, ips);
  }

  /** createCsr, with `positional` the arguments left after the flags. Errors from
      NewGeneratedCsr and from the writes are printed and otherwise ignored, as in the
      source. */
  method CreateCsr(positional: seq<string>, csrOut: string, keyOut: string, sans: seq<string>, ips: seq<IP>,
                   isClient: bool, stdin: seq<string>, fs: FileSystem, crypto: Crypto)
    returns (status: int, fs': FileSystem)
    ensures status in {0, 1}
    ensures status == 1 <==>
      |positional| < 1 || !Accepted(sans, ips, isClient) || Prompt(EmptyName, stdin).1.Some?
    ensures status == 1 ==> fs' == fs
    ensures status == 0 ==>
      var commonName := positional[0];
      var csrPath := OrDefault(csrOut, commonName + ".csr");
      var keyPath := OrDefault(keyOut, commonName + ".key");
      && (forall p :: p != csrPath && p != keyPath ==> (p in fs'.files <==> p in fs.files))
      && (forall p :: p != csrPath && p != keyPath && p in fs.files ==> fs'.files[p] == fs.files[p])
      && (var priv := crypto.generateKey(CsrKeyBits);
          var request := RequestFor(commonName, Prompt(EmptyName, stdin).0, CsrOptionList(sans, ips));
          && priv.Success? && crypto.createCertificateRequest(request, priv.value).Success?
          && csrPath !in fs.unreachable && csrPath !in fs.readOnly
          && keyPath !in fs.unreachable && keyPath !in fs.readOnly
          ==> fs'.files == fs.files[csrPath := crypto.createCertificateRequest(request, priv.value).value]
                                   [keyPath := priv.value.pkcs1])
  {
    if |positional| < 1 {
      return 1, fs;
    }
    var commonName := positional[0];
    var csrPath := OrDefault(csrOut, commonName + ".csr");
    var keyPath := OrDefault(keyOut, commonName + ".key");
    if |sans| == 0 && |ips| == 0 && !isClient {
      return 1, fs;
    } else if isClient && (|sans| > 0 || |ips| > 0) {
      return 1, fs;
    }

    var opts := CsrOptions(sans, ips);
    var name, err := PromptCertNameDetails(stdin);
    if err.Some? {
      return 1, fs;
    }

    var generated := NewGeneratedCsr(commonName, name, opts, crypto);
    var csr, priv := [], [];
    if generated.Success? {
      csr, priv := generated.value.0, generated.value.1;
    }
    fs' := fs;
    var written := WriteFile(fs', csrPath, csr);
    if written.Success? {
      fs' := written.value;
    }
    written := WriteFile(fs', keyPath, priv);
    if written.Success? {
      fs' := written.value;
    }
    status := 0;
  }
}
