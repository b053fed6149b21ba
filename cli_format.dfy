/** The `format` command (app/certcli/format.go): chooses the source and target
    encodings from the flags, checks them and the positional arguments, and calls
    format.Cert or format.Key. An exit status is returned instead of ending the
    process. */
module FormatCommand {
  import opened Base
  import opened X509
  import opened Text
  import opened Format

  /** The order in which pflag's Visit calls its callback on the flags that were set:
      lexicographic order of their names. */
  const VisitOrder: seq<string> := ["from-der", "from-pem", "to-der", "to-pem"]

  /** The Visit callback of lines 45-56 over the flags in `given`. Since EncodingDer is
      0, the initial value, a "from-der" or "to-der" flag leaves no trace: the source is
      PEM exactly when "from-pem" was given (it is visited after "from-der"), and
      likewise for the target. */
  method SelectEncodings(given: set<string>) returns (sourceFormat: Encoding, targetFormat: Encoding)
    ensures sourceFormat == EncodingPem <==> "from-pem" in given
    ensures targetFormat == EncodingPem <==> "to-pem" in given
    ensures sourceFormat in {EncodingDer, EncodingPem} && targetFormat in {EncodingDer, EncodingPem}
  {
    sourceFormat, targetFormat := 0, 0;
    for i := 0 to |VisitOrder|
      invariant sourceFormat == (if i > 1 && "from-pem" in given then EncodingPem else EncodingDer)
      invariant targetFormat == (if i > 3 && "to-pem" in given then EncodingPem else EncodingDer)
    {
      var flag := VisitOrder[i];
      if flag in given {
        if flag == "from-der" {
          sourceFormat := EncodingDer;
        } else if flag == "from-pem" {
          sourceFormat := EncodingPem;
        } else if flag == "to-der" {
          targetFormat := EncodingDer;
        } else if flag == "to-pem" {
          targetFormat := EncodingPem;
        }
      }
    }
  }

  /** The exit status and file system after the TYPE switch of lines 79-102: TYPE is
      matched case-insensitively; a declined overwrite exits 0 for a certificate but
      1 for a key, like every other error. A PEM input without a block is a nil
      dereference inside format.Cert or format.Key: the Go runtime ends the process
      with status 2, after the output file was created. */
  function TypeDispatch(sourceFmt: Encoding, targetFmt: Encoding, typeArg: string, inArg: string, outArg: string,
                        fs: FileSystem, stdin: seq<string>, pem: PemCodec): (int, FileSystem)
  {
    var kind := ToLower(typeArg);
    if kind == "cert" || kind == "certificate" then
      var (fs', err) := Converted(PemCertificate, sourceFmt, targetFmt, inArg, outArg, fs, stdin, pem, Overlay);
      (if err.None? || err == Some(CancelOverwrite) then 0 else if err == Some(NilPemBlock) then 2 else 1, fs')
    else if kind == "key" || kind == "private_key" then
      var (fs', err) := Converted(PemRsaPrivateKey, sourceFmt, targetFmt, inArg, outArg, fs, stdin, pem, Overlay);
      (if err.None? then 0 else if err == Some(NilPemBlock) then 2 else 1, fs')
    else (1, fs)
  }

  /** Exit status 0 means the conversion succeeded, or, for a certificate only, that
      the operator declined to overwrite; status 2 means the panic on a PEM input
      without a block; an unknown TYPE exits 1 and changes nothing. */
  lemma DispatchOutcome(sourceFmt: Encoding, targetFmt: Encoding, typeArg: string, inArg: string, outArg: string,
                        fs: FileSystem, stdin: seq<string>, pem: PemCodec)
    ensures var (status, fs') := TypeDispatch(sourceFmt, targetFmt, typeArg, inArg, outArg, fs, stdin, pem);
      var kind := ToLower(typeArg);
      && status in {0, 1, 2}
      && (kind in {"cert", "certificate"} ==>
            var err := Converted(PemCertificate, sourceFmt, targetFmt, inArg, outArg, fs, stdin, pem, Overlay).1;
            && (status == 0 <==> err.None? || err == Some(CancelOverwrite))
            && (status == 2 <==> err == Some(NilPemBlock)))
      && (kind in {"key", "private_key"} ==>
            var err := Converted(PemRsaPrivateKey, sourceFmt, targetFmt, inArg, outArg, fs, stdin, pem, Overlay).1;
            && (status == 0 <==> err.None?)
            && (status == 2 <==> err == Some(NilPemBlock)))
      && (status == 2 ==> sourceFmt == EncodingPem)
      && (kind !in {"cert", "certificate", "key", "private_key"} ==> status == 1 && fs' == fs)
  {
  }

  /** A declined overwrite of an existing output: the certificate command reports
      success, the key command failure, and neither changes a file. */
  lemma DeclinedOverwriteStatus(sourceFmt: Encoding, targetFmt: Encoding, inArg: string, outArg: string,
                                fs: FileSystem, stdin: seq<string>, pem: PemCodec)
    requires outArg in fs.files && outArg !in fs.unreachable && !ConfirmOverwrite(stdin)
    ensures TypeDispatch(sourceFmt, targetFmt, "cert", inArg, outArg, fs, stdin, pem) == (0, fs)
    ensures TypeDispatch(sourceFmt, targetFmt, "key", inArg, outArg, fs, stdin, pem) == (1, fs)
  {
    DeclinedOverwrite(PemCertificate, sourceFmt, targetFmt, inArg, inArg, outArg, fs, stdin, pem, Overlay);
    DeclinedOverwrite(PemRsaPrivateKey, sourceFmt, targetFmt, inArg, inArg, outArg, fs, stdin, pem, Overlay);
    assert ToLower("cert") == "cert";
    assert ToLower("key") == "key";
  }

  /** Lines 79-102; the nil-block error stands for the panic and gives status 2. */
  method DispatchType(sourceFmt: Encoding, targetFmt: Encoding, typeArg: string, inArg: string, outArg: string,
                      fs: FileSystem, stdin: seq<string>, pem: PemCodec)
    returns (status: int, fs': FileSystem)
    ensures (status, fs') == TypeDispatch(sourceFmt, targetFmt, typeArg, inArg, outArg, fs, stdin, pem)
  {
    var kind := ToLower(typeArg);
    var err: Option<Error>;
    if kind == "cert" || kind == "certificate" {
      fs', err := Cert(sourceFmt, targetFmt, inArg, outArg, fs, stdin, pem);
      if err.Some? {
        if err == Some(CancelOverwrite) {
          return 0, fs';
        } else if err == Some(NilPemBlock) {
          return 2, fs';
        }
        return 1, fs';
      }
    } else if kind == "key" || kind == "private_key" {
      fs', err := Key(sourceFmt, targetFmt, inArg, outArg, fs, stdin, pem);
      if err.Some? {
        if err == Some(NilPemBlock) {
          return 2, fs';
        }
        return 1, fs';
      }
    } else {
      return 1, fs;
    }
    status := 0;
  }

  /** Lines 58-102 for any pair of encodings: a zero source or target exits 1, equal
      encodings exit 0 before the arguments are counted, fewer than three positional
      arguments exit 1, and otherwise TYPE decides. */
  method CheckAndDispatch(sourceFormat: Encoding, targetFormat: Encoding, args: seq<string>,
                          fs: FileSystem, stdin: seq<string>, pem: PemCodec)
    returns (status: int, fs': FileSystem)
    ensures sourceFormat == 0 || targetFormat == 0 ==> status == 1 && fs' == fs
    ensures sourceFormat != 0 && targetFormat != 0 && sourceFormat == targetFormat ==> status == 0 && fs' == fs
    ensures sourceFormat != 0 && targetFormat != 0 && sourceFormat != targetFormat && |args| < 3 ==>
      status == 1 && fs' == fs
    ensures sourceFormat != 0 && targetFormat != 0 && sourceFormat != targetFormat && |args| >= 3 ==>
      (status, fs') == TypeDispatch(sourceFormat, targetFormat, args[0], args[1], args[2], fs, stdin, pem)
  {
    if sourceFormat == 0 {
      return 1, fs;
    }
    if targetFormat == 0 {
      return 1, fs;
    }
    if sourceFormat == targetFormat {
      return 0, fs;
    }
    if |args| < 3 {
      return 1, fs;
    }
    status, fs' := DispatchType(sourceFormat, targetFormat, args[0], args[1], args[2], fs, stdin, pem);
  }

  /** formatFile as written. No flag combination reaches a conversion: the command
      exits 0 ("formats are the same") when both "from-pem" and "to-pem" are given,
      1 otherwise, and never changes a file. */
  method FormatFileAsWritten(given: set<string>, args: seq<string>, fs: FileSystem, stdin: seq<string>, pem: PemCodec)
    returns (status: int, fs': FileSystem)
    ensures fs' == fs
    ensures status == (if "from-pem" in given && "to-pem" in given then 0 else 1)
  {
    var sourceFormat, targetFormat := SelectEncodings(given);
    status, fs' := CheckAndDispatch(sourceFormat, targetFormat, args, fs, stdin, pem);
  }

  /** The Visit callback with "not chosen" kept apart from DER: the later-visited flag
      of each pair wins. */
  method SelectFormats(given: set<string>) returns (source: Option<Encoding>, target: Option<Encoding>)
    ensures source == (if "from-pem" in given then Some(EncodingPem)
                       else if "from-der" in given then Some(EncodingDer) else None)
    ensures target == (if "to-pem" in given then Some(EncodingPem)
                       else if "to-der" in given then Some(EncodingDer) else None)
  {
    source, target := None, None;
    for i := 0 to |VisitOrder|
      invariant source == (if i > 1 && "from-pem" in given then Some(EncodingPem)
                           else if i > 0 && "from-der" in given then Some(EncodingDer) else None)
      invariant target == (if i > 3 && "to-pem" in given then Some(EncodingPem)
                           else if i > 2 && "to-der" in given then Some(EncodingDer) else None)
    {
      var flag := VisitOrder[i];
      if flag in given {
        if flag == "from-der" {
          source := Some(EncodingDer);
        } else if flag == "from-pem" {
          source := Some(EncodingPem);
        } else if flag == "to-der" {
          target := Some(EncodingDer);
        } else if flag == "to-pem" {
          target := Some(EncodingPem);
        }
      }
    }
  }

  /** formatFile with the missing-format checks testing "not chosen" rather than the
      value 0: a source and a target flag of different encodings, with TYPE, IN_FILE
      and OUT_FILE, reach the conversion; the other checks are unchanged. */
  method FormatFile(given: set<string>, args: seq<string>, fs: FileSystem, stdin: seq<string>, pem: PemCodec)
    returns (status: int, fs': FileSystem)
    ensures !("from-der" in given || "from-pem" in given) || !("to-der" in given || "to-pem" in given) ==>
      status == 1 && fs' == fs
    ensures (&& ("from-pem" in given <==> "to-pem" in given)
             && ("from-der" in given || "from-pem" in given)
             && ("to-der" in given || "to-pem" in given)) ==>
      status == 0 && fs' == fs
    ensures "from-der" in given && "from-pem" !in given && "to-pem" in given && |args| >= 3 ==>
      (status, fs') == TypeDispatch(EncodingDer, EncodingPem, args[0], args[1], args[2], fs, stdin, pem)
    ensures "from-pem" in given && "to-der" in given && "to-pem" !in given && |args| >= 3 ==>
      (status, fs') == TypeDispatch(EncodingPem, EncodingDer, args[0], args[1], args[2], fs, stdin, pem)
    ensures (&& ("from-der" in given || "from-pem" in given)
             && ("to-der" in given || "to-pem" in given)
             && ("from-pem" in given <==> "to-pem" !in given)
             && |args| < 3) ==>
      status == 1 && fs' == fs
  {
    var source, target := SelectFormats(given);
    if source.None? {
      return 1, fs;
    }
    if target.None? {
      return 1, fs;
    }
    if source == target {
      return 0, fs;
    }
    if |args| < 3 {
      return 1, fs;
    }
    status, fs' := DispatchType(source.value, target.value, args[0], args[1], args[2], fs, stdin, pem);
  }

  /** With the corrected checks, "format --from-der --to-pem cert IN OUT" on a readable
      DER input and an absent output writes OUT as one CERTIFICATE block holding IN's
      bytes and exits 0; the command as written exits 1 and writes nothing. */
  lemma DerToPemReachable(inArg: string, outArg: string, fs: FileSystem, stdin: seq<string>, pem: PemCodec)
    requires ReadsBack(pem)
    requires ReadFile(fs, inArg).Success? && outArg !in fs.files && outArg !in fs.unreachable && outArg !in fs.readOnly
    ensures var (status, fs') := TypeDispatch(EncodingDer, EncodingPem, "cert", inArg, outArg, fs, stdin, pem);
      status == 0 && pem.decode(fs'.files[outArg]) == Some((PemBlock(PemCertificate, fs.files[inArg]), []))
  {
    assert ToLower("cert") == "cert";
    PemTargetReadsBack(PemCertificate, EncodingDer, inArg, outArg, fs, stdin, pem, Overlay);
  }
}
