/** Converting a certificate or an RSA private key between DER and PEM
    (business/format/format.go). DER is the normalised form: a PEM source is reduced to
    the bytes of its first block, and a PEM target wraps those bytes in one block. */
module Format {
  import opened Base
  import opened X509
  import opened Text

  /** format.Encoding is a Go int; the two declared values come from iota. */
  type Encoding = int
  const EncodingDer: Encoding := 0
  const EncodingPem: Encoding := 1

  /** fileExists: "does not exist" is a plain false, any other stat error is returned. */
  function FileExists(fs: FileSystem, path: string): (r: Result<bool, Error>)
    ensures r.Failure? <==> path in fs.unreachable
    ensures r.Failure? ==> r.error == StatFailed(path)
    ensures r == Success(true) <==> ReadFile(fs, path).Success?
  {
    if path in fs.unreachable then Failure(StatFailed(path))
    else Success(path in fs.files)
  }

  /** confirmOverwrite: the first line of standard input, lower-cased, must be "y";
      end-of-file declines. */
  predicate ConfirmOverwrite(stdin: seq<string>) {
    |stdin| > 0 && ToLower(stdin[0]) == "y"
  }

  /** Exactly a first line "y" or "Y" confirms. */
  lemma ConfirmOnlyOnY(stdin: seq<string>)
    ensures ConfirmOverwrite(stdin) <==> |stdin| > 0 && (stdin[0] == "y" || stdin[0] == "Y")
  {
    if |stdin| > 0 {
      LowerIsY(stdin[0]);
    }
  }

  /** How writing `data` from offset 0 of an opened file leaves its contents: `Overlay`
      for a file opened without truncation (os.O_CREATE|os.O_WRONLY, as the source
      does), where a longer old content keeps its tail; `Truncate` for a file whose
      old content is discarded first. */
  datatype WriteMode = Overlay | Truncate

  function Written(mode: WriteMode, current: Bytes, data: Bytes): (r: Bytes)
    ensures |r| >= |data| && r[..|data|] == data
    ensures mode.Truncate? || |current| <= |data| ==> r == data
    ensures mode.Overlay? && |current| > |data| ==> r == data + current[|data|..]
  {
    if mode.Overlay? && |current| > |data| then data + current[|data|..] else data
  }

  /** The file system and error after Cert or Key with PEM block type `pemType`, the file
      write behaving as `mode` says. Every error before the output is opened leaves
      the file system as it was; a PEM source without a block (a nil dereference in
      the source) fails after the output file has been created. */
  function Converted(pemType: string, sourceFmt: Encoding, targetFmt: Encoding, inFile: string, outFile: string,
                     fs: FileSystem, stdin: seq<string>, pem: PemCodec, mode: WriteMode)
    : (r: (FileSystem, Option<Error>))
    ensures r.1.Some? && r.1 != Some(NilPemBlock) ==> r.0 == fs
    ensures r.1 == Some(NilPemBlock) ==> outFile in r.0.files && sourceFmt == EncodingPem
    ensures r.1.None? ==> outFile in r.0.files
    ensures r.0.unreachable == fs.unreachable && r.0.readOnly == fs.readOnly
    ensures forall p :: p != outFile ==> (p in r.0.files <==> p in fs.files)
    ensures forall p :: p != outFile && p in fs.files ==> r.0.files[p] == fs.files[p]
  {
    match FileExists(fs, outFile)
    case Failure(e) => (fs, Some(e))
    case Success(present) =>
      if present && !ConfirmOverwrite(stdin) then (fs, Some(CancelOverwrite))
      else
        match ReadFile(fs, inFile)
        case Failure(e) => (fs, Some(e))
        case Success(inBytes) =>
          if outFile in fs.readOnly then (fs, Some(OpenFailed(outFile)))
          else
            var current := if outFile in fs.files then fs.files[outFile] else [];
            var created := fs.(files := fs.files[outFile := current]);
            if sourceFmt == EncodingPem && pem.decode(inBytes).None? then (created, Some(NilPemBlock))
            else
              var der := if sourceFmt == EncodingPem then pem.decode(inBytes).value.0.bytes else inBytes;
              if targetFmt == EncodingPem then
                (created.(files := created.files[outFile := Written(mode, current, pem.encode(PemBlock(pemType, der)))]), None)
              else if targetFmt == EncodingDer then
                (created.(files := created.files[outFile := Written(mode, current, der)]), None)
              else (created, None)
  }

  /** The bytes a successful conversion starts from: the input file, or the first
      PEM block's payload for a PEM source. */
  function SourceBytes(sourceFmt: Encoding, inBytes: Bytes, pem: PemCodec): Bytes {
    if sourceFmt == EncodingPem && pem.decode(inBytes).Some? then pem.decode(inBytes).value.0.bytes else inBytes
  }

  /** The shared body of Cert and Key; only `pemType` differs between them. The output
      file is opened and written as `mode` says (see `Written`). */
  method Convert(pemType: string, sourceFmt: Encoding, targetFmt: Encoding, inFile: string, outFile: string,
                 fs: FileSystem, stdin: seq<string>, pem: PemCodec, mode: WriteMode)
    returns (fs': FileSystem, err: Option<Error>)
    ensures (fs', err) == Converted(pemType, sourceFmt, targetFmt, inFile, outFile, fs, stdin, pem, mode)
  {
    var present := FileExists(fs, outFile);
    if present.Failure? {
      return fs, Some(present.error);
    }
    if present.value && !ConfirmOverwrite(stdin) {
      return fs, Some(CancelOverwrite);
    }
    var read := ReadFile(fs, inFile);
    if read.Failure? {
      return fs, Some(read.error);
    }
    var inBytes := read.value;
    if outFile in fs.readOnly {
      return fs, Some(OpenFailed(outFile));
    }
    var current := if outFile in fs.files then fs.files[outFile] else [];
    fs' := fs.(files := fs.files[outFile := current]);

    if sourceFmt == EncodingPem {
      var block := pem.decode(inBytes);
      if block.None? {
        return fs', Some(NilPemBlock);
      }
      inBytes := block.value.0.bytes;
    }
    if targetFmt == EncodingPem {
      fs' := fs'.(files := fs'.files[outFile := Written(mode, current, pem.encode(PemBlock(pemType, inBytes)))]);
    } else if targetFmt == EncodingDer {
      fs' := fs'.(files := fs'.files[outFile := Written(mode, current, inBytes)]);
    }
    err := None;
  }

  /** format.Cert, which opens the output without truncating it. */
  method Cert(sourceFmt: Encoding, targetFmt: Encoding, inFile: string, outFile: string,
              fs: FileSystem, stdin: seq<string>, pem: PemCodec)
    returns (fs': FileSystem, err: Option<Error>)
    ensures (fs', err) == Converted(PemCertificate, sourceFmt, targetFmt, inFile, outFile, fs, stdin, pem, Overlay)
  {
    fs', err := Convert(PemCertificate, sourceFmt, targetFmt, inFile, outFile, fs, stdin, pem, Overlay);
  }

  /** format.Key, which opens the output without truncating it. */
  method Key(sourceFmt: Encoding, targetFmt: Encoding, inFile: string, outFile: string,
             fs: FileSystem, stdin: seq<string>, pem: PemCodec)
    returns (fs': FileSystem, err: Option<Error>)
    ensures (fs', err) == Converted(PemRsaPrivateKey, sourceFmt, targetFmt, inFile, outFile, fs, stdin, pem, Overlay)
  {
    fs', err := Convert(PemRsaPrivateKey, sourceFmt, targetFmt, inFile, outFile, fs, stdin, pem, Overlay);
  }

  /** format.Cert with the output opened with truncation (os.O_TRUNC added). */
  method CertTruncating(sourceFmt: Encoding, targetFmt: Encoding, inFile: string, outFile: string,
                        fs: FileSystem, stdin: seq<string>, pem: PemCodec)
    returns (fs': FileSystem, err: Option<Error>)
    ensures (fs', err) == Converted(PemCertificate, sourceFmt, targetFmt, inFile, outFile, fs, stdin, pem, Truncate)
  {
    fs', err := Convert(PemCertificate, sourceFmt, targetFmt, inFile, outFile, fs, stdin, pem, Truncate);
  }

  /** format.Key with the output opened with truncation (os.O_TRUNC added). */
  method KeyTruncating(sourceFmt: Encoding, targetFmt: Encoding, inFile: string, outFile: string,
                       fs: FileSystem, stdin: seq<string>, pem: PemCodec)
    returns (fs': FileSystem, err: Option<Error>)
    ensures (fs', err) == Converted(PemRsaPrivateKey, sourceFmt, targetFmt, inFile, outFile, fs, stdin, pem, Truncate)
  {
    fs', err := Convert(PemRsaPrivateKey, sourceFmt, targetFmt, inFile, outFile, fs, stdin, pem, Truncate);
  }

  /** When the output exists and the operator does not confirm, the result is
      ErrCancelOverwrite with nothing changed, and the input is never looked at: any
      other input path gives the same result. */
  lemma DeclinedOverwrite(pemType: string, sourceFmt: Encoding, targetFmt: Encoding, inFile: string, otherIn: string,
                          outFile: string, fs: FileSystem, stdin: seq<string>, pem: PemCodec, mode: WriteMode)
    requires outFile in fs.files && outFile !in fs.unreachable && !ConfirmOverwrite(stdin)
    ensures Converted(pemType, sourceFmt, targetFmt, inFile, outFile, fs, stdin, pem, mode) == (fs, Some(CancelOverwrite))
    ensures Converted(pemType, sourceFmt, targetFmt, otherIn, outFile, fs, stdin, pem, mode) == (fs, Some(CancelOverwrite))
  {
  }

  /** When the output does not exist, no confirmation is asked for: standard input has
      no effect. */
  lemma NoPromptWhenAbsent(pemType: string, sourceFmt: Encoding, targetFmt: Encoding, inFile: string, outFile: string,
                           fs: FileSystem, stdin: seq<string>, otherStdin: seq<string>, pem: PemCodec, mode: WriteMode)
    requires outFile !in fs.files && outFile !in fs.unreachable
    ensures Converted(pemType, sourceFmt, targetFmt, inFile, outFile, fs, stdin, pem, mode)
         == Converted(pemType, sourceFmt, targetFmt, inFile, outFile, fs, otherStdin, pem, mode)
  {
  }

  /** A successful conversion to DER writes exactly the source bytes (the input file
      for a DER source, the first block's payload for a PEM source) and touches no
      other file. */
  lemma DerTargetWritesExactly(pemType: string, sourceFmt: Encoding, inFile: string, outFile: string,
                               fs: FileSystem, stdin: seq<string>, pem: PemCodec)
    requires Converted(pemType, sourceFmt, EncodingDer, inFile, outFile, fs, stdin, pem, Truncate).1.None?
    ensures inFile in fs.files
    ensures Converted(pemType, sourceFmt, EncodingDer, inFile, outFile, fs, stdin, pem, Truncate).0.files
         == fs.files[outFile := SourceBytes(sourceFmt, fs.files[inFile], pem)]
  {
  }

  /** The bytes a successful conversion writes: the source bytes for a DER target, one
      block labelled `pemType` holding them for a PEM target. */
  function OutputBytes(pemType: string, sourceFmt: Encoding, targetFmt: Encoding, inBytes: Bytes, pem: PemCodec): Bytes {
    if targetFmt == EncodingPem then pem.encode(PemBlock(pemType, SourceBytes(sourceFmt, inBytes, pem)))
    else SourceBytes(sourceFmt, inBytes, pem)
  }

  /** As written, without truncation: a successful DER or PEM conversion puts its bytes
      at the start of the output file, which keeps its old bytes past them when it was
      longer; no other file changes. */
  lemma OutputAsWritten(pemType: string, sourceFmt: Encoding, targetFmt: Encoding, inFile: string, outFile: string,
                        fs: FileSystem, stdin: seq<string>, pem: PemCodec)
    requires targetFmt == EncodingDer || targetFmt == EncodingPem
    requires Converted(pemType, sourceFmt, targetFmt, inFile, outFile, fs, stdin, pem, Overlay).1.None?
    ensures inFile in fs.files
    ensures var data := OutputBytes(pemType, sourceFmt, targetFmt, fs.files[inFile], pem);
      var before := if outFile in fs.files then fs.files[outFile] else [];
      var after := Converted(pemType, sourceFmt, targetFmt, inFile, outFile, fs, stdin, pem, Overlay).0.files[outFile];
      && |after| == (if |before| > |data| then |before| else |data|)
      && after[..|data|] == data
      && (|before| > |data| ==> after[|data|..] == before[|data|..])
  {
  }

  /** A successful conversion to PEM writes a file that pem.Decode reads back as one
      block labelled `pemType` holding the source bytes. What follows the block is the
      old output's tail; it is empty when the output is truncated, or was absent or no
      longer than the block. */
  lemma PemTargetReadsBack(pemType: string, sourceFmt: Encoding, inFile: string, outFile: string,
                           fs: FileSystem, stdin: seq<string>, pem: PemCodec, mode: WriteMode)
    requires ReadsBack(pem)
    requires Converted(pemType, sourceFmt, EncodingPem, inFile, outFile, fs, stdin, pem, mode).1.None?
    ensures inFile in fs.files
    ensures var block := PemBlock(pemType, SourceBytes(sourceFmt, fs.files[inFile], pem));
      var before := if outFile in fs.files then fs.files[outFile] else [];
      var written := Converted(pemType, sourceFmt, EncodingPem, inFile, outFile, fs, stdin, pem, mode).0.files[outFile];
      && |written| >= |pem.encode(block)|
      && pem.decode(written) == Some((block, written[|pem.encode(block)|..]))
      && (mode.Truncate? || |before| <= |pem.encode(block)| ==> pem.decode(written) == Some((block, [])))
  {
    var block := PemBlock(pemType, SourceBytes(sourceFmt, fs.files[inFile], pem));
    var written := Converted(pemType, sourceFmt, EncodingPem, inFile, outFile, fs, stdin, pem, mode).0.files[outFile];
    var n := |pem.encode(block)|;
    assert written == pem.encode(block) + written[n..];
    assert pem.decode(pem.encode(block) + written[n..]) == Some((block, written[n..]));
  }

  /** Converting DER to PEM and that PEM file back to DER puts the original bytes at
      the start of the final output, whatever the labels and write modes; the output is
      exactly those bytes when it is truncated, or was absent or no longer. */
  lemma DerPemDerRoundTrip(pemType: string, pemType2: string, a: string, b: string, c: string,
                           fs: FileSystem, stdin: seq<string>, stdin2: seq<string>, pem: PemCodec,
                           mode: WriteMode, mode2: WriteMode)
    requires ReadsBack(pem)
    requires Converted(pemType, EncodingDer, EncodingPem, a, b, fs, stdin, pem, mode).1.None?
    requires var fs1 := Converted(pemType, EncodingDer, EncodingPem, a, b, fs, stdin, pem, mode).0;
      Converted(pemType2, EncodingPem, EncodingDer, b, c, fs1, stdin2, pem, mode2).1.None?
    ensures a in fs.files
    ensures var fs1 := Converted(pemType, EncodingDer, EncodingPem, a, b, fs, stdin, pem, mode).0;
      var final := Converted(pemType2, EncodingPem, EncodingDer, b, c, fs1, stdin2, pem, mode2).0.files[c];
      && |final| >= |fs.files[a]| && final[..|fs.files[a]|] == fs.files[a]
      && (mode2.Truncate? || c !in fs1.files || |fs1.files[c]| <= |fs.files[a]| ==> final == fs.files[a])
  {
    var fs1 := Converted(pemType, EncodingDer, EncodingPem, a, b, fs, stdin, pem, mode).0;
    PemTargetReadsBack(pemType, EncodingDer, a, b, fs, stdin, pem, mode);
    assert SourceBytes(EncodingPem, fs1.files[b], pem) == fs.files[a];
  }

  /** A PEM source with no block fails with the nil-block error once every earlier
      step passed, leaving an output file that holds what it held before (or is new
      and empty). */
  lemma PemSourceWithoutBlock(pemType: string, targetFmt: Encoding, inFile: string, outFile: string,
                              fs: FileSystem, stdin: seq<string>, pem: PemCodec, mode: WriteMode)
    requires outFile !in fs.unreachable && outFile !in fs.readOnly
    requires outFile !in fs.files || ConfirmOverwrite(stdin)
    requires ReadFile(fs, inFile).Success? && pem.decode(fs.files[inFile]).None?
    ensures var r := Converted(pemType, EncodingPem, targetFmt, inFile, outFile, fs, stdin, pem, mode);
      && r.1 == Some(NilPemBlock)
      && r.0.files[outFile] == (if outFile in fs.files then fs.files[outFile] else [])
  {
  }

  /** Cert and Key differ only in the PEM pemType: for any target other than PEM they
      have the same effect. */
  lemma LabelOnlyMattersForPem(sourceFmt: Encoding, targetFmt: Encoding, inFile: string, outFile: string,
                               fs: FileSystem, stdin: seq<string>, pem: PemCodec, mode: WriteMode)
    requires targetFmt != EncodingPem
    ensures Converted(PemCertificate, sourceFmt, targetFmt, inFile, outFile, fs, stdin, pem, mode)
         == Converted(PemRsaPrivateKey, sourceFmt, targetFmt, inFile, outFile, fs, stdin, pem, mode)
  {
  }

  /** As written, the output is opened without truncation: overwriting the three-byte
      file "out.der" with the one-byte DER input [9] leaves [9, 2, 3], not [9]. */
  lemma OverlayLeavesStaleTail(pem: PemCodec)
    ensures var fs := FileSystem(map["in.der" := [9], "out.der" := [1, 2, 3]], {}, {});
      && Converted(PemCertificate, EncodingDer, EncodingDer, "in.der", "out.der", fs, ["y"], pem, Overlay).0.files["out.der"]
         == [9, 2, 3]
      && Converted(PemCertificate, EncodingDer, EncodingDer, "in.der", "out.der", fs, ["y"], pem, Truncate).0.files["out.der"]
         == [9]
  {
    var fs := FileSystem(map["in.der" := [9], "out.der" := [1, 2, 3]], {}, {});
    assert ToLower("y") == "y";
    var current: Bytes := [1, 2, 3];
    assert Written(Overlay, current, [9]) == [9] + current[1..];
  }
}
