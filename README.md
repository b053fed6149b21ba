# certserver decision logic in Dafny

This project models the decision logic of **certserver**, a command-line PKI
utility. Its code:

- creates self-signed root CA certificates (the `ca-cert` command);
- generates certificate signing requests (the `createCsr` handler);
- signs requests with a CA key (the `sign` handler);
- finds the certificate in a PEM or DER file (`LoadCertFromFile`);
- converts certificates and RSA keys between DER and PEM (the `formatFile` handler).

Of these, the binary's `main` (app/certcli/main.go:15-18) registers only `ca-cert`
(and `cert-info`). The `csr`, `sign` and `format` handlers exist in app/certcli but no
command line reaches them. They are modelled as the functions they are, called with the
command name and the arguments after it.

The cryptography is delegated to Go's `crypto/x509`, `crypto/rsa` and `encoding/pem`
libraries. Here those calls are function values held in the `Crypto` and
`PemCodec` datatypes (`x509.dfy`). The model covers what the program decides
around those calls:

- **Issuance policy** (`sign.dfy`): the certificate type maps to a validity, a key
  usage (RFC 5280 section 4.2.1.3) and an extended key usage (RFC 5280 section
  4.2.1.12). The checks before issuing run in a fixed order.
- **PEM block search** (`certinfo.dfy`): the blocks of a file, the first block that
  parses as a certificate, and the self-signed test.
- **Interactive name prompt** (`certname.dfy`): a scanner with a cancel latch, and
  the confirm-or-repeat loop over standard input, modelled as a sequence of lines.
- **Option records and templates** (`cacert.dfy`, `csr.dfy`, `serial.dfy`):
  - options are applied in order to a defaults record;
  - the CA serial is the big-endian value of sixteen UUID bytes;
  - the CA template is fixed;
  - the request template is built from the options.
- **Format conversion** (`format.dfy`): the overwrite guard, DER as the normalised
  form, and the PEM label.
- **The four command handlers** (`cli_*.dfy`): flag rules, common-name normalisation,
  default paths, option order and exit statuses.

The file system is the value `FileSystem` (`base.dfy`). Its parts are:

- a map from path to bytes;
- a set of paths every operation fails on;
- a set of paths that cannot be opened for writing.

Times are symbolic offsets `AddDate(years, months, days)` from "now". `CertType`
and `Encoding` are plain integers, as in Go, so values outside the declared
constants stay expressible.

Where the repository's description and its code disagree, the model follows the
code:

- The description says the CA builder sets SAN and IP extensions. The code never
  copies them into the CA template (`CaCert.CaTemplateFacts`).
- The description calls the PEM/DER conversion reversible. No flags passed to the
  `formatFile` handler reach a conversion (see Findings). Written over a longer existing
  output, a conversion also keeps that output's old tail.

The `CA` type of `sign` grants certificate signing in the key usage. Like every
type, it still leaves `IsCA` and `BasicConstraintsValid` unset (`Sign.IssuedTemplateFacts`).

## Model

| member | source | states |
|---|---|---|
| Base.ReadFile | business/sign.go:21-32 | reading succeeds exactly for a present, reachable path and yields its contents; otherwise the path's read error |
| Base.WriteFile | app/certcli/cacert.go:95-102 | writing succeeds exactly for a path that can be opened for writing; the file then holds exactly the data and no other file changes |
| Text.ToLower | business/certname.go:51 | same length, every character lower-cased |
| Text.ToLowerHasNoUpper | app/certcli/cacert.go:59 | a lower-cased string holds no upper-case ASCII letter |
| Text.LowerIsY | business/certname.go:51 | an answer lower-cases to "y" exactly when it is "y" or "Y" |
| Text.TrimLeft | app/certcli/cacert.go:59 | the result is a suffix of the input, everything dropped is white space, and it does not start with white space |
| Text.TrimRight | app/certcli/cacert.go:59 | the result is a prefix of the input, everything dropped is white space, and it does not end with white space |
| Text.TrimSpaceSubMultiset | app/certcli/cacert.go:59 | trimming only removes characters |
| Text.TrimSpaceFromInput | app/certcli/cacert.go:59 | every character of the trimmed string occurs in the input |
| Text.RemoveSpaces | app/certcli/cacert.go:59 | no space remains and every other character keeps its count |
| Text.RemoveSpacesChar | app/certcli/cacert.go:59 | a single space is dropped and any other single character kept |
| Text.RemoveSpacesConcat | app/certcli/cacert.go:59 | spaces are removed piece by piece, so with RemoveSpacesChar the remaining characters keep their order |
| Text.RemoveSpacesFromInput | app/certcli/cacert.go:59 | every character left after removing spaces occurs in the input |
| Text.IsSpace | app/certcli/cacert.go:59 | the white-space set of unicode.IsSpace; the reference definition TrimLeft and TrimRight are stated against |
| Text.TrimSpace | app/certcli/cacert.go:59 | strings.TrimSpace as TrimRight after TrimLeft; the reference definition checked by TrimSpaceSubMultiset and TrimSpaceFromInput |
| Text.OrDefault | app/certcli/cacert.go:60-65 | an empty flag value falls back to the default path; the reference definition used by the write contracts of SignFile, CreateCsr and CreateCaCert |
| Text.Decimal | business/sign.go:67 | the decimal string is non-empty, all digits, and starts with '0' only for zero |
| Text.DecimalRoundTrip | business/cacert.go:76 | parsing the decimal string of a serial gives the serial back |
| Text.DecimalInjective | business/sign.go:67 | two different serials never share a decimal string |
| Serial.SetBytes | business/cacert.go:74-75 | the loop computes the big-endian value of the bytes, below 256 to the power of their count |
| Serial.BigEndianBound | business/cacert.go:70-75 | k bytes hold a value below 256^k |
| Serial.BigEndianLeading | business/cacert.go:70-75 | the first byte weighs 256 to the power of the number of bytes after it |
| Serial.BytesRoundTrip | business/cacert.go:70-75 | writing the value back in as many bytes gives the same bytes, so the serial determines the UUID |
| Serial.NumberRoundTrip | business/cacert.go:70-75 | every number below 256^k is the value of its k-byte representation |
| Sign.PolicyByType | business/sign.go:69-84 | only the three declared types are known. Every known type signs digitally and allows client authentication. Only CA signs certificates. Only client lacks server authentication. Validity is 3 months, 30 days or 6 months. Server and client get exactly their usage sets |
| Sign.IssuancePolicy | business/sign.go:69-84 | the CertType switch as a function from type to validity and usages, none for an unknown type; the reference definition checked by PolicyByType |
| Sign.IssuedTemplate | business/sign.go:60-84 | the certificate template built from the request, the serial and the policy; the reference definition checked by IssuedTemplateFacts |
| Sign.IssuedTemplateFacts | business/sign.go:60-81 | the template keeps the request's subject (except the serial-number attribute, which reads back as the serial), DNS names and IPs. It never sets IsCA or BasicConstraintsValid. The CA type includes certificate signing |
| Sign.SigningInputs | business/sign.go:21-45 | the three files are read, then parsed; on success each parsed value is the library's result for that file |
| Sign.SignCsr | business/sign.go:20-100 | Checks run in order: an input error is returned unchanged, then a non-CA issuer is refused, then a bad request signature, then a serial failure, then an unknown type. A certificate is returned exactly when every step succeeds. It is then created from the issued template under the CA, parses, verifies against the CA, and the reported name is its subject common name |
| CertInfo.PemBlocks | business/certinfo.go:53-71 | never empty; the whole input as the only entry when pem.Decode finds no block; otherwise the first block's payload comes first |
| CertInfo.DecodePem | business/certinfo.go:53-71 | the loop collects exactly the consecutive blocks' payloads in order and stops at the first undecodable rest |
| CertInfo.ChainOfEncodings | business/certinfo.go:60-68 | after encoded blocks followed by bytes holding no block, the loop yields the blocks' payloads in order |
| CertInfo.DecodeConcatenation | business/certinfo.go:53-71 | a file of encoded blocks followed by junk decodes to exactly the blocks' payloads, in file order |
| CertInfo.DecodeCert | business/certinfo.go:73-79 | no certificate exactly when parsing fails, and an error exactly then |
| CertInfo.LoadCertFromFile | business/certinfo.go:30-50 | a read error is returned. Otherwise the result is the certificate of the first block that parses, no earlier block parses, and ErrNotACertificate means no block parses |
| CertInfo.SelfSigned | business/certinfo.go:150-162 | true exactly when subject and issuer agree on common name and serial-number attribute |
| CertInfo.SelfSignedIgnoresOtherAttributes | business/certinfo.go:150-162 | only those two attributes decide, and a certificate whose issuer is its subject is self-signed |
| CertName.FullRound | business/certname.go:24-30 | a full round sets Country, Organization, Organizational Unit and Street Address to the first four answers and Locality to the Postal Code answer. Province and Postal Code are untouched |
| CertName.RoundStep | business/certname.go:24-30 | each answered prompt writes its answer to its target attribute |
| CertName.Fill | business/certname.go:24-30 | the answers of one round written to their prompts' attributes in order; the reference definition checked by FullRound and RoundStep |
| CertName.Prompt | business/certname.go:21-54 | the confirm-or-repeat loop as a recursive function over the remaining lines; the reference definition checked by PromptOutcome and PromptSuccess |
| CertName.PromptOutcome | business/certname.go:21-54 | the loop succeeds exactly when some round's confirmation is "y" (any case); otherwise the error is ErrUserCancelled |
| CertName.PromptSuccess | business/certname.go:16-57 | on success the name holds the answers of the first confirmed round |
| CertName.ValOrEmpty | business/certname.go:59-64 | "" for an empty list, otherwise the first element |
| CertName.ConfirmationSummary | business/certname.go:36-46 | the summary shows the Postal Code answer as Locality and nothing for Province and Postal Code |
| CertName.NameFieldScanner.constructor | business/certname.go:18 | the scanner starts on the whole input with the latch clear |
| CertName.NameFieldScanner.Scan | business/certname.go:47-50 | reads the next line, or reports end of input and leaves the input as it was |
| CertName.NameFieldScanner.ScanField | business/certname.go:71-80 | A set latch reads nothing and changes nothing. A failed read sets the latch and leaves the attribute. A successful read sets it to exactly the one line read |
| CertName.ScanNameFields | business/certname.go:24-30 | seven or more lines: the round is filled from the first seven and they are consumed; fewer: the latch is set and every line went to its prompt |
| CertName.PromptCertNameDetails | business/certname.go:16-57 | the loop's outcome is the prompt function's. It succeeds exactly when a confirmation is "y", else ErrUserCancelled. Province and Postal Code stay empty on success |
| CaCert.LastExpirationWins | business/cacert.go:31-41 | the last expiration option decides the date, whatever follows it |
| CaCert.NoExpirationKeepsStart | business/cacert.go:56-64 | without an expiration option the default date stays |
| CaCert.OptionsCompose | business/cacert.go:62-64 | applying options one after another is applying their concatenation |
| CaCert.SanOptions | business/cacert.go:49-53 | SAN options contribute exactly their names, in order, and nothing else |
| CaCert.IpOptions | business/cacert.go:43-47 | IP options contribute exactly their addresses, in order, and nothing else |
| CaCert.CaCertOpts.constructor | business/cacert.go:56-60 | defaults: the given name, expiry in three months, 4096-bit keys, no SANs or IPs |
| CaCert.CaCertOpts.Apply | business/cacert.go:31-53 | an expiration option overwrites the date, a SAN or IP option appends, and nothing else changes |
| CaCert.CaTemplateFacts | business/cacert.go:66-87 | The template is a CA with valid basic constraints, DigitalSignature and CertSign usage, and [ClientAuth, ServerAuth] extended usage. It expires when the options say and has the given common name. Its serial is the UUID's 16 bytes, and its decimal string is the serial-number attribute. It has no SANs or IPs |
| CaCert.CaTemplate | business/cacert.go:66-87 | the CA certificate template built from the name, options and UUID; the reference definition checked by CaTemplateFacts |
| CaCert.GenerateCaCertAndKeys | business/cacert.go:92-119 | a key-generation error is returned; otherwise both outputs are produced |
| CaCert.CaOutputsReadBack | business/cacert.go:98-118 | The outputs decode as one CERTIFICATE block and one RSA PRIVATE KEY block. The certificate is created with the template as its own parent, or is empty if creation failed. The key block holds the key's PKCS #1 form |
| CaCert.NewCaCert | business/cacert.go:55-90 | a UUID error is returned; otherwise the result is generation from the CA template of the given name, options and UUID, with 4096-bit keys |
| Csr.OptionsCompose | business/csr.go:41-43 | applying options one after another is applying their concatenation |
| Csr.SanOptions | business/csr.go:28-32 | SAN options yield exactly their names, in order, and no IP |
| Csr.IpOptions | business/csr.go:22-26 | IP options yield exactly their addresses, in order, and no SAN |
| Csr.CsrOpts.constructor | business/csr.go:35-38 | defaults: the given name, 4096-bit keys, no SANs or IPs |
| Csr.CsrOpts.Apply | business/csr.go:22-32 | each option appends to its own list and nothing else changes |
| Csr.RequestFor | business/csr.go:51-55 | the subject is the given name with the common name replaced |
| Csr.NewGeneratedCsr | business/csr.go:34-60 | a key error or a request error is returned; otherwise the request signed over the name, SANs and IPs, and the key's PKCS #1 form |
| Format.FileExists | business/format/format.go:127-136 | a stat error other than "does not exist" is returned; otherwise true exactly for a readable existing file |
| Format.ConfirmOnlyOnY | business/format/format.go:114-125 | overwriting is confirmed exactly by a first line "y" or "Y"; end of input declines |
| Format.ConfirmOverwrite | business/format/format.go:114-125 | confirmOverwrite: the first line, lower-cased, is "y"; the reference definition checked by ConfirmOnlyOnY |
| Format.Written | business/format/format.go:40-43 | the written data is always at the start. Truncation leaves exactly the data. Without truncation a longer old content keeps its tail |
| Format.Converted | business/format/format.go:26-112 | With the write mode as a parameter (Overlay is the code as written). Any error before the output is opened changes nothing. A PEM input with no block fails after the output file exists. Success leaves the output file present. No other file changes |
| Format.Convert | business/format/format.go:26-68 | the step-by-step conversion yields exactly the specified file system and error, for either write mode |
| Format.Cert | business/format/format.go:26-68 | the certificate conversion as written, with PEM label CERTIFICATE and the output opened without truncation |
| Format.Key | business/format/format.go:70-112 | the key conversion as written, with PEM label RSA PRIVATE KEY and the output opened without truncation |
| Format.CertTruncating | business/format/format.go:26-68 | the certificate conversion with the output truncated when opened |
| Format.KeyTruncating | business/format/format.go:70-112 | the key conversion with the output truncated when opened |
| Format.OutputAsWritten | business/format/format.go:40-66 | as written, a successful DER or PEM conversion puts its bytes at the start of the output, which keeps its old bytes past them when it was longer; its length is the larger of the two |
| Format.DeclinedOverwrite | business/format/format.go:31-35 | a declined overwrite gives ErrCancelOverwrite with nothing changed, whatever the input path |
| Format.NoPromptWhenAbsent | business/format/format.go:27-35 | when the output does not exist, standard input has no effect |
| Format.DerTargetWritesExactly | business/format/format.go:45-66 | with truncation (the corrected open), a successful DER conversion writes exactly the source bytes (a PEM source's first payload) and nothing else |
| Format.PemTargetReadsBack | business/format/format.go:40-60 | a successful PEM conversion writes a file that decodes as one block with the label and the source bytes. After it comes the old output's tail, which is empty with truncation or when the old output was absent or no longer |
| Format.DerPemDerRoundTrip | business/format/format.go:26-68 | DER to PEM and back puts the original bytes at the start of the final output, and gives exactly them with truncation or when the old output was absent or no longer |
| Format.PemSourceWithoutBlock | business/format/format.go:40-48 | a PEM input with no block fails with the nil-block error, and the output keeps its old bytes or is new and empty |
| Format.LabelOnlyMattersForPem | business/format/format.go:26-112 | Cert and Key have the same effect for any target but PEM |
| Format.OverlayLeavesStaleTail | business/format/format.go:40 | as written, overwriting [1, 2, 3] with the DER [9] leaves [9, 2, 3]; with truncation it leaves [9] |
| FormatCommand.SelectEncodings | app/certcli/format.go:45-56 | the source is PEM exactly when from-pem is given and DER otherwise, from-der or not; likewise the target |
| FormatCommand.DispatchOutcome | app/certcli/format.go:79-102 | status 0 exactly for a successful conversion, or a declined certificate overwrite. Status 2 exactly for the panic on a PEM input without a block. An unknown TYPE exits 1 and changes nothing |
| FormatCommand.TypeDispatch | app/certcli/format.go:79-102 | the TYPE switch as a function to exit status and file system; the reference definition checked by DispatchOutcome and DeclinedOverwriteStatus |
| FormatCommand.DeclinedOverwriteStatus | app/certcli/format.go:84-98 | a declined overwrite exits 0 for a certificate and 1 for a key, changing nothing |
| FormatCommand.DispatchType | app/certcli/format.go:79-102 | the TYPE switch over format.Cert and format.Key as written yields exactly the specified status and file system |
| FormatCommand.CheckAndDispatch | app/certcli/format.go:58-102 | A zero source or target exits 1. Equal formats exit 0 before arguments are counted. Fewer than three arguments exit 1. Otherwise TYPE decides |
| FormatCommand.FormatFileAsWritten | app/certcli/format.go:45-78 | no flags reach a conversion: exit 0 with from-pem and to-pem, else 1, and no file changes |
| FormatCommand.SelectFormats | app/certcli/format.go:45-56 | "not given" is kept apart from DER; the later-visited flag of a pair wins |
| FormatCommand.FormatFile | app/certcli/format.go:45-102 | with the corrected checks a missing side exits 1, equal formats exit 0, different formats with fewer than three arguments exit 1, and DER-to-PEM or PEM-to-DER reaches the TYPE switch |
| FormatCommand.DerToPemReachable | app/certcli/format.go:79-92 | when OUT does not exist, the arguments "--from-der --to-pem cert IN OUT" write OUT as exactly one CERTIFICATE block holding IN and exit 0 |
| SignCommand.CertTypeChoice | app/certcli/sign.go:58-66 | is-ca gives CA, is-client gives client, neither gives server; every selectable type is known |
| SignCommand.CertTypeFor | app/certcli/sign.go:58-66 | the switch choosing the certificate type from is-ca and is-client; the reference definition checked by CertTypeChoice |
| SignCommand.SignFile | app/certcli/sign.go:46-86 | Fewer than three arguments, or both is-ca and is-client, exit 1. A failure changes nothing. Success writes a certificate SignCsr may issue, to cert-out or to common name + ".cer" |
| CsrCommand.AcceptedExactly | app/certcli/csr.go:58-66 | accepted exactly for a client with no SAN or IP, or a non-client with at least one |
| CsrCommand.Accepted | app/certcli/csr.go:58-66 | the SAN, IP and client checks as a predicate; the reference definition checked by AcceptedExactly |
| CsrCommand.OptionListContents | app/certcli/csr.go:68-75 | the options carry exactly the command line's SANs and IPs, in order |
| CsrCommand.CsrOptionList | app/certcli/csr.go:68-75 | one SAN option per SAN, then one IP option per IP; the reference definition checked by OptionListContents |
| CsrCommand.CsrOptions | app/certcli/csr.go:68-75 | the loops build the SAN options, then the IP options |
| CsrCommand.CreateCsr | app/certcli/csr.go:46-90 | Exit 1, changing nothing, exactly for a missing name, rejected flags or a cancelled prompt. On success only the two output paths (default common name + ".csr"/".key") change. They hold the request and key when generation and writes succeed |
| CaCertCommand.NormalisedFacts | app/certcli/cacert.go:59 | the normalised common name holds no space and no upper-case ASCII letter |
| CaCertCommand.NormaliseCommonName | app/certcli/cacert.go:59 | lower-case, trim, remove spaces, in that order; the reference definition checked by NormalisedFacts and BlankNameAccepted |
| CaCertCommand.BlankNameAccepted | app/certcli/cacert.go:55-59 | the emptiness check sees the raw argument: " " passes and normalises to "" |
| CaCertCommand.OptionListEffect | app/certcli/cacert.go:67-81 | Expiry is months if positive, else days if positive, else three months. The SANs and IPs are the command line's, in order |
| CaCertCommand.ExpirationOption | app/certcli/cacert.go:69-74 | months if positive, else days if positive, else no option; the reference definition checked by OptionListEffect |
| CaCertCommand.CaOptionList | app/certcli/cacert.go:67-81 | the expiration option, then the SANs, then the IPs; the reference definition checked by OptionListEffect |
| CaCertCommand.CaCertOptions | app/certcli/cacert.go:67-81 | the switch and loops build the expiration option, then SANs, then IPs |
| CaCertCommand.CreateCaCert | app/certcli/cacert.go:49-103 | A missing or empty name, a cancelled prompt, or a UUID or key failure exits 1 with nothing written. Success writes the PEM certificate and key of the CA template to the chosen or default paths. Success is guaranteed when every input is there and both paths are writable |

## Left out

- Cryptography is not modelled. RSA key generation, certificate and request creation, parsing, signature checks and PKCS #1 marshalling are caller-supplied function values with no properties.
- PEM and DER encoding are not modelled. PEM framing (RFC 7468) and DER (ITU-T X.690) are opaque. Only two properties of pem.Decode and pem.Encode are assumed where stated: decoding consumes input, and decoding reads back what encoding wrote.
- Time is symbolic. `time.Now` and calendar arithmetic are offsets, and NotBefore is not represented.
- Randomness and serials are inputs. `uuid.NewRandom` and the serial generator are given as results. `MarshalBinary` of a UUID cannot fail and has no error path.
- Printing is left out. The `printCert`/`text/template` rendering, `ShowCertDetails` and every prompt or message printed are output only.
- Flag parsing is left out. pflag parsing errors, IP parsing and usage text are not modelled: flags arrive as parsed values, and `os.Exit` becomes a returned status.
- The `main` dispatch and the `cert-info` command are not part of this model. The command's code passes file bytes where `ShowCertDetails` takes a path.
- Go's nil-pointer panic on a PEM input without a block is modelled as the error `NilPemBlock`, which the `format` handler turns into exit status 2, as the Go runtime does. The stack trace is not modelled.
- Error wrapping text (`fmt.Errorf` messages) is not modelled; errors are values that name their cause.
- Base.FileSystem: a path in `unreachable` fails for `os.Stat` and for reading alike. A file that `os.Stat` sees but `ioutil.ReadFile` cannot read is not expressible, so Format.FileExists states "true exactly for a readable existing file" of this model only.
- X509.ReadsBack: assumes pem.Decode reads back every block pem.Encode writes, whatever its type. Go's decoder cannot read back a type containing a line break or "-----". The program itself writes only the labels CERTIFICATE and RSA PRIVATE KEY; CertInfo.ChainOfEncodings and CertInfo.DecodeConcatenation rely on the assumption for any block.
- The `bufio.Scanner` line-length limit, file permissions (0600) and read-ahead between separate scanners on standard input are not modelled.
- The `expirationDate` and `isCA` fields of `csrOpts` are never set or read and are not represented.
- `CaSubjectAlternativeName` and `CaIpAddress` are not defined in the package; they are modelled as its commented-out appenders.
- Text.ToLower: lower-cases ASCII letters only; strings.ToLower also folds non-ASCII letters.
- Sign.SignCsr: says only that a failure of CreateCertificate, of re-parsing or of CheckSignatureFrom gives no certificate, not which error value is returned.
- CsrCommand.CreateCsr: states the written contents only when key generation, request creation and both writes succeed. The source ignores a generation error and writes empty outputs, which the model does but no contract states.
- CaCertCommand.CreateCaCert: does not describe the file system when the certificate write succeeds and the key write then fails (the certificate stays written).
- CaCert.GenerateCaCertAndKeys: an error from CreateCertificate is overwritten in the source. Only CaCert.CaOutputsReadBack states the result (an empty CERTIFICATE block).
- SignCommand.SignFile: does not state the converse (that a successful signing and a writable path give status 0).

## Findings

| source | as written | input that shows it | evidently intended | confidence | as-written member | corrected member |
|---|---|---|---|---|---|---|
| app/certcli/format.go:58-68 | the missing-format checks test `== 0`, and `EncodingDer` is 0, so a DER flag looks like no flag | `formatFile("format", ["--from-der", "--to-pem", "cert", "a.der", "a.pem"])` exits 1 with "Must specify a source format" | a DER flag on either side reaches format.Cert or format.Key | high; not executed | FormatCommand.FormatFileAsWritten | FormatCommand.FormatFile |
| business/format/format.go:40 | the output is opened with `O_CREATE\|O_WRONLY` and no `O_TRUNC` | overwriting the existing `out.der` = [1, 2, 3] with the DER input [9] (answer "y") leaves [9, 2, 3] | the output holds exactly the converted bytes, [9] | high; not executed | Format.OverlayLeavesStaleTail | Format.DerTargetWritesExactly |
