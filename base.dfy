/** Bytes, optional values, results, the error values the program reports, and the
    file system the commands read and write. */
module Base {

  newtype byte = x: int | 0 <= x < 256

  type Bytes = seq<byte>

  datatype Option<+T> = None | Some(value: T)

  datatype Result<+T, +E> = Success(value: T) | Failure(error: E)

  /** Every error value the business package and the commands produce. Errors that a
      library returns are carried through as `Library(reason)`. */
  datatype Error =
    | ReadFailed(path: string)            // ioutil.ReadFile failed
    | StatFailed(path: string)            // os.Stat failed for a reason other than "does not exist"
    | OpenFailed(path: string)            // os.OpenFile failed
    | Library(reason: string)             // an error returned by crypto/x509, rsa or uuid, unchanged
    | NotACaCert(path: string)            // "file '%s' is not a CA cert"
    | CsrSignatureInvalid(cause: string)  // "error checking CSR signature: %w"
    | UnknownCertType                     // "unknown certificate type"
    | CaSignatureInvalid(cause: string)   // "unable to verify CA signature: %w"
    | NotACertificate                     // ErrNotACertificate
    | UserCancelled                       // ErrUserCancelled
    | CancelOverwrite                     // ErrCancelOverwrite
    | NilPemBlock                         // nil dereference of a missing PEM block (a panic in Go)

  /** The files the program can see. A path in `unreachable` fails every operation
      (stat, read, open) with an error other than "does not exist"; a path in
      `readOnly` can be stat-ed and read but not opened for writing. */
  datatype FileSystem = FileSystem(files: map<string, Bytes>, unreachable: set<string>, readOnly: set<string>)

  /** ioutil.ReadFile. */
  function ReadFile(fs: FileSystem, path: string): (r: Result<Bytes, Error>)
    ensures r.Success? <==> path in fs.files && path !in fs.unreachable
    ensures r.Success? ==> r.value == fs.files[path]
    ensures r.Failure? ==> r.error == ReadFailed(path)
  {
    if path in fs.files && path !in fs.unreachable then Success(fs.files[path]) else Failure(ReadFailed(path))
  }

  /** ioutil.WriteFile: creates the file or truncates it, then writes `data`; fails on
      a path that cannot be opened for writing. */
  function WriteFile(fs: FileSystem, path: string, data: Bytes): (r: Result<FileSystem, Error>)
    ensures r.Success? <==> path !in fs.unreachable && path !in fs.readOnly
    ensures r.Success? ==> r.value.files == fs.files[path := data]
    ensures r.Success? ==> r.value.unreachable == fs.unreachable && r.value.readOnly == fs.readOnly
    ensures r.Failure? ==> r.error == OpenFailed(path)
  {
    if path in fs.unreachable || path in fs.readOnly then Failure(OpenFailed(path))
    else Success(fs.(files := fs.files[path := data]))
  }
}
