/** Generating a key pair and a certificate signing request for it (business/csr.go). */
module Csr {
  import opened Base
  import opened X509

  const CsrKeyBits := 4096

  /** A CsrOpt closure: each appends one entry to its list. */
  datatype CsrOpt = AddIP(ip: IP) | AddSan(san: string)

  /** The SAN arguments of `opts`, in order. */
  function SansIn(opts: seq<CsrOpt>): seq<string>
    decreases |opts|
  {
    if opts == [] then []
    else
      var last := opts[|opts| - 1];
      SansIn(opts[..|opts| - 1]) + (if last.AddSan? then [last.san] else [])
  }

  /** The IP arguments of `opts`, in order. */
  function IpsIn(opts: seq<CsrOpt>): seq<IP>
    decreases |opts|
  {
    if opts == [] then []
    else
      var last := opts[|opts| - 1];
      IpsIn(opts[..|opts| - 1]) + (if last.AddIP? then [last.ip] else [])
  }

  /** Applying `a` and then `b` is applying `a + b`. */
  lemma {:induction false} OptionsCompose(a: seq<CsrOpt>, b: seq<CsrOpt>)
    ensures SansIn(a + b) == SansIn(a) + SansIn(b)
    ensures IpsIn(a + b) == IpsIn(a) + IpsIn(b)
    decreases |b|
  {
    if b == [] {
      assert a + b == a;
    } else {
      var b' := b[..|b| - 1];
      assert (a + b)[..|a + b| - 1] == a + b';
      OptionsCompose(a, b');
    }
  }

  /** A list of SAN options yields exactly their arguments and no IP. */
  lemma {:induction false} SanOptions(sans: seq<string>)
    ensures SansIn(seq(|sans|, i requires 0 <= i < |sans| => AddSan(sans[i]))) == sans
    ensures IpsIn(seq(|sans|, i requires 0 <= i < |sans| => AddSan(sans[i]))) == []
    decreases |sans|
  {
    if sans != [] {
      var init := sans[..|sans| - 1];
      SanOptions(init);
      var opts := seq(|sans|, i requires 0 <= i < |sans| => AddSan(sans[i]));
      assert opts[..|opts| - 1] == seq(|init|, i requires 0 <= i < |init| => AddSan(init[i]));
      assert sans == init + [sans[|sans| - 1]];
    }
  }

  /** A list of IP options yields exactly their arguments and no SAN. */
  lemma {:induction false} IpOptions(ips: seq<IP>)
    ensures IpsIn(seq(|ips|, i requires 0 <= i < |ips| => AddIP(ips[i]))) == ips
    ensures SansIn(seq(|ips|, i requires 0 <= i < |ips| => AddIP(ips[i]))) == []
    decreases |ips|
  {
    if ips != [] {
      var init := ips[..|ips| - 1];
      IpOptions(init);
      var opts := seq(|ips|, i requires 0 <= i < |ips| => AddIP(ips[i]));
      assert opts[..|opts| - 1] == seq(|init|, i requires 0 <= i < |init| => AddIP(init[i]));
      assert ips == init + [ips[|ips| - 1]];
    }
  }

  /** csrOpts. The struct's expirationDate and isCA fields are never set or read and
      are not represented. */
  class CsrOpts {
    var name: Name
    var ipAddresses: seq<IP>
    var sans: seq<string>
    var keyBits: int

    /** The literal of lines 35-38. */
    constructor (name: Name)
      ensures this.name == name && ipAddresses == [] && sans == [] && keyBits == CsrKeyBits
    {
      this.name := name;
      ipAddresses := [];
      sans := [];
      keyBits := CsrKeyBits;
    }

    /** Calls the option closure on this record. */
    method Apply(opt: CsrOpt)
      modifies this
      ensures sans == old(sans) + SansIn([opt])
      ensures ipAddresses == old(ipAddresses) + IpsIn([opt])
      ensures name == old(name) && keyBits == old(keyBits)
    {
      match opt
      case AddIP(ip) =>
        ipAddresses := ipAddresses + [ip];
      case AddSan(san) =>
        sans := sans + [san];
    }
  }

  /** The request template NewGeneratedCsr signs. */
  function RequestFor(commonName: string, name: Name, opts: seq<CsrOpt>): (t: RequestTemplate)
    ensures t.subject.commonName == commonName && t.subject.(commonName := name.commonName) == name
  {
    RequestTemplate(name.(commonName := commonName), SansIn(opts), IpsIn(opts))
  }

  /** NewGeneratedCsr: the DER request and the PKCS #1 private key, or the first error. */
  method NewGeneratedCsr(commonName: string, name: Name, opts: seq<CsrOpt>, crypto: Crypto)
    returns (r: Result<(Bytes, Bytes), Error>)
    ensures crypto.generateKey(CsrKeyBits).Failure? ==>
      r == Failure(Library(crypto.generateKey(CsrKeyBits).error))
    ensures crypto.generateKey(CsrKeyBits).Success? ==>
      var priv := crypto.generateKey(CsrKeyBits).value;
      match crypto.createCertificateRequest(RequestFor(commonName, name, opts), priv)
      case Failure(reason) => r == Failure(Library(reason))
      case Success(csr) => r == Success((csr, priv.pkcs1))
  {
    var csrOpts := new CsrOpts(name);
    csrOpts.name := csrOpts.name.(commonName := commonName);
    for i := 0 to |opts|
      invariant csrOpts.name == name.(commonName := commonName) && csrOpts.keyBits == CsrKeyBits
      invariant csrOpts.sans == SansIn(opts[..i]) && csrOpts.ipAddresses == IpsIn(opts[..i])
    {
      OptionsCompose(opts[..i], [opts[i]]);
      assert opts[..i + 1] == opts[..i] + [opts[i]];
      csrOpts.Apply(opts[i]);
    }
    assert opts[..|opts|] == opts;

    var rsaPriv := crypto.generateKey(csrOpts.keyBits);
    if rsaPriv.Failure? {
      return Failure(Library(rsaPriv.error));
    }
    var priv := rsaPriv.value.pkcs1;
    var csr := crypto.createCertificateRequest(
      RequestTemplate(csrOpts.name, csrOpts.sans, csrOpts.ipAddresses), rsaPriv.value);
    if csr.Failure? {
      return Failure(Library(csr.error));
    }
    return Success((csr.value, priv));
  }
}
