/**
  The certificate loader: for one domain it looks for the Let's Encrypt
  certificate chain and private key at fixed paths derived from the domain
  name and, if both are regular files and a private key is found, builds a
  signing identity from them.

  The filesystem and the PEM and key parsers are not part of this model; they
  are given to the loader as an `Env` value whose fields are oracles.  Every
  `unwrap()` of the source on those calls becomes an explicit `Panic` result.
 */
module Loader {
  import opened TlsTypes

  /** What a path names, after following symbolic links. */
  datatype FsEntry =
    | Regular(openable: bool, content: seq<byte>)  // a regular file; `openable` is whether opening it succeeds
    | Directory
    | Special                                       // socket, device, fifo, ...

  /** Outcome of scanning a PEM file for its first private key. */
  datatype KeyScan = ScanError | NoKey | Found(key: PrivateKeyDer)

  /**
    The world the loader observes: the filesystem, the certificate-chain
    parser (None when the PEM file holds a malformed certificate), the
    private-key scanner, and whether the library supports a key's algorithm.
   */
  datatype Env = Env(
    fs: map<string, FsEntry>,
    parseCerts: seq<byte> -> Option<seq<Der>>,
    scanPrivateKey: seq<byte> -> KeyScan,
    supported: PrivateKeyDer -> bool)

  /** Why the loader panicked (each one is an `unwrap` on an error). */
  datatype Fault =
    | CertFileOpen
    | KeyFileOpen
    | CertsParse
    | KeyParse
    | UnsupportedKey
    | LockPoisoned

  datatype LoadResult = Loaded(key: CertifiedKey) | Absent | Panic(fault: Fault)

  const LivePrefix: string := "/etc/letsencrypt/live/"
  const ChainFile: string := "/fullchain.pem"
  const KeyFile: string := "/privkey.pem"

  function CertPath(domain: string): string {
    LivePrefix + domain + ChainFile
  }

  function KeyPath(domain: string): string {
    LivePrefix + domain + KeyFile
  }

  /** `Path::exists`: the path resolves to something. */
  predicate Exists(fs: map<string, FsEntry>, path: string) {
    path in fs
  }

  /** `Path::is_file`: the path resolves to a regular file. */
  predicate IsFile(fs: map<string, FsEntry>, path: string) {
    path in fs && fs[path].Regular?
  }

  /**
    `get_cert_key`: the identity for `domain`, `Absent` when either file is
    missing or not a regular file or the key file holds no private key, and
    `Panic` where the source unwraps an error.
   */
  function GetCertKey(domain: string, env: Env): (r: LoadResult)
    ensures !IsFile(env.fs, CertPath(domain)) || !IsFile(env.fs, KeyPath(domain)) ==> r == Absent
    ensures r.Loaded? ==>
              && IsFile(env.fs, CertPath(domain)) && IsFile(env.fs, KeyPath(domain))
              && env.fs[CertPath(domain)].openable && env.fs[KeyPath(domain)].openable
              && env.parseCerts(env.fs[CertPath(domain)].content) == Some(r.key.cert)
              && env.scanPrivateKey(env.fs[KeyPath(domain)].content) == Found(r.key.key.source)
              && env.supported(r.key.key.source)
              && r.key.ocsp == None
    ensures IsFile(env.fs, CertPath(domain)) && IsFile(env.fs, KeyPath(domain)) ==>
              (r == Absent <==>
                 && env.fs[CertPath(domain)].openable && env.fs[KeyPath(domain)].openable
                 && env.parseCerts(env.fs[CertPath(domain)].content).Some?
                 && env.scanPrivateKey(env.fs[KeyPath(domain)].content) == NoKey)
    // The panics, in the order the source reaches its unwraps.
    ensures IsFile(env.fs, CertPath(domain)) && IsFile(env.fs, KeyPath(domain)) ==>
              var cert, key := env.fs[CertPath(domain)], env.fs[KeyPath(domain)];
              && (!cert.openable ==> r == Panic(CertFileOpen))
              && (cert.openable && !key.openable ==> r == Panic(KeyFileOpen))
              && (cert.openable && key.openable && env.parseCerts(cert.content) == None ==> r == Panic(CertsParse))
              && ((cert.openable && key.openable && env.parseCerts(cert.content).Some?
                   && env.scanPrivateKey(key.content) == ScanError) ==> r == Panic(KeyParse))
              && ((cert.openable && key.openable && env.parseCerts(cert.content).Some?
                   && env.scanPrivateKey(key.content).Found? && !env.supported(env.scanPrivateKey(key.content).key))
                  ==> r == Panic(UnsupportedKey))
  {
    var certFile := CertPath(domain);
    var keyFile := KeyPath(domain);
    if Exists(env.fs, certFile) && IsFile(env.fs, certFile) && Exists(env.fs, keyFile) && IsFile(env.fs, keyFile) then
      if !env.fs[certFile].openable then Panic(CertFileOpen)
      else if !env.fs[keyFile].openable then Panic(KeyFileOpen)
      else match env.parseCerts(env.fs[certFile].content)
        case None => Panic(CertsParse)
        case Some(certs) =>
          match env.scanPrivateKey(env.fs[keyFile].content)
          case ScanError => Panic(KeyParse)
          case NoKey => Absent
          case Found(pk) =>
            if env.supported(pk) then Loaded(CertifiedKey(certs, SigningKey(pk), None))
            else Panic(UnsupportedKey)
    else
      Absent
  }

  /** The loader is total on well-formed files: when both files are present,
      openable and parse, it yields exactly the parsed chain and key. */
  lemma LoadsWellFormedFiles(domain: string, env: Env, chain: seq<Der>, pk: PrivateKeyDer)
    requires IsFile(env.fs, CertPath(domain)) && IsFile(env.fs, KeyPath(domain))
    requires env.fs[CertPath(domain)].openable && env.fs[KeyPath(domain)].openable
    requires env.parseCerts(env.fs[CertPath(domain)].content) == Some(chain)
    requires env.scanPrivateKey(env.fs[KeyPath(domain)].content) == Found(pk)
    requires env.supported(pk)
    ensures GetCertKey(domain, env) == Loaded(CertifiedKey(chain, SigningKey(pk), None))
  {
  }

  /** The domain name sits between the fixed prefix and the file name. */
  lemma DomainOfPath(domain: string, file: string)
    ensures var p := LivePrefix + domain + file;
            |p| == |LivePrefix| + |domain| + |file| && p[|LivePrefix|..|LivePrefix| + |domain|] == domain
  {
  }

  /** Distinct domain strings never give the same certificate path or the same key path. */
  lemma PathsInjective(d1: string, d2: string)
    ensures CertPath(d1) == CertPath(d2) ==> d1 == d2
    ensures KeyPath(d1) == KeyPath(d2) ==> d1 == d2
  {
    DomainOfPath(d1, ChainFile);
    DomainOfPath(d2, ChainFile);
    DomainOfPath(d1, KeyFile);
    DomainOfPath(d2, KeyFile);
  }

  /** A certificate path is never a key path, whatever the two domains. */
  lemma CertPathIsNeverKeyPath(d1: string, d2: string)
    ensures CertPath(d1) != KeyPath(d2)
  {
    var c, k := CertPath(d1), KeyPath(d2);
    // The twelfth character from the end is the 'u' of "fullchain" in one and '/' in the other.
    assert c == (LivePrefix + d1) + ChainFile && k == (LivePrefix + d2) + KeyFile;
    assert c[|c| - 12] == ChainFile[|ChainFile| - 12] == 'u';
    assert k[|k| - 12] == KeyFile[0] == '/';
  }

  /** Both files of a domain live in that domain's own directory. */
  lemma PathsShareDomainDirectory(domain: string)
    ensures var dir := LivePrefix + domain + "/";
            CertPath(domain)[..|dir|] == dir && KeyPath(domain)[..|dir|] == dir
  {
  }
}
