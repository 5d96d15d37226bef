/**
  Values shared by the loader, the certificate store and the server policy:
  bytes, DER blobs, the private key as found in a PEM file, and the signing
  identity (`CertifiedKey`) that the TLS library presents during a handshake.
  The library's own key types are opaque here; what matters to the model is
  which bytes an identity was built from.
 */
module TlsTypes {

  datatype Option<T> = None | Some(value: T)

  type byte = b: int | 0 <= b < 256

  /** One DER-encoded certificate. */
  type Der = seq<byte>

  /** A private key as found in a PEM file (the DER bytes inside it). */
  datatype PrivateKeyDer = PrivateKeyDer(der: seq<byte>)

  /** The signer the library builds from a private key of a supported algorithm. */
  datatype SigningKey = SigningKey(source: PrivateKeyDer)

  /**
    A signing identity: the certificate chain (leaf first, in file order),
    the signer, and optional stapled OCSP response bytes.
   */
  datatype CertifiedKey = CertifiedKey(cert: seq<Der>, key: SigningKey, ocsp: Option<seq<byte>>)
}
