/**
  The TLS session policy built once at start-up by `create_server_config`:
  certificate selection by SNI, resumption tickets, the capacities of the
  session cache and of the certificate-compression cache, the key-log sink,
  the early-data ceiling and the ALPN preference list.  The caches, the
  ticket keys and the key log live in the TLS library; here each is the
  setting the configuration records.
 */
module ServerPolicy {
  import opened TlsTypes

  /** A cache bounded by an explicit capacity, or the library's own default. */
  datatype CacheSetting = LibraryDefault | Capacity(entries: nat)

  datatype Ticketer = NeverProducesTickets | FreshTicketKeys

  /** `KeyLogFile` writes session secrets to the file named by SSLKEYLOGFILE, when that variable is set. */
  datatype KeyLog = NoKeyLog | KeyLogFileFromEnv

  datatype CertResolver = NoResolver | SniResolver

  datatype ServerConfig = ServerConfig(
    clientAuth: bool,
    certResolver: CertResolver,
    ticketer: Ticketer,
    sessionStorage: CacheSetting,
    certCompressionCache: CacheSetting,
    keyLog: KeyLog,
    maxEarlyDataSize: nat,
    alpnProtocols: seq<seq<byte>>)

  /** The ASCII bytes of "h2". */
  const H2: seq<byte> := [0x68, 0x32]
  /** The ASCII bytes of "http/1.1". */
  const Http11: seq<byte> := [0x68, 0x74, 0x74, 0x70, 0x2f, 0x31, 0x2e, 0x31]

  /**
    What `ServerConfig::builder().with_no_client_auth().with_cert_resolver(r)`
    yields: no client authentication, the given resolver, no tickets, no key
    log, no early data, no ALPN, and the library's default caches.
   */
  function Builder(resolver: CertResolver): (cfg: ServerConfig)
    ensures !cfg.clientAuth && cfg.certResolver == resolver
    ensures cfg.maxEarlyDataSize == 0 && cfg.alpnProtocols == []
    ensures cfg.ticketer == NeverProducesTickets && cfg.keyLog == NoKeyLog
    ensures cfg.sessionStorage == LibraryDefault && cfg.certCompressionCache == LibraryDefault
  {
    ServerConfig(false, resolver, NeverProducesTickets, LibraryDefault, LibraryDefault, NoKeyLog, 0, [])
  }

  /** `create_server_config`: the builder's output with each policy field set in turn. */
  method CreateServerConfig() returns (cfg: ServerConfig)
    ensures !cfg.clientAuth && cfg.certResolver == SniResolver
    ensures cfg.ticketer == FreshTicketKeys
    ensures cfg.sessionStorage == Capacity(10024)
    ensures cfg.certCompressionCache == Capacity(2038)
    ensures cfg.keyLog == KeyLogFileFromEnv
    ensures cfg.maxEarlyDataSize == 2048
    ensures cfg.alpnProtocols == [H2, Http11]
  {
    cfg := Builder(SniResolver);
    cfg := cfg.(ticketer := FreshTicketKeys);
    cfg := cfg.(sessionStorage := Capacity(10024));
    cfg := cfg.(certCompressionCache := Capacity(2038));
    cfg := cfg.(keyLog := KeyLogFileFromEnv);
    cfg := cfg.(maxEarlyDataSize := 2048);
    cfg := cfg.(alpnProtocols := [H2, Http11]);
  }

  /** The first of the server's protocols, in the server's order, that the client offered. */
  function FirstShared(ours: seq<seq<byte>>, theirs: seq<seq<byte>>): (r: Option<nat>)
    ensures r.Some? ==> r.value < |ours| && ours[r.value] in theirs
    ensures r.Some? ==> forall j :: 0 <= j < r.value ==> ours[j] !in theirs
    ensures r.None? ==> forall j :: 0 <= j < |ours| ==> ours[j] !in theirs
  {
    if ours == [] then None
    else if ours[0] in theirs then Some(0)
    else match FirstShared(ours[1..], theirs)
      case Some(k) => Some(k + 1)
      case None => None
  }

  /** How ALPN ends: no protocol, a selected protocol, or a no_application_protocol alert. */
  datatype AlpnOutcome = NoProtocol | Selected(protocol: seq<byte>) | NoApplicationProtocol

  /**
    ALPN selection as the server side of section 3.2 of RFC 7301 does it with
    the configured list: a client that sends no ALPN extension gets no
    protocol; otherwise the server's most preferred protocol that the client
    offered is selected, and with no overlap the handshake is refused.
   */
  function NegotiateAlpn(cfg: ServerConfig, offered: Option<seq<seq<byte>>>): (r: AlpnOutcome)
    ensures offered == None ==> r == NoProtocol
    ensures r.Selected? ==>
              && offered.Some? && r.protocol in offered.value
              && exists k :: 0 <= k < |cfg.alpnProtocols| && cfg.alpnProtocols[k] == r.protocol
                             && forall j :: 0 <= j < k ==> cfg.alpnProtocols[j] !in offered.value
    ensures r == NoProtocol <==> offered == None || cfg.alpnProtocols == []
    ensures r == NoApplicationProtocol <==>
              && offered.Some? && cfg.alpnProtocols != []
              && forall j :: 0 <= j < |cfg.alpnProtocols| ==> cfg.alpnProtocols[j] !in offered.value
  {
    match offered
    case None => NoProtocol
    case Some(theirs) =>
      match FirstShared(cfg.alpnProtocols, theirs)
      case Some(k) => Selected(cfg.alpnProtocols[k])
      case None => if cfg.alpnProtocols == [] then NoProtocol else NoApplicationProtocol
  }

  /**
    With the configured preference list a client offering HTTP/2 gets HTTP/2,
    whatever its own order; one offering HTTP/1.1 only gets HTTP/1.1; and one
    offering neither is refused.
   */
  lemma ConfiguredAlpnPrefersH2(cfg: ServerConfig, theirs: seq<seq<byte>>)
    requires cfg.alpnProtocols == [H2, Http11]
    ensures H2 in theirs ==> NegotiateAlpn(cfg, Some(theirs)) == Selected(H2)
    ensures H2 !in theirs && Http11 in theirs ==> NegotiateAlpn(cfg, Some(theirs)) == Selected(Http11)
    ensures H2 !in theirs && Http11 !in theirs ==> NegotiateAlpn(cfg, Some(theirs)) == NoApplicationProtocol
  {
    var r := FirstShared(cfg.alpnProtocols, theirs);
    if H2 in theirs {
      assert r == Some(0);
    } else if Http11 in theirs {
      assert cfg.alpnProtocols[0] !in theirs && cfg.alpnProtocols[1] in theirs;
      assert r == Some(1);
    } else {
      assert cfg.alpnProtocols[0] !in theirs && cfg.alpnProtocols[1] !in theirs;
    }
  }
}
