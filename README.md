# SNI certificate selection, modelled in Dafny

This project models the certificate-selection core of a small Rust HTTPS server. The server offers TLS for several hostnames on one socket and uses the Server Name Indication extension (section 3 of RFC 6066) to pick each client's certificate.

The core lives in `src/sni.rs` and has four parts:

- **Certificate store.** `CERT_DB` is a process-wide map from hostname to `TlsCollection`, kept behind a mutex. Here it is the class `CertStore.CertDb`. It holds a `map` field, `entries`, and a `poisoned` flag that stands for the mutex.
- **SNI resolver.** `ResolveServerCert::resolve` becomes `CertDb.Resolve`. It returns the identity stored under exactly the server name the client sent. It returns nothing when the client sent no name, when no entry has that name, or when the lock is poisoned.
- **Loader.** `get_cert_key` becomes `Loader.GetCertKey`. Its paths are `/etc/letsencrypt/live/<domain>/fullchain.pem` and `.../privkey.pem`. It builds a `CertifiedKey` when both paths are regular files and a private key is found. The result holds the chain in file order and no OCSP response. The filesystem and the PEM/key parsers are oracles in an `Env` value. Each `unwrap` on them becomes an explicit `Panic` result.
- **Population.** `init_cert_in_memory` becomes the loop method `CertDb.InitCertInMemory`. It is proved against the fold `CertStore.Apply`: in list order, each loaded domain is inserted or overwritten, and nothing is ever evicted. The run stops at the first panic. The lemmas about `Apply` state these properties:
  - which keys the store gains;
  - that other entries are untouched;
  - that the last loaded occurrence wins;
  - that a repeated run is idempotent;
  - what the resolver returns after a run.

`create_server_config` becomes `ServerPolicy.CreateServerConfig`. It records the fixed policy:
- session cache of 10024 entries;
- compression cache of 2038 entries;
- early-data ceiling of 2048 bytes;
- ALPN list `h2`, then `http/1.1`;
- fresh ticket keys;
- a `KeyLogFile` sink.

A small model of server-side ALPN selection gives the list order its meaning. It follows section 3.2 of RFC 7301 as the TLS library applies it.

Files: `tls_types.dfy`, `loader.dfy`, `cert_store.dfy`, `server_policy.dfy`.

## Model

| member | source | states |
|---|---|---|
| Loader.GetCertKey | src/sni.rs:40-70 | the result is `Absent` unless both paths are regular files; a loaded identity comes from two files that opened and carries exactly the parsed chain, a signer built from the scanned private key of a supported algorithm, and `ocsp == None`; with both files present, `Absent` holds exactly when the files open, the chain parses and the key file holds no private key; each unwrap failure panics with its own fault (certificate open, key open, chain parse, key parse, unsupported algorithm) in the source's order |
| Loader.LoadsWellFormedFiles | src/sni.rs:49-66 | two openable regular files whose chain parses and whose key is found and supported always yield `Loaded` with that chain, that key and no OCSP |
| Loader.PathsInjective | src/sni.rs:43-44 | two domains with the same certificate path (or the same key path) are the same domain |
| Loader.CertPathIsNeverKeyPath | src/sni.rs:43-44 | no domain's certificate path is any domain's key path |
| Loader.PathsShareDomainDirectory | src/sni.rs:43-44 | both paths start with `/etc/letsencrypt/live/<domain>/` |
| CertStore.FirstFault | src/sni.rs:89-98 | the index of the first domain whose processing panics (loader unwrap, or the lock unwrap of a loaded domain on a poisoned lock): every earlier one is fault-free, and the one at that index faults |
| CertStore.CertDb.constructor | src/sni.rs:10-11 | the store starts empty and unpoisoned |
| CertStore.CertDb.Resolve | src/sni.rs:17-33 | no server name gives nothing; a poisoned lock gives nothing; a result is the identity stored under exactly the sent name; an unpoisoned store holding the name always yields it |
| CertStore.CertDb.InitCertInMemory | src/sni.rs:88-101 | the new store is `Apply` of the old one over the listed domains before the first fault; it returns `Ok(())` exactly when no domain faults, and otherwise panics naming the faulting domain and fault; the lock state does not change |
| CertStore.ApplyKeys | src/sni.rs:89-98 | the keys after population are the old keys plus exactly the domains whose loader returned a key (no eviction, no entry for absent domains) |
| CertStore.ApplyUntouched | src/sni.rs:89-98 | a domain that no loader result in the list loaded keeps its old entry, or stays absent |
| CertStore.ApplyLastWins | src/sni.rs:92-97 | a domain's entry is the key from its last occurrence in the list that loaded |
| CertStore.LastLoaded | src/sni.rs:89-98 | the last position where a domain occurs with a loaded result, with no later loaded occurrence; none when no occurrence loaded |
| CertStore.ApplyAt | src/sni.rs:89-98 | for any loader results, every domain's entry after population is the key of its last loaded occurrence, or else its old entry (or absence) |
| CertStore.ApplyIdempotent | src/sni.rs:89-98 | populating twice with the same loader results, whatever they are, gives the same store as populating once |
| CertStore.RepeatedInitIdempotent | src/sni.rs:88-101 | re-running population over the same list with the same files leaves the store unchanged |
| CertStore.ResolveAfterInit | src/sni.rs:22-27 | after a run that returned `Ok(())`, resolving a name gives its loaded identity if it was listed and loaded, else the entry it had before, else nothing |
| CertStore.TwoDomainScenario | src/sni.rs:21-31 | with entries for `a.example` and `b.example`, each resolves to its own identity; `c.example`, `A.example` and no server name resolve to nothing |
| ServerPolicy.Builder | src/sni.rs:73-75 | the builder yields no client authentication, the SNI resolver, no tickets, no key log, the library's default caches, no early data and no ALPN |
| ServerPolicy.CreateServerConfig | src/sni.rs:72-84 | the policy has fresh ticket keys, session cache 10024, compression cache 2038, the key-log file sink, early-data ceiling 2048 and ALPN exactly `[h2, http/1.1]` |
| ServerPolicy.FirstShared | src/sni.rs:82 | the index of the first server protocol the client offered, with none earlier offered; none at all when there is no overlap |
| ServerPolicy.NegotiateAlpn | src/sni.rs:82 | no protocol exactly when the client sent no ALPN extension or the server lists none; a selected protocol was offered by the client and no more preferred server protocol was; refusal happens exactly when the server has protocols and none was offered (so any overlap selects) |
| ServerPolicy.ConfiguredAlpnPrefersH2 | src/sni.rs:82 | with the configured list, a client offering `h2` gets `h2` whatever its order, one offering only `http/1.1` gets `http/1.1`, and one offering neither is refused |

## Left out

- `src/main.rs` is not part of this model. It covers logging setup, the TCP accept loop, spawning a task per connection, the `tokio_rustls` handshake, HTTP/2 serving and the constant handler. All of that is I/O plumbing.
- The mutex, `Lazy` initialisation and `async`/`await` are not modelled. The store is one sequentially accessed object, and `poisoned` stands for a poisoned mutex. Concurrent handshakes during population are therefore not modelled.
- Nothing in the source poisons the lock. The flag is modelled for the two places that read the lock: `resolve`, which returns nothing, and `init_cert_in_memory`, which panics on `unwrap`.
- Real file access and parsing are not modelled. That covers `Path::exists`/`is_file`, `File::open`, `rustls_pemfile::certs`/`private_key` and `any_supported_type`. They are the oracle fields of `Loader.Env`, and the filesystem map is the view after symbolic links are followed.
- CertStore.CertDb.InitCertInMemory: the filesystem is one `Env` for the whole run, so changes between the awaited loader calls are not modelled. The last-occurrence lemma `ApplyLastWins` is stated for arbitrary per-call results.
- Ticket-key generation is not modelled because it uses cryptographic randomness. The possible panic of `Ticketer::new().unwrap()` is not modelled either.
- The behaviour of `KeyLogFile` is not modelled. It writes secrets only when SSLKEYLOGFILE is set; here the sink is recorded as a setting.
- The eviction policies of the session cache and the compression cache belong to the TLS library, as do the library's default capacities (`LibraryDefault`). Only the configured capacities are recorded.
- The internals of `CertifiedKey` and signing are not modelled. The identity is a value, and `Arc` sharing is not modelled.
- Any normalisation the TLS library applies to the SNI name before calling the resolver is not modelled. The resolver is modelled as an exact, case-sensitive map lookup on the string it receives.
- The early-data ceiling is recorded but not enforced. Enforcing it happens inside the TLS library.
- In four places the model follows the code rather than the system's stated design intent:
  - A malformed certificate or key file panics through `unwrap`. It is not logged and skipped.
  - Population returns `Ok(())` and no count.
  - There is no separate reload operation. Re-running population is the reload; see `ApplyUntouched` and `ApplyIdempotent`.
  - The key-log file sink is installed unconditionally.
