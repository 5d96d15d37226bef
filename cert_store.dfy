/**
  The process-wide certificate store (`CERT_DB`), the SNI resolver that reads
  it during a handshake, and `init_cert_in_memory`, which fills it from a list
  of domains.

  The `Mutex` around the map is a boolean `poisoned` field: locking succeeds
  exactly when it is false.  Locking and lazy initialisation are otherwise
  sequential here.
 */
module CertStore {
  import opened TlsTypes
  import opened Loader

  /** A store entry: the shared handle to one domain's identity. */
  datatype TlsCollection = TlsCollection(certifiedKey: CertifiedKey)

  /** How `init_cert_in_memory` ends: it returns `Ok(())`, or it panics. */
  datatype Completion = ReturnedOk | Panicked(domain: string, fault: Fault)

  /**
    The store after inserting, in list order, the identity of every domain
    whose loader result is `Loaded`; `results[i]` is the result for
    `domains[i]`.  A later insertion for the same domain overwrites an
    earlier one and nothing is ever removed.
   */
  function Apply(db: map<string, TlsCollection>, domains: seq<string>, results: seq<LoadResult>): map<string, TlsCollection>
    requires |domains| == |results|
    decreases |domains|
  {
    if domains == [] then db
    else
      var n := |domains| - 1;
      var m := Apply(db, domains[..n], results[..n]);
      match results[n]
      case Loaded(key) => m[domains[n] := TlsCollection(key)]
      case _ => m
  }

  /** The domains that some loader result in the list gave an identity. */
  ghost function LoadedDomains(domains: seq<string>, results: seq<LoadResult>): set<string>
    requires |domains| == |results|
  {
    set i | 0 <= i < |domains| && results[i].Loaded? :: domains[i]
  }

  /** The loader's result for each domain of the list, in order. */
  function LoadAll(domains: seq<string>, env: Env): seq<LoadResult> {
    seq(|domains|, i requires 0 <= i < |domains| => GetCertKey(domains[i], env))
  }

  /** The panic, if any, that processing one loader result causes. */
  function FaultOf(poisoned: bool, result: LoadResult): Option<Fault> {
    match result
    case Panic(f) => Some(f)
    case Loaded(_) => if poisoned then Some(LockPoisoned) else None
    case Absent => None
  }

  /** The position of the first result whose processing panics, or the length of the list if none does. */
  function FirstFault(poisoned: bool, results: seq<LoadResult>): (k: nat)
    ensures k <= |results|
    ensures forall i :: 0 <= i < k ==> FaultOf(poisoned, results[i]) == None
    ensures k < |results| ==> FaultOf(poisoned, results[k]).Some?
  {
    if results == [] then 0
    else if FaultOf(poisoned, results[0]).Some? then 0
    else 1 + FirstFault(poisoned, results[1..])
  }

  class CertDb {
    var entries: map<string, TlsCollection>
    var poisoned: bool

    /** The store as the lazy initialiser creates it: empty and unlocked. */
    constructor ()
      ensures entries == map[] && !poisoned
    {
      entries := map[];
      poisoned := false;
    }

    /**
      `ResolveServerCert::resolve`: the identity stored under exactly the
      server name the client sent; nothing when the client sent no name, when
      no entry has that name, or when the lock is poisoned.
     */
    function Resolve(serverName: Option<string>): (r: Option<CertifiedKey>)
      reads this
      ensures serverName == None ==> r == None
      ensures poisoned ==> r == None
      ensures r.Some? ==> serverName.Some? && serverName.value in entries && r.value == entries[serverName.value].certifiedKey
      ensures serverName.Some? && serverName.value in entries && !poisoned ==> r.Some?
    {
      match serverName
      case Some(sni) =>
        if poisoned then None
        else if sni in entries then Some(entries[sni].certifiedKey)
        else None
      case None => None
    }

    /**
      `init_cert_in_memory`: for each listed domain in order, load its
      identity and, if there is one, insert it under the domain.  The run
      stops with a panic at the first domain whose loader panics, or whose
      identity cannot be inserted because the lock is poisoned; otherwise it
      returns `Ok(())`.  Entries for other domains are never touched.
     */
    method InitCertInMemory(listen: seq<string>, env: Env) returns (outcome: Completion)
      modifies this
      ensures poisoned == old(poisoned)
      ensures var results := LoadAll(listen, env);
              var n := FirstFault(poisoned, results);
              && entries == Apply(old(entries), listen[..n], results[..n])
              && (outcome == ReturnedOk <==> n == |listen|)
              && (n < |listen| ==> outcome == Panicked(listen[n], FaultOf(poisoned, results[n]).value))
    {
      ghost var results := LoadAll(listen, env);
      var i := 0;
      while i < |listen|
        invariant 0 <= i <= |listen| && poisoned == old(poisoned)
        invariant forall j :: 0 <= j < i ==> FaultOf(poisoned, results[j]) == None
        invariant entries == Apply(old(entries), listen[..i], results[..i])
      {
        var domain := listen[i];
        assert results[i] == GetCertKey(domain, env);
        match GetCertKey(domain, env) {
          case Panic(f) =>
            return Panicked(domain, f);
          case Absent =>
          case Loaded(key) =>
            if poisoned {
              return Panicked(domain, LockPoisoned);
            }
            entries := entries[domain := TlsCollection(key)];
        }
        assert listen[..i + 1][..i] == listen[..i] && results[..i + 1][..i] == results[..i];
        i := i + 1;
      }
      assert listen[..i] == listen && results[..i] == results;
      outcome := ReturnedOk;
    }
  }

  /** Loading never evicts, and the only new keys are the domains that loaded. */
  lemma {:induction false} ApplyKeys(db: map<string, TlsCollection>, domains: seq<string>, results: seq<LoadResult>)
    requires |domains| == |results|
    ensures Apply(db, domains, results).Keys == db.Keys + LoadedDomains(domains, results)
  {
    if domains != [] {
      var n := |domains| - 1;
      ApplyKeys(db, domains[..n], results[..n]);
      assert LoadedDomains(domains, results) ==
             LoadedDomains(domains[..n], results[..n]) + (if results[n].Loaded? then {domains[n]} else {});
    }
  }

  /** A domain that no result in the list loaded keeps its entry, or its absence. */
  lemma {:induction false} ApplyUntouched(db: map<string, TlsCollection>, domains: seq<string>, results: seq<LoadResult>, d: string)
    requires |domains| == |results|
    requires forall i :: 0 <= i < |domains| && domains[i] == d ==> !results[i].Loaded?
    ensures var m := Apply(db, domains, results);
            (d in m <==> d in db) && (d in db ==> m[d] == db[d])
  {
    if domains != [] {
      var n := |domains| - 1;
      ApplyUntouched(db, domains[..n], results[..n], d);
    }
  }

  /** The identity from the last occurrence of a domain that loaded is the one stored. */
  lemma {:induction false} ApplyLastWins(db: map<string, TlsCollection>, domains: seq<string>, results: seq<LoadResult>, i: nat)
    requires |domains| == |results| && i < |domains| && results[i].Loaded?
    requires forall j :: i < j < |domains| && domains[j] == domains[i] ==> !results[j].Loaded?
    ensures var m := Apply(db, domains, results);
            domains[i] in m && m[domains[i]] == TlsCollection(results[i].key)
  {
    var n := |domains| - 1;
    if i < n {
      ApplyLastWins(db, domains[..n], results[..n], i);
    }
  }

  /** The last position at which `d` occurs with a loaded result, if there is one. */
  function LastLoaded(domains: seq<string>, results: seq<LoadResult>, d: string): (k: Option<nat>)
    requires |domains| == |results|
    ensures k.Some? ==> k.value < |domains| && domains[k.value] == d && results[k.value].Loaded?
    ensures k.Some? ==> forall j :: k.value < j < |domains| && domains[j] == d ==> !results[j].Loaded?
    ensures k.None? ==> forall j :: 0 <= j < |domains| && domains[j] == d ==> !results[j].Loaded?
  {
    if domains == [] then None
    else
      var n := |domains| - 1;
      if domains[n] == d && results[n].Loaded? then Some(n) else LastLoaded(domains[..n], results[..n], d)
  }

  /**
    The stored value of every domain after population: the identity from its
    last loaded occurrence if it has one, the previous entry (or none)
    otherwise.
   */
  lemma ApplyAt(db: map<string, TlsCollection>, domains: seq<string>, results: seq<LoadResult>, d: string)
    requires |domains| == |results|
    ensures var m := Apply(db, domains, results);
            match LastLoaded(domains, results, d)
            case Some(k) => d in m && m[d] == TlsCollection(results[k].key)
            case None => (d in m <==> d in db) && (d in db ==> m[d] == db[d])
  {
    match LastLoaded(domains, results, d)
    case Some(k) => ApplyLastWins(db, domains, results, k);
    case None => ApplyUntouched(db, domains, results, d);
  }

  /** Running the population twice with the same loader results changes nothing the second time. */
  lemma ApplyIdempotent(db: map<string, TlsCollection>, domains: seq<string>, results: seq<LoadResult>)
    requires |domains| == |results|
    ensures Apply(Apply(db, domains, results), domains, results) == Apply(db, domains, results)
  {
    var once := Apply(db, domains, results);
    var twice := Apply(once, domains, results);
    forall d
      ensures (d in twice <==> d in once) && (d in once ==> twice[d] == once[d])
    {
      ApplyAt(db, domains, results, d);
      ApplyAt(once, domains, results, d);
    }
  }

  /**
    After a run that returned `Ok(())` from `before` with the loader seeing
    `env`, resolving a server name gives the identity loaded for it if it was
    listed and loaded, and otherwise whatever the store held before.
   */
  lemma ResolveAfterInit(db: CertDb, before: map<string, TlsCollection>, listen: seq<string>, env: Env, name: string)
    requires !db.poisoned && db.entries == Apply(before, listen, LoadAll(listen, env))
    ensures db.Resolve(Some(name)) ==
              if name in listen && GetCertKey(name, env).Loaded? then Some(GetCertKey(name, env).key)
              else if name in before then Some(before[name].certifiedKey)
              else None
  {
    ApplyAt(before, listen, LoadAll(listen, env), name);
  }

  /** Re-running the population over the same list with the same files yields the same store. */
  lemma RepeatedInitIdempotent(db: map<string, TlsCollection>, listen: seq<string>, env: Env)
    ensures var results := LoadAll(listen, env);
            Apply(Apply(db, listen, results), listen, results) == Apply(db, listen, results)
  {
    ApplyIdempotent(db, listen, LoadAll(listen, env));
  }

  /**
    Two configured domains: each server name resolves to its own identity,
    an unknown name, a name differing only in letter case, and a handshake
    without a server name all resolve to nothing.
   */
  lemma TwoDomainScenario(db: CertDb, a: CertifiedKey, b: CertifiedKey)
    requires !db.poisoned
    requires db.entries == map["a.example" := TlsCollection(a), "b.example" := TlsCollection(b)]
    ensures db.Resolve(Some("a.example")) == Some(a)
    ensures db.Resolve(Some("b.example")) == Some(b)
    ensures db.Resolve(Some("c.example")) == None
    ensures db.Resolve(Some("A.example")) == None
    ensures db.Resolve(None) == None
  {
  }
}
