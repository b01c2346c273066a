/** The database of trusted peers and the endpoints bound to them. */
module TrustDatabases {
  import opened MachineInts
  import opened Wrappers
  import opened Sequences

  type Certificate = seq<bv8>
  type DeviceId = seq<bv8>

  // The hash that turns a certificate into a device ID; nothing is assumed about it.
  type Digest = Certificate -> DeviceId

  datatype TrustedPeer = TrustedPeer(
    deviceId: DeviceId,
    displayName: string,
    certificate: Certificate,
    firstSeen: U64,
    lastSeen: Option<U64>)

  datatype EndpointBinding = EndpointBinding(endpoint: string, deviceId: DeviceId)

  datatype TrustDatabase = TrustDatabase(peers: seq<TrustedPeer>, endpoints: seq<EndpointBinding>)

  const EMPTY: TrustDatabase := TrustDatabase([], [])

  datatype VerifyPeer =
    | Unknown(observed: DeviceId)
    | Trusted(observed: DeviceId)
    | IdentityChanged(expected: DeviceId, observed: DeviceId)

  datatype TrustError =
    | FingerprintCollision
    | UnknownDevice
    | BoundElsewhere(deviceId: DeviceId)
    | NotPersisted
    | InvalidFingerprint
    | DuplicateDevice
    | DanglingEndpoint
    | DuplicateEndpoint

  // ---------- Validity ----------

  predicate HasPeer(db: TrustDatabase, id: DeviceId) {
    exists i | 0 <= i < |db.peers| :: db.peers[i].deviceId == id
  }

  predicate ValidPeers(peers: seq<TrustedPeer>, digest: Digest) {
    && (forall i | 0 <= i < |peers| :: peers[i].deviceId == digest(peers[i].certificate))
    && (forall i, j | 0 <= i < j < |peers| :: peers[i].deviceId != peers[j].deviceId)
  }

  predicate DistinctEndpoints(endpoints: seq<EndpointBinding>) {
    forall i, j | 0 <= i < j < |endpoints| :: endpoints[i].endpoint != endpoints[j].endpoint
  }

  // Fingerprints match, devices and endpoints are unique, and no endpoint is bound to a stranger.
  predicate ValidDatabase(db: TrustDatabase, digest: Digest) {
    && ValidPeers(db.peers, digest)
    && DistinctEndpoints(db.endpoints)
    && forall i | 0 <= i < |db.endpoints| :: HasPeer(db, db.endpoints[i].deviceId)
  }

  // What is wrong with a database when it is rejected for this reason; peers are examined first.
  predicate Explains(error: TrustError, db: TrustDatabase, digest: Digest) {
    match error
    case InvalidFingerprint => exists i | 0 <= i < |db.peers| :: db.peers[i].deviceId != digest(db.peers[i].certificate)
    case DuplicateDevice => exists i, j | 0 <= i < j < |db.peers| :: db.peers[i].deviceId == db.peers[j].deviceId
    case DanglingEndpoint =>
      ValidPeers(db.peers, digest) && exists i | 0 <= i < |db.endpoints| :: !HasPeer(db, db.endpoints[i].deviceId)
    case DuplicateEndpoint => ValidPeers(db.peers, digest) && !DistinctEndpoints(db.endpoints)
    case _ => false
  }

  /** `validate_database` accepts exactly the valid databases, and a rejection is for a true reason. */
  method ValidateDatabase(db: TrustDatabase, digest: Digest) returns (error: Option<TrustError>)
    ensures error.None? <==> ValidDatabase(db, digest)
    ensures error.Some? ==> Explains(error.value, db, digest)
  {
    hide HasPeer;
    for i := 0 to |db.peers|
      invariant ValidPeers(db.peers[..i], digest)
    {
      if db.peers[i].deviceId != digest(db.peers[i].certificate) {
        return Some(InvalidFingerprint);
      }
      if exists j | 0 <= j < i :: db.peers[j].deviceId == db.peers[i].deviceId {
        return Some(DuplicateDevice);
      }
    }
    for i := 0 to |db.endpoints|
      invariant DistinctEndpoints(db.endpoints[..i])
      invariant forall k | 0 <= k < i :: HasPeer(db, db.endpoints[k].deviceId)
    {
      if !HasPeer(db, db.endpoints[i].deviceId) {
        return Some(DanglingEndpoint);
      }
      if exists j | 0 <= j < i :: db.endpoints[j].endpoint == db.endpoints[i].endpoint {
        return Some(DuplicateEndpoint);
      }
    }
    return None;
  }

  // ---------- Operations as functions of the database ----------

  function FindPeer(peers: seq<TrustedPeer>, id: DeviceId): Option<TrustedPeer> {
    if peers == [] then None
    else if peers[0].deviceId == id then Some(peers[0])
    else FindPeer(peers[1..], id)
  }

  // The first peer with this ID, seen again under a possibly new name.
  function Refreshed(peers: seq<TrustedPeer>, id: DeviceId, name: string, now: U64): seq<TrustedPeer> {
    if peers == [] then []
    else if peers[0].deviceId == id then [peers[0].(displayName := name, lastSeen := Some(now))] + peers[1..]
    else [peers[0]] + Refreshed(peers[1..], id, name, now)
  }

  function Remembered(db: TrustDatabase, digest: Digest, name: string, certificate: Certificate, now: U64)
    : Result<TrustDatabase, TrustError>
  {
    var id := digest(certificate);
    var found := FindPeer(db.peers, id);
    if found.None? then
      Success(db.(peers := db.peers + [TrustedPeer(id, name, certificate, now, None)]))
    else if found.value.certificate != certificate then Failure(FingerprintCollision)
    else Success(db.(peers := Refreshed(db.peers, id, name, now)))
  }

  function Binding(endpoints: seq<EndpointBinding>, endpoint: string): Option<DeviceId> {
    if endpoints == [] then None
    else if endpoints[0].endpoint == endpoint then Some(endpoints[0].deviceId)
    else Binding(endpoints[1..], endpoint)
  }

  function Bound(db: TrustDatabase, endpoint: string, id: DeviceId): Result<TrustDatabase, TrustError> {
    var current := Binding(db.endpoints, endpoint);
    if !HasPeer(db, id) then Failure(UnknownDevice)
    else if current.None? then Success(db.(endpoints := db.endpoints + [EndpointBinding(endpoint, id)]))
    else if current.value != id then Failure(BoundElsewhere(current.value))
    else Success(db)
  }

  function Forgotten(db: TrustDatabase, id: DeviceId): TrustDatabase {
    if !HasPeer(db, id) then db
    else TrustDatabase(Retain((p: TrustedPeer) => p.deviceId != id, db.peers),
                       Retain((b: EndpointBinding) => b.deviceId != id, db.endpoints))
  }

  function VerifyEndpoint(db: TrustDatabase, digest: Digest, endpoint: string, certificate: Certificate): VerifyPeer {
    var observed, bound := digest(certificate), Binding(db.endpoints, endpoint);
    if bound.None? then Unknown(observed)
    else if bound.value == observed then Trusted(observed)
    else IdentityChanged(bound.value, observed)
  }

  function VerifyCertificate(db: TrustDatabase, digest: Digest, certificate: Certificate): VerifyPeer {
    var observed := digest(certificate);
    if exists i | 0 <= i < |db.peers| :: db.peers[i].deviceId == observed && db.peers[i].certificate == certificate
    then Trusted(observed) else Unknown(observed)
  }

  // ---------- The store as an object ----------

  class TrustStore {
    const digest: Digest
    var database: TrustDatabase

    constructor (digest: Digest, database: TrustDatabase)
      requires ValidDatabase(database, digest)
      ensures this.digest == digest && this.database == database
    {
      this.digest, this.database := digest, database;
    }

    // The candidate replaces the database only once it has been written.
    method Commit(candidate: TrustDatabase, persisted: bool) returns (error: Option<TrustError>)
      modifies this
      ensures database == (if persisted then candidate else old(database))
      ensures error == if persisted then None else Some(NotPersisted)
    {
      if !persisted {
        return Some(NotPersisted);
      }
      database := candidate;
      return None;
    }

    method Remember(name: string, certificate: Certificate, now: U64, persisted: bool) returns (r: Result<DeviceId,
                    TrustError>)
      modifies this
      ensures match Remembered(old(database), digest, name, certificate, now)
              case Failure(error) => r == Failure(error) && database == old(database)
              case Success(next) =>
                && database == (if persisted then next else old(database))
                && r == if persisted then Success(digest(certificate)) else Failure(NotPersisted)
    {
      var id := digest(certificate);
      var candidate := database;
      var found := FindPeer(candidate.peers, id);
      if found.Some? {
        if found.value.certificate != certificate {
          return Failure(FingerprintCollision);
        }
        candidate := candidate.(peers := Refreshed(candidate.peers, id, name, now));
      } else {
        candidate := candidate.(peers := candidate.peers + [TrustedPeer(id, name, certificate, now, None)]);
      }
      var error := Commit(candidate, persisted);
      return if error.Some? then Failure(error.value) else Success(id);
    }

    method BindEndpoint(endpoint: string, id: DeviceId, persisted: bool) returns (error: Option<TrustError>)
      modifies this
      ensures match Bound(old(database), endpoint, id)
              case Failure(e) => error == Some(e) && database == old(database)
              case Success(next) =>
                && database == (if persisted then next else old(database))
                && error == if persisted then None else Some(NotPersisted)
    {
      if !HasPeer(database, id) {
        return Some(UnknownDevice);
      }
      var candidate := database;
      var current := Binding(candidate.endpoints, endpoint);
      if current.Some? {
        if current.value != id {
          return Some(BoundElsewhere(current.value));
        }
      } else {
        candidate := candidate.(endpoints := candidate.endpoints + [EndpointBinding(endpoint, id)]);
      }
      error := Commit(candidate, persisted);
    }

    method Forget(id: DeviceId, persisted: bool) returns (r: Result<bool, TrustError>)
      modifies this
      ensures database == (if persisted then Forgotten(old(database), id) else old(database))
      ensures r == if !HasPeer(old(database), id) then Success(false)
                   else if persisted then Success(true) else Failure(NotPersisted)
    {
      var candidate := database;
      candidate := candidate.(peers := Retain((p: TrustedPeer) => p.deviceId != id, candidate.peers));
      RetainShortens(database.peers, id);
      if |candidate.peers| == |database.peers| {
        return Success(false);
      }
      candidate := candidate.(endpoints := Retain((b: EndpointBinding) => b.deviceId != id, candidate.endpoints));
      var error := Commit(candidate, persisted);
      return if error.Some? then Failure(error.value) else Success(true);
    }

    method ForgetAll(persisted: bool) returns (r: Result<nat, TrustError>)
      modifies this
      ensures old(database).peers == [] ==> r == Success(0) && database == old(database)
      ensures old(database).peers != [] ==>
                && database == (if persisted then EMPTY else old(database))
                && r == if persisted then Success(|old(database).peers|) else Failure(NotPersisted)
    {
      var count := |database.peers|;
      if count == 0 {
        return Success(0);
      }
      var error := Commit(EMPTY, persisted);
      return if error.Some? then Failure(error.value) else Success(count);
    }
  }

  lemma {:induction false} RetainShortens(peers: seq<TrustedPeer>, id: DeviceId)
    ensures |Retain((p: TrustedPeer) => p.deviceId != id, peers)| <= |peers|
    ensures |Retain((p: TrustedPeer) => p.deviceId != id, peers)| == |peers| <==>
              !exists i :: 0 <= i < |peers| && peers[i].deviceId == id
  {
    if peers != [] {
      RetainShortens(peers[1..], id);
      if exists i :: 0 <= i < |peers| && peers[i].deviceId == id {
        var i :| 0 <= i < |peers| && peers[i].deviceId == id;
        assert i == 0 || peers[1..][i - 1].deviceId == id;
      }
    }
  }

  // ---------- Every operation keeps the database valid ----------

  lemma {:induction false} FindPeerExact(peers: seq<TrustedPeer>, id: DeviceId)
    ensures FindPeer(peers, id).Some? ==> FindPeer(peers, id).value in peers && FindPeer(peers, id).value.deviceId == id
    ensures FindPeer(peers, id).None? <==> forall i | 0 <= i < |peers| :: peers[i].deviceId != id
  {
    if peers != [] {
      FindPeerExact(peers[1..], id);
      assert forall i | 1 <= i < |peers| :: peers[i] == peers[1..][i - 1];
    }
  }

  lemma {:induction false} RefreshedPointwise(peers: seq<TrustedPeer>, id: DeviceId, name: string, now: U64)
    ensures |Refreshed(peers, id, name, now)| == |peers|
    ensures forall i | 0 <= i < |peers| ::
              && Refreshed(peers, id, name, now)[i].deviceId == peers[i].deviceId
              && Refreshed(peers, id, name, now)[i].certificate == peers[i].certificate
  {
    if peers != [] && peers[0].deviceId != id {
      RefreshedPointwise(peers[1..], id, name, now);
    }
  }

  lemma {:induction false} BindingExact(endpoints: seq<EndpointBinding>, endpoint: string)
    ensures Binding(endpoints, endpoint).Some? ==>
              exists i :: 0 <= i < |endpoints|
                  && endpoints[i] == EndpointBinding(endpoint, Binding(endpoints, endpoint).value)
    ensures Binding(endpoints, endpoint).None? <==> forall i | 0 <= i < |endpoints| :: endpoints[i].endpoint != endpoint
  {
    if endpoints != [] {
      BindingExact(endpoints[1..], endpoint);
      assert forall i | 1 <= i < |endpoints| :: endpoints[i] == endpoints[1..][i - 1];
      if endpoints[0].endpoint != endpoint && Binding(endpoints, endpoint).Some? {
        var i :| 0 <= i < |endpoints[1..]|
            && endpoints[1..][i] == EndpointBinding(endpoint, Binding(endpoints, endpoint).value);
        assert endpoints[i + 1] == endpoints[1..][i];
      }
    }
  }

  lemma RememberedStaysValid(db: TrustDatabase, digest: Digest, name: string, certificate: Certificate, now: U64)
    requires ValidDatabase(db, digest) && Remembered(db, digest, name, certificate, now).Success?
    ensures ValidDatabase(Remembered(db, digest, name, certificate, now).value, digest)
    ensures Remembered(db, digest, name, certificate, now).value.endpoints == db.endpoints
  {
    var id := digest(certificate);
    var next := Remembered(db, digest, name, certificate, now).value;
    FindPeerExact(db.peers, id);
    RefreshedPointwise(db.peers, id, name, now);
    forall i | 0 <= i < |db.endpoints| ensures HasPeer(next, db.endpoints[i].deviceId) {
      var j :| 0 <= j < |db.peers| && db.peers[j].deviceId == db.endpoints[i].deviceId;
      assert next.peers[j].deviceId == db.endpoints[i].deviceId;
    }
  }

  lemma BoundStaysValid(db: TrustDatabase, digest: Digest, endpoint: string, id: DeviceId)
    requires ValidDatabase(db, digest) && Bound(db, endpoint, id).Success?
    ensures ValidDatabase(Bound(db, endpoint, id).value, digest)
  {
    BindingExact(db.endpoints, endpoint);
  }

  lemma {:induction false} RetainPeersValid(peers: seq<TrustedPeer>, digest: Digest, id: DeviceId)
    requires ValidPeers(peers, digest)
    ensures ValidPeers(Retain((p: TrustedPeer) => p.deviceId != id, peers), digest)
  {
    if peers != [] {
      assert ValidPeers(peers[1..], digest) by {
        assert forall i | 0 <= i < |peers[1..]| :: peers[1..][i] == peers[i + 1];
      }
      RetainPeersValid(peers[1..], digest, id);
      RetainMembers((p: TrustedPeer) => p.deviceId != id, peers[1..]);
      var rest := Retain((p: TrustedPeer) => p.deviceId != id, peers[1..]);
      forall i | 0 <= i < |rest| ensures rest[i].deviceId != peers[0].deviceId {
        assert rest[i] in peers[1..];
      }
    }
  }

  lemma {:induction false} RetainEndpointsDistinct(endpoints: seq<EndpointBinding>, id: DeviceId)
    requires DistinctEndpoints(endpoints)
    ensures DistinctEndpoints(Retain((b: EndpointBinding) => b.deviceId != id, endpoints))
  {
    if endpoints != [] {
      assert DistinctEndpoints(endpoints[1..]) by {
        assert forall i | 0 <= i < |endpoints[1..]| :: endpoints[1..][i] == endpoints[i + 1];
      }
      RetainEndpointsDistinct(endpoints[1..], id);
      RetainMembers((b: EndpointBinding) => b.deviceId != id, endpoints[1..]);
      var rest := Retain((b: EndpointBinding) => b.deviceId != id, endpoints[1..]);
      forall i | 0 <= i < |rest| ensures rest[i].endpoint != endpoints[0].endpoint {
        assert rest[i] in endpoints[1..];
      }
    }
  }

  lemma ForgottenStaysValid(db: TrustDatabase, digest: Digest, id: DeviceId)
    requires ValidDatabase(db, digest)
    ensures ValidDatabase(Forgotten(db, id), digest)
    ensures !HasPeer(Forgotten(db, id), id)
  {
    var next := Forgotten(db, id);
    RetainPeersValid(db.peers, digest, id);
    RetainEndpointsDistinct(db.endpoints, id);
    RetainMembers((p: TrustedPeer) => p.deviceId != id, db.peers);
    RetainMembers((b: EndpointBinding) => b.deviceId != id, db.endpoints);
    if HasPeer(db, id) {
      forall i | 0 <= i < |next.endpoints| ensures HasPeer(next, next.endpoints[i].deviceId) {
        assert next.endpoints[i] in db.endpoints;
        var k :| 0 <= k < |db.endpoints| && db.endpoints[k] == next.endpoints[i];
        assert HasPeer(db, db.endpoints[k].deviceId);
        var j :| 0 <= j < |db.peers| && db.peers[j].deviceId == next.endpoints[i].deviceId;
        assert db.peers[j] in next.peers;
      }
      forall i | 0 <= i < |next.peers| ensures next.peers[i].deviceId != id {
        assert next.peers[i] in next.peers;
      }
    }
  }

  // ---------- Whole runs ----------

  datatype TrustEvent =
    | RememberPeer(name: string, certificate: Certificate, now: U64, persisted: bool)
    | BindEndpoint(endpoint: string, id: DeviceId, persisted: bool)
    | ForgetPeer(id: DeviceId, persisted: bool)
    | ForgetEveryone(persisted: bool)

  function After(db: TrustDatabase, digest: Digest, ev: TrustEvent): TrustDatabase {
    if !ev.persisted then db
    else
      match ev
      case RememberPeer(name, certificate, now, _) =>
        var r := Remembered(db, digest, name, certificate, now);
        if r.Success? then r.value else db
      case BindEndpoint(endpoint, id, _) =>
        var r := Bound(db, endpoint, id);
        if r.Success? then r.value else db
      case ForgetPeer(id, _) => Forgotten(db, id)
      case ForgetEveryone(_) => if db.peers == [] then db else EMPTY
  }

  function DatabaseAt(db: TrustDatabase, digest: Digest, evs: seq<TrustEvent>, n: nat): TrustDatabase
    requires n <= |evs|
  {
    if n == 0 then db else After(DatabaseAt(db, digest, evs, n - 1), digest, evs[n - 1])
  }

  lemma StepStaysValid(db: TrustDatabase, digest: Digest, ev: TrustEvent)
    requires ValidDatabase(db, digest)
    ensures ValidDatabase(After(db, digest, ev), digest)
  {
    match ev
    case RememberPeer(name, certificate, now, _) =>
      if Remembered(db, digest, name, certificate, now).Success? {
        RememberedStaysValid(db, digest, name, certificate, now);
      }
    case BindEndpoint(endpoint, id, _) =>
      if Bound(db, endpoint, id).Success? {
        BoundStaysValid(db, digest, endpoint, id);
      }
    case ForgetPeer(id, _) => ForgottenStaysValid(db, digest, id);
    case ForgetEveryone(_) =>
  }

  /** Every run of operations, persisted or not, keeps the database valid. */
  lemma {:induction false} DatabaseStaysValid(db: TrustDatabase, digest: Digest, evs: seq<TrustEvent>, n: nat)
    requires ValidDatabase(db, digest) && n <= |evs|
    ensures ValidDatabase(DatabaseAt(db, digest, evs, n), digest)
  {
    hide ValidDatabase, After;
    if n > 0 {
      DatabaseStaysValid(db, digest, evs, n - 1);
      StepStaysValid(DatabaseAt(db, digest, evs, n - 1), digest, evs[n - 1]);
    }
  }

  // The events that dissolve a binding to device `a`.
  predicate Dissolves(ev: TrustEvent, a: DeviceId) {
    ev.persisted && (ev.ForgetEveryone? || (ev.ForgetPeer? && ev.id == a))
  }

  lemma {:induction false} BindingAppended(endpoints: seq<EndpointBinding>, b: EndpointBinding, endpoint: string)
    requires Binding(endpoints, endpoint).Some?
    ensures Binding(endpoints + [b], endpoint) == Binding(endpoints, endpoint)
  {
    if endpoints[0].endpoint != endpoint {
      assert (endpoints + [b])[1..] == endpoints[1..] + [b];
      BindingAppended(endpoints[1..], b, endpoint);
    }
  }

  lemma {:induction false} BindingRetained(endpoints: seq<EndpointBinding>, id: DeviceId, endpoint: string)
    requires DistinctEndpoints(endpoints)
    ensures Binding(Retain((b: EndpointBinding) => b.deviceId != id, endpoints), endpoint)
            == if Binding(endpoints, endpoint) == Some(id) then None else Binding(endpoints, endpoint)
  {
    if endpoints != [] {
      assert DistinctEndpoints(endpoints[1..]) by {
        assert forall i | 0 <= i < |endpoints[1..]| :: endpoints[1..][i] == endpoints[i + 1];
      }
      BindingRetained(endpoints[1..], id, endpoint);
      if endpoints[0].endpoint == endpoint {
        BindingExact(endpoints[1..], endpoint);
      }
    }
  }

  lemma BoundDeviceIsKnown(db: TrustDatabase, digest: Digest, endpoint: string)
    requires ValidDatabase(db, digest) && Binding(db.endpoints, endpoint).Some?
    ensures HasPeer(db, Binding(db.endpoints, endpoint).value)
  {
    BindingExact(db.endpoints, endpoint);
    var i :| 0 <= i < |db.endpoints|
        && db.endpoints[i] == EndpointBinding(endpoint, Binding(db.endpoints, endpoint).value);
    assert HasPeer(db, db.endpoints[i].deviceId);
  }

  /** One operation dissolves the binding of an endpoint exactly when it forgets its device, or
      everyone; no operation redirects it. */
  lemma BindingStep(db: TrustDatabase, digest: Digest, ev: TrustEvent, endpoint: string)
    requires ValidDatabase(db, digest) && Binding(db.endpoints, endpoint).Some?
    ensures var a := Binding(db.endpoints, endpoint).value;
            Binding(After(db, digest, ev).endpoints, endpoint) == if Dissolves(ev, a) then None else Some(a)
  {
    BoundDeviceIsKnown(db, digest, endpoint);
    match ev
    case RememberPeer(name, certificate, now, _) =>
    case BindEndpoint(other, id, _) => BindingAppended(db.endpoints, EndpointBinding(other, id), endpoint);
    case ForgetPeer(id, _) => BindingRetained(db.endpoints, id, endpoint);
    case ForgetEveryone(_) =>
    hide ValidDatabase;
  }

  /** Pinning: once an endpoint is bound to `a`, every certificate with another digest is reported as a
      changed identity with `a` expected, until `a` or everyone is forgotten. */
  lemma {:induction false} EndpointIsPinned(db: TrustDatabase, digest: Digest, evs: seq<TrustEvent>, n: nat,
                                            endpoint: string, a: DeviceId, certificate: Certificate)
    requires ValidDatabase(db, digest) && n <= |evs| && Binding(db.endpoints, endpoint) == Some(a)
    requires forall i | 0 <= i < n :: !Dissolves(evs[i], a)
    ensures Binding(DatabaseAt(db, digest, evs, n).endpoints, endpoint) == Some(a)
    ensures VerifyEndpoint(DatabaseAt(db, digest, evs, n), digest, endpoint, certificate)
            == if digest(certificate) == a then Trusted(a) else IdentityChanged(a, digest(certificate))
  {
    hide ValidDatabase, After, Dissolves;
    if n > 0 {
      EndpointIsPinned(db, digest, evs, n - 1, endpoint, a, certificate);
      DatabaseStaysValid(db, digest, evs, n - 1);
      BindingStep(DatabaseAt(db, digest, evs, n - 1), digest, evs[n - 1], endpoint);
    }
  }

  /** A remembered certificate is trusted, and forgetting its device undoes that. */
  lemma RememberForgetVerify(db: TrustDatabase, digest: Digest, name: string, certificate: Certificate, now: U64)
    requires ValidDatabase(db, digest)
    ensures var r := Remembered(db, digest, name, certificate, now);
            r.Success? ==> VerifyCertificate(r.value, digest, certificate) == Trusted(digest(certificate))
    ensures VerifyCertificate(Forgotten(db, digest(certificate)), digest, certificate) == Unknown(digest(certificate))
  {
    var id, r := digest(certificate), Remembered(db, digest, name, certificate, now);
    ForgottenStaysValid(db, digest, id);
    FindPeerExact(db.peers, id);
    if r.Success? {
      if FindPeer(db.peers, id).None? {
        assert r.value.peers[|db.peers|].certificate == certificate;
      } else {
        RefreshedPointwise(db.peers, id, name, now);
        var i :| 0 <= i < |db.peers| && db.peers[i] == FindPeer(db.peers, id).value;
        assert r.value.peers[i].deviceId == id && r.value.peers[i].certificate == certificate;
      }
    }
    hide ValidDatabase;
  }
}
