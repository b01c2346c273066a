/** What each trust operation leaves in the database, entry by entry. */
module TrustOutcomes {
  import opened MachineInts
  import opened Wrappers
  import opened Sequences
  import opened TrustDatabases

  // ---------- Binding ----------

  /** Binding succeeds exactly for a known device and an endpoint that is free or already bound to it; afterwards
      the endpoint is bound to that device, and every other endpoint as before. */
  lemma BindExact(db: TrustDatabase, endpoint: string, id: DeviceId)
    ensures Bound(db, endpoint, id).Success? <==>
              HasPeer(db, id) && (Binding(db.endpoints, endpoint).None? || Binding(db.endpoints, endpoint) == Some(id))
    ensures Bound(db, endpoint, id).Success? ==>
              var next := Bound(db, endpoint, id).value;
              && next.peers == db.peers
              && Binding(next.endpoints, endpoint) == Some(id)
              && forall other :: other != endpoint ==> Binding(next.endpoints, other) == Binding(db.endpoints, other)
    ensures Bound(db, endpoint, id).Failure? ==>
              Bound(db, endpoint, id).error == if HasPeer(db,
                  id) then BoundElsewhere(Binding(db.endpoints, endpoint).value)
                                               else UnknownDevice
  {
    forall other ensures Binding(db.endpoints + [EndpointBinding(endpoint, id)], other)
                         == if Binding(db.endpoints, other).None? && other == endpoint then Some(id)
                            else Binding(db.endpoints, other)
    {
      BindingSnoc(db.endpoints, EndpointBinding(endpoint, id), other);
    }
    hide HasPeer, Binding;
  }

  lemma {:induction false} BindingSnoc(endpoints: seq<EndpointBinding>, b: EndpointBinding, endpoint: string)
    ensures Binding(endpoints + [b], endpoint)
            == if Binding(endpoints, endpoint).None? && endpoint == b.endpoint then Some(b.deviceId)
               else Binding(endpoints, endpoint)
  {
    if endpoints != [] {
      assert (endpoints + [b])[1..] == endpoints[1..] + [b];
      BindingSnoc(endpoints[1..], b, endpoint);
    }
  }

  /** In a valid database a binding is found exactly if it is there. */
  lemma {:induction false} BindingFound(endpoints: seq<EndpointBinding>, endpoint: string, id: DeviceId)
    requires DistinctEndpoints(endpoints)
    ensures Binding(endpoints, endpoint) == Some(id) <==> EndpointBinding(endpoint, id) in endpoints
  {
    BindingExact(endpoints, endpoint);
    if EndpointBinding(endpoint, id) in endpoints && Binding(endpoints, endpoint).Some? {
      var i :| 0 <= i < |endpoints| && endpoints[i] == EndpointBinding(endpoint, id);
      var j :| 0 <= j < |endpoints| && endpoints[j] == EndpointBinding(endpoint, Binding(endpoints, endpoint).value);
    }
  }

  // ---------- Remembering ----------

  /** Remembering is refused exactly if another certificate is already known under the same device ID. Otherwise
      the certificate is there once, under the new name: first seen now, or as before and last seen now. */
  lemma RememberExact(db: TrustDatabase, digest: Digest, name: string, certificate: Certificate, now: U64)
    requires ValidDatabase(db, digest)
    ensures var id, r := digest(certificate), Remembered(db, digest, name, certificate, now);
            && (r.Failure? <==> exists p :: p in db.peers && p.deviceId == id && p.certificate != certificate)
            && (r.Failure? ==> r.error == FingerprintCollision)
            && (r.Success? ==>
                  && r.value.endpoints == db.endpoints
                  && (forall p: TrustedPeer :: p.deviceId != id ==> (p in r.value.peers <==> p in db.peers))
                  && (forall p :: p in r.value.peers && p.deviceId == id ==>
                        if HasPeer(db, id) then
                          exists q :: q in db.peers && q.deviceId == id
                              && p == TrustedPeer(id, name, certificate, q.firstSeen, Some(now))
                        else p == TrustedPeer(id, name, certificate, now, None))
                  && HasPeer(r.value, id))
  {
    hide DistinctEndpoints, Refreshed, FindPeer;
    var id, found := digest(certificate), FindPeer(db.peers, digest(certificate));
    FindPeerExact(db.peers, id);
    if found.None? {
      assert !HasPeer(db, id);
      var next := db.(peers := db.peers + [TrustedPeer(id, name, certificate, now, None)]);
      assert next.peers[|db.peers|].deviceId == id;
    } else {
      OnlyPeerWith(db, digest, found.value);
      RefreshedExact(db.peers, id, name, now);
      RefreshedHasPeer(db, id, name, now, found.value);
    }
  }

  // In a valid database a device ID stands for one peer.
  lemma OnlyPeerWith(db: TrustDatabase, digest: Digest, q: TrustedPeer)
    requires ValidDatabase(db, digest) && q in db.peers
    ensures HasPeer(db, q.deviceId)
    ensures forall p | p in db.peers && p.deviceId == q.deviceId :: p == q
  {
    var j :| 0 <= j < |db.peers| && db.peers[j] == q;
    forall p | p in db.peers && p.deviceId == q.deviceId ensures p == q {
      var i :| 0 <= i < |db.peers| && db.peers[i] == p;
    }
  }

  lemma RefreshedHasPeer(db: TrustDatabase, id: DeviceId, name: string, now: U64, q: TrustedPeer)
    requires q in db.peers && q.deviceId == id
    requires q.(displayName := name, lastSeen := Some(now)) in Refreshed(db.peers, id, name, now)
    ensures HasPeer(db.(peers := Refreshed(db.peers, id, name, now)), id)
  {
    var peers := Refreshed(db.peers, id, name, now);
    var i :| 0 <= i < |peers| && peers[i] == q.(displayName := name, lastSeen := Some(now));
    assert peers[i].deviceId == id;
  }

  lemma {:induction false} RefreshedExact(peers: seq<TrustedPeer>, id: DeviceId, name: string, now: U64)
    requires forall i, j | 0 <= i < j < |peers| :: peers[i].deviceId != peers[j].deviceId
    ensures forall p :: p in Refreshed(peers, id, name, now) <==>
              exists q :: q in peers && p == if q.deviceId == id then q.(displayName := name, lastSeen := Some(now))
                  else q
  {
    if peers != [] {
      RefreshedExact(peers[1..], id, name, now);
      assert forall q :: q in peers <==> q == peers[0] || q in peers[1..];
      if peers[0].deviceId == id {
        assert forall q | q in peers[1..] :: q.deviceId != id;
      }
    }
  }

  // ---------- Forgetting ----------

  /** Forgetting a device removes it and its bindings, and nothing else. */
  lemma ForgetExact(db: TrustDatabase, digest: Digest, id: DeviceId)
    requires ValidDatabase(db, digest)
    ensures forall p :: p in Forgotten(db, id).peers <==> p in db.peers && p.deviceId != id
    ensures forall b :: b in Forgotten(db, id).endpoints <==> b in db.endpoints && b.deviceId != id
  {
    RetainMembers((p: TrustedPeer) => p.deviceId != id, db.peers);
    RetainMembers((b: EndpointBinding) => b.deviceId != id, db.endpoints);
    if !HasPeer(db, id) {
      forall b | b in db.endpoints ensures b.deviceId != id {
        var i :| 0 <= i < |db.endpoints| && db.endpoints[i] == b;
        assert HasPeer(db, db.endpoints[i].deviceId);
      }
    }
  }

  // ---------- Verifying ----------

  /** A certificate is trusted exactly if it is stored, and at an endpoint exactly if the endpoint is bound to its
      device; a binding to any other device is reported, with the device expected. */
  lemma VerifyExact(db: TrustDatabase, digest: Digest, endpoint: string, certificate: Certificate)
    requires ValidDatabase(db, digest)
    ensures var observed := digest(certificate);
            && VerifyCertificate(db, digest, certificate)
               == (if exists p :: p in db.peers && p.certificate == certificate then Trusted(observed)
                   else Unknown(observed))
            && (VerifyEndpoint(db, digest, endpoint, certificate) == Trusted(observed)
                <==> EndpointBinding(endpoint, observed) in db.endpoints)
            && (VerifyEndpoint(db, digest, endpoint, certificate) == Unknown(observed)
                <==> forall b | b in db.endpoints :: b.endpoint != endpoint)
            && forall expected ::
                 (VerifyEndpoint(db, digest, endpoint, certificate) == IdentityChanged(expected, observed)) <==>
                   (EndpointBinding(endpoint, expected) in db.endpoints && expected != observed)
  {
    var observed := digest(certificate);
    if p :| p in db.peers && p.certificate == certificate {
      var i :| 0 <= i < |db.peers| && db.peers[i] == p;
      assert db.peers[i].deviceId == observed;
    }
    BindingExact(db.endpoints, endpoint);
    forall id ensures Binding(db.endpoints, endpoint) == Some(id) <==> EndpointBinding(endpoint, id) in db.endpoints {
      BindingFound(db.endpoints, endpoint, id);
    }
    assert (forall b | b in db.endpoints :: b.endpoint != endpoint)
        <==> (forall i | 0 <= i < |db.endpoints| :: db.endpoints[i].endpoint != endpoint);
  }
}
