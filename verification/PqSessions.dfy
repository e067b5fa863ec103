/**
 Post-quantum session epochs and pre-shared keys (internal/daemon/pq.go).

 Cryptography is ideal: an ML-KEM ciphertext opens to its own secret under the key it was
 made for and to an unrelated one under any other (implicit rejection, section 7.3 of FIPS
 203), the ciphertext hash is injective, signatures verify exactly what was signed, and the
 derived key is injective in its inputs. The coordinator chooses every netmap.
 */
module PqSessions {
  import opened Optional

  const MAX_UINT64 := 0xffff_ffff_ffff_ffff

  // ------------------------------------------------------------------ ideal crypto

  /** A KEM key pair is named by one number; `wellSized` is the length check on received bytes. */
  datatype Ciphertext = Ciphertext(madeFor: nat, nonce: nat, wellSized: bool)

  datatype Secret = Opened(madeFor: nat, nonce: nat) | ImplicitRejection(key: nat, ciphertext: Ciphertext)

  function Decapsulate(key: nat, ct: Ciphertext): Secret {
    if ct.madeFor == key then Opened(key, ct.nonce) else ImplicitRejection(key, ct)
  }

  datatype Hash = Hash(of: Ciphertext)

  datatype Signature = Signature(signer: nat, initiatorID: string, recipientID: string, epoch: nat,
                                 ciphertext: Ciphertext)

  datatype Psk = Psk(secret: Secret, initiatorID: string, recipientID: string, epoch: nat,
                     initiatorWG: nat, recipientWG: nat, recipientKEM: nat)

  // ---------------------------------------------------------------- data model

  datatype Node = Node(id: string, wgKey: nat, kemKey: nat, kemSized: bool, signKey: nat, signSized: bool)

  datatype Session = Session(initiatorID: string, recipientID: string, epoch: nat, ciphertext: Ciphertext,
                             signature: Signature)

  const NO_SESSION := Session("", "", 0, Ciphertext(0, 0, false), Signature(0, "", "", 0, Ciphertext(0, 0, false)))

  datatype Netmap = Netmap(version: nat, self: Node, peers: seq<Node>, sessions: seq<Session>)

  /** Epochs and versions are 64-bit numbers. */
  ghost predicate InRange(nm: Netmap) {
    nm.version <= MAX_UINT64 && forall s :: s in nm.sessions ==> s.epoch <= MAX_UINT64
  }

  /** pqSecretRecord; a recipient's record carries no shared key. */
  datatype Record = Record(epoch: nat, hash: Hash, shared: Option<Secret>)

  const NO_RECORD := Record(0, Hash(Ciphertext(0, 0, false)), None)

  /** One session this node made and handed to the coordinator: for which peer, and under which KEM key it was shown. */
  datatype Staging = Staging(peer: string, shown: nat, session: Session)

  /** One derived pre-shared key. */
  datatype Derivation = Derivation(peer: string, epoch: nat, ciphertext: Ciphertext)

  predicate VerifySession(signKey: nat, sized: bool, s: Session) {
    s.epoch != 0 && sized && s.signature == Signature(signKey, s.initiatorID, s.recipientID, s.epoch, s.ciphertext)
  }

  // ------------------------------------------------------------- session lookup

  predicate Between(s: Session, a: string, b: string) {
    (s.initiatorID == a && s.recipientID == b) || (s.initiatorID == b && s.recipientID == a)
  }

  /** The session runs from one of the two nodes to the other. */
  ghost predicate JoinsPair(s: Session, a: string, b: string) {
    if s.initiatorID == a then s.recipientID == b else s.initiatorID == b && s.recipientID == a
  }

  /** found is the only session of the netmap between self and the peer. */
  ghost predicate OnlySession(nm: Netmap, peerID: string, found: Session) {
    exists i :: 0 <= i < |nm.sessions| && nm.sessions[i] == found && JoinsPair(found, nm.self.id, peerID)
                && forall j :: 0 <= j < |nm.sessions| && j != i ==> !JoinsPair(nm.sessions[j], nm.self.id, peerID)
  }

  /** pqSessionFor: an ambiguous pair has no session. */
  method SessionFor(nm: Netmap, peerID: string) returns (found: Session, matched: bool)
    ensures matched ==> OnlySession(nm, peerID, found)
    ensures !matched ==> found == NO_SESSION && forall s :: !OnlySession(nm, peerID, s)
  {
    found, matched := NO_SESSION, false;
    ghost var at := 0;
    for i := 0 to |nm.sessions|
      invariant matched ==> 0 <= at < i && nm.sessions[at] == found && JoinsPair(found, nm.self.id, peerID)
      invariant forall j :: 0 <= j < i && (matched ==> j != at) ==> !JoinsPair(nm.sessions[j], nm.self.id, peerID)
      invariant !matched ==> found == NO_SESSION
    {
      if Between(nm.sessions[i], nm.self.id, peerID) {
        if matched {
          assert forall s :: !OnlySession(nm, peerID, s);
          return NO_SESSION, false;
        }
        found, matched, at := nm.sessions[i], true, i;
      }
    }
  }

  // --------------------------------------------------------------- epoch choice

  /** The epoch loop of ensurePQSessions: the least epoch above both floors and not below the netmap version. */
  method ChooseEpoch(version: nat, previous: nat, current: nat) returns (epoch: Option<nat>)
    requires version <= MAX_UINT64 && previous <= MAX_UINT64 && current <= MAX_UINT64
    ensures epoch.None? <==> previous == MAX_UINT64 || current == MAX_UINT64
    ensures epoch.Some? ==> previous < epoch.value && current < epoch.value && version <= epoch.value <= MAX_UINT64
    ensures epoch.Some? ==> epoch.value in {version, previous + 1, current + 1}
  {
    var chosen := version;
    var floors := [previous, current];
    for i := 0 to |floors|
      invariant version <= chosen <= MAX_UINT64
      invariant forall k :: 0 <= k < i ==> floors[k] < chosen
      invariant chosen == version || exists k :: 0 <= k < i && chosen == floors[k] + 1
    {
      if chosen <= floors[i] {
        if floors[i] == MAX_UINT64 {
          return None;
        }
        chosen := floors[i] + 1;
      }
    }
    assert floors[0] < chosen && floors[1] < chosen;
    if chosen == 0 {
      // Every floor is at least 0, so an epoch above them is not.
      assert false;
    }
    return Some(chosen);
  }

  // ------------------------------------------------------------------ the daemon

  /** A stored shared key is the one its ciphertext was made with. */
  predicate RecordOK(r: Record) {
    && r.epoch <= MAX_UINT64
    && (r.shared.Some? ==> r.shared.value == Opened(r.hash.of.madeFor, r.hash.of.nonce))
  }

  /** Per peer: epochs never go down, and one epoch means one ciphertext. */
  ghost predicate Ordered(derived: seq<Derivation>) {
    forall i, j :: 0 <= i < j < |derived| && derived[i].peer == derived[j].peer ==>
      && derived[i].epoch <= derived[j].epoch
      && (derived[i].epoch == derived[j].epoch ==> derived[i].ciphertext == derived[j].ciphertext)
  }

  /** The stored record is at or past everything derived for the peer. */
  ghost predicate RecordCovers(secrets: map<string, Record>, d: Derivation) {
    && d.peer in secrets && d.epoch <= secrets[d.peer].epoch
    && (d.epoch == secrets[d.peer].epoch ==> secrets[d.peer].hash == Hash(d.ciphertext))
  }

  /** The stored record is the session's. */
  predicate HoldsRecord(secrets: map<string, Record>, peer: string, s: Session) {
    peer in secrets && secrets[peer].epoch == s.epoch && secrets[peer].hash == Hash(s.ciphertext)
  }

  /** The ciphertext was staged for the peer. */
  ghost predicate WasStaged(staged: seq<Staging>, peer: string, ct: Ciphertext) {
    exists i :: 0 <= i < |staged| && staged[i].peer == peer && staged[i].session.ciphertext == ct
  }

  /** The session names its peer, is signed with this node's key, and its ciphertext is for the key it was shown. */
  ghost predicate StagedWell(signKey: nat, st: Staging) {
    && st.session.ciphertext.madeFor == st.shown && st.session.recipientID == st.peer
    && st.session.signature
       == Signature(signKey, st.session.initiatorID, st.peer, st.session.epoch, st.session.ciphertext)
  }

  /** Every stored shared key comes from a staging of this node, and every staging was done well. */
  ghost predicate StagingsOK(signKey: nat, staged: seq<Staging>, secrets: map<string, Record>) {
    && (forall i :: 0 <= i < |staged| ==> StagedWell(signKey, staged[i]))
    && (forall id :: id in secrets && secrets[id].shared.Some? ==> WasStaged(staged, id, secrets[id].hash.of))
  }

  /** Whenever this node made a ciphertext for the peer it was shown this key. */
  ghost predicate ShownOnly(staged: seq<Staging>, peer: string, key: nat) {
    forall i :: 0 <= i < |staged| && staged[i].peer == peer ==> staged[i].shown == key
  }

  lemma StagingsOneMore(signKey: nat, staged: seq<Staging>, secrets: map<string, Record>, st: Staging, r: Record)
    requires StagingsOK(signKey, staged, secrets) && StagedWell(signKey, st) && r.hash == Hash(st.session.ciphertext)
    ensures StagingsOK(signKey, staged + [st], secrets) && StagingsOK(signKey, staged + [st], secrets[st.peer := r])
  {
    var longer := staged + [st];
    assert longer[|staged|] == st;
    forall id | id in secrets && secrets[id].shared.Some? ensures WasStaged(longer, id, secrets[id].hash.of) {
      var i :| 0 <= i < |staged| && staged[i].peer == id && staged[i].session.ciphertext == secrets[id].hash.of;
      assert longer[i] == staged[i];
    }
  }

  /** Which node of the netmap is the initiator and which the recipient. */
  function Ends(nm: Netmap, peer: Node, s: Session): (Node, Node) {
    if nm.self.id == s.initiatorID then (nm.self, peer) else (peer, nm.self)
  }

  /** The signature is the initiator's, by the key this netmap shows for it, over all of the session. */
  ghost predicate SignedByInitiator(nm: Netmap, peer: Node, s: Session) {
    var initiator := if nm.self.id == s.initiatorID then nm.self else peer;
    && initiator.signSized
    && s.signature == Signature(initiator.signKey, s.initiatorID, s.recipientID, s.epoch, s.ciphertext)
  }

  /** s is well formed and signed by its initiator, as this netmap shows it. */
  ghost predicate Authentic(nm: Netmap, peer: Node, s: Session) {
    && s.initiatorID != s.recipientID && s.epoch != 0 && s.ciphertext.wellSized
    && SignedByInitiator(nm, peer, s)
  }

  /** This side's stored state lets it derive from s. */
  ghost predicate Derivable(nm: Netmap, peer: Node, s: Session, secrets: map<string, Record>, saveOK: bool) {
    && Authentic(nm, peer, s) && (if nm.self.id == s.initiatorID then peer else nm.self).kemSized
    && if nm.self.id == s.initiatorID then HoldsRecord(secrets, peer.id, s) && secrets[peer.id].shared.Some?
       else HoldsRecord(secrets, peer.id, s) || (saveOK && (peer.id in secrets ==> secrets[peer.id].epoch < s.epoch))
  }

  /** The key this side derives from s. */
  ghost function PskFor(nm: Netmap, peer: Node, s: Session, kemKey: nat): Psk {
    var mine := nm.self.id == s.initiatorID;
    var initiator, recipient := if mine then nm.self else peer, if mine then peer else nm.self;
    Psk(if nm.self.id == s.initiatorID then Opened(s.ciphertext.madeFor, s.ciphertext.nonce)
        else Decapsulate(kemKey, s.ciphertext),
        s.initiatorID, s.recipientID, s.epoch, initiator.wgKey, recipient.wgKey, recipient.kemKey)
  }

  /** The peer can receive a session and this node can sign one. */
  predicate Capable(nm: Netmap, peer: Node) { peer.kemSized && nm.self.signSized }

  /** The peer's key was derived from its session, or a new session was published for it. */
  ghost predicate Served(id: string, derived: seq<Derivation>, published: seq<Session>) {
    || (exists i :: 0 <= i < |derived| && derived[i].peer == id)
    || (exists i :: 0 <= i < |published| && published[i].recipientID == id)
  }

  /** The stagings from before to after are for peers of the netmap, under the keys it shows for them. */
  ghost predicate StagedFrom(nm: Netmap, before: seq<Staging>, after: seq<Staging>) {
    && before <= after
    && forall i :: |before| <= i < |after| ==>
         exists p :: p in nm.peers && after[i].peer == p.id && after[i].shown == p.kemKey
  }

  class Daemon {
    const requirePQC: bool
    const kemKey: nat
    const signKey: nat
    var secrets: map<string, Record>
    ghost var derived: seq<Derivation>
    ghost var staged: seq<Staging>

    ghost predicate Valid()
      reads this
    {
      && (forall id :: id in secrets ==> RecordOK(secrets[id]))
      && Ordered(derived) && StagingsOK(signKey, staged, secrets)
      && (forall i :: 0 <= i < |derived| ==> RecordCovers(secrets, derived[i]))
    }

    constructor (requirePQC: bool, kemKey: nat, signKey: nat)
      ensures Valid() && derived == [] && staged == [] && secrets == map[]
      ensures this.requirePQC == requirePQC && this.kemKey == kemKey && this.signKey == signKey
    {
      this.requirePQC, this.kemKey, this.signKey := requirePQC, kemKey, signKey;
      secrets, derived, staged := map[], [], [];
    }

    /** Moving a peer's record to a higher epoch loses nothing that was derived. */
    lemma AdvanceKeeps(peer: string, r: Record)
      requires Valid() && RecordOK(r) && (peer in secrets ==> secrets[peer].epoch < r.epoch)
      ensures forall i :: 0 <= i < |derived| ==> RecordCovers(secrets[peer := r], derived[i])
      ensures var next := secrets[peer := r]; forall id :: id in next ==> RecordOK(next[id])
    {
      forall i | 0 <= i < |derived| ensures RecordCovers(secrets[peer := r], derived[i]) {
        assert RecordCovers(secrets, derived[i]);
      }
    }

    /** The secret the recipient's or the initiator's side contributes; None when this side may not derive. */
    method SharedFor(nm: Netmap, peerID: string, s: Session, saveOK: bool) returns (shared: Option<Secret>)
      requires Valid() && 0 < s.epoch <= MAX_UINT64
      modifies this`secrets
      ensures Valid()
      ensures secrets == old(secrets) || (secrets == old(secrets)[peerID := Record(s.epoch, Hash(s.ciphertext), None)]
                                          && (peerID in old(secrets) ==> old(secrets)[peerID].epoch < s.epoch))
      ensures shared.Some? ==>
                peerID in secrets && secrets[peerID].epoch == s.epoch && secrets[peerID].hash == Hash(s.ciphertext)
      ensures nm.self.id == s.initiatorID ==> secrets == old(secrets)
      ensures nm.self.id == s.initiatorID ==>
                shared == if HoldsRecord(old(secrets), peerID, s) then old(secrets)[peerID].shared else None
      ensures shared.Some? && nm.self.id != s.initiatorID ==> shared.value == Decapsulate(kemKey, s.ciphertext)
      ensures nm.self.id != s.initiatorID ==>
                (shared.Some? <==>
                 HoldsRecord(old(secrets), peerID, s)
                 || (saveOK && (peerID in old(secrets) ==> old(secrets)[peerID].epoch < s.epoch)))
    {
      var hash := Hash(s.ciphertext);
      if nm.self.id == s.initiatorID {
        if peerID !in secrets || secrets[peerID].epoch != s.epoch || secrets[peerID].hash != hash {
          return None;
        }
        return secrets[peerID].shared;
      }
      if peerID in secrets && s.epoch < secrets[peerID].epoch {
        return None;
      }
      if peerID in secrets && s.epoch == secrets[peerID].epoch && secrets[peerID].hash != hash {
        return None;
      }
      if peerID !in secrets || s.epoch > secrets[peerID].epoch {
        if !saveOK {
          return None;
        }
        AdvanceKeeps(peerID, Record(s.epoch, hash, None));
        secrets := secrets[peerID := Record(s.epoch, hash, None)];
      }
      return Some(Decapsulate(kemKey, s.ciphertext));
    }

    /** pqPresharedKey. */
    method PresharedKey(nm: Netmap, peer: Node, saveOK: bool) returns (psk: Option<Psk>, ready: bool)
      requires Valid() && forall s :: s in nm.sessions ==> s.epoch <= MAX_UINT64
      modifies this
      ensures Valid() && old(derived) <= derived && staged == old(staged)
      ensures forall id :: id != peer.id ==>
                (id in secrets <==> id in old(secrets)) && (id in secrets ==> secrets[id] == old(secrets)[id])
      ensures peer.id in old(secrets) ==> peer.id in secrets && old(secrets)[peer.id].epoch <= secrets[peer.id].epoch
      ensures psk.None? ==> derived == old(derived)
      ensures psk.Some? ==> exists s :: OnlySession(nm, peer.id, s) && SignedByInitiator(nm, peer, s) && s.epoch > 0
      ensures (forall s :: !OnlySession(nm, peer.id, s)) ==>
                psk.None? && ready == !requirePQC && secrets == old(secrets)
      ensures forall s :: OnlySession(nm, peer.id, s) ==>
                if Derivable(nm, peer, s, old(secrets), saveOK)
                then ready && psk == Some(PskFor(nm, peer, s, kemKey)) && HoldsRecord(secrets, peer.id, s)
                     && derived == old(derived) + [Derivation(peer.id, s.epoch, s.ciphertext)]
                else psk.None? && !ready
    {
      var s, ok := SessionFor(nm, peer.id);
      if !ok {
        return None, !requirePQC;
      }
      forall t | OnlySession(nm, peer.id, t) ensures t == s { OnlySessionIsUnique(nm, peer.id, s, t); }
      if s.initiatorID == s.recipientID || s.epoch == 0 || !s.ciphertext.wellSized {
        return None, false;
      }
      var (initiator, recipient) := Ends(nm, peer, s);
      if !VerifySession(initiator.signKey, initiator.signSized, s) {
        return None, false;
      }
      assert s in nm.sessions;
      var shared := SharedFor(nm, peer.id, s, saveOK);
      if shared.None? || !recipient.kemSized {
        return None, false;
      }
      ghost var d := Derivation(peer.id, s.epoch, s.ciphertext);
      DerivationKeepsOrder(d);
      derived := derived + [d];
      return Some(Psk(shared.value, s.initiatorID, s.recipientID, s.epoch, initiator.wgKey, recipient.wgKey,
                      recipient.kemKey)), true;
    }

    /** Deriving at the stored epoch and ciphertext keeps the order. */
    lemma DerivationKeepsOrder(d: Derivation)
      requires Valid() && RecordCovers(secrets, d) && secrets[d.peer].epoch == d.epoch
      ensures Ordered(derived + [d])
    {
      var longer := derived + [d];
      forall i, j | 0 <= i < j < |longer| && longer[i].peer == longer[j].peer
        ensures longer[i].epoch <= longer[j].epoch
        ensures longer[i].epoch == longer[j].epoch ==> longer[i].ciphertext == longer[j].ciphertext
      {
        if j == |derived| {
          assert RecordCovers(secrets, derived[i]);
        }
      }
    }

    /** Stage, publish and roll back one new session, as one step. */
    method StageSession(nm: Netmap, peer: Node, current: Session, nonce: nat, saveOK: bool, publishOK: bool,
                        rollbackOK: bool)
        returns (published: Option<Session>)
      requires Valid() && nm.version <= MAX_UINT64 && current.epoch <= MAX_UINT64
      modifies this`secrets, this`staged
      ensures Valid()
      ensures staged == old(staged)
              || (|staged| == |old(staged)| + 1 && old(staged) <= staged && staged[|old(staged)|].peer == peer.id
                  && staged[|old(staged)|].shown == peer.kemKey)
      ensures published.Some? ==> staged == old(staged) + [Staging(peer.id, peer.kemKey, published.value)]
      ensures published.Some? ==>
                var s, previous := published.value, if peer.id in old(secrets) then old(secrets)[peer.id].epoch else 0;
                && previous < s.epoch && current.epoch < s.epoch && nm.version <= s.epoch <= MAX_UINT64
                && s.initiatorID == nm.self.id && s.recipientID == peer.id
                && s.ciphertext == Ciphertext(peer.kemKey, nonce, true)
                && VerifySession(signKey, true, s)
                && var made := Record(s.epoch, Hash(s.ciphertext), Some(Opened(peer.kemKey, nonce)));
                   secrets == old(secrets)[peer.id := made]
      ensures published.None? && (!saveOK || publishOK || rollbackOK) ==> secrets == old(secrets)
      ensures saveOK && publishOK ==>
                (published.None? <==>
                 current.epoch == MAX_UINT64 || (peer.id in old(secrets) && old(secrets)[peer.id].epoch == MAX_UINT64))
    {
      var hadPrevious := peer.id in secrets;
      var previous := if hadPrevious then secrets[peer.id] else NO_RECORD;
      var epoch := ChooseEpoch(nm.version, previous.epoch, current.epoch);
      if epoch.None? {
        return None;
      }
      var ct := Ciphertext(peer.kemKey, nonce, true);
      var signature := Signature(signKey, nm.self.id, peer.id, epoch.value, ct);
      var record := Record(epoch.value, Hash(ct), Some(Opened(peer.kemKey, nonce)));
      if !saveOK {
        return None;
      }
      AdvanceKeeps(peer.id, record);
      var session := Session(nm.self.id, peer.id, epoch.value, ct, signature);
      StagingsOneMore(signKey, staged, secrets, Staging(peer.id, peer.kemKey, session), record);
      staged := staged + [Staging(peer.id, peer.kemKey, session)];
      secrets := secrets[peer.id := record];
      if !publishOK {
        // rollbackPQSecret
        if peer.id in secrets && secrets[peer.id] == record && rollbackOK {
          secrets := if hadPrevious then secrets[peer.id := previous] else secrets - {peer.id};
          assert secrets == old(secrets);
        }
        return None;
      }
      return Some(session);
    }

    /** A later derivation or publication does not undo an earlier one. */
    static lemma ServedOneMore(nm: Netmap, i: nat, derived: seq<Derivation>, published: seq<Session>,
                               moreDerived: seq<Derivation>, morePublished: seq<Session>)
      requires i < |nm.peers| && Served(nm.peers[i].id, moreDerived, morePublished)
      requires forall k :: 0 <= k < i && Capable(nm, nm.peers[k]) ==> Served(nm.peers[k].id, derived, published)
      ensures forall k :: 0 <= k <= i && Capable(nm, nm.peers[k]) ==>
                Served(nm.peers[k].id, derived + moreDerived, published + morePublished)
    {
      forall k | 0 <= k <= i && Capable(nm, nm.peers[k])
        ensures Served(nm.peers[k].id, derived + moreDerived, published + morePublished)
      {
        StillServed(nm.peers[k].id, derived, published, moreDerived, morePublished);
      }
    }

    static lemma StillServed(id: string, derived: seq<Derivation>, published: seq<Session>,
                             moreDerived: seq<Derivation>, morePublished: seq<Session>)
      requires Served(id, derived, published) || Served(id, moreDerived, morePublished)
      ensures Served(id, derived + moreDerived, published + morePublished)
    {
      var ds, ps := derived + moreDerived, published + morePublished;
      assert forall i :: 0 <= i < |derived| ==> ds[i] == derived[i];
      assert forall i :: 0 <= i < |moreDerived| ==> ds[|derived| + i] == moreDerived[i];
      assert forall i :: 0 <= i < |published| ==> ps[i] == published[i];
      assert forall i :: 0 <= i < |morePublished| ==> ps[|published| + i] == morePublished[i];
    }

    /** One capable peer of ensurePQSessions: its session serves, or a new one is published. */
    method EnsureOne(nm: Netmap, peer: Node, nonce: nat, saveOK: bool, publishOK: bool, rollbackOK: bool)
        returns (published: seq<Session>, failed: bool)
      requires Valid() && InRange(nm)
      requires peer in nm.peers
      modifies this
      ensures Valid() && old(derived) <= derived && StagedFrom(nm, old(staged), staged)
      ensures |published| <= 1 && forall i :: 0 <= i < |published| ==> GoodSession(nm, published[i])
      ensures failed ==> published == []
      ensures !failed ==> Served(peer.id, derived[|old(derived)|..], published)
      ensures forall s :: OnlySession(nm, peer.id, s) && Derivable(nm, peer, s, old(secrets), saveOK) ==>
                !failed && published == []
      ensures saveOK && publishOK && failed ==>
                (exists s :: s in nm.sessions && s.epoch == MAX_UINT64)
                || (peer.id in secrets && secrets[peer.id].epoch == MAX_UINT64)
    {
      published, failed := [], false;
      var current, hasCurrent := SessionFor(nm, peer.id);
      var ready := false;
      if hasCurrent {
        var psk;
        psk, ready := PresharedKey(nm, peer, saveOK);
        assert current in nm.sessions;
      }
      if ready {
        assert derived[|old(derived)|..][0].peer == peer.id;
        return;
      }
      var session := StageSession(nm, peer, current, nonce, saveOK, publishOK, rollbackOK);
      if session.None? {
        return [], true;
      }
      published := [session.value];
      assert published[0].recipientID == peer.id;
    }

    /** ensurePQSessions: every capable peer without a usable session gets a new one; the first failure stops. */
    method EnsureSessions(nm: Netmap, nonces: nat -> nat, saveOK: nat -> bool, publishOK: nat -> bool,
                          rollbackOK: nat -> bool)
        returns (published: seq<Session>, failed: bool)
      requires Valid() && InRange(nm)
      modifies this
      ensures Valid() && old(derived) <= derived && StagedFrom(nm, old(staged), staged)
      ensures !requirePQC ==> published == [] && !failed && secrets == old(secrets)
      ensures requirePQC && !failed ==> forall i :: 0 <= i < |nm.peers| && Capable(nm, nm.peers[i]) ==>
                                          Served(nm.peers[i].id, derived[|old(derived)|..], published)
      ensures forall i :: 0 <= i < |published| ==> GoodSession(nm, published[i])
    {
      published, failed := [], false;
      if !requirePQC {
        return;
      }
      for i := 0 to |nm.peers|
        invariant Valid() && old(derived) <= derived && StagedFrom(nm, old(staged), staged) && !failed
        invariant forall k :: 0 <= k < i && Capable(nm, nm.peers[k]) ==>
                    Served(nm.peers[k].id, derived[|old(derived)|..], published)
        invariant forall k :: 0 <= k < |published| ==> GoodSession(nm, published[k])
      {
        var peer := nm.peers[i];
        if Capable(nm, peer) {
          ghost var before := derived;
          var more, stop := EnsureOne(nm, peer, nonces(i), saveOK(i), publishOK(i), rollbackOK(i));
          if stop {
            failed := true;
            return;
          }
          ServedOneMore(nm, i, before[|old(derived)|..], published, derived[|before|..], more);
          assert derived[|old(derived)|..] == before[|old(derived)|..] + derived[|before|..];
          published := published + more;
        }
      }
    }

    /**
     A published session is this node's, signed, for a peer and its KEM key, at an epoch from the netmap version up.
     */
    ghost predicate GoodSession(nm: Netmap, s: Session) {
      && s.initiatorID == nm.self.id && nm.version <= s.epoch <= MAX_UINT64
      && VerifySession(signKey, true, s)
      && exists p :: p in nm.peers && s.recipientID == p.id && s.ciphertext.madeFor == p.kemKey
    }
  }

  // ---------------------------------------------------------------- agreement

  /** The two netmaps agree on what the derivation binds: both WireGuard keys and the recipient's KEM key. */
  predicate KeysAgree(nmA: Netmap, peerB: Node, nmB: Netmap, peerA: Node) {
    nmA.self.wgKey == peerA.wgKey && peerB.wgKey == nmB.self.wgKey && peerB.kemKey == nmB.self.kemKey
  }

  /** Both sides show each other, under distinct ids, and the same single session started by a. */
  ghost predicate SameSession(nmA: Netmap, peerB: Node, nmB: Netmap, peerA: Node, s: Session) {
    && nmA.self.id == peerA.id == s.initiatorID && nmB.self.id == peerB.id == s.recipientID && peerA.id != peerB.id
    && OnlySession(nmA, peerB.id, s) && OnlySession(nmB, peerA.id, s)
  }

  lemma OnlySessionIsUnique(nm: Netmap, peerID: string, s: Session, t: Session)
    requires OnlySession(nm, peerID, s) && OnlySession(nm, peerID, t)
    ensures s == t
  {
  }

  /**
   Two endpoints that both derive from one session hold the same key exactly when the netmap had shown the initiator
   the recipient's own KEM key when it staged that session, whatever the coordinator put in the netmaps since.
   */
  method TwoPartyAgreement(a: Daemon, b: Daemon, nmA: Netmap, peerB: Node, nmB: Netmap, peerA: Node,
                           ghost s: Session, saveA: bool, saveB: bool)
      returns (pskA: Option<Psk>, pskB: Option<Psk>)
    requires a != b && a.Valid() && b.Valid() && InRange(nmA) && InRange(nmB)
    requires SameSession(nmA, peerB, nmB, peerA, s) && KeysAgree(nmA, peerB, nmB, peerA)
    modifies a, b
    ensures a.Valid() && b.Valid() && a.staged == old(a.staged)
    ensures pskA.Some? <==> Derivable(nmA, peerB, s, old(a.secrets), saveA)
    ensures pskB.Some? <==> Derivable(nmB, peerA, s, old(b.secrets), saveB)
    ensures pskA.Some? && pskB.Some? ==> WasStaged(a.staged, peerB.id, s.ciphertext)
    ensures pskA.Some? && pskB.Some? ==>
              forall st :: st in a.staged && st.peer == peerB.id && st.session.ciphertext == s.ciphertext ==>
                (pskA == pskB <==> st.shown == b.kemKey)
  {
    ghost var records := a.secrets;
    var readyA, readyB;
    pskA, readyA := a.PresharedKey(nmA, peerB, saveA);
    pskB, readyB := b.PresharedKey(nmB, peerA, saveB);
    if pskA.Some? && pskB.Some? {
      assert pskA.value == PskFor(nmA, peerB, s, a.kemKey) && pskB.value == PskFor(nmB, peerA, s, b.kemKey);
      assert HoldsRecord(records, peerB.id, s) && records[peerB.id].shared.Some?;
      assert StagingsOK(a.signKey, a.staged, records);
    }
  }

  /** What a node does with the netmaps the coordinator sends it. */
  datatype Op =
    | Ensure(nm: Netmap, nonces: nat -> nat, saves: nat -> bool, publishes: nat -> bool, rollbacks: nat -> bool)
    | Derive(nm: Netmap, peer: Node, saves: nat -> bool)

  ghost predicate AllInRange(ops: seq<Op>) { forall i :: 0 <= i < |ops| ==> InRange(ops[i].nm) }

  /** Every netmap sent shows this key for the peer. */
  ghost predicate AlwaysShows(ops: seq<Op>, peer: string, key: nat) {
    forall i, p :: 0 <= i < |ops| && p in ops[i].nm.peers && p.id == peer ==> p.kemKey == key
  }

  /** A new node fed any netmaps: its invariant holds, and a peer always shown one key is staged under that key only. */
  method RunNode(requirePQC: bool, kemKey: nat, signKey: nat, ops: seq<Op>) returns (d: Daemon)
    requires AllInRange(ops)
    ensures fresh(d) && d.Valid() && d.kemKey == kemKey
    ensures forall peer, key :: AlwaysShows(ops, peer, key) ==> ShownOnly(d.staged, peer, key)
  {
    d := new Daemon(requirePQC, kemKey, signKey);
    for i := 0 to |ops|
      invariant fresh(d) && d.Valid() && d.kemKey == kemKey
      invariant forall peer, key :: AlwaysShows(ops, peer, key) ==> ShownOnly(d.staged, peer, key)
    {
      ghost var before := d.staged;
      match ops[i] {
        case Ensure(nm, nonces, saves, publishes, rollbacks) =>
          var published, failed := d.EnsureSessions(nm, nonces, saves, publishes, rollbacks);
        case Derive(nm, peer, saves) =>
          var psk, ready := d.PresharedKey(nm, peer, saves(0));
      }
      ShownSince(ops, i, before, d.staged);
    }
  }

  lemma ShownSince(ops: seq<Op>, i: nat, before: seq<Staging>, after: seq<Staging>)
    requires i < |ops| && StagedFrom(ops[i].nm, before, after)
    requires forall peer, key :: AlwaysShows(ops, peer, key) ==> ShownOnly(before, peer, key)
    ensures forall peer, key :: AlwaysShows(ops, peer, key) ==> ShownOnly(after, peer, key)
  {
  }

  /**
   Over any two histories: if the netmaps sent to the initiator always showed the recipient's own KEM key, two nodes
   that derive from one session hold the same key, whatever else the coordinator did.
   */
  method HonestlyShownAgree(opsA: seq<Op>, opsB: seq<Op>, keys: (nat, nat, nat, nat), nmA: Netmap, peerB: Node,
                            nmB: Netmap, peerA: Node, ghost s: Session, saveA: bool, saveB: bool)
      returns (pskA: Option<Psk>, pskB: Option<Psk>)
    requires AllInRange(opsA) && AllInRange(opsB) && InRange(nmA) && InRange(nmB)
    requires SameSession(nmA, peerB, nmB, peerA, s) && KeysAgree(nmA, peerB, nmB, peerA)
    requires AlwaysShows(opsA, peerB.id, keys.2)
    ensures pskA.Some? && pskB.Some? ==> pskA == pskB
  {
    var a := RunNode(true, keys.0, keys.1, opsA);
    var b := RunNode(true, keys.2, keys.3, opsB);
    pskA, pskB := TwoPartyAgreement(a, b, nmA, peerB, nmB, peerA, s, saveA, saveB);
  }

  /** No one but its holder signs with the key: such a signature in the netmap is on a session the holder handed out. */
  ghost predicate Unforged(nm: Netmap, signKey: nat, staged: seq<Staging>) {
    forall t :: t in nm.sessions && t.signature.signer == signKey ==>
      exists st :: st in staged && st.session.signature == t.signature
  }

  /**
   A node derives as recipient only from a session that its initiator made for it: the one named in the key, at that
   epoch. The secret is the one the initiator encapsulated exactly when the initiator was shown this node's KEM key.
   */
  method DerivesOnlyWhatWasSigned(a: Daemon, b: Daemon, nmB: Netmap, peerA: Node, saveB: bool)
      returns (psk: Option<Psk>)
    requires a != b && a.Valid() && b.Valid() && InRange(nmB)
    requires peerA.signKey == a.signKey && Unforged(nmB, a.signKey, a.staged)
    modifies b
    ensures a.Valid() && b.Valid()
    ensures psk.Some? && psk.value.initiatorID != nmB.self.id ==>
              exists st :: st in a.staged && st.peer == nmB.self.id && st.session.epoch == psk.value.epoch
                           && st.session.initiatorID == psk.value.initiatorID == peerA.id
                           && (st.shown == b.kemKey <==>
                               psk.value.secret == Opened(st.shown, st.session.ciphertext.nonce))
  {
    var ready;
    psk, ready := b.PresharedKey(nmB, peerA, saveB);
    if psk.Some? && psk.value.initiatorID != nmB.self.id {
      ghost var s :| OnlySession(nmB, peerA.id, s) && SignedByInitiator(nmB, peerA, s) && s.epoch > 0;
      assert psk.value == PskFor(nmB, peerA, s, b.kemKey) && s in nmB.sessions;
      ghost var st :| st in a.staged && st.session.signature == s.signature;
      assert StagedWell(a.signKey, st);
    }
  }

  /**
   The condition is needed: a coordinator that shows the initiator a wrong KEM key while it stages, and the right
   one afterwards, leaves two endpoints that agree on every node key and derive different keys.
   */
  method StagedForAnotherKey() returns (pskA: Option<Psk>, pskB: Option<Psk>)
    ensures pskA.Some? && pskB.Some? && pskA != pskB
  {
    var a := new Daemon(true, 1, 11);
    var b := new Daemon(true, 2, 22);
    var nodeA, nodeB := Node("a", 101, 1, true, 11, true), Node("b", 102, 2, true, 22, true);
    var shown := nodeB.(kemKey := 3);
    var staging := Netmap(7, nodeA, [shown], []);
    var session := a.StageSession(staging, shown, NO_SESSION, 5, true, true, true);
    var s := session.value;
    var nmA, nmB := Netmap(8, nodeA, [nodeB], [s]), Netmap(8, nodeB, [nodeA], [s]);
    assert nmA.sessions[0] == s && nmB.sessions[0] == s;
    assert OnlySession(nmA, "b", s) && OnlySession(nmB, "a", s);
    pskA, pskB := TwoPartyAgreement(a, b, nmA, nodeB, nmB, nodeA, s, true, true);
  }
}
