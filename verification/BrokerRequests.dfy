/** Signed broker requests, freshness and the replay cache (src/project_maya/broker.py). */
module BrokerRequests {
  import opened Sequences

  const PROTOCOL_VERSION := "maya-broker-v1"

  /** Times are microseconds; a minute of clock skew is tolerated. */
  const SECOND: int := 1_000_000
  const MINUTE: int := 60 * SECOND

  /** A time stamp in a request: readable, or not an ISO time. */
  datatype Stamp = At(time: int) | Malformed

  /** The digest of the canonical JSON of a body; keys are sorted there, so a body is a map. */
  datatype Digest = Digest(body: map<string, string>)

  datatype Payload = Payload(
    version: string,
    instanceId: string,
    keyId: string,
    verb: string,
    path: string,
    bodyHash: Digest,
    nonce: string,
    issuedAt: Stamp,
    expiresAt: Stamp)

  /** An ideal signature names the key pair and the payload it was made for. */
  datatype Signature = SignedBy(keyPair: nat, payload: Payload) | Forged(text: string)

  datatype Request = Request(payload: Payload, signature: Signature)

  datatype Identity = Identity(instanceId: string, keyId: string)

  datatype Verdict =
    | Accepted
    | BadProtocol | BodyMismatch | BadTimestamp | FromFuture | Expired | BadSignature | Replayed

  function UpperChar(c: char): char
  {
    if 'a' <= c <= 'z' then c - 'a' + 'A' else c
  }

  function Upper(s: string): string
  {
    Map(s, UpperChar)
  }

  /** `sign_broker_request`. */
  function SignRequest(id: Identity, keyPair: nat, verb: string, path: string, body: map<string, string>,
                       nonce: string, ttlSeconds: int, now: int): Request
  {
    var payload := Payload(PROTOCOL_VERSION, id.instanceId, id.keyId, Upper(verb), path, Digest(body), nonce,
                           At(now), At(now + ttlSeconds * SECOND));
    Request(payload, SignedBy(keyPair, payload))
  }

  /** `_require_fresh`, None when the times are in order. */
  function Freshness(issuedAt: Stamp, expiresAt: Stamp, now: int): Option<Verdict>
  {
    if issuedAt.Malformed? || expiresAt.Malformed? then Some(BadTimestamp)
    else if issuedAt.time > now + MINUTE then Some(FromFuture)
    else if expiresAt.time <= now then Some(Expired)
    else None
  }

  /** One call of the verifier. */
  datatype Attempt = Attempt(request: Request, keyPair: nat, body: map<string, string>, now: int)

  /** Every check but the replay cache, in the order of the code. */
  function Check(a: Attempt): Verdict
  {
    var p := a.request.payload;
    if p.version != PROTOCOL_VERSION then BadProtocol
    else if p.bodyHash != Digest(a.body) then BodyMismatch
    else match Freshness(p.issuedAt, p.expiresAt, a.now)
      case Some(verdict) => verdict
      case None => if a.request.signature == SignedBy(a.keyPair, p) then Accepted else BadSignature
  }

  function Verify(seen: set<string>, a: Attempt): Verdict
  {
    if Check(a) == Accepted && a.request.payload.nonce in seen then Replayed else Check(a)
  }

  function SeenAfter(seen: set<string>, a: Attempt): set<string>
  {
    if Verify(seen, a) == Accepted then seen + {a.request.payload.nonce} else seen
  }

  class ReplayCache {
    var seen: set<string>

    constructor ()
      ensures seen == {}
    {
      seen := {};
    }

    method Remember(nonce: string) returns (isNew: bool)
      modifies this
      ensures isNew <==> nonce !in old(seen)
      ensures seen == old(seen) + {nonce}
    {
      isNew := nonce !in seen;
      if isNew {
        seen := seen + {nonce};
      }
    }
  }

  /** `verify_broker_request`: only an accepted request changes the cache; without a cache nothing counts as
      replayed. */
  method VerifyRequest(cache: ReplayCache?, a: Attempt) returns (verdict: Verdict)
    modifies if cache == null then {} else {cache}
    ensures cache == null ==> verdict == Check(a)
    ensures cache != null ==>
      && verdict == Verify(old(cache.seen), a)
      && cache.seen == SeenAfter(old(cache.seen), a)
      && (verdict != Accepted ==> cache.seen == old(cache.seen))
  {
    var p := a.request.payload;
    if p.version != PROTOCOL_VERSION {
      return BadProtocol;
    }
    if p.bodyHash != Digest(a.body) {
      return BodyMismatch;
    }
    var freshness := Freshness(p.issuedAt, p.expiresAt, a.now);
    if freshness != None {
      return freshness.value;
    }
    if a.request.signature != SignedBy(a.keyPair, p) {
      return BadSignature;
    }
    if cache == null {
      return Accepted;
    }
    var isNew := cache.Remember(p.nonce);
    verdict := if isNew then Accepted else Replayed;
  }

  /** A signed request verifies exactly within its time window, with the same body and key pair, and when
      its nonce was not seen. */
  lemma SignedRequestVerifiesIff(
    id: Identity, keyPair: nat, verb: string, path: string, body: map<string, string>, nonce: string, ttl: int,
    issued: int, seen: set<string>, keyUsed: nat, bodySeen: map<string, string>, now: int)
    ensures var request := SignRequest(id, keyPair, verb, path, body, nonce, ttl, issued);
      Verify(seen, Attempt(request, keyUsed, bodySeen, now)) == Accepted <==>
        && issued <= now + MINUTE && now < issued + ttl * SECOND
        && bodySeen == body && keyUsed == keyPair && nonce !in seen
  {
    assert Digest(bodySeen) == Digest(body) <==> bodySeen == body;
  }

  /** A signature made for one payload is accepted for no other: nothing signed can be altered. */
  lemma AlteredRequestFails(request: Request, altered: Payload, a: Attempt, seen: set<string>)
    requires request.signature == SignedBy(a.keyPair, request.payload) && altered != request.payload
    requires a.request == Request(altered, request.signature)
    ensures Verify(seen, a) != Accepted && SeenAfter(seen, a) == seen
  {
  }

  /** Two requests are signed alike exactly when identity, key pair, verb up to case, path, body, nonce, time of
      issue and of expiry agree: nothing is left out of the signature. */
  lemma SignatureBindsAll(
    id: Identity, keyPair: nat, verb: string, path: string, body: map<string, string>, nonce: string, ttl: int,
    now: int,
    id': Identity, keyPair': nat, verb': string, path': string, body': map<string, string>, nonce': string, ttl': int,
    now': int)
    ensures var a := SignRequest(id, keyPair, verb, path, body, nonce, ttl, now);
      var b := SignRequest(id', keyPair', verb', path', body', nonce', ttl', now');
      a.signature == b.signature <==>
      && id == id' && keyPair == keyPair' && Upper(verb) == Upper(verb') && path == path' && body == body'
      && nonce == nonce' && now == now' && ttl == ttl'
  {
    assert Digest(body) == Digest(body') <==> body == body';
  }

  /** Two verbs are the same up to case when they differ in the case of Latin letters only. */
  lemma UpperIff(s: string, t: string)
    ensures Upper(s) == Upper(t) <==>
      |s| == |t| && forall i :: 0 <= i < |s| ==>
        || s[i] == t[i]
        || ('A' <= s[i] <= 'Z' && t[i] as int == s[i] as int + 32)
        || ('A' <= t[i] <= 'Z' && s[i] as int == t[i] as int + 32)
  {
    if |s| == |t| && Upper(s) == Upper(t) {
      forall i | 0 <= i < |s| ensures UpperChar(s[i]) == UpperChar(t[i]) {
        assert Upper(s)[i] == Upper(t)[i];
      }
    }
    assert |Upper(s)| == |s| && |Upper(t)| == |t|;
  }

  /** Any request, however it was made, passes exactly with the protocol's version, the digest of the body at
      hand, readable times of which the first is at most a minute ahead and the second not reached, a signature
      of the key pair over all its fields, and a nonce that was not seen. */
  lemma AcceptedIff(seen: set<string>, a: Attempt)
    ensures Verify(seen, a) == Accepted <==>
      var p := a.request.payload;
      && p.version == "maya-broker-v1" && p.bodyHash == Digest(a.body)
      && p.issuedAt.At? && p.expiresAt.At?
      && p.issuedAt.time <= a.now + 60_000_000 && a.now < p.expiresAt.time
      && a.request.signature == SignedBy(a.keyPair, p)
      && p.nonce !in seen
  {
  }

  /** Why a request fails is told by the first of the checks it fails. */
  lemma VerdictByFields(seen: set<string>, a: Attempt)
    ensures
      var p, verdict := a.request.payload, Verify(seen, a);
      var timely := p.issuedAt.At? && p.expiresAt.At?
        && p.issuedAt.time <= a.now + 60_000_000 && a.now < p.expiresAt.time;
      && (verdict == BadProtocol <==> p.version != "maya-broker-v1")
      && (verdict == BodyMismatch <==> p.version == "maya-broker-v1" && p.bodyHash != Digest(a.body))
      && (verdict in {BadTimestamp, FromFuture, Expired} <==>
            p.version == "maya-broker-v1" && p.bodyHash == Digest(a.body) && !timely)
      && (verdict == BadSignature <==>
            p.version == "maya-broker-v1" && p.bodyHash == Digest(a.body) && timely
            && a.request.signature != SignedBy(a.keyPair, p))
      && (verdict in {FromFuture, Expired} ==> p.issuedAt.At? && p.expiresAt.At?)
      && (verdict == FromFuture ==> p.issuedAt.time > a.now + 60_000_000)
      && (verdict == Expired ==> p.expiresAt.time <= a.now && p.issuedAt.time <= a.now + 60_000_000)
  {
  }

  /* ----- runs that share a cache ----- */

  function SeenAfterAll(seen: set<string>, attempts: seq<Attempt>): set<string>
  {
    if attempts == [] then seen
    else SeenAfter(SeenAfterAll(seen, attempts[..|attempts| - 1]), attempts[|attempts| - 1])
  }

  /** The verdict on the i-th attempt of a run. */
  function VerdictAt(seen: set<string>, attempts: seq<Attempt>, i: nat): Verdict
    requires i < |attempts|
  {
    Verify(SeenAfterAll(seen, attempts[..i]), attempts[i])
  }

  function NonceAt(attempts: seq<Attempt>, i: nat): string
    requires i < |attempts|
  {
    attempts[i].request.payload.nonce
  }

  predicate AcceptedNonce(seen: set<string>, attempts: seq<Attempt>, nonce: string)
  {
    exists i :: 0 <= i < |attempts| && VerdictAt(seen, attempts, i) == Accepted && NonceAt(attempts, i) == nonce
  }

  lemma VerdictInPrefix(seen: set<string>, attempts: seq<Attempt>, n: nat, i: nat)
    requires i < n <= |attempts|
    ensures VerdictAt(seen, attempts[..n], i) == VerdictAt(seen, attempts, i)
    ensures NonceAt(attempts[..n], i) == NonceAt(attempts, i)
  {
    assert attempts[..n][..i] == attempts[..i];
  }

  /** After any run the cache is what it was plus exactly the accepted nonces. */
  lemma {:induction false} CacheHoldsAcceptedNonces(seen: set<string>, attempts: seq<Attempt>, nonce: string)
    ensures nonce in SeenAfterAll(seen, attempts) <==> nonce in seen || AcceptedNonce(seen, attempts, nonce)
  {
    if attempts != [] {
      CacheHoldsAcceptedNonces(seen, attempts[..|attempts| - 1], nonce);
      AcceptedStep(seen, attempts, nonce);
    }
  }

  lemma AcceptedStep(seen: set<string>, attempts: seq<Attempt>, nonce: string)
    requires attempts != []
    ensures var n := |attempts| - 1;
      AcceptedNonce(seen, attempts, nonce) <==>
        AcceptedNonce(seen, attempts[..n], nonce)
        || (VerdictAt(seen, attempts, n) == Accepted && NonceAt(attempts, n) == nonce)
  {
    var n := |attempts| - 1;
    forall i | 0 <= i < n
      ensures VerdictAt(seen, attempts[..n], i) == VerdictAt(seen, attempts, i)
      ensures NonceAt(attempts[..n], i) == NonceAt(attempts, i)
    {
      VerdictInPrefix(seen, attempts, n, i);
    }
  }

  /** Over any run a nonce is accepted at most once, and never if the cache knew it from the start. */
  lemma EachNonceAcceptedOnce(seen: set<string>, attempts: seq<Attempt>, i: nat, j: nat)
    requires i < j < |attempts|
    requires VerdictAt(seen, attempts, i) == Accepted && VerdictAt(seen, attempts, j) == Accepted
    ensures NonceAt(attempts, i) != NonceAt(attempts, j) && NonceAt(attempts, j) !in seen
  {
    CacheHoldsAcceptedNonces(seen, attempts[..j], NonceAt(attempts, j));
    VerdictInPrefix(seen, attempts, j, i);
    if NonceAt(attempts, i) == NonceAt(attempts, j) {
      assert AcceptedNonce(seen, attempts[..j], NonceAt(attempts, j));
      assert false;
    }
  }

  /** An attempt is turned away as a replay exactly when it is otherwise in order and its nonce was known at
      the start or accepted earlier in the run. */
  lemma ReplayedIff(seen: set<string>, attempts: seq<Attempt>, j: nat)
    requires j < |attempts|
    ensures VerdictAt(seen, attempts, j) == Replayed <==>
      && Check(attempts[j]) == Accepted
      && (NonceAt(attempts, j) in seen || AcceptedNonce(seen, attempts[..j], NonceAt(attempts, j)))
  {
    CacheHoldsAcceptedNonces(seen, attempts[..j], NonceAt(attempts, j));
  }
}
