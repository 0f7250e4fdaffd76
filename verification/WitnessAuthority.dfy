/** Who may witness an anchor: the keys a profile puts forward, and the verifier that finds
    the one a signature verifies under, importing each key once. */
module WitnessAuthority {
  import opened Basics
  import opened Base64Url
  import opened Delegation

  datatype SigningKey = SigningKey(algorithm: string, publicKey: string, revokedAt: Option<string>)

  datatype Agent = Agent(id: string, publicKey: string, status: string, revokedAt: Option<string>)

  datatype Profile = Profile(
    personId: string, signingKeys: seq<SigningKey>, agents: seq<Agent>, delegations: seq<Stored>
  )

  datatype Candidate = Candidate(submitterId: string, publicKey: string)

  // ---- Candidates ----

  /** A revocation time counts when it is there and not blank. */
  predicate IsSet(revokedAt: Option<string>) {
    revokedAt.Some? && revokedAt.value != ""
  }

  predicate UsableKey(key: SigningKey) {
    key.algorithm == "ed25519" && !IsSet(key.revokedAt)
  }

  function ValidDelegations(delegations: seq<Stored>, event: Stamp): seq<Stored> {
    if delegations == [] then []
    else
      (if CurrentlyValid(delegations[0], event) then [delegations[0]] else [])
      + ValidDelegations(delegations[1..], event)
  }

  predicate Binds(d: Stored, agent: Agent) {
    d.certificate.agentId == agent.id && d.certificate.agentPublicKey == agent.publicKey
  }

  predicate BoundAgent(agent: Agent, valid: seq<Stored>) {
    && agent.status == "active"
    && !IsSet(agent.revokedAt)
    && exists i :: 0 <= i < |valid| && Binds(valid[i], agent)
  }

  function KeyCandidates(personId: string, keys: seq<SigningKey>): seq<Candidate> {
    if keys == [] then []
    else
      var last := keys[|keys| - 1];
      KeyCandidates(personId, keys[..|keys| - 1])
      + if UsableKey(last) then [Candidate(personId, last.publicKey)] else []
  }

  function AgentCandidates(agents: seq<Agent>, valid: seq<Stored>): seq<Candidate> {
    if agents == [] then []
    else
      var last := agents[|agents| - 1];
      AgentCandidates(agents[..|agents| - 1], valid)
      + if BoundAgent(last, valid) then [Candidate(last.id, last.publicKey)] else []
  }

  function Candidates(profile: Profile, event: Stamp): seq<Candidate> {
    var valid := ValidDelegations(profile.delegations, event);
    (if valid != [] then KeyCandidates(profile.personId, profile.signingKeys) else [])
    + AgentCandidates(profile.agents, valid)
  }

  method WitnessAuthorityCandidatesFromProfile(profile: Profile, event: Stamp) returns (candidates: seq<Candidate>)
    ensures candidates == Candidates(profile, event)
  {
    var validDelegations := ValidDelegations(profile.delegations, event);
    candidates := [];
    if |validDelegations| > 0 {
      for i := 0 to |profile.signingKeys|
        invariant candidates == KeyCandidates(profile.personId, profile.signingKeys[..i])
      {
        var key := profile.signingKeys[i];
        assert profile.signingKeys[..i + 1][..i] == profile.signingKeys[..i];
        if key.algorithm == "ed25519" && !IsSet(key.revokedAt) {
          candidates := candidates + [Candidate(profile.personId, key.publicKey)];
        }
      }
      assert profile.signingKeys[..|profile.signingKeys|] == profile.signingKeys;
    }
    ghost var fromKeys := candidates;
    for i := 0 to |profile.agents|
      invariant candidates == fromKeys + AgentCandidates(profile.agents[..i], validDelegations)
    {
      var agent := profile.agents[i];
      assert profile.agents[..i + 1][..i] == profile.agents[..i];
      if agent.status != "active" || IsSet(agent.revokedAt) {
        continue;
      }
      var boundByValidDelegation := exists k :: 0 <= k < |validDelegations| && Binds(validDelegations[k], agent);
      if boundByValidDelegation {
        candidates := candidates + [Candidate(agent.id, agent.publicKey)];
      }
    }
    assert profile.agents[..|profile.agents|] == profile.agents;
  }

  lemma {:induction false} ValidDelegationsAre(delegations: seq<Stored>, event: Stamp, d: Stored)
    ensures d in ValidDelegations(delegations, event) <==> d in delegations && CurrentlyValid(d, event)
  {
    if delegations != [] {
      ValidDelegationsAre(delegations[1..], event, d);
      assert d in delegations <==> d == delegations[0] || d in delegations[1..];
    }
  }

  lemma {:induction false} OneMoreKey(keys: seq<SigningKey>, publicKey: string)
    requires keys != []
    ensures
      var n := |keys| - 1;
      (exists k :: 0 <= k < |keys| && UsableKey(keys[k]) && keys[k].publicKey == publicKey)
      <==> || (exists k :: 0 <= k < n && UsableKey(keys[..n][k]) && keys[..n][k].publicKey == publicKey)
           || (UsableKey(keys[n]) && keys[n].publicKey == publicKey)
  {
    var n := |keys| - 1;
    if k :| 0 <= k < |keys| && UsableKey(keys[k]) && keys[k].publicKey == publicKey {
      assert k < n ==> keys[..n][k] == keys[k];
    }
  }

  lemma {:induction false} KeyCandidatesAre(personId: string, keys: seq<SigningKey>, c: Candidate)
    ensures c in KeyCandidates(personId, keys) <==>
              && c.submitterId == personId
              && exists k :: 0 <= k < |keys| && UsableKey(keys[k]) && keys[k].publicKey == c.publicKey
  {
    if keys != [] {
      KeyCandidatesAre(personId, keys[..|keys| - 1], c);
      OneMoreKey(keys, c.publicKey);
    }
  }

  lemma {:induction false} AgentCandidatesAre(agents: seq<Agent>, valid: seq<Stored>, c: Candidate)
    ensures c in AgentCandidates(agents, valid) <==>
              exists a :: 0 <= a < |agents| && BoundAgent(agents[a], valid)
                && c == Candidate(agents[a].id, agents[a].publicKey)
  {
    if agents != [] {
      var before := agents[..|agents| - 1];
      AgentCandidatesAre(before, valid, c);
      assert forall a :: 0 <= a < |before| ==> agents[a] == before[a];
    }
  }

  /** Authority without any loop: an unrevoked Ed25519 key of a Person who has some valid
      delegation, or the key of an active Agent that a valid delegation names. */
  predicate KeyAuthority(profile: Profile, event: Stamp, c: Candidate) {
    && c.submitterId == profile.personId
    && (exists key :: key in profile.signingKeys
          && key.algorithm == "ed25519"
          && key.revokedAt in {None, Some("")}
          && key.publicKey == c.publicKey)
    && exists d :: d in profile.delegations && CurrentlyValid(d, event)
  }

  predicate AgentAuthority(profile: Profile, event: Stamp, c: Candidate) {
    exists agent :: agent in profile.agents
      && c == Candidate(agent.id, agent.publicKey)
      && ActiveAndBound(profile.delegations, event, agent)
  }

  predicate ActiveAndBound(delegations: seq<Stored>, event: Stamp, agent: Agent) {
    && agent.status == "active"
    && agent.revokedAt in {None, Some("")}
    && exists d :: d in delegations && CurrentlyValid(d, event)
         && d.certificate.agentId == agent.id && d.certificate.agentPublicKey == agent.publicKey
  }

  lemma {:induction false} SomeValid(delegations: seq<Stored>, event: Stamp)
    ensures ValidDelegations(delegations, event) != [] <==> exists d :: d in delegations && CurrentlyValid(d, event)
  {
    var valid := ValidDelegations(delegations, event);
    if valid != [] {
      ValidDelegationsAre(delegations, event, valid[0]);
    }
    if d :| d in delegations && CurrentlyValid(d, event) {
      ValidDelegationsAre(delegations, event, d);
    }
  }

  lemma {:induction false} BoundIff(delegations: seq<Stored>, event: Stamp, agent: Agent)
    ensures (exists i :: 0 <= i < |ValidDelegations(delegations, event)|
                         && Binds(ValidDelegations(delegations, event)[i], agent))
            <==> exists d :: d in delegations && CurrentlyValid(d, event) && Binds(d, agent)
  {
    var valid := ValidDelegations(delegations, event);
    if i :| 0 <= i < |valid| && Binds(valid[i], agent) {
      ValidDelegationsAre(delegations, event, valid[i]);
    }
    if d :| d in delegations && CurrentlyValid(d, event) && Binds(d, agent) {
      ValidDelegationsAre(delegations, event, d);
      var i :| 0 <= i < |valid| && valid[i] == d;
    }
  }

  lemma {:induction false} Usable(key: SigningKey)
    ensures UsableKey(key) <==> key.algorithm == "ed25519" && key.revokedAt in {None, Some("")}
  {
  }

  lemma {:induction false} KeyAuthorityIs(profile: Profile, event: Stamp, c: Candidate)
    ensures KeyAuthority(profile, event, c)
       <==> && ValidDelegations(profile.delegations, event) != []
            && c in KeyCandidates(profile.personId, profile.signingKeys)
  {
    SomeValid(profile.delegations, event);
    KeyCandidatesAre(profile.personId, profile.signingKeys, c);
    forall key | key in profile.signingKeys
      ensures UsableKey(key) <==> key.algorithm == "ed25519" && key.revokedAt in {None, Some("")}
    {
      Usable(key);
    }
  }

  lemma {:induction false} BoundAgentIs(delegations: seq<Stored>, event: Stamp, agent: Agent)
    ensures BoundAgent(agent, ValidDelegations(delegations, event)) <==> ActiveAndBound(delegations, event, agent)
  {
    BoundIff(delegations, event, agent);
    forall d
      ensures Binds(d, agent) <==> d.certificate.agentId == agent.id && d.certificate.agentPublicKey == agent.publicKey
    {
    }
    if d :| d in delegations && CurrentlyValid(d, event) && Binds(d, agent) {
      assert d.certificate.agentId == agent.id;
    }
  }

  lemma {:induction false} AgentAuthorityIs(profile: Profile, event: Stamp, c: Candidate)
    ensures AgentAuthority(profile, event, c)
       <==> c in AgentCandidates(profile.agents, ValidDelegations(profile.delegations, event))
  {
    var valid := ValidDelegations(profile.delegations, event);
    AgentCandidatesAre(profile.agents, valid, c);
    forall agent | agent in profile.agents
      ensures BoundAgent(agent, valid) <==> ActiveAndBound(profile.delegations, event, agent)
    {
      BoundAgentIs(profile.delegations, event, agent);
    }
  }

  /** The candidates are exactly those with authority. */
  lemma {:induction false} CandidatesHaveAuthority(profile: Profile, event: Stamp, c: Candidate)
    ensures c in Candidates(profile, event) <==> KeyAuthority(profile, event, c) || AgentAuthority(profile, event, c)
  {
    KeyAuthorityIs(profile, event, c);
    AgentAuthorityIs(profile, event, c);
  }

  lemma {:induction false} KeysConcat(personId: string, a: seq<SigningKey>, b: seq<SigningKey>)
    ensures KeyCandidates(personId, a + b) == KeyCandidates(personId, a) + KeyCandidates(personId, b)
    decreases |b|
  {
    if b == [] {
      assert a + b == a;
    } else {
      var n := |b| - 1;
      KeysConcat(personId, a, b[..n]);
      assert (a + b)[..|a + b| - 1] == a + b[..n] && (a + b)[|a + b| - 1] == b[n];
    }
  }

  /** Wherever a key stands, it puts forward its candidate or nothing, there in the order. */
  lemma {:induction false} KeysInOrder(personId: string, a: seq<SigningKey>, key: SigningKey, b: seq<SigningKey>)
    ensures KeyCandidates(personId, a + [key] + b)
         == KeyCandidates(personId, a)
            + (if key.algorithm == "ed25519" && key.revokedAt in {None, Some("")}
               then [Candidate(personId, key.publicKey)] else [])
            + KeyCandidates(personId, b)
  {
    Usable(key);
    KeysConcat(personId, a + [key], b);
    assert (a + [key])[..|a|] == a;
  }

  lemma {:induction false} AgentsConcat(a: seq<Agent>, b: seq<Agent>, valid: seq<Stored>)
    ensures AgentCandidates(a + b, valid) == AgentCandidates(a, valid) + AgentCandidates(b, valid)
    decreases |b|
  {
    if b == [] {
      assert a + b == a;
    } else {
      var n := |b| - 1;
      AgentsConcat(a, b[..n], valid);
      assert (a + b)[..|a + b| - 1] == a + b[..n] && (a + b)[|a + b| - 1] == b[n];
    }
  }

  lemma {:induction false} AgentAfter(a: seq<Agent>, agent: Agent, valid: seq<Stored>)
    ensures AgentCandidates(a + [agent], valid)
         == AgentCandidates(a, valid)
            + if BoundAgent(agent, valid) then [Candidate(agent.id, agent.publicKey)] else []
  {
    assert (a + [agent])[..|a|] == a;
  }

  /** And so does every agent. */
  lemma {:induction false} AgentsInOrder(
    delegations: seq<Stored>, event: Stamp, a: seq<Agent>, agent: Agent, b: seq<Agent>
  )
    ensures
      var valid := ValidDelegations(delegations, event);
      AgentCandidates(a + [agent] + b, valid)
      == AgentCandidates(a, valid)
         + (if ActiveAndBound(delegations, event, agent) then [Candidate(agent.id, agent.publicKey)] else [])
         + AgentCandidates(b, valid)
  {
    var valid := ValidDelegations(delegations, event);
    BoundAgentIs(delegations, event, agent);
    AgentsConcat(a + [agent], b, valid);
    AgentAfter(a, agent, valid);
  }

  // ---- The verifier ----

  datatype CryptoKey = CryptoKey(handle: string)

  /** What a request carries: the payload may be no plain object, the signature no string. */
  datatype Payload = PlainObject(canonical: string) | NotAnObject

  datatype Error = BadPayload | BadSignature | NoAuthority

  datatype Result = Ok(candidate: Candidate) | Err(error: Error)

  /** Importing a key from its text may fail; checking a signature's text answers no rather
      than failing. */
  datatype Crypto = Crypto(importKey: string -> Option<CryptoKey>, verify: (string, string, CryptoKey) -> bool)

  function ImportKey(rawImport: seq<Byte> -> Option<CryptoKey>, publicKey: string): Option<CryptoKey> {
    match Base64UrlToBytes(publicKey)
    case None => None
    case Some(raw) => if |raw| != 32 then None else rawImport(raw)
  }

  predicate VerifySignature(
    check: (string, seq<Byte>, CryptoKey) -> bool, payload: string, signature: string, key: CryptoKey
  ) {
    match Base64UrlToBytes(signature)
    case None => false
    case Some(bytes) => check(payload, bytes, key)
  }

  /** The browser's cryptography works on bytes, which the text is decoded to first. */
  function OnBytes(rawImport: seq<Byte> -> Option<CryptoKey>, check: (string, seq<Byte>, CryptoKey) -> bool): Crypto {
    Crypto(publicKey => ImportKey(rawImport, publicKey),
           (payload, signature, key) => VerifySignature(check, payload, signature, key))
  }

  /** A key and a signature printed by `base64Url` arrive as the bytes they were printed from;
      a key of any other length than 32 bytes never imports. */
  lemma {:induction false} PrintedKeysArrive(
    rawImport: seq<Byte> -> Option<CryptoKey>, check: (string, seq<Byte>, CryptoKey) -> bool,
    key: seq<Byte>, payload: string, signature: seq<Byte>, imported: CryptoKey
  )
    ensures OnBytes(rawImport, check).importKey(Encode(key)) == if |key| == 32 then rawImport(key) else None
    ensures OnBytes(rawImport, check).verify(payload, Encode(signature), imported)
        == check(payload, signature, imported)
  {
    RoundTrip(key);
    RoundTrip(signature);
  }

  predicate VerifiesFor(crypto: Crypto, payload: string, signature: string, c: Candidate) {
    crypto.importKey(c.publicKey).Some? && crypto.verify(payload, signature, crypto.importKey(c.publicKey).value)
  }

  /** The first candidate from `i` on whose key verifies, `|candidates|` when there is none. */
  function FirstVerifying(
    crypto: Crypto, payload: string, signature: string, candidates: seq<Candidate>, i: nat
  ): (n: nat)
    requires i <= |candidates|
    ensures i <= n <= |candidates|
    ensures n < |candidates| ==> VerifiesFor(crypto, payload, signature, candidates[n])
    ensures forall j :: i <= j < n ==> !VerifiesFor(crypto, payload, signature, candidates[j])
    decreases |candidates| - i
  {
    if i == |candidates| || VerifiesFor(crypto, payload, signature, candidates[i]) then i
    else FirstVerifying(crypto, payload, signature, candidates, i + 1)
  }

  function Verdict(crypto: Crypto, candidates: seq<Candidate>, payload: Payload, signature: Option<string>): Result {
    if payload.NotAnObject? then Err(BadPayload)
    else if signature.None? || signature.value == "" then Err(BadSignature)
    else
      var n := FirstVerifying(crypto, payload.canonical, signature.value, candidates, 0);
      if n < |candidates| then Ok(candidates[n]) else Err(NoAuthority)
  }

  class Verifier {
    const crypto: Crypto
    const candidates: seq<Candidate>
    var verificationKeys: map<string, Option<CryptoKey>>

    /** The cache never says anything that importing again would not. */
    ghost predicate Valid()
      reads this
    {
      forall k :: k in verificationKeys ==> verificationKeys[k] == crypto.importKey(k)
    }

    constructor (crypto: Crypto, candidates: seq<Candidate>)
      ensures Valid() && this.crypto == crypto && this.candidates == candidates && verificationKeys == map[]
    {
      this.crypto, this.candidates := crypto, candidates;
      verificationKeys := map[];
    }

    method WitnessVerificationKey(publicKey: string) returns (key: Option<CryptoKey>)
      requires Valid()
      modifies this
      ensures Valid() && key == crypto.importKey(publicKey)
      ensures verificationKeys == old(verificationKeys)[publicKey := key]
    {
      if publicKey !in verificationKeys {
        verificationKeys := verificationKeys[publicKey := crypto.importKey(publicKey)];
      }
      key := verificationKeys[publicKey];
    }

    /** However many calls came before, the verdict is the one without a cache. */
    method VerifyWitnessAuthority(payload: Payload, signature: Option<string>) returns (r: Result)
      requires Valid()
      modifies this
      ensures Valid() && r == Verdict(crypto, candidates, payload, signature)
      ensures old(verificationKeys).Keys <= verificationKeys.Keys
    {
      if payload.NotAnObject? {
        return Err(BadPayload);
      }
      if signature.None? || signature.value == "" {
        return Err(BadSignature);
      }
      for i := 0 to |candidates|
        invariant Valid() && old(verificationKeys).Keys <= verificationKeys.Keys
        invariant forall j :: 0 <= j < i ==> !VerifiesFor(crypto, payload.canonical, signature.value, candidates[j])
      {
        var key := WitnessVerificationKey(candidates[i].publicKey);
        if key.None? {
          continue;
        }
        if crypto.verify(payload.canonical, signature.value, key.value) {
          return Ok(candidates[i]);
        }
      }
      r := Err(NoAuthority);
    }
  }

  /** Somebody with authority under whose key the signature verifies. */
  predicate Entitled(
    crypto: Crypto, profile: Profile, event: Stamp, payload: Payload, signature: Option<string>, c: Candidate
  ) {
    && payload.PlainObject?
    && signature.Some?
    && signature.value != ""
    && (KeyAuthority(profile, event, c) || AgentAuthority(profile, event, c))
    && match crypto.importKey(c.publicKey)
       case Some(key) => crypto.verify(payload.canonical, signature.value, key)
       case None => false
  }

  /** A witness is accepted exactly when its signature verifies under the key of someone with
      authority, and it is accepted as one of those. Otherwise the error says what is wrong. */
  lemma {:induction false} AcceptedIffAuthorised(
    crypto: Crypto, profile: Profile, event: Stamp, payload: Payload, signature: Option<string>
  )
    ensures
      match Verdict(crypto, Candidates(profile, event), payload, signature)
      case Ok(c) => Entitled(crypto, profile, event, payload, signature, c)
      case Err(BadPayload) => payload.NotAnObject?
      case Err(BadSignature) => payload.PlainObject? && signature in {None, Some("")}
      case Err(NoAuthority) =>
        && payload.PlainObject?
        && signature !in {None, Some("")}
        && forall c :: !Entitled(crypto, profile, event, payload, signature, c)
  {
    var candidates := Candidates(profile, event);
    forall c
      ensures c in candidates <==> KeyAuthority(profile, event, c) || AgentAuthority(profile, event, c)
    {
      CandidatesHaveAuthority(profile, event, c);
    }
  }

  lemma {:induction false} AcceptedAmongThese(
    crypto: Crypto, payload: Payload, signature: Option<string>, these: seq<Candidate>, rest: seq<Candidate>,
    c: Candidate
  )
    requires payload.PlainObject? && signature.Some? && signature.value != ""
    requires c in these && VerifiesFor(crypto, payload.canonical, signature.value, c)
    ensures
      var r := Verdict(crypto, these + rest, payload, signature);
      r.Ok? && r.candidate in these
  {
    var n := FirstVerifying(crypto, payload.canonical, signature.value, these + rest, 0);
    var i :| 0 <= i < |these| && these[i] == c;
    assert (these + rest)[i] == c;
    assert n <= i;
  }

  lemma {:induction false} KeysComeFirst(profile: Profile, event: Stamp, c: Candidate)
    requires KeyAuthority(profile, event, c)
    ensures c in KeyCandidates(profile.personId, profile.signingKeys)
    ensures Candidates(profile, event)
         == KeyCandidates(profile.personId, profile.signingKeys)
            + AgentCandidates(profile.agents, ValidDelegations(profile.delegations, event))
  {
    SomeValid(profile.delegations, event);
    KeyCandidatesAre(profile.personId, profile.signingKeys, c);
  }

  /** A Person's own keys come first: what one of them verifies is attributed to the Person,
      even when an agent is registered with the same key. */
  lemma {:induction false} PersonComesFirst(
    crypto: Crypto, profile: Profile, event: Stamp, payload: Payload, signature: Option<string>, c: Candidate
  )
    requires Entitled(crypto, profile, event, payload, signature, c) && KeyAuthority(profile, event, c)
    ensures
      var r := Verdict(crypto, Candidates(profile, event), payload, signature);
      r.Ok? && r.candidate.submitterId == profile.personId
  {
    var fromKeys := KeyCandidates(profile.personId, profile.signingKeys);
    var fromAgents := AgentCandidates(profile.agents, ValidDelegations(profile.delegations, event));
    KeysComeFirst(profile, event, c);
    AcceptedAmongThese(crypto, payload, signature, fromKeys, fromAgents, c);
    var r := Verdict(crypto, fromKeys + fromAgents, payload, signature);
    KeyCandidatesAre(profile.personId, profile.signingKeys, r.candidate);
  }
}
