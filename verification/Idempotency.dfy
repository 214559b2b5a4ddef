/** The idempotency-key claim and the ingest route around it. */
module Idempotency {
  import opened Events
  import opened EventQueues
  import opened Mongo
  import opened Pipeline
  import opened Provenance
  import opened Mirror

  /** `idem:{key}`: the fingerprint of the request that claimed the key. */
  datatype Claim = Claim(fingerprint: string, expiresAt: real)
  type Claims = map<string, Claim>

  datatype Verdict = New | Replayed | Conflict

  /** What Redis does during a check. */
  datatype RedisFault = NoFault | SetFailsBefore | SetFailsAfter | GetFails

  function Purge(m: Claims, now: real): Claims {
    map k | k in m && now < m[k].expiresAt :: m[k]
  }

  /** The claims after a check: SET NX records the first fingerprint and never overwrites one. */
  function ClaimKey(m: Claims, key: string, fingerprint: string, ttl: nat, now: real, fault: RedisFault): Claims {
    var live := Purge(m, now);
    if fault.SetFailsBefore? || key in live then live else live[key := Claim(fingerprint, now + ttl as real)]
  }

  function Judge(m: Claims, key: string, fingerprint: string, now: real, fault: RedisFault): Verdict {
    var live := Purge(m, now);
    if fault.SetFailsBefore? || fault.SetFailsAfter? then New
    else if key !in live then New
    else if fault.GetFails? then New
    else if live[key].fingerprint == fingerprint then Replayed
    else Conflict
  }

  /** Claimed and not expired. */
  predicate Held(m: Claims, key: string, now: real) {
    key in m && now < m[key].expiresAt
  }

  class ClaimStore {
    var claims: Claims

    constructor ()
      ensures claims == map[]
    {
      claims := map[];
    }

    /** `check_idempotency`; every Redis error fails open as a new request. */
    method CheckIdempotency(key: string, fingerprint: string, ttl: nat, now: real, fault: RedisFault) returns (v: Verdict)
      modifies this
      ensures claims == ClaimKey(old(claims), key, fingerprint, ttl, now, fault)
      ensures v == Judge(old(claims), key, fingerprint, now, fault)
      ensures v.Conflict? <==> fault.NoFault? && Held(old(claims), key, now) && old(claims)[key].fingerprint != fingerprint
      ensures v.Replayed? <==> fault.NoFault? && Held(old(claims), key, now) && old(claims)[key].fingerprint == fingerprint
      ensures forall k :: Held(old(claims), k, now) ==> k in claims && claims[k] == old(claims)[k]
      ensures !Held(old(claims), key, now) && !fault.SetFailsBefore? ==>
        key in claims && claims[key] == Claim(fingerprint, now + ttl as real)
      ensures forall k :: k in claims && !Held(old(claims), k, now) ==> k == key && !fault.SetFailsBefore?
    {
      claims := Purge(claims, now);
      if fault.SetFailsBefore? {
        return New;
      }
      var claimed := key !in claims;
      if claimed {
        claims := claims[key := Claim(fingerprint, now + ttl as real)];
      }
      if fault.SetFailsAfter? || claimed {
        return New;
      }
      if fault.GetFails? {
        return New;
      }
      v := if claims[key].fingerprint == fingerprint then Replayed else Conflict;
    }
  }

  // ---------------------------------------------------------------------------
  // POST /events
  // ---------------------------------------------------------------------------

  /** What the ingestion service answers at that moment. */
  datatype Gate = Admits | Full | Shut

  /** One request, with everything the environment decides about it. */
  datatype Post = Post(body: Body, header: Option<string>, time: real, now: int, fault: RedisFault, gate: Gate, uuid4: EventId)

  datatype Response = Accepted202(doc: Event) | Conflict409 | TooMany429 | Unavailable503

  /** The hash functions and the TTL the route works with. */
  datatype World = World(fingerprint: Body -> string, uuid5: string -> EventId, ttl: nat)

  function Document(world: World, p: Post): Event {
    ToDocument(p.body, AssignedId(KeyOf(p.header), world.uuid5, p.uuid4), p.now)
  }

  function ClaimsAfterPost(world: World, m: Claims, p: Post): Claims {
    var key := KeyOf(p.header);
    if key.None? then m else ClaimKey(m, key.value, world.fingerprint(p.body), world.ttl, p.time, p.fault)
  }

  function Respond(world: World, m: Claims, p: Post): Response {
    var key := KeyOf(p.header);
    if key.Some? && Judge(m, key.value, world.fingerprint(p.body), p.time, p.fault).Conflict? then Conflict409
    else match p.gate
      case Admits => Accepted202(Document(world, p))
      case Full => TooMany429
      case Shut => Unavailable503
  }

  function GateOf(service: IngestionService): Gate
    reads service, service.queue
  {
    if !service.accepting then Shut else if service.queue.Full() then Full else Admits
  }

  /** `create_event`: check the key, then ingest. The answer is the one for the gate the service has now. */
  method CreateEvent(world: World, store: ClaimStore, service: IngestionService, p: Post) returns (r: Response)
    modifies store, service.queue
    ensures store.claims == ClaimsAfterPost(world, old(store.claims), p)
    ensures r == Respond(world, old(store.claims), p.(gate := old(GateOf(service))))
    ensures service.queue.items == if r.Accepted202? then old(service.queue.items) + [r.doc] else old(service.queue.items)
    ensures service.queue.unfinished == old(service.queue.unfinished) + if r.Accepted202? then 1 else 0
    ensures r.Conflict409? ==> !Blank(p.header)
    ensures forall k :: Carries(p.header, k) ==>
      (r.Conflict409? <==> p.fault.NoFault? && Held(old(store.claims), k, p.time)
                           && old(store.claims)[k].fingerprint != world.fingerprint(p.body))
    ensures r.Unavailable503? <==> !r.Conflict409? && !service.accepting
    ensures r.TooMany429? <==> !r.Conflict409? && service.accepting && 0 < service.queue.maxSize <= |old(service.queue.items)|
    ensures r.Accepted202? ==> Describes(r.doc, p.body, p.now)
    ensures r.Accepted202? && Blank(p.header) ==> r.doc.id == p.uuid4
    ensures r.Accepted202? ==> forall k :: Carries(p.header, k) ==> r.doc.id == world.uuid5(k)
    ensures Blank(p.header) ==> store.claims == old(store.claims)
    ensures forall k :: Carries(p.header, k) && !Held(old(store.claims), k, p.time) && !p.fault.SetFailsBefore? ==>
      k in store.claims && store.claims[k] == Claim(world.fingerprint(p.body), p.time + world.ttl as real)
  {
    KeyExactly(p.header);
    var key := if p.header.Some? && p.header.value != "" then Some(Strip(p.header.value)) else None;
    if key.Some? && key.value != "" {
      var v := store.CheckIdempotency(key.value, world.fingerprint(p.body), world.ttl, p.time, p.fault);
      if v.Conflict? {
        return Conflict409;
      }
    }
    var ingested := service.Ingest(p.body, p.header, world.uuid5, p.uuid4, p.now);
    match ingested {
      case Accepted(doc) => r := Accepted202(doc);
      case Closed => r := Unavailable503;
      case QueueFull => r := TooMany429;
    }
  }

  // ---------------------------------------------------------------------------
  // Whole runs
  // ---------------------------------------------------------------------------

  function ClaimsAfter(world: World, ps: seq<Post>): Claims {
    if ps == [] then map[] else ClaimsAfterPost(world, ClaimsAfter(world, ps[..|ps| - 1]), ps[|ps| - 1])
  }

  function ResponseTo(world: World, ps: seq<Post>, i: nat): Response
    requires i < |ps|
  {
    Respond(world, ClaimsAfter(world, ps[..i]), ps[i])
  }

  /** In time order, and short enough that no claim expires. */
  ghost predicate WithinTtl(world: World, ps: seq<Post>) {
    forall i, j :: 0 <= i <= j < |ps| ==> ps[i].time <= ps[j].time < ps[i].time + world.ttl as real
  }

  /** The fingerprint of the first request whose SET for `k` took effect. */
  ghost function FirstClaim(world: World, ps: seq<Post>, k: string): Option<string> {
    if ps == [] then None
    else
      var before := FirstClaim(world, ps[..|ps| - 1], k);
      var p := ps[|ps| - 1];
      if before.None? && Carries(p.header, k) && !p.fault.SetFailsBefore? then Some(world.fingerprint(p.body)) else before
  }

  /** The store holds exactly the first claims, none of which can expire before `deadline`. */
  ghost predicate HoldsFirstClaims(world: World, m: Claims, ps: seq<Post>, deadline: real) {
    forall k :: (k in m <==> FirstClaim(world, ps, k).Some?) &&
      (k in m ==> FirstClaim(world, ps, k) == Some(m[k].fingerprint) && deadline <= m[k].expiresAt)
  }

  lemma {:induction false} ClaimsAreFirstClaims(world: World, ps: seq<Post>, deadline: real)
    requires WithinTtl(world, ps) && (ps != [] ==> deadline <= ps[0].time + world.ttl as real)
    requires ps != [] ==> ps[|ps| - 1].time < deadline
    ensures HoldsFirstClaims(world, ClaimsAfter(world, ps), ps, deadline)
  {
    if ps != [] {
      var n := |ps| - 1;
      var shorter, p := ps[..n], ps[n];
      if n > 0 {
        assert shorter[0] == ps[0] && shorter[n - 1] == ps[n - 1];
      }
      ClaimsAreFirstClaims(world, shorter, deadline);
      var m := ClaimsAfter(world, shorter);
      assert Purge(m, p.time) == m;
      KeyExactly(p.header);
    }
  }

  lemma {:induction false} ClaimsBefore(world: World, ps: seq<Post>, i: nat)
    requires WithinTtl(world, ps) && i < |ps|
    ensures var m := ClaimsAfter(world, ps[..i]);
      && Purge(m, ps[i].time) == m
      && forall k :: (k in m <==> FirstClaim(world, ps[..i], k).Some?) &&
           (k in m ==> FirstClaim(world, ps[..i], k) == Some(m[k].fingerprint))
  {
    if i > 0 {
      var deadline := ps[0].time + world.ttl as real;
      assert ps[..i][0] == ps[0] && ps[..i][i - 1] == ps[i - 1];
      ClaimsAreFirstClaims(world, ps[..i], deadline);
      var m := ClaimsAfter(world, ps[..i]);
      assert forall k :: k in m ==> ps[i].time < deadline <= m[k].expiresAt;
    }
  }

  /** 409 exactly when the key was first claimed, by an earlier request, with another fingerprint. */
  lemma {:induction false} ConflictExactly(world: World, ps: seq<Post>, i: nat, k: string)
    requires WithinTtl(world, ps) && i < |ps| && Carries(ps[i].header, k)
    ensures ResponseTo(world, ps, i).Conflict409? <==>
      && ps[i].fault.NoFault?
      && FirstClaim(world, ps[..i], k).Some?
      && FirstClaim(world, ps[..i], k).value != world.fingerprint(ps[i].body)
  {
    ClaimsBefore(world, ps, i);
    KeyExactly(ps[i].header);
  }

  lemma {:induction false} FirstClaimStays(world: World, ps: seq<Post>, i: nat, k: string)
    requires i <= |ps| && FirstClaim(world, ps[..i], k).Some?
    ensures FirstClaim(world, ps, k) == FirstClaim(world, ps[..i], k)
    decreases |ps|
  {
    if i < |ps| {
      var shorter := ps[..|ps| - 1];
      assert shorter[..i] == ps[..i];
      FirstClaimStays(world, shorter, i, k);
    } else {
      assert ps[..i] == ps;
    }
  }

  /** Every answered request that was not refused as a conflict carries the fingerprint that owns its key. */
  lemma {:induction false} NotRefusedMeansOwner(world: World, ps: seq<Post>, i: nat, k: string)
    requires WithinTtl(world, ps) && i < |ps| && Carries(ps[i].header, k)
    requires ps[i].fault.NoFault? && !ResponseTo(world, ps, i).Conflict409?
    ensures FirstClaim(world, ps, k) == Some(world.fingerprint(ps[i].body))
  {
    ConflictExactly(world, ps, i, k);
    assert ps[..i + 1][..i] == ps[..i];
    assert FirstClaim(world, ps[..i + 1], k) == Some(world.fingerprint(ps[i].body));
    FirstClaimStays(world, ps, i + 1, k);
  }

  /** All accepted requests with one key, Redis answering, share one fingerprint and one event id. */
  lemma OneFingerprintOneId(world: World, ps: seq<Post>, i: nat, j: nat, k: string)
    requires WithinTtl(world, ps) && i < |ps| && j < |ps| && Carries(ps[i].header, k) && Carries(ps[j].header, k)
    requires ps[i].fault.NoFault? && ps[j].fault.NoFault?
    requires ResponseTo(world, ps, i).Accepted202? && ResponseTo(world, ps, j).Accepted202?
    ensures world.fingerprint(ps[i].body) == world.fingerprint(ps[j].body)
    ensures ResponseTo(world, ps, i).doc.id == ResponseTo(world, ps, j).doc.id == world.uuid5(k)
  {
    NotRefusedMeansOwner(world, ps, i, k);
    NotRefusedMeansOwner(world, ps, j, k);
    KeyExactly(ps[i].header);
    KeyExactly(ps[j].header);
  }

  /** A request answered 429 or 503 after claiming its key never blocks a later retry with the same body. */
  lemma RefusedRequestDoesNotBlockRetry(world: World, ps: seq<Post>, i: nat, j: nat, k: string)
    requires WithinTtl(world, ps) && i < j < |ps| && Carries(ps[i].header, k) && Carries(ps[j].header, k)
    requires ps[i].fault.NoFault? && !ResponseTo(world, ps, i).Conflict409?
    requires ps[j].body == ps[i].body
    ensures !ResponseTo(world, ps, j).Conflict409?
    ensures ps[j].gate.Admits? ==> ResponseTo(world, ps, j) == Accepted202(Document(world, ps[j]))
  {
    assert ps[..j][..i + 1] == ps[..i + 1] && ps[..i + 1][..i] == ps[..i];
    ConflictExactly(world, ps, i, k);
    assert FirstClaim(world, ps[..i + 1], k) == Some(world.fingerprint(ps[i].body));
    FirstClaimStays(world, ps[..j], i + 1, k);
    ConflictExactly(world, ps, j, k);
  }

  // ---------------------------------------------------------------------------
  // What ends up in Mongo
  // ---------------------------------------------------------------------------

  /** The events the route put on the queue. */
  ghost function Ingested(world: World, ps: seq<Post>): iset<Event> {
    iset i | 0 <= i < |ps| && ResponseTo(world, ps, i).Accepted202? :: ResponseTo(world, ps, i).doc
  }

  /** `uuid5` separates keys, and no `uuid4` collides with one. */
  ghost predicate IdsSeparate(world: World, ps: seq<Post>) {
    && (forall a, b :: world.uuid5(a) == world.uuid5(b) ==> a == b)
    && (forall i, k :: 0 <= i < |ps| ==> ps[i].uuid4 != world.uuid5(k))
  }

  /**
   * One key, one document, one body: in every run of the pipeline fed by these requests, the document
   * stored under the key's id was built from a request that carried the key with the fingerprint that
   * owns it.
   */
  lemma {:induction false} StoredDocumentBelongsToTheKey(world: World, ps: seq<Post>, c: Config, s: State, steps: seq<Step>, s': State, k: string)
    requires WithinTtl(world, ps) && IdsSeparate(world, ps)
    requires forall i :: 0 <= i < |ps| ==> ps[i].fault.NoFault?
    requires Init(c, s) && s.events == map[] && s.deadLetters == map[]
    requires Run(c, s, steps, s') && AcceptsOnly(steps, Ingested(world, ps))
    requires world.uuid5(k) in s'.events
    ensures exists i ::
      && 0 <= i < |ps| && Carries(ps[i].header, k)
      && s'.events[world.uuid5(k)].event == Document(world, ps[i])
      && FirstClaim(world, ps, k) == Some(world.fingerprint(ps[i].body))
  {
    hide Run, Init, IsSpace, Trimmed, Spaces;
    StoredWasAccepted(c, s, steps, s', Ingested(world, ps));
    InitIsMirrored(c, s);
    MirrorSafety(c, s, steps, s');
    var stored := s'.events[world.uuid5(k)].event;
    assert stored in Ingested(world, ps);
    var i :| 0 <= i < |ps| && ResponseTo(world, ps, i).Accepted202? && ResponseTo(world, ps, i).doc == stored;
    assert KeyOf(ps[i].header) == Some(k) by {
      assert stored.id == AssignedId(KeyOf(ps[i].header), world.uuid5, ps[i].uuid4) == world.uuid5(k);
    }
    KeyExactly(ps[i].header);
    NotRefusedMeansOwner(world, ps, i, k);
  }
}
