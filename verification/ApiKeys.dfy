/** Bearer tokens: their shape, and how long a revoked key can still be accepted
    through a worker's cache (apps/api_keys/services.py, apps/api_keys/signals.py). */
module ApiKeys {
  import opened Common

  // ----- the token -----

  const TOKEN_PREFIX: string := "bb_studio_"
  const LOOKUP_LEN: nat := 8

  datatype Parsed = Parsed(random: string, lookup: string)

  /** The lookup digest: eight characters of a hex digest, so none is an underscore. */
  ghost predicate LookupDigest(make: string -> string) {
    forall r :: |make(r)| == LOOKUP_LEN && '_' !in make(r)
  }

  /** The index of the last underscore, if any. */
  function LastUnderscore(s: string): (i: int)
    ensures -1 <= i < |s|
    ensures i >= 0 ==> s[i] == '_'
    ensures forall j | i < j < |s| :: s[j] != '_'
  {
    if s == [] then -1
    else if s[|s| - 1] == '_' then |s| - 1
    else LastUnderscore(s[..|s| - 1])
  }

  /** What follows the prefix: cut at the last underscore, check the lengths, and
      recompute the lookup from the secret. */
  function ParseBody(make: string -> string, body: string): Option<Parsed> {
    var cut := LastUnderscore(body);
    if cut < 0 then None
    else
      var random, lookup := body[..cut], body[cut + 1..];
      if |lookup| != LOOKUP_LEN then None
      else if !(32 <= |random| <= 64) then None
      else if make(random) != lookup then None
      else Some(Parsed(random, lookup))
  }

  function ParseToken(make: string -> string, raw: string): Option<Parsed> {
    if TOKEN_PREFIX <= raw then ParseBody(make, raw[|TOKEN_PREFIX|..]) else None
  }

  lemma {:induction false} LastUnderscoreIs(a: string, b: string)
    requires '_' !in b
    ensures LastUnderscore(a + "_" + b) == |a|
  {
    var s := a + "_" + b;
    if b != "" {
      var n := |b| - 1;
      LastUnderscoreIs(a, b[..n]);
      assert s[..|s| - 1] == a + "_" + b[..n];
      assert s[|s| - 1] == b[n];
    }
  }

  lemma ParseBodyIff(make: string -> string, body: string, p: Parsed)
    requires LookupDigest(make)
    ensures ParseBody(make, body) == Some(p) <==>
            body == p.random + "_" + make(p.random) && p.lookup == make(p.random) && 32 <= |p.random| <= 64
  {
    if ParseBody(make, body) == Some(p) {
      var cut := LastUnderscore(body);
      assert body == body[..cut] + "_" + body[cut + 1..];
    }
    if body == p.random + "_" + make(p.random) && p.lookup == make(p.random) && 32 <= |p.random| <= 64 {
      LastUnderscoreIs(p.random, make(p.random));
      assert body[..|p.random|] == p.random && body[|p.random| + 1..] == make(p.random);
    }
  }

  lemma CutPrefix(prefix: string, raw: string, body: string)
    ensures prefix <= raw && raw[|prefix|..] == body <==> raw == prefix + body
  {
  }

  /** Parsing accepts exactly the tokens that issuance can print from a secret of
      a plausible length, and recovers the secret, underscores and all. */
  lemma ParseIff(make: string -> string, raw: string, p: Parsed)
    requires forall r :: |make(r)| == 8 && '_' !in make(r)
    ensures ParseToken(make, raw) == Some(p) <==>
            raw == "bb_studio_" + p.random + "_" + make(p.random) && p.lookup == make(p.random) && 32 <= |p.random| <= 64
  {
    assert LookupDigest(make);
    var body := p.random + "_" + make(p.random);
    assert TOKEN_PREFIX + p.random + "_" + make(p.random) == TOKEN_PREFIX + body;
    CutPrefix(TOKEN_PREFIX, raw, body);
    hide ParseBody;
    if TOKEN_PREFIX <= raw {
      ParseBodyIff(make, raw[|TOKEN_PREFIX|..], p);
    }
  }

  // ----- verification through caches -----

  const CACHE_TTL: int := 30 * SECOND

  /** The row of one key. */
  datatype KeyRow = KeyRow(hash: string, issuer: Option<nat>, expiresAt: Option<Instant>, revokedAt: Option<Instant>)

  predicate Active(k: KeyRow, now: Instant) {
    k.revokedAt.None? && !(k.expiresAt.Some? && k.expiresAt.value <= now)
  }

  /** A copy of the row, with the moment it was read from the database. */
  datatype Copy = Copy(row: KeyRow, readAt: Instant)

  datatype Entry = Entry(copy: Copy, until: int)

  /** How far a request has come: it has read the row and not yet offered it to the
      cache; it has a copy at hand, since it stored it or took it from a cache; it
      has checked that copy and the secret, and has yet to ask for the issuer. */
  datatype Progress =
    | Fetched(copy: Copy)
    | AtHand(copy: Copy, since: Instant)
    | Checked(copy: Copy, since: Instant, checkedAt: Instant, hash: string)

  /** A request the key was accepted for. */
  datatype Accepted = Accepted(at: Instant, checkedAt: Instant, copy: Copy, hash: string)

  /** `caches` has one entry at most per cache, whether each worker has its own or
      all share one; `requests` are the verifications under way. */
  datatype State = State(now: Instant, db: KeyRow, members: set<nat>, caches: map<nat, Entry>,
                         requests: map<nat, Progress>, accepted: set<Accepted>)

  /** Every access of a verification to the database, a cache or the clock is a step
      of its own. A revocation dates from the moment its row is written. */
  datatype Act =
    | TakeCached(request: nat, cache: nat)
    | Fetch(request: nat)
    | Store(request: nat, cache: nat)
    | Check(request: nat, cache: nat, hash: string)
    | Admit(request: nat, cache: nat)
    | Revoke(cache: nat)
    | Edit(cache: nat, expiresAt: Option<Instant>)
    | SetMembers(members: set<nat>)
    | LoseIssuer
    | Evict(cache: nat)
    | Wait(time: nat)

  predicate Cached(s: State, cache: nat) {
    cache in s.caches && s.now < s.caches[cache].until
  }

  predicate Enabled(s: State, a: Act) {
    match a
    case TakeCached(r, cache) => r !in s.requests && Cached(s, cache)
    case Fetch(r) => r !in s.requests
    case Store(r, _) => r in s.requests && s.requests[r].Fetched?
    case Check(r, _, _) => r in s.requests && s.requests[r].AtHand?
    case Admit(r, _) => r in s.requests && s.requests[r].Checked?
    case _ => true
  }

  predicate IssuerIn(s: State, k: KeyRow) {
    k.issuer.Some? && k.issuer.value in s.members
  }

  function Dropped(s: State, request: nat): State {
    s.(requests := s.requests - {request})
  }

  /** The checks on a copy at hand: an inactive one drops the cache entry, a wrong secret does not. */
  function CheckedBy(s: State, r: nat, cache: nat, hash: string): State
    requires r in s.requests && s.requests[r].AtHand?
  {
    var p := s.requests[r];
    if !Active(p.copy.row, s.now) then Dropped(s, r).(caches := s.caches - {cache})
    else if hash != p.copy.row.hash then Dropped(s, r)
    else s.(requests := s.requests[r := Checked(p.copy, p.since, s.now, hash)])
  }

  /** The membership query decides. */
  function AdmittedBy(s: State, r: nat, cache: nat): State
    requires r in s.requests && s.requests[r].Checked?
  {
    var p := s.requests[r];
    if !IssuerIn(s, p.copy.row) then Dropped(s, r).(caches := s.caches - {cache})
    else Dropped(s, r).(accepted := s.accepted + {Accepted(s.now, p.checkedAt, p.copy, p.hash)})
  }

  /** A step that is not enabled does nothing. */
  function Next(s: State, a: Act): State {
    if !Enabled(s, a) then s
    else
      match a
      case TakeCached(r, cache) => s.(requests := s.requests[r := AtHand(s.caches[cache].copy, s.now)])
      case Fetch(r) => s.(requests := s.requests[r := Fetched(Copy(s.db, s.now))])
      case Store(r, cache) =>
        var copy := s.requests[r].copy;
        s.(requests := s.requests[r := AtHand(copy, s.now)],
           caches := if Active(copy.row, s.now) then s.caches[cache := Entry(copy, s.now + CACHE_TTL)] else s.caches)
      case Check(r, cache, hash) => CheckedBy(s, r, cache, hash)
      case Admit(r, cache) => AdmittedBy(s, r, cache)
      case Revoke(cache) =>
        s.(db := if s.db.revokedAt.None? then s.db.(revokedAt := Some(s.now)) else s.db, caches := s.caches - {cache})
      case Edit(cache, e) => s.(db := s.db.(expiresAt := e), caches := s.caches - {cache})
      case SetMembers(m) => s.(members := m)
      case LoseIssuer => s.(db := s.db.(issuer := None))
      case Evict(cache) => s.(caches := s.caches - {cache})
      case Wait(time) => s.(now := s.now + time)
  }

  function After(s: State, acts: seq<Act>): State {
    if acts == [] then s else Next(After(s, acts[..|acts| - 1]), acts[|acts| - 1])
  }

  /** How long a request may take: from reading the row to storing it, and from
      having a copy at hand to the verdict. */
  datatype Lags = Lags(store: nat, verdict: nat)

  predicate Prompt(s: State, a: Act, lags: Lags) {
    match a
    case Store(r, _) => r in s.requests ==> s.now - s.requests[r].copy.readAt <= lags.store
    case Admit(r, _) => r in s.requests && s.requests[r].Checked? ==> s.now - s.requests[r].since <= lags.verdict
    case _ => true
  }

  ghost predicate PromptRun(s: State, acts: seq<Act>, lags: Lags) {
    forall n | 0 <= n < |acts| :: Prompt(After(s, acts[..n]), acts[n], lags)
  }

  // ----- one verification, undisturbed -----

  /** The steps of one verification that nobody disturbs. */
  function Verified(s: State, request: nat, cache: nat, hash: string): State {
    var ready := if Cached(s, cache) then Next(s, TakeCached(request, cache))
                 else Next(Next(s, Fetch(request)), Store(request, cache));
    Next(Next(ready, Check(request, cache, hash)), Admit(request, cache))
  }

  /** The worker's side of one verification: parse, look in the cache, else read
      the row and store it if active, then judge. `mac` is the peppered digest of
      the secret; the requested row exists when the lookup is the key's own. */
  /** Storing keeps a row for thirty seconds if and only if it is neither revoked nor
      expired at that moment, and otherwise leaves the cache as it is. */
  lemma StoreKeepsActiveOnly(s: State, r: nat, cache: nat)
    requires r in s.requests && s.requests[r].Fetched?
    ensures var copy := s.requests[r].copy;
            Next(s, Store(r, cache)).caches ==
            if copy.row.revokedAt.Some? || (copy.row.expiresAt.Some? && copy.row.expiresAt.value <= s.now) then s.caches
            else s.caches[cache := Entry(copy, s.now + 30_000_000)]
  {
  }

  /** Where a key was revoked or its expiry edited, the very next verification goes by
      the row as it is then, whatever was cached there before. */
  lemma ChangesTakeEffect(s: State, a: Act, cache: nat, request: nat, hash: string)
    requires (a.Revoke? && a.cache == cache) || (a.Edit? && a.cache == cache)
    requires request !in s.requests
    ensures var t := Next(s, a);
            var u := Verified(t, request, cache, hash);
            && (a.Revoke? ==> t.db == s.db.(revokedAt := if s.db.revokedAt.Some? then s.db.revokedAt else Some(s.now)))
            && (a.Edit? ==> t.db == s.db.(expiresAt := a.expiresAt))
            && u.accepted ==
               if t.db.revokedAt.None? && (t.db.expiresAt.None? || t.now < t.db.expiresAt.value) && hash == t.db.hash
                  && t.db.issuer.Some? && t.db.issuer.value in t.members
               then t.accepted + {Accepted(t.now, t.now, Copy(t.db, t.now), hash)} else t.accepted
  {
    Undisturbed(Next(s, a), request, cache, hash, Copy(Next(s, a).db, s.now));
    hide Verified;
  }

  /** What a verification leaves in the caches: a row read anew stays for thirty
      seconds, one found there stays as it was, and nothing is left of a row that is
      not to be kept. Other caches, the key, the members and the clock are as before. */
  ghost predicate Remembers(s: State, t: State, cache: nat, hit: bool, keep: bool) {
    t.now == s.now && t.db == s.db && t.members == s.members && t.requests == s.requests
    && (forall c | c != cache :: (c in t.caches <==> c in s.caches) && (c in t.caches ==> t.caches[c] == s.caches[c]))
    && (cache in t.caches <==> keep)
    && (keep && hit ==> cache in s.caches && t.caches[cache] == s.caches[cache])
    && (keep && !hit ==> t.caches[cache] == Entry(Copy(s.db, s.now), s.now + 30_000_000))
  }

  class Verifier {
    var s: State
    const lookup: string
    const make: string -> string
    const mac: string -> string

    constructor (s: State, lookup: string, make: string -> string, mac: string -> string)
      ensures this.s == s && this.lookup == lookup && this.make == make && this.mac == mac
    {
      this.s, this.lookup, this.make, this.mac := s, lookup, make, mac;
    }

    method VerifyToken(request: nat, cache: nat, raw: string) returns (key: Option<KeyRow>)
      requires request !in s.requests
      modifies this
      ensures var p := ParseToken(make, raw);
              if p.None? || p.value.lookup != lookup then key == None && s == old(s)
              else
                var hash := mac(p.value.random);
                s == Verified(old(s), request, cache, hash)
                && var hit := cache in old(s).caches && old(s).now < old(s).caches[cache].until;
                var row := if hit then old(s).caches[cache].copy.row else old(s).db;
                var live := row.revokedAt.None? && (row.expiresAt.None? || old(s).now < row.expiresAt.value);
                var member := row.issuer.Some? && row.issuer.value in old(s).members;
                && (key.Some? <==> live && hash == row.hash && member)
                && (key.Some? ==> key.value == row)
                && Remembers(old(s), s, cache, hit, live && (hash != row.hash || member))
                && var copy := if hit then old(s).caches[cache].copy else Copy(row, old(s).now);
                s.accepted == old(s).accepted + if key.Some? then {Accepted(old(s).now, old(s).now, copy, hash)} else {}
    {
      var p := ParseToken(make, raw);
      if p.None? || p.value.lookup != lookup {
        return None;
      }
      var copy;
      ghost var before := s;
      if Cached(s, cache) {
        copy := s.caches[cache].copy;
      } else {
        copy := Copy(s.db, s.now);
        if Active(copy.row, s.now) {
          s := s.(caches := s.caches[cache := Entry(copy, s.now + CACHE_TTL)]);
        }
      }
      Undisturbed(before, request, cache, mac(p.value.random), copy);
      if !Active(copy.row, s.now) {
        s := s.(caches := s.caches - {cache});
        return None;
      }
      var hash := mac(p.value.random);
      if hash != copy.row.hash {
        return None;
      }
      if !IssuerIn(s, copy.row) {
        s := s.(caches := s.caches - {cache});
        return None;
      }
      s := s.(accepted := s.accepted + {Accepted(s.now, s.now, copy, hash)});
      return Some(copy.row);
    }
  }

  /** What the steps of an undisturbed verification amount to. */
  lemma Undisturbed(s: State, request: nat, cache: nat, hash: string, copy: Copy)
    requires request !in s.requests
    requires copy == if Cached(s, cache) then s.caches[cache].copy else Copy(s.db, s.now)
    ensures var t := if !Cached(s, cache) && Active(copy.row, s.now)
                     then s.(caches := s.caches[cache := Entry(copy, s.now + CACHE_TTL)]) else s;
            Verified(s, request, cache, hash) ==
            if !Active(copy.row, s.now) then t.(caches := t.caches - {cache})
            else if hash != copy.row.hash then t
            else if !IssuerIn(s, copy.row) then t.(caches := t.caches - {cache})
            else t.(accepted := t.accepted + {Accepted(s.now, s.now, copy, hash)})
  {
    var ready := if Cached(s, cache) then Next(s, TakeCached(request, cache))
                 else Next(Next(s, Fetch(request)), Store(request, cache));
    assert ready.requests == s.requests[request := AtHand(copy, s.now)];
    assert ready.requests - {request} == s.requests;
    var checked := Next(ready, Check(request, cache, hash));
    if Active(copy.row, s.now) && hash == copy.row.hash {
      assert checked.requests == s.requests[request := Checked(copy, s.now, s.now, hash)];
      assert checked.requests - {request} == s.requests;
    }
  }

  // ----- what a copy can be -----

  /** A copy that was read unrevoked was read no later than the revocation. */
  ghost predicate CopySound(s: State, c: Copy) {
    c.readAt <= s.now && (c.row.revokedAt.None? && s.db.revokedAt.Some? ==> c.readAt <= s.db.revokedAt.value)
  }

  /** A copy came into a request's hands before any cache entry of it could end. */
  ghost predicate ProgressSound(s: State, p: Progress, lags: Lags) {
    CopySound(s, p.copy)
    && (!p.Fetched? ==> p.copy.readAt <= p.since <= s.now && p.since < p.copy.readAt + lags.store + CACHE_TTL)
    && (p.Checked? ==> p.since <= p.checkedAt <= s.now && Active(p.copy.row, p.checkedAt) && p.hash == p.copy.row.hash)
  }

  ghost predicate AcceptedSound(s: State, x: Accepted, lags: Lags) {
    CopySound(s, x.copy) && Active(x.copy.row, x.checkedAt) && x.hash == x.copy.row.hash
    && x.copy.readAt <= x.checkedAt <= x.at < x.copy.readAt + lags.store + CACHE_TTL + lags.verdict
  }

  ghost predicate Inv(s: State, lags: Lags) {
    (forall c | c in s.caches ::
       CopySound(s, s.caches[c].copy) && s.caches[c].until <= s.caches[c].copy.readAt + lags.store + CACHE_TTL)
    && (forall r | r in s.requests :: ProgressSound(s, s.requests[r], lags))
    && (forall x | x in s.accepted :: AcceptedSound(s, x, lags))
    && (s.db.revokedAt.Some? ==> s.db.revokedAt.value <= s.now)
  }

  /** Sound copies stay sound: time moves on and a revocation is never taken back. */
  lemma CopyStays(s: State, a: Act, c: Copy)
    requires CopySound(s, c)
    ensures CopySound(Next(s, a), c)
  {
  }

  lemma CachesStay(s: State, a: Act, lags: Lags, c: nat)
    requires Inv(s, lags) && Prompt(s, a, lags) && c in Next(s, a).caches
    ensures var e := Next(s, a).caches[c];
            CopySound(Next(s, a), e.copy) && e.until <= e.copy.readAt + lags.store + CACHE_TTL
  {
    CopyStays(s, a, Next(s, a).caches[c].copy);
  }

  lemma RequestsStay(s: State, a: Act, lags: Lags, r: nat)
    requires Inv(s, lags) && Prompt(s, a, lags) && r in Next(s, a).requests
    ensures ProgressSound(Next(s, a), Next(s, a).requests[r], lags)
  {
    if r in s.requests {
      CopyStays(s, a, s.requests[r].copy);
    }
  }

  lemma AcceptedStays(s: State, a: Act, lags: Lags, x: Accepted)
    requires Inv(s, lags) && Prompt(s, a, lags) && x in Next(s, a).accepted
    ensures AcceptedSound(Next(s, a), x, lags)
  {
    if x in s.accepted {
      CopyStays(s, a, x.copy);
    } else {
      CopyStays(s, a, s.requests[a.request].copy);
    }
  }

  lemma StepKeeps(s: State, a: Act, lags: Lags)
    requires Inv(s, lags) && Prompt(s, a, lags)
    ensures Inv(Next(s, a), lags)
  {
    var t := Next(s, a);
    assert t.db.revokedAt.Some? ==> t.db.revokedAt.value <= t.now;
    hide Next, CopySound, ProgressSound, AcceptedSound;
    forall c | c in t.caches
      ensures CopySound(t, t.caches[c].copy) && t.caches[c].until <= t.caches[c].copy.readAt + lags.store + CACHE_TTL
    {
      CachesStay(s, a, lags, c);
    }
    forall r | r in t.requests ensures ProgressSound(t, t.requests[r], lags) {
      RequestsStay(s, a, lags, r);
    }
    forall x | x in t.accepted ensures AcceptedSound(t, x, lags) {
      AcceptedStays(s, a, lags, x);
    }
  }

  // ----- whole runs -----

  /** A key just issued, nothing cached anywhere. */
  predicate Fresh(s: State) {
    s.caches == map[] && s.requests == map[] && s.accepted == {} && s.db.revokedAt.None?
  }

  lemma PromptPrefix(s: State, acts: seq<Act>, lags: Lags)
    requires acts != [] && PromptRun(s, acts, lags)
    ensures PromptRun(s, acts[..|acts| - 1], lags)
    ensures Prompt(After(s, acts[..|acts| - 1]), acts[|acts| - 1], lags)
  {
    var init := acts[..|acts| - 1];
    forall n | 0 <= n < |init| ensures Prompt(After(s, init[..n]), init[n], lags) {
      assert init[..n] == acts[..n];
    }
  }

  lemma {:induction false} RunKeeps(s: State, acts: seq<Act>, lags: Lags)
    requires Inv(s, lags) && PromptRun(s, acts, lags)
    ensures Inv(After(s, acts), lags)
  {
    if acts != [] {
      PromptPrefix(s, acts, lags);
      RunKeeps(s, acts[..|acts| - 1], lags);
      StepKeeps(After(s, acts[..|acts| - 1]), acts[|acts| - 1], lags);
    }
  }

  /** At some moment of the run the copy was what the database held. */
  ghost predicate WasInDatabase(s: State, acts: seq<Act>, c: Copy) {
    exists n :: 0 <= n <= |acts| && After(s, acts[..n]).now == c.readAt && After(s, acts[..n]).db == c.row
  }

  /** At the moment of acceptance the issuer was among the members of that moment. */
  ghost predicate IssuerWasMember(s: State, acts: seq<Act>, x: Accepted) {
    x.copy.row.issuer.Some?
    && exists n :: 0 <= n <= |acts| && After(s, acts[..n]).now == x.at && x.copy.row.issuer.value in After(s, acts[..n]).members
  }

  ghost predicate AllCopiesReal(s: State, acts: seq<Act>) {
    RealIn(s, acts, After(s, acts))
  }

  /** Every copy in `t` was real at some moment of the run. */
  ghost predicate RealIn(s: State, acts: seq<Act>, t: State) {
    (forall c | c in t.caches :: WasInDatabase(s, acts, t.caches[c].copy))
    && (forall r | r in t.requests :: WasInDatabase(s, acts, t.requests[r].copy))
    && (forall x | x in t.accepted :: WasInDatabase(s, acts, x.copy) && IssuerWasMember(s, acts, x))
  }

  lemma RealLater(s: State, acts: seq<Act>, a: Act, c: Copy)
    requires WasInDatabase(s, acts, c)
    ensures WasInDatabase(s, acts + [a], c)
  {
    var n :| 0 <= n <= |acts| && After(s, acts[..n]).now == c.readAt && After(s, acts[..n]).db == c.row;
    assert (acts + [a])[..n] == acts[..n];
  }

  lemma MemberLater(s: State, acts: seq<Act>, a: Act, x: Accepted)
    requires IssuerWasMember(s, acts, x)
    ensures IssuerWasMember(s, acts + [a], x)
  {
    var n :| 0 <= n <= |acts| && After(s, acts[..n]).now == x.at && x.copy.row.issuer.value in After(s, acts[..n]).members;
    assert (acts + [a])[..n] == acts[..n];
  }

  /** What holds now held at some moment of the run. */
  lemma NowIsAMoment(s: State, acts: seq<Act>, a: Act)
    ensures WasInDatabase(s, acts + [a], Copy(After(s, acts).db, After(s, acts).now))
    ensures forall x: Accepted | x.at == After(s, acts).now && IssuerIn(After(s, acts), x.copy.row) ::
              IssuerWasMember(s, acts + [a], x)
  {
    assert (acts + [a])[..|acts|] == acts;
  }

  /** Where the copies of a step come from: each was in a cache or a request before,
      or is the database row of that moment; an acceptance is of a checked copy,
      with the issuer among the members of that moment. */
  lemma CopiesComeFrom(s: State, a: Act)
    ensures var t := Next(s, a);
            (forall c | c in t.caches ::
               (c in s.caches && t.caches[c] == s.caches[c])
               || exists r :: r in s.requests && s.requests[r].copy == t.caches[c].copy)
            && (forall r | r in t.requests ::
                  (r in s.requests && t.requests[r].copy == s.requests[r].copy)
                  || (exists c :: c in s.caches && t.requests[r].copy == s.caches[c].copy)
                  || t.requests[r].copy == Copy(s.db, s.now))
            && (forall x | x in t.accepted && x !in s.accepted ::
                  x.at == s.now && IssuerIn(s, x.copy.row) && exists r :: r in s.requests && s.requests[r].copy == x.copy)
  {
  }

  lemma RealInLater(s: State, acts: seq<Act>, a: Act, t: State)
    requires RealIn(s, acts, t)
    ensures RealIn(s, acts + [a], t)
  {
    hide WasInDatabase, IssuerWasMember;
    forall c: Copy | WasInDatabase(s, acts, c) ensures WasInDatabase(s, acts + [a], c) {
      RealLater(s, acts, a, c);
    }
    forall x | x in t.accepted ensures IssuerWasMember(s, acts + [a], x) {
      MemberLater(s, acts, a, x);
    }
  }

  lemma NextIsReal(s: State, acts: seq<Act>, a: Act, t: State)
    requires RealIn(s, acts, t) && WasInDatabase(s, acts, Copy(t.db, t.now))
    requires forall x: Accepted | x.at == t.now && IssuerIn(t, x.copy.row) :: IssuerWasMember(s, acts, x)
    ensures RealIn(s, acts, Next(t, a))
  {
    CopiesComeFrom(t, a);
    hide Next, WasInDatabase, IssuerWasMember;
  }

  lemma StepKeepsReal(s: State, acts: seq<Act>, a: Act)
    requires AllCopiesReal(s, acts)
    ensures AllCopiesReal(s, acts + [a])
  {
    assert (acts + [a])[..|acts|] == acts;
    assert After(s, acts + [a]) == Next(After(s, acts), a);
    hide Next, After, RealIn, WasInDatabase, IssuerWasMember;
    RealInLater(s, acts, a, After(s, acts));
    NowIsAMoment(s, acts, a);
    NextIsReal(s, acts + [a], a, After(s, acts));
  }

  lemma NoCopies(s: State)
    requires Fresh(s)
    ensures AllCopiesReal(s, [])
  {
  }

  /** Over every run: each copy in a cache, in a request's hands or behind an
      acceptance was the database row at the moment it was read, and each issuer
      was a member at the moment of acceptance. */
  lemma {:induction false} CopiesAreReal(s: State, acts: seq<Act>)
    requires Fresh(s)
    ensures AllCopiesReal(s, acts)
  {
    if acts == [] {
      NoCopies(s);
    } else {
      hide *;
      var n := |acts| - 1;
      CopiesAreReal(s, acts[..n]);
      StepKeepsReal(s, acts[..n], acts[n]);
      assert acts == acts[..n] + [acts[n]];
    }
  }

  /** Whatever happens after a revocation, revoking again included, the key stays
      revoked as of that instant, under the same hash. */
  lemma {:induction false} RevocationStands(s: State, acts: seq<Act>)
    requires s.db.revokedAt.Some?
    ensures After(s, acts).db.revokedAt == s.db.revokedAt && After(s, acts).db.hash == s.db.hash
  {
    if acts != [] {
      RevocationStands(s, acts[..|acts| - 1]);
      RevokedBefore(After(s, acts[..|acts| - 1]), acts[|acts| - 1]);
    }
  }

  lemma RevokedBefore(s: State, a: Act)
    ensures s.db.revokedAt.Some? ==> Next(s, a).db.revokedAt == s.db.revokedAt
    ensures Next(s, a).db.hash == s.db.hash
  {
  }

  /** Whichever cache answered, an accepted key was, at a moment of the run less
      than thirty seconds plus the lags before, the active row of the database; it
      was checked against the clock when it was checked and its issuer against the
      members at acceptance; and it is accepted less than thirty seconds plus the
      lags after a revocation. */
  lemma AcceptedRecently(s: State, acts: seq<Act>, lags: Lags, x: Accepted)
    requires Fresh(s) && PromptRun(s, acts, lags) && x in After(s, acts).accepted
    ensures var t := After(s, acts);
            && WasInDatabase(s, acts, x.copy) && IssuerWasMember(s, acts, x)
            && x.copy.readAt <= x.checkedAt <= x.at < x.copy.readAt + lags.store + 30_000_000 + lags.verdict
            && x.copy.row.revokedAt.None? && (x.copy.row.expiresAt.Some? ==> x.checkedAt < x.copy.row.expiresAt.value)
            && x.hash == x.copy.row.hash
            && (t.db.revokedAt.Some? ==> x.at < t.db.revokedAt.value + lags.store + 30_000_000 + lags.verdict)
  {
    RunKeeps(s, acts, lags);
    CopiesAreReal(s, acts);
    assert AcceptedSound(After(s, acts), x, lags);
  }

  // ----- when thirty seconds are enough -----

  /** A run in which a key is accepted thirty seconds or more after its revocation. */
  ghost predicate LateAcceptance(s: State, acts: seq<Act>, lags: Lags) {
    Fresh(s) && PromptRun(s, acts, lags)
    && var t := After(s, acts);
    t.db.revokedAt.Some? && exists x :: x in t.accepted && x.at >= t.db.revokedAt.value + 30_000_000
  }

  const KEY := KeyRow("h", Some(0), None, None)
  const ISSUED := State(0, KEY, {0}, map[], map[], {})

  /** Read in one worker, revoke in another, store after `store`, take it from the
      cache at the last moment, and reach the verdict after `verdict`. */
  function Sneak(lags: Lags): seq<Act> {
    [Fetch(0), Revoke(1), Wait(lags.store), Store(0, 0), Wait(CACHE_TTL - 1), TakeCached(1, 0), Wait(lags.verdict),
     Check(1, 0, "h"), Admit(1, 0)]
  }

  /** The states the sneaking run goes through. */
  function SneakAt(lags: Lags, n: nat): State
    requires n <= 9
  {
    var revoked := KEY.(revokedAt := Some(0));
    var copy := Copy(KEY, 0);
    var stored := map[0 := Entry(copy, lags.store + CACHE_TTL)];
    var taken := lags.store + CACHE_TTL - 1;
    if n == 0 then ISSUED
    else if n == 1 then ISSUED.(requests := map[0 := Fetched(copy)])
    else if n == 2 then State(0, revoked, {0}, map[], map[0 := Fetched(copy)], {})
    else if n == 3 then State(lags.store, revoked, {0}, map[], map[0 := Fetched(copy)], {})
    else if n == 4 then State(lags.store, revoked, {0}, stored, map[0 := AtHand(copy, lags.store)], {})
    else if n == 5 then State(taken, revoked, {0}, stored, map[0 := AtHand(copy, lags.store)], {})
    else if n == 6 then State(taken, revoked, {0}, stored, map[0 := AtHand(copy, lags.store), 1 := AtHand(copy, taken)], {})
    else
      var end := taken + lags.verdict;
      if n == 7 then State(end, revoked, {0}, stored, map[0 := AtHand(copy, lags.store), 1 := AtHand(copy, taken)], {})
      else if n == 8
      then State(end, revoked, {0}, stored, map[0 := AtHand(copy, lags.store), 1 := Checked(copy, taken, end, "h")], {})
      else State(end, revoked, {0}, stored, map[0 := AtHand(copy, lags.store)], {Accepted(end, end, copy, "h")})
  }

  lemma SneakStep(lags: Lags, n: nat)
    requires n < 9
    ensures Prompt(SneakAt(lags, n), Sneak(lags)[n], lags)
    ensures Next(SneakAt(lags, n), Sneak(lags)[n]) == SneakAt(lags, n + 1)
  {
    if n == 8 {
      assert SneakAt(lags, 8).requests - {1} == SneakAt(lags, 9).requests;
    }
  }

  lemma {:induction false} SneakGoes(lags: Lags, n: nat)
    requires n <= 9
    ensures After(ISSUED, Sneak(lags)[..n]) == SneakAt(lags, n)
  {
    if n > 0 {
      SneakGoes(lags, n - 1);
      SneakStep(lags, n - 1);
      assert Sneak(lags)[..n][..n - 1] == Sneak(lags)[..n - 1] && Sneak(lags)[..n][n - 1] == Sneak(lags)[n - 1];
      hide Next, Sneak, SneakAt;
    }
  }

  lemma SneakIsLate(lags: Lags)
    requires lags.store > 0 || lags.verdict > 0
    ensures LateAcceptance(ISSUED, Sneak(lags), lags)
  {
    var acts := Sneak(lags);
    forall n | 0 <= n < |acts| ensures Prompt(After(ISSUED, acts[..n]), acts[n], lags) {
      SneakGoes(lags, n);
      SneakStep(lags, n);
    }
    SneakGoes(lags, 9);
    assert acts[..9] == acts;
    var end := lags.store + CACHE_TTL - 1 + lags.verdict;
    assert Accepted(end, end, Copy(KEY, 0), "h") in SneakAt(lags, 9).accepted;
  }

  /** No run accepts a key thirty seconds or more after its revocation if and only
      if a row is stored at the very moment it is read and the verdict falls at the
      very moment the copy is taken; either delay alone lets such a run happen. */
  lemma ThirtySecondsIff(lags: Lags)
    ensures (forall s: State, acts: seq<Act> :: !LateAcceptance(s, acts, lags)) <==> lags.store == 0 && lags.verdict == 0
  {
    if lags.store == 0 && lags.verdict == 0 {
      forall s: State, acts: seq<Act> ensures !LateAcceptance(s, acts, lags) {
        if Fresh(s) && PromptRun(s, acts, lags) {
          var t := After(s, acts);
          forall x | x in t.accepted && t.db.revokedAt.Some? ensures x.at < t.db.revokedAt.value + 30_000_000 {
            AcceptedRecently(s, acts, lags, x);
          }
        }
      }
    } else {
      SneakIsLate(lags);
    }
  }

  /** The bound with both lags is attained: no smaller one holds of every run. */
  lemma BoundIsTight(lags: Lags)
    ensures exists acts :: PromptRun(ISSUED, acts, lags)
              && var t := After(ISSUED, acts);
              t.db.revokedAt.Some?
              && exists x :: x in t.accepted && x.at == t.db.revokedAt.value + lags.store + 30_000_000 + lags.verdict - 1
  {
    var acts := Sneak(lags);
    forall n | 0 <= n < |acts| ensures Prompt(After(ISSUED, acts[..n]), acts[n], lags) {
      SneakGoes(lags, n);
      SneakStep(lags, n);
    }
    SneakGoes(lags, 9);
    assert acts[..9] == acts;
    var end := lags.store + CACHE_TTL - 1 + lags.verdict;
    assert Accepted(end, end, Copy(KEY, 0), "h") in SneakAt(lags, 9).accepted;
  }
}
