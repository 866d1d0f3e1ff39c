/** API key authentication: the cache-then-database decision and how far it can lag behind. */
module ApiAuth {
  import opened Models
  import opened TtlCache

  const APIKEY_CACHE_TTL: nat := 900

  /** SHA-256 is treated as injective, so a token is its hash. */
  type Hash = string

  datatype Credential = Credential(id: int, accountId: Option<int>, isActive: bool)

  /** The credentials by hash (a unique index) and the accounts with their `is_active` flag. */
  datatype Directory = Directory(credentials: map<Hash, Credential>, accounts: map<int, bool>)

  datatype Info = Info(id: int, accountId: Option<int>, apiKeyHash: Hash, isActive: bool, accountIsActive: bool)

  datatype Reason = InvalidKey | NoAccount | AccountNotFound | AccountInactive

  datatype Decision = Accept(credentialId: int, accountId: int) | Reject(reason: Reason) | ServerError

  /** The decision with no cache and no failures. */
  function DbDecision(d: Directory, h: Hash): Decision {
    if h !in d.credentials || !d.credentials[h].isActive then Reject(InvalidKey)
    else match d.credentials[h].accountId
      case None => Reject(NoAccount)
      case Some(a) =>
        if a !in d.accounts then Reject(AccountNotFound)
        else if !d.accounts[a] then Reject(AccountInactive)
        else Accept(d.credentials[h].id, a)
  }

  function CacheDecision(info: Info, h: Hash): Decision {
    if info.apiKeyHash != h || !info.isActive then Reject(InvalidKey)
    else match info.accountId
      case None => Reject(NoAccount)
      case Some(a) => if !info.accountIsActive then Reject(AccountInactive) else Accept(info.id, a)
  }

  /** A key whose info the code may cache: found active, with an existing account. */
  predicate Cacheable(d: Directory, h: Hash) {
    && h in d.credentials && d.credentials[h].isActive
    && d.credentials[h].accountId.Some? && d.credentials[h].accountId.value in d.accounts
  }

  function InfoOf(d: Directory, h: Hash): Info
    requires Cacheable(d, h)
  {
    var c := d.credentials[h];
    Info(c.id, c.accountId, h, c.isActive, d.accounts[c.accountId.value])
  }

  /** Which keys the database accepts, and why it refuses the others, in the fields of its rows. */
  lemma DbDecisionInItsFields(d: Directory, h: Hash)
    ensures h !in d.credentials ==> DbDecision(d, h) == Reject(InvalidKey)
    ensures h in d.credentials ==>
      var c := d.credentials[h];
      && (!c.isActive ==> DbDecision(d, h) == Reject(InvalidKey))
      && (c.isActive && c.accountId.None? ==> DbDecision(d, h) == Reject(NoAccount))
      && (c.isActive && c.accountId.Some? ==>
            var a := c.accountId.value;
            && (a !in d.accounts ==> DbDecision(d, h) == Reject(AccountNotFound))
            && (a in d.accounts && !d.accounts[a] ==> DbDecision(d, h) == Reject(AccountInactive))
            && (a in d.accounts && d.accounts[a] ==> DbDecision(d, h) == Accept(c.id, a)))
  {
  }

  /** Which entries are accepted: of this key, active, of an active account. */
  lemma CacheDecisionInItsFields(info: Info, h: Hash)
    ensures CacheDecision(info, h).Accept? <==>
      info.apiKeyHash == h && info.isActive && info.accountId.Some? && info.accountIsActive
    ensures CacheDecision(info, h).Accept? ==> CacheDecision(info, h) == Accept(info.id, info.accountId.value)
    ensures info.apiKeyHash == h && info.isActive && info.accountId.Some? && !info.accountIsActive ==>
      CacheDecision(info, h) == Reject(AccountInactive)
  {
  }

  // ---------------------------------------------------------------- the middleware

  datatype Fault = CacheGet | FindCredential | FindAccount | CacheSet | CacheDelete | UpdateRow | DecryptKey

  datatype CachedInfo = CachedInfo(info: Info, expiresAt: int)

  class AuthGate {
    var credentials: map<Hash, Credential>
    var accounts: map<int, bool>
    var cache: map<Hash, CachedInfo>

    function Dir(): Directory
      reads this
    {
      Directory(credentials, accounts)
    }

    method GetApikeyInfo(h: Hash, now: int, faults: set<Fault>) returns (r: Option<Info>)
      ensures r == if CacheGet !in faults && h in cache && now < cache[h].expiresAt then Some(cache[h].info) else None
    {
      if CacheGet in faults || h !in cache || cache[h].expiresAt <= now {
        return None;
      }
      return Some(cache[h].info);
    }

    method SetApikeyInfo(h: Hash, info: Info, now: int, faults: set<Fault>)
      modifies this`cache
      ensures cache == if CacheSet in faults then old(cache)
          else old(cache)[h := CachedInfo(info, now + APIKEY_CACHE_TTL)]
    {
      if CacheSet !in faults {
        cache := cache[h := CachedInfo(info, now + APIKEY_CACHE_TTL)];
      }
    }

    /** Both middlewares, `auth_openai_api` and `auth_anthropic_api`, once the token is hashed. */
    method Authenticate(tokenHash: Hash, now: int, faults: set<Fault>) returns (decision: Decision)
      modifies this`cache
      ensures CacheGet !in faults && tokenHash in old(cache) && now < old(cache)[tokenHash].expiresAt ==>
        decision == CacheDecision(old(cache)[tokenHash].info, tokenHash) && cache == old(cache)
      ensures !(CacheGet !in faults && tokenHash in old(cache) && now < old(cache)[tokenHash].expiresAt) ==>
        && (FindCredential in faults ==> decision == ServerError)
        && (decision != ServerError ==> decision == DbDecision(Dir(), tokenHash))
        && (FindAccount in faults ==> !decision.Accept?)
        && (faults !! {FindCredential, FindAccount} ==> decision != ServerError)
        && (decision.Accept? ==>
              && Cacheable(Dir(), tokenHash) && credentials[tokenHash].isActive
              && decision.credentialId == credentials[tokenHash].id
              && credentials[tokenHash].accountId == Some(decision.accountId)
              && decision.accountId in accounts && accounts[decision.accountId])
        && (decision.Accept? && CacheSet !in faults ==> tokenHash in cache && cache[tokenHash].expiresAt == now + 900)
        && cache == if decision.Accept? && CacheSet !in faults
                    then old(cache)[tokenHash := CachedInfo(InfoOf(Dir(), tokenHash), now + APIKEY_CACHE_TTL)]
                    else old(cache)
    {
      var cachedInfo := GetApikeyInfo(tokenHash, now, faults);
      if cachedInfo.Some? {
        var info := cachedInfo.value;
        if info.apiKeyHash != tokenHash || !info.isActive {
          return Reject(InvalidKey);
        }
        if info.accountId.None? {
          return Reject(NoAccount);
        }
        if !info.accountIsActive {
          return Reject(AccountInactive);
        }
        return Accept(info.id, info.accountId.value);
      }

      if FindCredential in faults {
        return ServerError;
      }
      if tokenHash !in credentials || !credentials[tokenHash].isActive {
        return Reject(InvalidKey);
      }
      var accessKey := credentials[tokenHash];
      if accessKey.accountId.None? {
        return Reject(NoAccount);
      }
      var accountId := accessKey.accountId.value;
      if FindAccount in faults {
        return ServerError;
      }
      if accountId !in accounts {
        return Reject(AccountNotFound);
      }
      if !accounts[accountId] {
        return Reject(AccountInactive);
      }
      SetApikeyInfo(tokenHash,
          Info(accessKey.id, accessKey.accountId, tokenHash, accessKey.isActive, accounts[accountId]), now, faults);
      return Accept(accessKey.id, accountId);
    }

    /**
     Soft delete: deactivate the row, then drop the cache entry. A failed drop is only logged. When
     the updated row's key cannot be decrypted the handler reports an error and drops nothing.
     */
    method DeleteApikey(h: Hash, faults: set<Fault>) returns (deleted: bool)
      modifies this`credentials, this`cache
      ensures deleted <==> UpdateRow !in faults && DecryptKey !in faults && h in old(credentials)
      ensures credentials == if UpdateRow !in faults && h in old(credentials)
                             then old(credentials)[h := old(credentials)[h].(isActive := false)]
                             else old(credentials)
      ensures cache == if deleted && CacheDelete !in faults then old(cache) - {h} else old(cache)
    {
      if UpdateRow in faults || h !in credentials {
        return false;
      }
      credentials := credentials[h := credentials[h].(isActive := false)];
      if DecryptKey in faults {
        return false;
      }
      if CacheDelete !in faults {
        cache := cache - {h};
      }
      return true;
    }
  }

  // ---------------------------------------------------------------- runs of many requests

  /** How the directory changes. No operation makes a credential active again. */
  datatype DirectoryOp =
    | CreateKey(hash: Hash, id: int, accountId: int)
    | Deactivate(hash: Hash)
    | SetAccount(accountId: int, isActive: bool)

  predicate OpEnabled(d: Directory, op: DirectoryOp) {
    match op
    case CreateKey(h, _, a) => h !in d.credentials && a in d.accounts
    case Deactivate(h) => h in d.credentials
    case SetAccount(_, _) => true
  }

  function ApplyOp(d: Directory, op: DirectoryOp): Directory
    requires OpEnabled(d, op)
  {
    match op
    case CreateKey(h, id, a) => d.(credentials := d.credentials[h := Credential(id, Some(a), true)])
    case Deactivate(h) => d.(credentials := d.credentials[h := d.credentials[h].(isActive := false)])
    case SetAccount(a, active) => d.(accounts := d.accounts[a := active])
  }

  type AuthWorld = World<Hash, Directory, Info>
  type AuthStep = Step<Hash, Directory, Info>

  /** A cached info decides as the directory it was read from. */
  ghost function DecidesAlike(): (Directory, Hash, Info) -> bool {
    (d, h, info) => CacheDecision(info, h) == DbDecision(d, h)
  }

  lemma InfoDecidesAlike(d: Directory, h: Hash)
    requires Cacheable(d, h)
    ensures CacheDecision(InfoOf(d, h), h) == DbDecision(d, h)
  {
  }

  /** A step of some request: reads come from lookups and key creations. */
  ghost predicate AuthEnabled(w: AuthWorld, step: AuthStep) {
    && Enabled(DecidesAlike(), w, step)
    && (step.SetTable? ==> exists op :: OpEnabled(w.table, op) && step.table == ApplyOp(w.table, op))
    && (step.Read? ==> Cacheable(w.table, step.key) && step.value == InfoOf(w.table, step.key))
  }

  ghost predicate AuthRun(w: AuthWorld, run: seq<AuthStep>)
    decreases |run|
  {
    run != [] ==> AuthEnabled(w, run[0]) && AuthRun(Next(APIKEY_CACHE_TTL, w, run[0]), run[1..])
  }

  ghost predicate PromptRun(delay: nat, w: AuthWorld, run: seq<AuthStep>)
    decreases |run|
  {
    run != [] ==> Prompt(delay, w, run[0]) && PromptRun(delay, Next(APIKEY_CACHE_TTL, w, run[0]), run[1..])
  }

  lemma {:induction false} AuthRunIsCacheRun(delay: nat, w: AuthWorld, run: seq<AuthStep>)
    requires AuthRun(w, run) && PromptRun(delay, w, run)
    ensures ValidRun(DecidesAlike(), APIKEY_CACHE_TTL, delay, w, run)
    decreases |run|
  {
    if run == [] {
    } else {
      AuthRunIsCacheRun(delay, Next(APIKEY_CACHE_TTL, w, run[0]), run[1..]);
    }
  }

  /** What a request with this key is answered right now, if the database answers; its cache read may fail. */
  function Answer(w: AuthWorld, h: Hash, cacheFails: bool): Decision {
    if !cacheFails && IsLive(w, h) then CacheDecision(w.cache[h].value, h) else DbDecision(w.table, h)
  }

  /** The middleware's cache, as a state of the cache-and-table world. */
  predicate Mirrors(w: AuthWorld, cache: map<Hash, CachedInfo>) {
    && w.cache.Keys == cache.Keys
    && forall h :: h in cache ==> w.cache[h].value == cache[h].info && w.cache[h].expiresAt == cache[h].expiresAt
  }

  /** The decision the contract of `Authenticate` gives when the database answers. */
  function Decided(cache: map<Hash, CachedInfo>, d: Directory, h: Hash, now: int, cacheFails: bool): Decision {
    if !cacheFails && h in cache && now < cache[h].expiresAt then CacheDecision(cache[h].info, h) else DbDecision(d, h)
  }

  lemma AnswerIsDecided(w: AuthWorld, cache: map<Hash, CachedInfo>, h: Hash, cacheFails: bool)
    requires Mirrors(w, cache)
    ensures Answer(w, h, cacheFails) == Decided(cache, w.table, h, w.clock, cacheFails)
  {
  }

  /** The world after a lookup and the cache fill it leads to. */
  ghost function Filled(w: AuthWorld, h: Hash, info: Info): AuthWorld {
    Next(APIKEY_CACHE_TTL, Next(APIKEY_CACHE_TTL, w, Read(h, info)), Store(Fill(h, info, |w.history|)))
  }

  lemma MirrorsFilled(w: AuthWorld, cache: map<Hash, CachedInfo>, h: Hash, info: Info)
    requires Mirrors(w, cache)
    ensures Mirrors(Filled(w, h, info), cache[h := CachedInfo(info, w.clock + APIKEY_CACHE_TTL)])
  {
  }

  lemma LookupIsStep(w: AuthWorld, h: Hash)
    requires Cacheable(w.table, h)
    ensures AuthEnabled(w, Read(h, InfoOf(w.table, h)))
    ensures Fill(h, InfoOf(w.table, h), |w.history|) in
              Next(APIKEY_CACHE_TTL, w, Read(h, InfoOf(w.table, h))).pending
  {
    InfoDecidesAlike(w.table, h);
  }

  lemma StoreIsStep(w: AuthWorld, fill: Fill<Hash, Info>)
    requires fill in w.pending
    ensures AuthEnabled(w, Store(fill))
  {
  }

  lemma FillIsRun(w: AuthWorld, h: Hash)
    requires Cacheable(w.table, h)
    ensures var info := InfoOf(w.table, h);
      var run: seq<AuthStep> := [Read(h, info), Store(Fill(h, info, |w.history|))];
      AuthRun(w, run) && Final(APIKEY_CACHE_TTL, w, run) == Filled(w, h, info)
  {
    var info := InfoOf(w.table, h);
    LookupIsStep(w, h);
    StoreIsStep(Next(APIKEY_CACHE_TTL, w, Read(h, info)), Fill(h, info, |w.history|));
    TwoSteps(w, Read(h, info), Store(Fill(h, info, |w.history|)));
  }

  /** What `Authenticate` decides is the world's answer, and what it does to the cache is a run of the world. */
  lemma AuthenticateIsRun(w: AuthWorld, cache: map<Hash, CachedInfo>, h: Hash, cacheFails: bool, stored: bool)
    requires Mirrors(w, cache) && (stored ==> Cacheable(w.table, h))
    ensures Answer(w, h, cacheFails) == Decided(cache, w.table, h, w.clock, cacheFails)
    ensures stored ==>
      var info := InfoOf(w.table, h);
      var run: seq<AuthStep> := [Read(h, info), Store(Fill(h, info, |w.history|))];
      AuthRun(w, run)
      && Mirrors(Final(APIKEY_CACHE_TTL, w, run), cache[h := CachedInfo(info, w.clock + APIKEY_CACHE_TTL)])
  {
    AnswerIsDecided(w, cache, h, cacheFails);
    if stored {
      FillIsRun(w, h);
      MirrorsFilled(w, cache, h, InfoOf(w.table, h));
    }
  }

  /** What `DeleteApikey` does, when its cache delete succeeds, is a run that leaves the key revoked. */
  lemma DeleteIsRun(w: AuthWorld, cache: map<Hash, CachedInfo>, h: Hash)
    requires Mirrors(w, cache) && h in w.table.credentials
    ensures var table := w.table.(credentials := w.table.credentials[h := w.table.credentials[h].(isActive := false)]);
      var run: seq<AuthStep> := [SetTable(table), Delete(h)];
      && AuthRun(w, run) && Mirrors(Final(APIKEY_CACHE_TTL, w, run), cache - {h})
      && Revoked(Final(APIKEY_CACHE_TTL, w, run), h)
  {
    var table := ApplyOp(w.table, Deactivate(h));
    assert OpEnabled(w.table, Deactivate(h));
    TwoSteps(w, SetTable(table), Delete(h));
  }

  lemma TwoSteps(w: AuthWorld, first: AuthStep, second: AuthStep)
    requires AuthEnabled(w, first) && AuthEnabled(Next(APIKEY_CACHE_TTL, w, first), second)
    ensures AuthRun(w, [first, second])
    ensures Final(APIKEY_CACHE_TTL, w, [first, second]) ==
        Next(APIKEY_CACHE_TTL, Next(APIKEY_CACHE_TTL, w, first), second)
  {
    var w1 := Next(APIKEY_CACHE_TTL, w, first);
    var rest: seq<AuthStep> := [second];
    assert [first, second][1..] == rest && rest[1..] == [];
    assert AuthRun(w1, rest) && Final(APIKEY_CACHE_TTL, w1, rest) == Next(APIKEY_CACHE_TTL, w1, second);
  }

  /** Some directory of the last `bound` seconds gives this decision. */
  ghost predicate DecidedWithin(w: AuthWorld, h: Hash, decision: Decision, bound: nat) {
    || decision == DbDecision(w.table, h)
    || exists i :: 0 <= i < |w.history| && decision == DbDecision(w.history[i].table, h)
                   && w.history[i].time <= w.clock < w.history[i].time + bound
  }

  /**
   Every answer is the database's answer at some instant in the last 900 seconds, plus the time
   a request may take between its lookup and its cache fill.
   */
  lemma AnswerStaleness(delay: nat, w: AuthWorld, run: seq<AuthStep>, h: Hash, cacheFails: bool)
    requires w.cache == map[] && w.pending == multiset{} && AuthRun(w, run) && PromptRun(delay, w, run)
    ensures var end := Final(APIKEY_CACHE_TTL, w, run);
            DecidedWithin(end, h, Answer(end, h, cacheFails), APIKEY_CACHE_TTL + delay)
  {
    var end := Final(APIKEY_CACHE_TTL, w, run);
    if IsLive(end, h) {
      AuthRunIsCacheRun(delay, w, run);
      Staleness(DecidesAlike(), APIKEY_CACHE_TTL, delay, w, run, h);
      var i :| 0 <= i < |end.history| && DecidesAlike()(end.history[i].table, h, end.cache[h].value)
               && end.history[i].time <= end.clock < end.history[i].time + (APIKEY_CACHE_TTL + delay);
      assert CacheDecision(end.cache[h].value, h) == DbDecision(end.history[i].table, h);
    }
  }

  /** In numbers: no answer is older than 900 seconds and the time between a lookup and its cache fill. */
  lemma AnswersWithin900Seconds(delay: nat, w: AuthWorld, run: seq<AuthStep>, h: Hash, cacheFails: bool)
    requires w.cache == map[] && w.pending == multiset{} && AuthRun(w, run) && PromptRun(delay, w, run)
    ensures var end := Final(APIKEY_CACHE_TTL, w, run); DecidedWithin(end, h, Answer(end, h, cacheFails), 900 + delay)
  {
    AnswerStaleness(delay, w, run, h, cacheFails);
  }

  /** A key that is cached now is answered by the database again 900 seconds later. */
  lemma FilledEntryIsGoneAfter900Seconds(w: AuthWorld, fill: Fill<Hash, Info>, later: int, cacheFails: bool)
    requires fill in w.pending && w.clock + 900 <= later
    ensures var stored: AuthWorld := Next(APIKEY_CACHE_TTL, w, Store(fill));
            var end: AuthWorld := Next(APIKEY_CACHE_TTL, stored, Wait(later));
            !IsLive(end, fill.key) && Answer(end, fill.key, cacheFails) == DbDecision(w.table, fill.key)
  {
  }

  // ---------------------------------------------------------------- deactivation

  /** The state a deactivation leaves when its cache delete succeeds. */
  predicate Revoked(w: AuthWorld, h: Hash) {
    h in w.table.credentials && !w.table.credentials[h].isActive && h !in w.cache
  }

  /** Some request looked the key up while it was good and has not filled the cache yet. */
  ghost predicate FillInFlight(w: AuthWorld, h: Hash) {
    exists f :: f in w.pending && f.key == h && CacheDecision(f.value, h).Accept?
  }

  /** Nothing left anywhere can make the key acceptable. */
  ghost predicate Dead(w: AuthWorld, h: Hash) {
    && h in w.table.credentials && !w.table.credentials[h].isActive
    && (h in w.cache ==> !CacheDecision(w.cache[h].value, h).Accept?)
    && !FillInFlight(w, h)
  }

  lemma DeadKept(w: AuthWorld, step: AuthStep, h: Hash)
    requires Dead(w, h) && AuthEnabled(w, step)
    ensures Dead(Next(APIKEY_CACHE_TTL, w, step), h)
  {
    var w' := Next(APIKEY_CACHE_TTL, w, step);
    forall f | f in w'.pending && f.key == h ensures !CacheDecision(f.value, h).Accept? {
      assert f in w.pending;
    }
    if step.SetTable? {
      var op :| OpEnabled(w.table, op) && step.table == ApplyOp(w.table, op);
    }
  }

  lemma {:induction false} DeadNeverAccepted(w: AuthWorld, run: seq<AuthStep>, h: Hash, cacheFails: bool)
    requires Dead(w, h) && AuthRun(w, run)
    ensures !Answer(Final(APIKEY_CACHE_TTL, w, run), h, cacheFails).Accept?
    decreases |run|
  {
    if run == [] {
    } else {
      DeadKept(w, run[0], h);
      DeadNeverAccepted(Next(APIKEY_CACHE_TTL, w, run[0]), run[1..], h, cacheFails);
    }
  }

  ghost predicate NeverAcceptedAgain(w: AuthWorld, h: Hash) {
    forall run, cacheFails | AuthRun(w, run) :: !Answer(Final(APIKEY_CACHE_TTL, w, run), h, cacheFails).Accept?
  }

  /**
   After a deactivation whose cache delete succeeded the key is never accepted again, unless a
   request that saw it good is still on its way to fill the cache; then it can be.
   */
  lemma RevokedForGoodIff(w: AuthWorld, h: Hash)
    requires Revoked(w, h)
    ensures NeverAcceptedAgain(w, h) <==> !FillInFlight(w, h)
  {
    if FillInFlight(w, h) {
      var f :| f in w.pending && f.key == h && CacheDecision(f.value, h).Accept?;
      var w' := Next(APIKEY_CACHE_TTL, w, Store(f));
      assert AuthRun(w', []);
      var run: seq<AuthStep> := [Store(f)];
      assert run[1..] == [];
      assert AuthRun(w, run);
      assert Final(APIKEY_CACHE_TTL, w, run) == Final(APIKEY_CACHE_TTL, w', []) == w';
      assert Answer(w', h, false).Accept?;
    } else {
      forall run, cacheFails | AuthRun(w, run)
        ensures !Answer(Final(APIKEY_CACHE_TTL, w, run), h, cacheFails).Accept?
      {
        DeadNeverAccepted(w, run, h, cacheFails);
      }
    }
  }

  /**
   That state is reached from any in which the key is good and not cached: a request looks the key
   up, the key is deactivated and its entry deleted, and the fill of the request is still to come.
   */
  lemma LookupOutlivesRevocation(w: AuthWorld, h: Hash)
    requires DbDecision(w.table, h).Accept?
    ensures exists run :: AuthRun(w, run) && Revoked(Final(APIKEY_CACHE_TTL, w, run), h)
                          && FillInFlight(Final(APIKEY_CACHE_TTL, w, run), h)
  {
    var info := InfoOf(w.table, h);
    InfoDecidesAlike(w.table, h);
    var read: AuthStep := Read(h, info);
    var looked := Next(APIKEY_CACHE_TTL, w, read);
    var table := ApplyOp(looked.table, Deactivate(h));
    assert OpEnabled(looked.table, Deactivate(h));
    var set': AuthStep, delete: AuthStep := SetTable(table), Delete(h);
    TwoSteps(looked, set', delete);
    var end := Next(APIKEY_CACHE_TTL, Next(APIKEY_CACHE_TTL, looked, set'), delete);
    assert Fill(h, info, |w.history|) in end.pending;
    var run: seq<AuthStep> := [read, set', delete];
    assert run[1..] == [set', delete];
    assert AuthRun(w, run) && Final(APIKEY_CACHE_TTL, w, run) == end;
  }
}
