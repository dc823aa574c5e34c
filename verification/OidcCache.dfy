/**
 The cache of identity-provider decisions and the service that answers from it. Every clock
 reading is a parameter: the code reads the clock several times per call, and how far those
 readings lie apart matters.
 */
module OidcCache {
  import opened Common
  import opened MachineInts

  /** A bearer token and its "exp" claim (section 4.1.4 of RFC 7519), when it is a JWT that carries one. */
  datatype Token = Token(text: string, exp: Option<Time>)

  datatype Identity = Identity(username: string, groups: seq<string>)

  /** What the provider says when it says anything. */
  datatype Decision = Accepted(identity: Identity) | Rejected

  datatype Answer = Decided(decision: Decision) | Unavailable

  datatype Entry = Entry(decision: Decision, expiresAt: Time)

  type Entries = map<string, Entry>

  const MAX_ENTRIES: nat := 10000
  const NEGATIVE_TTL: Time := 30 * SECOND

  /** The claim in whole seconds; zero reads as no claim. */
  function TokenExpiry(token: Token): Option<Time> {
    if token.exp.None? || token.exp.value == 0 then None else Some(TruncDiv(token.exp.value, SECOND) * SECOND)
  }

  function CacheTtl(configured: Time, token: Token, now: Time): Time {
    if configured <= 0 then 0
    else
      match TokenExpiry(token)
      case None => configured
      case Some(expiry) =>
        if expiry - now <= 0 then 0 else if expiry - now < configured then expiry - now else configured
  }

  /** A rejection's lifetime does not depend on the token's own expiry. */
  function EntryTtl(configured: Time, token: Token, decision: Decision, now: Time): Time {
    match decision
    case Accepted(_) => CacheTtl(configured, token, now)
    case Rejected => if configured < NEGATIVE_TTL then configured else NEGATIVE_TTL
  }

  /** The instant an "exp" of e names: its whole second, rounded towards the epoch. */
  function WholeSecond(e: Time): Time {
    if e >= 0 then e - e % SECOND else e + (-e) % SECOND
  }

  /**
   How long a decision lives. A rejection lives for half a minute or the interval if that is shorter;
   an acceptance for the interval, or until the whole second of its claim if there is one and it
   comes sooner, and not at all once that has passed.
   */
  lemma EntryTtlIs(configured: Time, token: Token, decision: Decision, now: Time)
    requires configured > 0
    ensures EntryTtl(configured, token, decision, now) ==
      match decision
      case Rejected => Min(configured, NEGATIVE_TTL)
      case Accepted(_) =>
        match token.exp
        case None => configured
        case Some(e) => if e == 0 then configured else Max(0, Min(configured, WholeSecond(e) - now))
  {
    if token.exp.Some? {
      WholeSecondIs(token.exp.value);
    }
  }

  lemma WholeSecondIs(e: Time)
    ensures TruncDiv(e, SECOND) * SECOND == WholeSecond(e)
    ensures e > 0 ==> e - SECOND < WholeSecond(e) <= e
  {
    if e >= 0 {
      assert e == SECOND * (e / SECOND) + e % SECOND;
    } else {
      assert -e == SECOND * (-e / SECOND) + -e % SECOND;
    }
  }

  predicate Expired(entry: Entry, now: Time) {
    now > entry.expiresAt
  }

  function Unexpired(entries: Entries, now: Time): Entries {
    map key | key in entries && !Expired(entries[key], now) :: entries[key]
  }

  function Remembered(configured: Time, entries: Entries, key: string, now: Time): Option<Decision> {
    if configured > 0 && key in entries && !Expired(entries[key], now) then Some(entries[key].decision) else None
  }

  function AfterGet(configured: Time, entries: Entries, key: string, now: Time): Entries {
    if configured > 0 && key in entries && Expired(entries[key], now) then entries - {key} else entries
  }

  /** When a decision is put, its lifetime, the reclaim and the deadline each read the clock. */
  datatype PutClock = PutClock(read: Time, swept: Time, stored: Time)

  function MadeRoom(entries: Entries, swept: Time, victim: Option<string>): Entries {
    if |entries| < MAX_ENTRIES then entries
    else if victim.Some? then Unexpired(entries, swept) - {victim.value}
    else Unexpired(entries, swept)
  }

  function AfterPut(configured: Time, entries: Entries, token: Token, decision: Decision, at: PutClock,
      victim: Option<string>): Entries {
    var ttl := EntryTtl(configured, token, decision, at.read);
    if configured <= 0 || ttl <= 0 then entries
    else MadeRoom(entries, at.swept, victim)[token.text := Entry(decision, at.stored + ttl)]
  }

  class ValidationCache {
    const ttl: Time
    var entries: Entries

    constructor (ttl: Time)
      ensures this.ttl == ttl && entries == map[]
    {
      this.ttl := ttl;
      entries := map[];
    }

    method Get(key: string, now: Time) returns (found: Option<Decision>)
      modifies this
      ensures found == Remembered(ttl, old(entries), key, now)
      ensures entries == AfterGet(ttl, old(entries), key, now)
      ensures ttl > 0 && key in old(entries) && now <= old(entries)[key].expiresAt ==>
        found == Some(old(entries)[key].decision) && entries == old(entries)
      ensures ttl > 0 && key in old(entries) && now > old(entries)[key].expiresAt ==>
        found == None && entries == old(entries) - {key}
      ensures ttl <= 0 || key !in old(entries) ==> found == None && entries == old(entries)
    {
      if ttl <= 0 || key !in entries {
        return None;
      }
      var entry := entries[key];
      if now > entry.expiresAt {
        entries := entries - {key};
        return None;
      }
      return Some(entry.decision);
    }

    method ReclaimExpired(now: Time)
      modifies this
      ensures entries == Unexpired(old(entries), now)
      ensures forall key :: key in entries <==> key in old(entries) && now <= old(entries)[key].expiresAt
      ensures forall key :: key in entries ==> entries[key] == old(entries)[key]
    {
      var rest := entries.Keys;
      while rest != {}
        invariant rest <= entries.Keys <= old(entries).Keys
        invariant forall key :: key in entries ==> entries[key] == old(entries)[key]
        invariant forall key :: key in old(entries) ==>
          (key in entries <==> key in rest || !Expired(old(entries)[key], now))
        decreases |rest|
      {
        var key :| key in rest;
        rest := rest - {key};
        if now > entries[key].expiresAt {
          entries := entries - {key};
        }
      }
    }

    /** Drops some entry if the cache is still full, and says which. */
    method EvictOne() returns (victim: Option<string>)
      modifies this
      ensures victim.None? ==> entries == old(entries) && |entries| < MAX_ENTRIES
      ensures victim.Some? ==>
        victim.value in old(entries) && |old(entries)| >= MAX_ENTRIES && entries == old(entries) - {victim.value}
    {
      if |entries| < MAX_ENTRIES {
        return None;
      }
      assert entries.Keys != {};
      var key :| key in entries.Keys;
      entries := entries - {key};
      return Some(key);
    }

    method MakeRoom(now: Time) returns (victim: Option<string>)
      modifies this
      ensures entries == MadeRoom(old(entries), now, victim)
      ensures |old(entries)| <= MAX_ENTRIES ==> |entries| < MAX_ENTRIES
    {
      if |entries| < MAX_ENTRIES {
        return None;
      }
      Fewer(entries, now);
      ReclaimExpired(now);
      ghost var reclaimed := entries;
      victim := EvictOne();
      if victim.Some? { OneFewer(reclaimed, victim.value); }
    }

    method Put(token: Token, decision: Decision, at: PutClock) returns (victim: Option<string>)
      modifies this
      ensures entries == AfterPut(ttl, old(entries), token, decision, at, victim)
      ensures ttl <= 0 || EntryTtl(ttl, token, decision, at.read) <= 0 ==> entries == old(entries)
      ensures ttl > 0 && EntryTtl(ttl, token, decision, at.read) > 0 ==>
        && token.text in entries
        && entries[token.text] == Entry(decision, at.stored + EntryTtl(ttl, token, decision, at.read))
        && (forall key :: key in entries && key != token.text ==>
              key in old(entries) && entries[key] == old(entries)[key])
        && (forall key :: key in old(entries) && key !in entries ==>
              |old(entries)| >= MAX_ENTRIES && (at.swept > old(entries)[key].expiresAt || victim == Some(key)))
      ensures |old(entries)| <= MAX_ENTRIES ==> |entries| <= MAX_ENTRIES
    {
      victim := None;
      if ttl <= 0 {
        return;
      }
      var life := EntryTtl(ttl, token, decision, at.read);
      if life <= 0 {
        return;
      }
      hide MadeRoom;
      victim := MakeRoom(at.swept);
      OneMore(entries, token.text, Entry(decision, at.stored + life));
      entries := entries[token.text := Entry(decision, at.stored + life)];
    }
  }

  lemma Fewer(entries: Entries, now: Time)
    ensures |Unexpired(entries, now)| <= |entries|
  {
    KeysCount(Unexpired(entries, now).Keys, entries.Keys);
  }

  lemma {:induction false} KeysCount<T>(a: set<T>, b: set<T>)
    requires a <= b
    ensures |a| <= |b|
  {
    if a != {} {
      var x :| x in a;
      KeysCount(a - {x}, b - {x});
    }
  }

  lemma OneFewer(entries: Entries, key: string)
    requires key in entries
    ensures |entries - {key}| == |entries| - 1
  {
    assert (entries - {key}).Keys == entries.Keys - {key};
  }

  lemma OneMore(entries: Entries, key: string, entry: Entry)
    ensures |entries[key := entry]| <= |entries| + 1
  {
    assert entries[key := entry].Keys == entries.Keys + {key};
  }

  /** What one call is given: the clock when it looks, the provider's answers if asked, and the clock as it stores. */
  datatype Call = Call(token: Token, at: Time, discovery: Option<string>, answer: Answer, put: PutClock)

  /** One call's answer, whether the provider was asked for it, and the cache afterwards. */
  function Served(configured: Time, entries: Entries, call: Call, allowCached: bool, reachable: bool,
      victim: Option<string>): (Answer, bool, Entries) {
    var known := Remembered(configured, entries, call.token.text, call.at);
    var looked := AfterGet(configured, entries, call.token.text, call.at);
    if known.Some? && (allowCached || known.value.Rejected?) then (Decided(known.value), false, looked)
    else if !reachable || call.answer.Unavailable? then (Unavailable, true, looked)
    else (call.answer, true, AfterPut(configured, looked, call.token, call.answer.decision, call.put, victim))
  }

  class OidcService {
    const cache: ValidationCache
    const privilegedGroups: seq<string>
    var userinfoUrl: Option<string>

    constructor (interval: Time, privilegedGroups: seq<string>)
      ensures fresh(cache) && cache.ttl == interval && cache.entries == map[]
      ensures this.privilegedGroups == privilegedGroups && userinfoUrl == None
    {
      cache := new ValidationCache(interval);
      this.privilegedGroups := privilegedGroups;
      userinfoUrl := None;
    }

    /** Discovered once and kept; a failed discovery is tried again by the next call. */
    method ResolveUserinfoUrl(discovery: Option<string>) returns (url: Option<string>)
      modifies this
      ensures url == userinfoUrl == if old(userinfoUrl).Some? then old(userinfoUrl) else discovery
    {
      if userinfoUrl.None? {
        userinfoUrl := discovery;
      }
      return userinfoUrl;
    }

    method FetchUserInfo(call: Call) returns (answer: Answer)
      modifies this
      ensures answer == if userinfoUrl.Some? then call.answer else Unavailable
      ensures userinfoUrl == if old(userinfoUrl).Some? then old(userinfoUrl) else call.discovery
    {
      var url := ResolveUserinfoUrl(call.discovery);
      return if url.None? then Unavailable else call.answer;
    }

    /** The answer, and which entry had to go for it, if the provider was asked. */
    method ResolveIdentity(call: Call, allowCached: bool) returns (answer: Answer, asked: bool, victim: Option<string>)
      modifies this, cache
      ensures (answer, asked, cache.entries) ==
        Served(cache.ttl, old(cache.entries), call, allowCached, userinfoUrl.Some?, victim)
      ensures !asked ==> userinfoUrl == old(userinfoUrl)
      ensures |old(cache.entries)| <= MAX_ENTRIES ==> |cache.entries| <= MAX_ENTRIES
    {
      victim := None;
      LookCount(cache.ttl, cache.entries, call.token.text, call.at);
      var known := cache.Get(call.token.text, call.at);
      if known.Some? && (allowCached || known.value.Rejected?) {
        return Decided(known.value), false, None;
      }
      answer := FetchUserInfo(call);
      asked := true;
      if answer.Unavailable? {
        return;
      }
      victim := cache.Put(call.token, answer.decision, call.put);
    }

    method Authenticate(call: Call) returns (answer: Answer, asked: bool, victim: Option<string>)
      modifies this, cache
      ensures (answer, asked, cache.entries) ==
        Served(cache.ttl, old(cache.entries), call, true, userinfoUrl.Some?, victim)
      ensures var known := Remembered(cache.ttl, old(cache.entries), call.token.text, call.at);
        if known.Some? then answer == Decided(known.value) && !asked
        else asked && answer == if userinfoUrl.Some? then call.answer else Unavailable
      ensures |old(cache.entries)| <= MAX_ENTRIES ==> |cache.entries| <= MAX_ENTRIES
    {
      answer, asked, victim := ResolveIdentity(call, true);
    }

    method AllowedToRollback(groups: seq<string>) returns (allowed: bool)
      ensures allowed <==> exists group :: group in groups && group in privilegedGroups
    {
      for i := 0 to |groups|
        invariant forall j :: 0 <= j < i ==> groups[j] !in privilegedGroups
      {
        if groups[i] in privilegedGroups {
          return true;
        }
      }
      return false;
    }

    /**
     Privilege is granted exactly on an acceptance the provider gave in this call, to a member of a
     privileged group.
     */
    method Validate(call: Call) returns (granted: bool, answer: Answer)
      modifies this, cache
      ensures granted <==>
        && (var known := Remembered(cache.ttl, old(cache.entries), call.token.text, call.at); known != Some(Rejected))
        && userinfoUrl.Some? && call.answer.Decided? && call.answer.decision.Accepted?
        && exists group :: group in call.answer.decision.identity.groups && group in privilegedGroups
      ensures |old(cache.entries)| <= MAX_ENTRIES ==> |cache.entries| <= MAX_ENTRIES
    {
      var asked, victim;
      answer, asked, victim := ResolveIdentity(call, false);
      if answer.Unavailable? || answer.decision.Rejected? {
        return false, answer;
      }
      granted := AllowedToRollback(answer.decision.identity.groups);
    }
  }

  lemma LookCount(configured: Time, entries: Entries, key: string, now: Time)
    ensures |AfterGet(configured, entries, key, now)| <= |entries|
  {
    KeysCount(AfterGet(configured, entries, key, now).Keys, entries.Keys);
  }
}
