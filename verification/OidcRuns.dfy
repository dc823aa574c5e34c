/** Sequences of calls on the identity service: how old an answer may be, and what is never remembered. */
module OidcRuns {
  import opened Common
  import opened MachineInts
  import opened OidcCache

  /** One call with all it is given. */
  datatype Round = Round(call: Call, privileged: bool, reachable: bool, victim: Option<string>)

  /** A decision the provider gave, and the clock as it was put. */
  datatype Heard = Heard(token: Token, decision: Decision, put: PutClock)

  /** The cache, and everything the provider ever decided, in order. */
  datatype Store = Store(entries: Entries, log: seq<Heard>)

  function Next(configured: Time, s: Store, r: Round): Store {
    var (answer, asked, entries) := Served(configured, s.entries, r.call, !r.privileged, r.reachable, r.victim);
    Store(entries, if asked && answer.Decided? then s.log + [Heard(r.call.token, answer.decision, r.call.put)]
      else s.log)
  }

  function Run(configured: Time, rounds: seq<Round>): Store {
    if rounds == [] then Store(map[], [])
    else Next(configured, Run(configured, rounds[..|rounds| - 1]), rounds[|rounds| - 1])
  }

  function Life(configured: Time, h: Heard): Time {
    EntryTtl(configured, h.token, h.decision, h.put.read)
  }

  /** The i-th decision heard is the one remembered under this key: no later one could have been stored. */
  ghost predicate Remembers(configured: Time, s: Store, key: string, i: nat)
    requires key in s.entries
  {
    && i < |s.log|
    && s.log[i].token.text == key
    && Life(configured, s.log[i]) > 0
    && s.entries[key] == Entry(s.log[i].decision, s.log[i].put.stored + Life(configured, s.log[i]))
    && (forall j :: i < j < |s.log| && s.log[j].token.text == key ==> Life(configured, s.log[j]) <= 0)
  }

  ghost predicate Inv(configured: Time, s: Store) {
    && (forall key :: key in s.entries ==> exists i :: Remembers(configured, s, key, i))
    && (s.entries != map[] ==> configured > 0)
  }

  /** An entry that stays is still the last one that could be stored, if nothing storable was heard of its token. */
  lemma StillRemembers(configured: Time, s: Store, s': Store, key: string, i: nat)
    requires key in s.entries && Remembers(configured, s, key, i)
    requires key in s'.entries && s'.entries[key] == s.entries[key]
    requires s.log <= s'.log
    requires forall j :: |s.log| <= j < |s'.log| && s'.log[j].token.text == key ==> Life(configured, s'.log[j]) <= 0
    ensures Remembers(configured, s', key, i)
  {
    forall j | i < j < |s'.log| && s'.log[j].token.text == key ensures Life(configured, s'.log[j]) <= 0 {
      if j < |s.log| { assert s'.log[j] == s.log[j]; }
    }
  }

  /** What a call does to the cache: nothing new without a decision, and only the decided token with one. */
  lemma NextEntries(configured: Time, s: Store, r: Round)
    ensures var s', last, own := Next(configured, s, r), |s.log|, r.call.token.text;
      && s.log <= s'.log && |s'.log| <= last + 1
      && (|s'.log| == last + 1 ==> s'.log[last].token == r.call.token && s'.log[last].put == r.call.put)
      && (forall key :: key in s'.entries ==>
            if |s'.log| == last + 1 && key == own && configured > 0 && Life(configured, s'.log[last]) > 0 then
              s'.entries[key] == Entry(s'.log[last].decision, s'.log[last].put.stored + Life(configured, s'.log[last]))
            else
              key in s.entries && s'.entries[key] == s.entries[key])
      && (configured <= 0 ==> s'.entries == s.entries)
  {
  }

  lemma NextKeepsInv(configured: Time, s: Store, r: Round)
    requires Inv(configured, s)
    ensures Inv(configured, Next(configured, s, r))
  {
    var s', last, own := Next(configured, s, r), |s.log|, r.call.token.text;
    NextEntries(configured, s, r);
    hide Next, Life;
    forall key | key in s'.entries ensures exists i :: Remembers(configured, s', key, i) {
      if |s'.log| == last + 1 && key == own && configured > 0 && Life(configured, s'.log[last]) > 0 {
        assert Remembers(configured, s', key, last);
      } else {
        var i :| Remembers(configured, s, key, i);
        StillRemembers(configured, s, s', key, i);
      }
    }
  }

  lemma {:induction false} RunKeepsInv(configured: Time, rounds: seq<Round>)
    ensures Inv(configured, Run(configured, rounds))
  {
    if rounds != [] {
      RunKeepsInv(configured, rounds[..|rounds| - 1]);
      NextKeepsInv(configured, Run(configured, rounds[..|rounds| - 1]), rounds[|rounds| - 1]);
    }
  }

  /**
   After any calls, what an ordinary call is told without asking is a decision of the provider
   for that token, at most one validation interval old (at most 30 seconds for a rejection).
   An acceptance outlives the token's expiry by no more than the time between the two clock
   readings that stored it, and nothing the provider said of the token since contradicts it.
   */
  lemma AnswersAreRecent(configured: Time, rounds: seq<Round>, key: string, now: Time)
    requires Remembered(configured, Run(configured, rounds).entries, key, now).Some?
    ensures var s := Run(configured, rounds);
      exists i :: 0 <= i < |s.log| && var h := s.log[i];
        && h.token.text == key
        && Remembered(configured, s.entries, key, now) == Some(h.decision)
        && now <= h.put.stored + configured
        && (h.decision.Rejected? ==> now <= h.put.stored + NEGATIVE_TTL)
        && (h.decision.Accepted? && h.token.exp.Some? && h.token.exp.value > 0 ==>
              now <= WholeSecond(h.token.exp.value) + (h.put.stored - h.put.read)
              && WholeSecond(h.token.exp.value) <= h.token.exp.value)
        && (forall j :: i < j < |s.log| && s.log[j].token.text == key ==> s.log[j].decision.Accepted?)
  {
    var s := Run(configured, rounds);
    RunKeepsInv(configured, rounds);
    hide Run;
    var i: nat :| Remembers(configured, s, key, i);
    LifeBounds(configured, s.log[i]);
    forall j | i < j < |s.log| && s.log[j].token.text == key ensures s.log[j].decision.Accepted? {
      LifeBounds(configured, s.log[j]);
    }
    var h := s.log[i];
    if h.token.exp.Some? { WholeSecondIs(h.token.exp.value); }
    hide Life, TokenExpiry, WholeSecond;
    assert s.entries[key] == Entry(h.decision, h.put.stored + Life(configured, h));
  }

  lemma LifeBounds(configured: Time, h: Heard)
    requires configured > 0
    ensures Life(configured, h) <= configured
    ensures h.decision.Rejected? ==> 0 < Life(configured, h) <= NEGATIVE_TTL
    ensures h.decision.Accepted? && h.token.exp.Some? && h.token.exp.value != 0 && Life(configured, h) > 0 ==>
      Life(configured, h) <= WholeSecond(h.token.exp.value) - h.put.read
  {
    EntryTtlIs(configured, h.token, h.decision, h.put.read);
  }

  /**
   A stored acceptance is usable after the instant its token's claim names exactly when the clock
   moved on between reading the lifetime and setting the deadline by more than the fraction of a
   second the claim loses, and by more than the interval leaves spare.
   */
  lemma UsableAfterExpiryExactly(configured: Time, h: Heard, e: Time)
    requires configured > 0 && h.decision.Accepted? && h.token.exp == Some(e) && e > 0 && Life(configured, h) > 0
    ensures var entries := map[h.token.text := Entry(h.decision, h.put.stored + Life(configured, h))];
      (exists now :: now > e && Remembered(configured, entries, h.token.text, now).Some?)
      <==> h.put.stored - h.put.read > Max(e % SECOND, e - h.put.read - configured)
  {
    var entry := Entry(h.decision, h.put.stored + Life(configured, h));
    var entries := map[h.token.text := entry];
    EntryTtlIs(configured, h.token, h.decision, h.put.read);
    hide Life, EntryTtl;
    if entry.expiresAt > e {
      assert Remembered(configured, entries, h.token.text, entry.expiresAt).Some?;
    }
  }

  /** The provider was asked in this round, and answered. */
  predicate Asked(configured: Time, s: Store, r: Round) {
    r.reachable && r.call.answer.Decided?
      && Served(configured, s.entries, r.call, !r.privileged, r.reachable, r.victim).1
  }

  /** A provider failure is never remembered: the call leaves no entry that was not there, and no record. */
  lemma FailuresAreForgotten(configured: Time, s: Store, r: Round)
    requires !Asked(configured, s, r)
    ensures var s' := Next(configured, s, r);
      && s'.log == s.log
      && forall key :: key in s'.entries ==> key in s.entries && s'.entries[key] == s.entries[key]
  {
  }

  /** This round, from this store, is where this entry comes from. */
  predicate Says(configured: Time, s: Store, r: Round, key: string, entry: Entry) {
    && Asked(configured, s, r)
    && r.call.token.text == key && r.call.answer == Decided(entry.decision)
    && entry.expiresAt == r.call.put.stored + EntryTtl(configured, r.call.token, entry.decision, r.call.put.read)
  }

  lemma KeptOrSaid(configured: Time, s: Store, r: Round, key: string)
    requires key in Next(configured, s, r).entries
    ensures var entry := Next(configured, s, r).entries[key];
      (key in s.entries && s.entries[key] == entry) || Says(configured, s, r, key, entry)
  {
    if !Asked(configured, s, r) { FailuresAreForgotten(configured, s, r); }
  }

  ghost predicate SaidIn(configured: Time, rounds: seq<Round>, key: string, entry: Entry, k: nat) {
    k < |rounds| && Says(configured, Run(configured, rounds[..k]), rounds[k], key, entry)
  }

  /**
   Whatever is remembered after any calls, the provider said in one of them: no failure leaves or
   prolongs an entry.
   */
  lemma {:induction false} EveryMemoryWasSaid(configured: Time, rounds: seq<Round>, key: string)
    requires key in Run(configured, rounds).entries
    ensures exists k :: SaidIn(configured, rounds, key, Run(configured, rounds).entries[key], k)
  {
    assert rounds != [];
    var last := |rounds| - 1;
    var earlier := rounds[..last];
    var entry := Run(configured, rounds).entries[key];
    KeptOrSaid(configured, Run(configured, earlier), rounds[last], key);
    if Says(configured, Run(configured, earlier), rounds[last], key, entry) {
      assert SaidIn(configured, rounds, key, entry, last);
    } else {
      EveryMemoryWasSaid(configured, earlier, key);
      hide Run, Says;
      var k: nat :| SaidIn(configured, earlier, key, entry, k);
      assert rounds[..k] == earlier[..k];
      assert SaidIn(configured, rounds, key, entry, k);
    }
  }

  /** Without an interval nothing is ever remembered: every call asks the provider. */
  lemma NoIntervalNoMemory(configured: Time, rounds: seq<Round>, r: Round)
    requires configured <= 0
    ensures Run(configured, rounds).entries == map[]
    ensures Served(configured, Run(configured, rounds).entries, r.call, !r.privileged, r.reachable, r.victim).1
  {
    RunKeepsInv(configured, rounds);
  }

  lemma RunOneMore(configured: Time, rounds: seq<Round>, r: Round)
    ensures Run(configured, rounds + [r]) == Next(configured, Run(configured, rounds), r)
  {
    assert (rounds + [r])[..|rounds|] == rounds;
  }

  /** The log only grows, so what was heard stays where it was. */
  lemma {:induction false} LogGrows(configured: Time, rounds: seq<Round>, more: seq<Round>)
    ensures Run(configured, rounds).log <= Run(configured, rounds + more).log
  {
    if more == [] {
      assert rounds + more == rounds;
    } else {
      var last := |more| - 1;
      LogGrows(configured, rounds, more[..last]);
      assert rounds + more == (rounds + more[..last]) + [more[last]];
      RunOneMore(configured, rounds + more[..last], more[last]);
    }
  }

  /**
   A rejection takes effect at once and for good: until the provider decides on that token again,
   no ordinary call is told an acceptance from memory, whatever else is served in between and
   whatever the clock reads.
   */
  lemma RejectionTakesEffect(configured: Time, before: seq<Round>, r: Round, between: seq<Round>, now: Time)
    requires Asked(configured, Run(configured, before), r) && r.call.answer.decision.Rejected?
    requires var heard, s := |Run(configured, before + [r]).log|, Run(configured, before + [r] + between);
      forall j :: heard <= j < |s.log| ==> s.log[j].token.text != r.call.token.text
    ensures var s := Run(configured, before + [r] + between);
      var known := Remembered(configured, s.entries, r.call.token.text, now);
      known.Some? ==> known.value.Rejected?
  {
    var s, key, n := Run(configured, before + [r] + between), r.call.token.text, |Run(configured, before).log|;
    RunOneMore(configured, before, r);
    LogGrows(configured, before + [r], between);
    RunKeepsInv(configured, before + [r] + between);
    var rejection := Run(configured, before + [r]).log[n];
    assert rejection == s.log[n] == Heard(r.call.token, Rejected, r.call.put);
    hide Run, Life;
    if key in s.entries && configured > 0 {
      var i :| Remembers(configured, s, key, i);
      LifeBounds(configured, rejection);
    }
  }

  /** The round leaves this entry alone: it does not ask about its token, evict it, or read the clock past its end. */
  predicate Spares(r: Round, key: string, entry: Entry) {
    && r.victim != Some(key)
    && (if r.call.token.text == key then (!r.privileged || entry.decision.Rejected?) && r.call.at <= entry.expiresAt
        else r.call.put.swept <= entry.expiresAt)
  }

  lemma EntryStays(configured: Time, s: Store, r: Round, key: string)
    requires configured > 0 && key in s.entries && Spares(r, key, s.entries[key])
    ensures key in Next(configured, s, r).entries && Next(configured, s, r).entries[key] == s.entries[key]
  {
  }

  lemma {:induction false} EntryStaysThroughout(configured: Time, rounds: seq<Round>, more: seq<Round>, key: string)
    requires configured > 0 && key in Run(configured, rounds).entries
    requires forall k :: 0 <= k < |more| ==> Spares(more[k], key, Run(configured, rounds).entries[key])
    ensures var s := Run(configured, rounds + more);
      key in s.entries && s.entries[key] == Run(configured, rounds).entries[key]
  {
    if more == [] {
      assert rounds + more == rounds;
    } else {
      var last := |more| - 1;
      EntryStaysThroughout(configured, rounds, more[..last], key);
      assert rounds + more == (rounds + more[..last]) + [more[last]];
      RunOneMore(configured, rounds + more[..last], more[last]);
      EntryStays(configured, Run(configured, rounds + more[..last]), more[last], key);
    }
  }

  /**
   A decision with any life left answers every ordinary call on its token without asking, for as
   long as it lives, however many other calls are served in between, unless it is evicted; a
   rejection answers the privileged calls too.
   */
  lemma AcceptanceIsReused(configured: Time, before: seq<Round>, r: Round, between: seq<Round>, next: Round)
    requires configured > 0 && Asked(configured, Run(configured, before), r)
    requires EntryTtl(configured, r.call.token, r.call.answer.decision, r.call.put.read) > 0
    requires var life := EntryTtl(configured, r.call.token, r.call.answer.decision, r.call.put.read);
      var entry := Entry(r.call.answer.decision, r.call.put.stored + life);
      && (forall k :: 0 <= k < |between| ==> Spares(between[k], r.call.token.text, entry))
      && next.call.token.text == r.call.token.text && (!next.privileged || entry.decision.Rejected?)
      && next.call.at <= entry.expiresAt
    ensures var s := Run(configured, before + [r] + between);
      var (answer, asked, _) := Served(configured, s.entries, next.call, !next.privileged, next.reachable, next.victim);
      !asked && answer == r.call.answer
  {
    RunOneMore(configured, before, r);
    EntryStaysThroughout(configured, before + [r], between, r.call.token.text);
    hide Run, EntryTtl;
  }
}
