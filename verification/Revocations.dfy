/** The gateway's short memory of revocations, and what it still answers for. */
module Revocations {
  import opened Wrappers

  datatype Principal = Principal(subject: string, tenantId: string, sessionId: string)

  datatype Selector =
    | Session(tenantId: string, sessionId: string)
    | Subject(tenantId: string, subject: string)
    | Channel(tenantId: string, subject: string, channel: string, channelVersion: nat)

  datatype ChannelUse = ChannelUse(name: string, version: nat, canonicalParams: string)

  datatype Entry = Entry(number: nat, at: int, selector: Selector, canonicalParams: Option<string>)

  const MAX_ENTRIES := 10000

  predicate MatchesPrincipal(s: Selector, p: Principal) {
    s.tenantId == p.tenantId &&
    match s
    case Session(_, sessionId) => sessionId == p.sessionId
    case Subject(_, subject) => subject == p.subject
    case Channel(_, subject, _, _) => subject == p.subject
  }

  /** Whether an entry revokes the principal, on the channel if one is given. */
  predicate Revokes(e: Entry, p: Principal, channel: Option<ChannelUse>) {
    && MatchesPrincipal(e.selector, p)
    && (e.selector.Channel? ==>
          && channel.Some? && e.selector.channel == channel.value.name && e.selector.channelVersion == channel.value.version
          && (e.canonicalParams.None? || e.canonicalParams.value == channel.value.canonicalParams))
  }

  /** The entries still within their retention. */
  function Unexpired(entries: seq<Entry>, retention: int, now: int): seq<Entry> {
    if entries == [] then []
    else
      var last := entries[|entries| - 1];
      Unexpired(entries[..|entries| - 1], retention, now) + if now - last.at <= retention then [last] else []
  }

  function Room(entries: seq<Entry>): seq<Entry> {
    if |entries| >= MAX_ENTRIES then entries[1..] else entries
  }

  class RevocationLog {
    const retention: int
    var entries: seq<Entry>
    var number: nat

    constructor (retention: int)
      ensures this.retention == retention && entries == [] && number == 0
    {
      this.retention, entries, number := retention, [], 0;
    }

    method Add(selector: Selector, canonicalParams: Option<string>, now: int)
      modifies this
      ensures number == old(number) + 1
      ensures entries == Logged(old(entries), old(number), retention, Added(selector, canonicalParams, now))
    {
      var kept: seq<Entry> := [];
      for i := 0 to |entries|
        invariant entries == old(entries) && number == old(number)
        invariant kept == Unexpired(entries[..i], retention, now)
      {
        assert entries[..i + 1][..i] == entries[..i];
        if now - entries[i].at <= retention { kept := kept + [entries[i]]; }
      }
      assert entries[..|entries|] == entries;
      if |kept| >= MAX_ENTRIES { kept := kept[1..]; }
      number := number + 1;
      entries := kept + [Entry(number, now, selector, canonicalParams)];
    }

    /** True exactly when a retained entry newer than the captured number revokes the principal. */
    method RevokedSince(since: nat, p: Principal, channel: Option<ChannelUse>) returns (revoked: bool)
      ensures revoked <==> exists e <- entries :: e.number > since && Revokes(e, p, channel)
    {
      for i := 0 to |entries|
        invariant forall k :: 0 <= k < i ==> !(entries[k].number > since && Revokes(entries[k], p, channel))
      {
        var e := entries[i];
        if e.number <= since { continue; }
        if MatchesPrincipal(e.selector, p) && !e.selector.Channel? { return true; }
        if e.selector.Channel? && channel.Some? && MatchesPrincipal(e.selector, p)
           && e.selector.channel == channel.value.name && e.selector.channelVersion == channel.value.version
           && (e.canonicalParams.None? || e.canonicalParams.value == channel.value.canonicalParams) {
          return true;
        }
      }
      return false;
    }
  }

  // ----- runs ---------------------------------------------------------------------

  /** One call of Add, at the time its clock read. */
  datatype Added = Added(selector: Selector, canonicalParams: Option<string>, now: int)

  function Logged(entries: seq<Entry>, number: nat, retention: int, a: Added): seq<Entry> {
    Room(Unexpired(entries, retention, a.now)) + [Entry(number + 1, a.now, a.selector, a.canonicalParams)]
  }

  /** The entries after a run of revocations; the clock may read anything. */
  function Entries(retention: int, adds: seq<Added>): seq<Entry> {
    if adds == [] then [] else Logged(Entries(retention, adds[..|adds| - 1]), |adds| - 1, retention, adds[|adds| - 1])
  }

  function EntryFor(adds: seq<Added>, k: nat): Entry
    requires 1 <= k <= |adds|
  {
    Entry(k, adds[k - 1].now, adds[k - 1].selector, adds[k - 1].canonicalParams)
  }

  predicate Increasing(entries: seq<Entry>) {
    forall i, j :: 0 <= i < j < |entries| ==> entries[i].number < entries[j].number
  }

  lemma {:induction false} UnexpiredIs(entries: seq<Entry>, retention: int, now: int)
    requires Increasing(entries)
    ensures var kept := Unexpired(entries, retention, now);
            && Increasing(kept) && |kept| <= |entries|
            && forall e :: e in kept <==> e in entries && now - e.at <= retention
  {
    if entries != [] {
      UnexpiredIs(entries[..|entries| - 1], retention, now);
      assert entries == entries[..|entries| - 1] + [entries[|entries| - 1]];
    }
  }

  lemma {:induction false} LoggedIs(entries: seq<Entry>, number: nat, retention: int, a: Added)
    requires Increasing(entries) && |entries| <= MAX_ENTRIES && forall e <- entries :: e.number <= number
    ensures var logged := Logged(entries, number, retention, a);
            && Increasing(logged) && |logged| <= MAX_ENTRIES
            && forall e <- logged :: e == Entry(number + 1, a.now, a.selector, a.canonicalParams) || (e in entries && a.now - e.at <= retention)
  {
    UnexpiredIs(entries, retention, a.now);
    var unexpired := Unexpired(entries, retention, a.now);
    RoomIs(unexpired);
    var kept := Room(unexpired);
    forall e <- kept ensures e in entries && a.now - e.at <= retention && e.number <= number {
      assert e in unexpired;
    }
    AppendedIncreasing(kept, Entry(number + 1, a.now, a.selector, a.canonicalParams));
  }

  lemma {:induction false} RoomIs(entries: seq<Entry>)
    requires Increasing(entries) && |entries| <= MAX_ENTRIES
    ensures Increasing(Room(entries)) && |Room(entries)| < MAX_ENTRIES && forall e <- Room(entries) :: e in entries
  {
  }

  lemma {:induction false} AppendedIncreasing(entries: seq<Entry>, e: Entry)
    requires Increasing(entries) && forall x <- entries :: x.number < e.number
    ensures Increasing(entries + [e])
  {
    assert forall i :: 0 <= i < |entries| ==> entries[i] in entries;
  }

  /** The log is in order, holds only what was added, and never holds more than its bound. */
  lemma {:induction false} EntriesAre(retention: int, adds: seq<Added>)
    ensures Increasing(Entries(retention, adds)) && |Entries(retention, adds)| <= MAX_ENTRIES
    ensures forall e <- Entries(retention, adds) :: 1 <= e.number <= |adds| && e == EntryFor(adds, e.number)
  {
    if adds != [] {
      var before, last := adds[..|adds| - 1], adds[|adds| - 1];
      EntriesAre(retention, before);
      LoggedIs(Entries(retention, before), |before|, retention, last);
      forall e <- Entries(retention, adds) ensures 1 <= e.number <= |adds| && e == EntryFor(adds, e.number) {
        if e != EntryFor(adds, |adds|) {
          assert e in Entries(retention, before);
          assert before[e.number - 1] == adds[e.number - 1];
        }
      }
    }
  }

  lemma {:induction false} NumbersBetween(entries: seq<Entry>, low: nat, high: nat)
    requires Increasing(entries) && forall e <- entries :: low <= e.number <= high
    ensures entries == [] || |entries| <= high - low + 1
  {
    if |entries| > 0 {
      assert entries[|entries| - 1] in entries;
      var init := entries[..|entries| - 1];
      if init != [] {
        assert init[0] in entries;
        NumbersBetween(init, low, entries[|entries| - 1].number - 1);
      }
    }
  }

  /** Every later call found the entry within its retention. */
  predicate Lasting(retention: int, adds: seq<Added>, k: nat)
    requires 1 <= k <= |adds|
  {
    forall j :: k <= j < |adds| ==> adds[j].now - adds[k - 1].now <= retention
  }

  /** An entry within its retention is kept until 10,000 newer ones have been added. */
  lemma {:induction false} KeptWhileRecent(retention: int, adds: seq<Added>, k: nat)
    requires 1 <= k <= |adds| && Lasting(retention, adds, k) && |adds| - k < MAX_ENTRIES
    ensures EntryFor(adds, k) in Entries(retention, adds)
  {
    var last := adds[|adds| - 1];
    if k < |adds| {
      var before := adds[..|adds| - 1];
      KeptWhileRecent(retention, before, k);
      var entries := Entries(retention, before);
      EntriesAre(retention, before);
      UnexpiredIs(entries, retention, last.now);
      var kept := Unexpired(entries, retention, last.now);
      var e := EntryFor(before, k);
      assert e in kept;
      if |kept| >= MAX_ENTRIES && kept[0] == e {
        forall x <- kept ensures k <= x.number <= |before| {
          var i :| 0 <= i < |kept| && kept[i] == x;
        }
        NumbersBetween(kept, k, |before|);
      }
    }
  }

  lemma {:induction false} NotLogged(retention: int, before: seq<Added>, a: Added, e: Entry)
    requires e.number <= |before| && (e in Entries(retention, before) ==> a.now - e.at > retention)
    ensures e !in Logged(Entries(retention, before), |before|, retention, a)
  {
    EntriesAre(retention, before);
    LoggedIs(Entries(retention, before), |before|, retention, a);
  }

  /** An entry past its retention at a later call is gone for good. */
  lemma {:induction false} GoneOnceExpired(retention: int, adds: seq<Added>, k: nat)
    requires 1 <= k <= |adds| && !Lasting(retention, adds, k)
    ensures EntryFor(adds, k) !in Entries(retention, adds)
  {
    var j :| k <= j < |adds| && adds[j].now - adds[k - 1].now > retention;
    var before, last, e := adds[..|adds| - 1], adds[|adds| - 1], EntryFor(adds, k);
    assert e == EntryFor(before, k);
    if j < |before| {
      assert before[j] == adds[j] && !Lasting(retention, before, k);
      GoneOnceExpired(retention, before, k);
    } else {
      assert last.now - e.at > retention;
    }
    NotLogged(retention, before, last, e);
    assert Entries(retention, adds) == Logged(Entries(retention, before), |before|, retention, last);
  }

  /**
   * A pending operation that captured the log before a revocation of its principal is told so,
   * as long as the revocation is within its retention and fewer than 10,000 newer ones followed.
   */
  lemma {:induction false} PendingIsToldOfRevocation(retention: int, adds: seq<Added>, since: nat, k: nat, p: Principal, channel: Option<ChannelUse>)
    requires since < k <= |adds| && Revokes(EntryFor(adds, k), p, channel)
    requires Lasting(retention, adds, k) && |adds| - k < MAX_ENTRIES
    ensures exists e <- Entries(retention, adds) :: e.number > since && Revokes(e, p, channel)
  {
    KeptWhileRecent(retention, adds, k);
  }

  /** Whom a revocation names: a session, a subject, or a subject on one channel, always within one tenant. */
  predicate Names(a: Added, p: Principal, channel: Option<ChannelUse>) {
    match a.selector
    case Session(tenant, session) => p.tenantId == tenant && p.sessionId == session
    case Subject(tenant, subject) => p.tenantId == tenant && p.subject == subject
    case Channel(tenant, subject, name, version) =>
      && p.tenantId == tenant && p.subject == subject
      && match channel
         case None => false
         case Some(use) => use.name == name && use.version == version && (a.canonicalParams.None? || a.canonicalParams == Some(use.canonicalParams))
  }

  lemma {:induction false} RevokesNamed(adds: seq<Added>, k: nat, p: Principal, channel: Option<ChannelUse>)
    requires 1 <= k <= |adds|
    ensures Revokes(EntryFor(adds, k), p, channel) <==> Names(adds[k - 1], p, channel)
  {
  }

  /**
   * An operation is told of a revocation only when one that names it, and has not expired, was added after it
   * captured the log; and it is told of each such one that fewer than 10,000 others followed.
   */
  lemma {:induction false} ToldExactly(retention: int, adds: seq<Added>, since: nat, p: Principal, channel: Option<ChannelUse>)
    ensures (exists e <- Entries(retention, adds) :: e.number > since && Revokes(e, p, channel)) ==>
              exists k :: since < k <= |adds| && Lasting(retention, adds, k) && Names(adds[k - 1], p, channel)
    ensures (exists k :: since < k <= |adds| && |adds| - k < 10000 && Lasting(retention, adds, k) && Names(adds[k - 1], p, channel)) ==>
              exists e <- Entries(retention, adds) :: e.number > since && Revokes(e, p, channel)
  {
    if e :| e in Entries(retention, adds) && e.number > since && Revokes(e, p, channel) {
      EntriesAre(retention, adds);
      RevokesNamed(adds, e.number, p, channel);
      if !Lasting(retention, adds, e.number) { GoneOnceExpired(retention, adds, e.number); }
      assert since < e.number <= |adds| && Lasting(retention, adds, e.number) && Names(adds[e.number - 1], p, channel);
    }
    if k :| since < k <= |adds| && |adds| - k < 10000 && Lasting(retention, adds, k) && Names(adds[k - 1], p, channel) {
      RevokesNamed(adds, k, p, channel);
      KeptWhileRecent(retention, adds, k);
    }
  }
}
