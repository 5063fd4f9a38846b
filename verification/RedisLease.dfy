/** The renewable Redis lease that keeps two instances from the same work. */
module RedisLease {
  import opened Wrappers

  /** What Redis holds under the key. */
  datatype Entry = Entry(token: nat, expiresAt: int)

  /** A client works from a successful SET until it calls release; the renewal that
      is then still under way ends before the release script is sent. */
  datatype Client = Trying | Working | Releasing | Finished

  /** Every AcquireLock draws a token of its own, so tokens name the clients. */
  datatype State = State(now: int, entry: Option<Entry>, clients: map<nat, Client>)

  datatype Event =
    | Pass(now: int)
    | Acquire(token: nat)
    | Renew(token: nat)
    | Release(token: nat)
    | Remove(token: nat, lost: bool)

  const START := State(0, None, map[])

  function ClientOf(s: State, token: nat): Client {
    if token in s.clients then s.clients[token] else Trying
  }

  predicate Owns(entry: Option<Entry>, token: nat) {
    entry.Some? && entry.value.token == token
  }

  /** One event. Redis drops an entry once its time has run out; a script changes
      the entry only if it holds the caller's token; a lost one changes nothing. */
  function Next(s: State, event: Event, ttl: int): State {
    match event
    case Pass(now) =>
      s.(now := now, entry := if s.entry.Some? && s.entry.value.expiresAt <= now then None else s.entry)
    case Acquire(token) =>
      if s.entry.Some? || !ClientOf(s, token).Trying? then s
      else s.(entry := Some(Entry(token, s.now + ttl)), clients := s.clients[token := Working])
    case Renew(token) =>
      if Owns(s.entry, token) then s.(entry := Some(Entry(token, s.now + ttl))) else s
    case Release(token) =>
      if ClientOf(s, token).Working? then s.(clients := s.clients[token := Releasing]) else s
    case Remove(token, lost) =>
      if !ClientOf(s, token).Releasing? then s
      else s.(entry := if !lost && Owns(s.entry, token) then None else s.entry, clients := s.clients[token := Finished])
  }

  /** A renewal or release never extends, shortens or removes another client's entry. */
  lemma OthersUntouched(s: State, event: Event, ttl: int, other: nat)
    requires event.Renew? || event.Release? || event.Remove?
    requires Owns(s.entry, other) && other != event.token
    ensures Next(s, event, ttl).entry == s.entry
  {
  }

  ghost predicate WorkersOwn(s: State) {
    forall token :: ClientOf(s, token).Working? ==> Owns(s.entry, token)
  }

  /** Time runs out on a client that still works. */
  predicate RunsOut(s: State, event: Event) {
    event.Pass? && s.entry.Some? && s.entry.value.expiresAt <= event.now && ClientOf(s, s.entry.value.token).Working?
  }

  /** Every worker keeps the entry exactly as long as no worker's time runs out. */
  lemma StepKeeps(s: State, event: Event, ttl: int)
    requires WorkersOwn(s)
    ensures WorkersOwn(Next(s, event, ttl)) <==> !RunsOut(s, event)
  {
    var after := Next(s, event, ttl);
    if RunsOut(s, event) {
      assert ClientOf(after, s.entry.value.token).Working?;
    } else {
      forall token | ClientOf(after, token).Working?
        ensures Owns(after.entry, token)
      {
        assert ClientOf(s, token).Working? || event == Acquire(token);
      }
    }
  }

  ghost predicate InTime(s: State, events: seq<Event>, ttl: int)
    decreases events
  {
    events == [] || (!RunsOut(s, events[0]) && InTime(Next(s, events[0], ttl), events[1..], ttl))
  }

  function After(s: State, events: seq<Event>, ttl: int): State
    decreases events
  {
    if events == [] then s else After(Next(s, events[0], ttl), events[1..], ttl)
  }

  /** While every renewal lands before the time to live runs out, at most one
      client works at a time, whatever else happens in between. */
  lemma {:induction false} OneWorker(s: State, events: seq<Event>, ttl: int, a: nat, b: nat)
    requires WorkersOwn(s) && InTime(s, events, ttl)
    requires ClientOf(After(s, events, ttl), a).Working? && ClientOf(After(s, events, ttl), b).Working?
    ensures a == b
    decreases events
  {
    hide Next;
    if events != [] {
      StepKeeps(s, events[0], ttl);
      OneWorker(Next(s, events[0], ttl), events[1..], ttl, a, b);
    }
  }

  /** And only then: if a worker's time runs out, another client that asks next
      works beside it. */
  lemma TwoWorkers(s: State, now: int, ttl: int, other: nat)
    requires RunsOut(s, Pass(now)) && ClientOf(s, other).Trying?
    ensures var after := After(s, [Pass(now), Acquire(other)], ttl);
            && other != s.entry.value.token
            && ClientOf(after, s.entry.value.token).Working? && ClientOf(after, other).Working?
  {
    var late := Next(s, Pass(now), ttl);
    assert [Pass(now), Acquire(other)][1..] == [Acquire(other)];
    assert After(late, [Acquire(other)], ttl) == After(Next(late, Acquire(other), ttl), [], ttl);
  }

  /** Each renewal lands before the entry that the one before it left expires. */
  predicate LandInTime(start: int, times: seq<int>, ttl: int) {
    forall i :: 0 <= i < |times| ==> times[i] < Landed(start, times, i) + ttl
  }

  function Landed(start: int, times: seq<int>, i: nat): int
    requires i <= |times|
  {
    if i == 0 then start else times[i - 1]
  }

  /** A release that arrives frees the key for the next client at once; one that is
      lost does so when the time to live of the entry has passed. */
  lemma ReleaseFrees(s: State, token: nat, other: nat, lost: bool, now: int, ttl: int)
    requires WorkersOwn(s) && ClientOf(s, token).Working? && ClientOf(s, other).Trying?
    requires now >= s.now && (lost ==> now >= s.entry.value.expiresAt)
    ensures var released := Next(Next(s, Release(token), ttl), Remove(token, lost), ttl);
            var after := Next(Next(released, Pass(now), ttl), Acquire(other), ttl);
            && (released.entry.None? <==> !lost)
            && ClientOf(after, other).Working? && after.entry == Some(Entry(other, now + ttl))
            && forall t :: ClientOf(after, t).Working? <==> t == other
  {
    assert Owns(s.entry, token) && other != token;
    var released := Next(Next(s, Release(token), ttl), Remove(token, lost), ttl);
    var passed := Next(released, Pass(now), ttl);
    assert released.clients == s.clients[token := Releasing][token := Finished] && passed.entry.None?;
    forall t
      ensures ClientOf(Next(passed, Acquire(other), ttl), t).Working? <==> t == other
    {
      assert ClientOf(s, t).Working? ==> Owns(s.entry, t);
      assert ClientOf(passed, t) == if t == token then Finished else ClientOf(s, t);
    }
  }

  // ---- The service ----

  /** The lock of one name, as its clients use it. */
  class Lease {
    const ttl: int
    var now: int
    var entry: Option<Entry>
    var clients: map<nat, Client>

    ghost function Current(): State
      reads this
    {
      State(now, entry, clients)
    }

    constructor (ttl: int)
      ensures this.ttl == ttl && Current() == START
    {
      this.ttl := ttl;
      now, entry, clients := 0, None, map[];
    }

    /** SET NX with the time to live. */
    method AcquireLock(token: nat) returns (acquired: bool)
      requires ClientOf(Current(), token).Trying?
      modifies this
      ensures Current() == Next(old(Current()), Acquire(token), ttl)
      ensures acquired <==> old(entry).None?
      ensures acquired ==> entry == Some(Entry(token, old(now) + ttl)) && clients == old(clients)[token := Working]
      ensures !acquired ==> Current() == old(Current())
    {
      if entry.Some? {
        return false;
      }
      entry := Some(Entry(token, now + ttl));
      clients := clients[token := Working];
      acquired := true;
    }

    method RenewScript(token: nat) returns (extended: bool)
      modifies this`entry
      ensures Current() == Next(old(Current()), Renew(token), ttl)
      ensures extended <==> Owns(old(entry), token)
      ensures entry == if extended then Some(Entry(token, now + ttl)) else old(entry)
    {
      if entry.Some? && entry.value.token == token {
        entry := Some(Entry(token, now + ttl));
        return true;
      }
      extended := false;
    }

    method PassTime(to: int)
      modifies this`now, this`entry
      ensures Current() == Next(old(Current()), Pass(to), ttl)
      ensures now == to && entry == if old(entry).Some? && old(entry).value.expiresAt <= to then None else old(entry)
    {
      now := to;
      if entry.Some? && entry.value.expiresAt <= now {
        entry := None;
      }
    }

    /** The renewals of a working client, landing at the given times. While each
        comes within the time to live of the one before, the client keeps the
        entry, fresh from the last one; a later one finds it gone. */
    method RenewLoop(token: nat, times: seq<int>) returns (kept: bool)
      requires Owns(entry, token) && entry.value.expiresAt == now + ttl && ttl > 0
      modifies this`now, this`entry
      ensures kept <==> LandInTime(old(now), times, ttl)
      ensures kept ==> Owns(entry, token) && entry.value.expiresAt == now + ttl
      ensures !kept ==> !Owns(entry, token)
    {
      kept := true;
      for i := 0 to |times|
        invariant kept && LandInTime(old(now), times[..i], ttl)
        invariant now == if i == 0 then old(now) else times[i - 1]
        invariant Owns(entry, token) && entry.value.expiresAt == now + ttl
      {
        assert times[..i + 1][..i] == times[..i];
        ghost var before := now;
        PassTime(times[i]);
        var extended := RenewScript(token);
        if !extended {
          return false;
        }
      }
      assert times[..|times|] == times;
    }

    /** Stops the renewals, then deletes the key if it is still the caller's. A
        second call does nothing. */
    method ReleaseLock(token: nat, lost: bool)
      modifies this
      ensures Current() == if ClientOf(old(Current()), token).Working?
                           then Next(Next(old(Current()), Release(token), ttl), Remove(token, lost), ttl)
                           else old(Current())
      ensures ClientOf(old(Current()), token).Working? ==>
        && clients == old(clients)[token := Finished]
        && (!lost ==> !Owns(entry, token))
        && (if lost || !Owns(old(entry), token) then entry == old(entry) else entry.None?)
    {
      if token !in clients || !clients[token].Working? {
        return;
      }
      clients := clients[token := Releasing];
      if !lost && entry.Some? && entry.value.token == token {
        entry := None;
      }
      clients := clients[token := Finished];
    }
  }
}
