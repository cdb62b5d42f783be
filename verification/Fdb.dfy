/**
 The forwarding database: (vlan, MAC) -> port with ageing, and its meaning as a
 log of events. The clock is a parameter of every operation that reads it.
 */
module Fdb {
  import opened Wrappers
  import opened SwitchPorts

  datatype Key = Key(vlan: int, mac: MAC)

  /** `port` is the registry entry a dynamic address was learned on; static entries have none. */
  datatype Entry = Entry(portID: string, port: Option<Handle>, lastSeen: int, fixed: bool)

  type Table = map<Key, Entry>

  // ------------------------------------------------------- table operations

  predicate Stale(e: Entry, maxAge: int, now: int) { !e.fixed && now - e.lastSeen > maxAge }

  function Learned(m: Table, k: Key, portID: string, port: Handle, now: int): Table {
    if k in m && m[k].fixed then m else m[k := Entry(portID, Some(port), now, false)]
  }

  /** The entry that decides where a frame for k goes, if there is one. */
  function Found(m: Table, k: Key, maxAge: int, now: int): Option<Entry> {
    if k !in m || Stale(m[k], maxAge, now) then None else Some(m[k])
  }

  /** Dynamic entries selected by the filters; "" and None select everything. */
  predicate Selected(k: Key, e: Entry, portID: string, vlan: Option<int>) {
    !e.fixed && (portID == "" || e.portID == portID) && (vlan.None? || k.vlan == vlan.value)
  }

  function Flushed(m: Table, portID: string, vlan: Option<int>): Table {
    map k | k in m && !Selected(k, m[k], portID, vlan) :: m[k]
  }

  function PortFlushed(m: Table, portID: string): Table {
    map k | k in m && !(!m[k].fixed && m[k].portID == portID) :: m[k]
  }

  function Swept(m: Table, maxAge: int, now: int): Table {
    map k | k in m && !Stale(m[k], maxAge, now) :: m[k]
  }

  class ForwardingTable {
    var m: Table
    var maxAge: int

    constructor (age: int)
      ensures m == map[] && maxAge == age
    {
      m, maxAge := map[], age;
    }

    method Learn(k: Key, portID: string, port: Handle, now: int)
      modifies this`m
      ensures m == Learned(old(m), k, portID, port, now)
    {
      if k !in m || !m[k].fixed {
        m := m[k := Entry(portID, Some(port), now, false)];
      }
    }

    /** On a hit: the port ID, and the entry's handle when it was learned. */
    method Lookup(k: Key, now: int) returns (port: Option<Handle>, portID: string)
      ensures match Found(m, k, maxAge, now)
              case None => port == None && portID == ""
              case Some(e) => port == e.port && portID == e.portID
    {
      if k !in m { return None, ""; }
      var e := m[k];
      if !e.fixed && now - e.lastSeen > maxAge { return None, ""; }
      return e.port, e.portID;
    }

    method AddStatic(k: Key, portID: string, now: int)
      modifies this`m
      ensures m == old(m)[k := Entry(portID, None, now, true)]
    {
      m := m[k := Entry(portID, None, now, true)];
    }

    method RemoveStatic(k: Key) returns (ok: bool)
      modifies this`m
      ensures ok <==> k in old(m) && old(m)[k].fixed
      ensures m == if ok then old(m) - {k} else old(m)
    {
      ok := k in m && m[k].fixed;
      if ok { m := m - {k}; }
    }

    method RemoveDynamic(k: Key) returns (ok: bool)
      modifies this`m
      ensures ok <==> k in old(m) && !old(m)[k].fixed
      ensures m == if ok then old(m) - {k} else old(m)
    {
      ok := k in m && !m[k].fixed;
      if ok { m := m - {k}; }
    }

    method FlushPort(portID: string)
      modifies this`m
      ensures m == PortFlushed(old(m), portID)
    {
      var todo := m.Keys;
      while todo != {}
        invariant todo <= m.Keys <= old(m).Keys
        invariant forall k | k in m :: m[k] == old(m)[k]
        invariant forall k | k in old(m) && k !in todo ::
                    k in m <==> !(!old(m)[k].fixed && old(m)[k].portID == portID)
        decreases todo
      {
        var k :| k in todo;
        if !m[k].fixed && m[k].portID == portID { m := m - {k}; }
        todo := todo - {k};
      }
    }

    /** Returns how many entries were dropped. */
    method Flush(portID: string, vlan: Option<int>) returns (n: nat)
      modifies this`m
      ensures m == Flushed(old(m), portID, vlan)
      ensures n == |old(m)| - |m|
    {
      n := 0;
      var todo := m.Keys;
      while todo != {}
        invariant todo <= m.Keys <= old(m).Keys
        invariant forall k | k in m :: m[k] == old(m)[k]
        invariant forall k | k in old(m) && k !in todo :: k in m <==> !Selected(k, old(m)[k], portID, vlan)
        invariant n == |old(m)| - |m|
        decreases todo
      {
        var k :| k in todo;
        if !m[k].fixed && (portID == "" || m[k].portID == portID) && (vlan == None || k.vlan == vlan.value) {
          m := m - {k};
          n := n + 1;
        }
        todo := todo - {k};
      }
    }

    method Expire(now: int)
      modifies this`m
      ensures m == Swept(old(m), maxAge, now)
    {
      var cutoff := now - maxAge;
      var todo := m.Keys;
      while todo != {}
        invariant todo <= m.Keys <= old(m).Keys
        invariant forall k | k in m :: m[k] == old(m)[k]
        invariant forall k | k in old(m) && k !in todo :: k in m <==> !Stale(old(m)[k], maxAge, now)
        decreases todo
      {
        var k :| k in todo;
        if !m[k].fixed && m[k].lastSeen < cutoff { m := m - {k}; }
        todo := todo - {k};
      }
    }
  }

  // -------------------------------------------------------------- event log

  datatype Event =
    | Learn(k: Key, portID: string, port: Handle, at: int)
    | AddStatic(k: Key, portID: string, at: int)
    | RemoveStatic(k: Key)
    | RemoveDynamic(k: Key)
    | FlushPort(portID: string)
    | Flush(portID: string, vlan: Option<int>)
    | Expire(maxAge: int, at: int)

  function Apply(m: Table, ev: Event): Table {
    match ev
    case Learn(k, id, h, at) => Learned(m, k, id, h, at)
    case AddStatic(k, id, at) => m[k := Entry(id, None, at, true)]
    case RemoveStatic(k) => if k in m && m[k].fixed then m - {k} else m
    case RemoveDynamic(k) => if k in m && !m[k].fixed then m - {k} else m
    case FlushPort(id) => PortFlushed(m, id)
    case Flush(id, vlan) => Flushed(m, id, vlan)
    case Expire(maxAge, at) => Swept(m, maxAge, at)
  }

  /** The table after the events of the log, from empty. */
  function Replay(log: seq<Event>): Table {
    if log == [] then map[] else Apply(Replay(log[..|log| - 1]), log[|log| - 1])
  }

  /** log[i] installed the static entry of k that is still in force. */
  ghost predicate StaticFrom(log: seq<Event>, k: Key, i: nat) {
    && i < |log| && log[i].AddStatic? && log[i].k == k
    && forall j | i < j < |log| :: !((log[j].AddStatic? || log[j].RemoveStatic?) && log[j].k == k)
  }

  ghost predicate HasStatic(log: seq<Event>, k: Key) { exists i: nat :: StaticFrom(log, k, i) }

  /** The event ends what the learn event put into the table. */
  predicate Clears(ev: Event, learn: Event)
    requires learn.Learn?
  {
    match ev
    case Learn(k, _, _, _) => k == learn.k
    case AddStatic(k, _, _) => k == learn.k
    case RemoveStatic(k) => false
    case RemoveDynamic(k) => k == learn.k
    case FlushPort(id) => id == learn.portID
    case Flush(id, vlan) => (id == "" || id == learn.portID) && (vlan.None? || vlan.value == learn.k.vlan)
    case Expire(maxAge, at) => at - learn.at > maxAge
  }

  /** log[i] is the latest learn of k; it was not masked by a static entry and nothing has cleared it since. */
  ghost predicate LearnedFrom(log: seq<Event>, k: Key, i: nat) {
    && i < |log| && log[i].Learn? && log[i].k == k && !HasStatic(log[..i], k)
    && forall j | i < j < |log| :: !Clears(log[j], log[i])
  }

  ghost predicate HasLearned(log: seq<Event>, k: Key) { exists i: nat :: LearnedFrom(log, k, i) }

  lemma StaticFromFront(log: seq<Event>, k: Key, i: nat)
    requires log != []
    ensures var front, ev := log[..|log| - 1], log[|log| - 1];
            StaticFrom(log, k, i) <==>
              || (i == |front| && ev.AddStatic? && ev.k == k)
              || (StaticFrom(front, k, i) && !((ev.AddStatic? || ev.RemoveStatic?) && ev.k == k))
  {
    var front := log[..|log| - 1];
    assert forall j | 0 <= j < |front| :: front[j] == log[j];
  }

  lemma LearnedFromFront(log: seq<Event>, k: Key, i: nat)
    requires log != []
    ensures var front, ev := log[..|log| - 1], log[|log| - 1];
            LearnedFrom(log, k, i) <==>
              || (i == |front| && ev.Learn? && ev.k == k && !HasStatic(front, k))
              || (LearnedFrom(front, k, i) && !Clears(ev, front[i]))
  {
    var front := log[..|log| - 1];
    assert forall j | 0 <= j < |front| :: front[j] == log[j];
    if i < |front| { assert front[..i] == log[..i]; }
  }

  /** The table entry of k is the static entry in force, or else the latest uncleared learn. */
  lemma {:induction false} ReplayMeaning(log: seq<Event>, k: Key)
    ensures HasStatic(log, k) <==> k in Replay(log) && Replay(log)[k].fixed
    ensures HasLearned(log, k) <==> k in Replay(log) && !Replay(log)[k].fixed
    ensures forall i: nat | StaticFrom(log, k, i) :: Replay(log)[k].portID == log[i].portID
    ensures forall i: nat | LearnedFrom(log, k, i) ::
              Replay(log)[k] == Entry(log[i].portID, Some(log[i].port), log[i].at, false)
  {
    if log != [] {
      var front, ev := log[..|log| - 1], log[|log| - 1];
      ReplayMeaning(front, k);
      forall i: nat
        ensures StaticFrom(log, k, i) <==>
                  || (i == |front| && ev.AddStatic? && ev.k == k)
                  || (StaticFrom(front, k, i) && !((ev.AddStatic? || ev.RemoveStatic?) && ev.k == k))
      {
        StaticFromFront(log, k, i);
      }
      forall i: nat
        ensures LearnedFrom(log, k, i) <==>
                  || (i == |front| && ev.Learn? && ev.k == k && !HasStatic(front, k))
                  || (LearnedFrom(front, k, i) && !Clears(ev, front[i]))
      {
        LearnedFromFront(log, k, i);
      }
      if ev.AddStatic? && ev.k == k { assert StaticFrom(log, k, |front|); }
      if ev.Learn? && ev.k == k && !HasStatic(front, k) { assert LearnedFrom(log, k, |front|); }
      if HasStatic(front, k) {
        var i: nat :| StaticFrom(front, k, i);
        assert StaticFrom(log, k, i) || ((ev.AddStatic? || ev.RemoveStatic?) && ev.k == k);
      }
      if HasLearned(front, k) {
        var i: nat :| LearnedFrom(front, k, i);
        assert LearnedFrom(log, k, i) || Clears(ev, front[i]);
      }
    }
  }

  /**
   What a lookup answers, read off the log: the static port if one is installed,
   else the port of the latest learn not cleared since and not older than maxAge.
   */
  lemma LookupMeaning(log: seq<Event>, k: Key, maxAge: int, now: int)
    ensures forall i: nat | StaticFrom(log, k, i) ::
              Found(Replay(log), k, maxAge, now).Some?
              && Found(Replay(log), k, maxAge, now).value.portID == log[i].portID
    ensures forall i: nat | LearnedFrom(log, k, i) ::
              Found(Replay(log), k, maxAge, now) ==
                if now - log[i].at > maxAge then None
                else Some(Entry(log[i].portID, Some(log[i].port), log[i].at, false))
    ensures !HasStatic(log, k) && !HasLearned(log, k) ==> Found(Replay(log), k, maxAge, now) == None
  {
    ReplayMeaning(log, k);
    forall i: nat | StaticFrom(log, k, i)
      ensures Replay(log)[k].fixed
    {
      assert HasStatic(log, k);
    }
    forall i: nat | LearnedFrom(log, k, i)
      ensures k in Replay(log)
    {
      assert HasLearned(log, k);
    }
  }

  /** Only the static-entry operations on k itself touch a static entry. */
  lemma StaticUntouched(m: Table, ev: Event, k: Key)
    requires k in m && m[k].fixed
    requires !((ev.AddStatic? || ev.RemoveStatic?) && ev.k == k)
    ensures k in Apply(m, ev) && Apply(m, ev)[k] == m[k]
  {}

  // ------------------------------------------------------ sweeps are unseen

  /** `swept` lacks only entries of `full` that are too old to be found. */
  ghost predicate SameButStale(full: Table, swept: Table, maxAge: int, now: int) {
    && (forall k | k in swept :: k in full && full[k] == swept[k])
    && (forall k | k in full && k !in swept :: Stale(full[k], maxAge, now))
  }

  /** Events in time order, with an ageing time that is never raised. */
  datatype Moment = Moment(ev: Event, now: int, maxAge: int)

  ghost predicate Timeline(run: seq<Moment>, maxAge: int, now: int) {
    && (forall i | 0 <= i < |run| ::
          && (run[i].ev.Learn? ==> run[i].ev.at == run[i].now)
          && (run[i].ev.Expire? ==> run[i].ev == Expire(run[i].maxAge, run[i].now))
          && now <= run[i].now && run[i].maxAge <= maxAge)
    && (forall i, j | 0 <= i < j < |run| :: run[i].now <= run[j].now && run[j].maxAge <= run[i].maxAge)
  }

  function Played(m: Table, run: seq<Moment>): Table
    decreases run
  {
    if run == [] then m else Played(Apply(m, run[0].ev), run[1..])
  }

  lemma StaleLater(full: Table, swept: Table, mo: Moment, maxAge: int, now: int)
    requires SameButStale(full, swept, maxAge, now) && now <= mo.now && mo.maxAge <= maxAge
    requires mo.ev.Expire? ==> mo.ev == Expire(mo.maxAge, mo.now)
    ensures SameButStale(Apply(full, mo.ev), Apply(swept, mo.ev), mo.maxAge, mo.now)
  {}

  lemma {:induction false} StaysSameButStale(full: Table, swept: Table, run: seq<Moment>, maxAge: int, now: int,
                                             maxAge': int, now': int)
    requires SameButStale(full, swept, maxAge, now) && Timeline(run, maxAge, now)
    requires forall i | 0 <= i < |run| :: run[i].now <= now' && maxAge' <= run[i].maxAge
    requires now <= now' && maxAge' <= maxAge
    ensures SameButStale(Played(full, run), Played(swept, run), maxAge', now')
    decreases run
  {
    if run != [] {
      StaleLater(full, swept, run[0], maxAge, now);
      StaysSameButStale(Apply(full, run[0].ev), Apply(swept, run[0].ev), run[1..], run[0].maxAge, run[0].now,
                        maxAge', now');
    }
  }

  /** A sweep changes no lookup, now or after any further events, while the ageing time is not raised. */
  lemma SweepUnseen(m: Table, run: seq<Moment>, maxAge: int, now: int, k: Key, maxAge': int, now': int)
    requires Timeline(run, maxAge, now) && now <= now' && maxAge' <= maxAge
    requires forall i | 0 <= i < |run| :: run[i].now <= now' && maxAge' <= run[i].maxAge
    ensures Found(Played(m, run), k, maxAge', now') == Found(Played(Swept(m, maxAge, now), run), k, maxAge', now')
  {
    StaysSameButStale(m, Swept(m, maxAge, now), run, maxAge, now, maxAge', now');
  }

  /** With any later ageing time, a sweep shows exactly when that time would still find a swept entry. */
  lemma SweepSeenIff(m: Table, maxAge: int, now: int, k: Key, maxAge': int, now': int)
    ensures Found(Swept(m, maxAge, now), k, maxAge', now') == Found(m, k, maxAge', now')
            <==> !(k in m && Stale(m[k], maxAge, now) && !Stale(m[k], maxAge', now'))
  {}
}
