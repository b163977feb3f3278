/** Channels that time out when nothing happens on them.

    A record can be reached under its id and under an alias. Keepalives only note the
    time; a timer finds out when it fires, and is armed again for what is left. */
module Channels {
  import opened Wrappers

  /** Ids and aliases are strings in the source; they are only compared, so numbers stand
      for them. The empty alias, which the source treats as none, is `None`. */
  type Name = int

  const MAX_INT_32 := 2147483647

  // ---------- The state as a value ----------

  /** A channel record, with the id it was registered under. */
  datatype Record = Record(id: Name, timeout: int, alias: Option<Name>, lastActivity: int, timer: Option<nat>)

  /** A pending `setTimeout` that will call `check(id)`, when it was set and when it is due. */
  datatype Timer = Timer(id: Name, since: int, due: int)

  /** An emitted timeout: the name, the record behind it, and when. */
  datatype Timeout = Timeout(id: Name, ref: nat, at: int)

  /** Records are numbered in the order of registration; `channels` maps names to them. */
  datatype State = State(
    now: int, channels: map<Name, nat>, records: seq<Record>,
    timers: map<nat, Timer>, nextTimer: nat, timeouts: seq<Timeout>)
  {
    predicate Known(name: Name) {
      name in channels && channels[name] < |records|
    }

    function At(name: Name): Record
      requires Known(name)
    {
      records[channels[name]]
    }

    function Put(name: Name, r: Record): State
      requires Known(name)
    {
      this.(records := records[channels[name] := r])
    }
  }

  const EMPTY := State(0, map[], [], map[], 0, [])

  function AfterUnregister(s: State, name: Name): State {
    if !s.Known(name) then s
    else
      var r := s.At(name);
      s.(channels := s.channels - {name} - (if r.alias.Some? then {r.alias.value} else {}),
         timers := if r.timer.Some? then s.timers - {r.timer.value} else s.timers)
  }

  function Min(a: int, b: int): int {
    if a < b then a else b
  }

  function AfterCheck(s: State, name: Name): State {
    if !s.Known(name) then s
    else
      var r := s.At(name);
      var inactive := s.now - r.lastActivity;
      if inactive >= r.timeout then
        AfterUnregister(s, name).(timeouts := s.timeouts + [Timeout(name, s.channels[name], s.now)])
      else if r.timeout > 1 then
        var due := s.now + Min(r.timeout - inactive, MAX_INT_32);
        var s' := s.Put(name, r.(timer := Some(s.nextTimer)));
        s'.(timers := s.timers[s.nextTimer := Timer(name, s.now, due)], nextTimer := s.nextTimer + 1)
      else s
  }

  predicate AliasTaken(s: State, alias: Option<Name>) {
    match alias
    case None => false
    case Some(name) => name in s.channels
  }

  /** The new record in the table, before its first check. */
  function Enter(s: State, id: Name, timeout: int, alias: Option<Name>): State {
    var ref := |s.records|;
    var named := if alias.Some? then s.channels[alias.value := ref] else s.channels;
    s.(channels := named[id := ref], records := s.records + [Record(id, timeout, alias, s.now, None)])
  }

  /** The source throws when the alias is taken, and nothing has changed then. */
  function AfterRegister(s: State, id: Name, timeout: int, alias: Option<Name>): State {
    if AliasTaken(s, alias) then s else AfterCheck(Enter(s, id, timeout, alias), id)
  }

  function AfterKeepalive(s: State, name: Name): State {
    if !s.Known(name) then s else s.Put(name, s.At(name).(lastActivity := s.now))
  }

  function AfterUpdateTimeout(s: State, name: Name, more: int): State {
    if !s.Known(name) then s else s.Put(name, s.At(name).(timeout := s.At(name).timeout + more))
  }

  function AfterFire(s: State, timer: nat): State {
    if timer !in s.timers then s
    else AfterCheck(s.(timers := s.timers - {timer}), s.timers[timer].id)
  }

  // ---------- Runs ----------

  datatype Op =
    | DoRegister(id: Name, timeout: int, alias: Option<Name>)
    | DoUnregister(name: Name)
    | DoKeepalive(name: Name)
    | DoUpdateTimeout(name: Name, more: int)
    | DoFire(timer: nat)
    | Advance(ms: nat)

  function Apply(s: State, op: Op): State {
    match op
    case DoRegister(id, timeout, alias) => AfterRegister(s, id, timeout, alias)
    case DoUnregister(name) => AfterUnregister(s, name)
    case DoKeepalive(name) => AfterKeepalive(s, name)
    case DoUpdateTimeout(name, more) => AfterUpdateTimeout(s, name, more)
    case DoFire(timer) => AfterFire(s, timer)
    case Advance(ms) => s.(now := s.now + ms)
  }

  /** Ids are fresh, channels are unregistered by id, timeouts are only extended, and
      the event loop fires each timer when it is due: not before, and before time goes on. */
  predicate Allowed(s: State, op: Op) {
    match op
    case DoRegister(id, timeout, alias) => id !in s.channels
    case DoUnregister(name) => s.Known(name) ==> s.At(name).id == name
    case DoKeepalive(name) => true
    case DoUpdateTimeout(name, more) => more >= 0
    case DoFire(timer) => timer in s.timers && s.timers[timer].due <= s.now
    case Advance(ms) => forall h | h in s.timers :: s.now + ms <= s.timers[h].due
  }

  function Run(ops: seq<Op>): State {
    if ops == [] then EMPTY else Apply(Run(ops[..|ops| - 1]), ops[|ops| - 1])
  }

  predicate AllowedRun(ops: seq<Op>) {
    ops == [] || (AllowedRun(ops[..|ops| - 1]) && Allowed(Run(ops[..|ops| - 1]), ops[|ops| - 1]))
  }

  // ---------- Invariants ----------

  /** Every name leads to a record that is found under its id and under its alias, and
      under no other name. */
  ghost predicate Coherent(s: State) {
    forall name | name in s.channels :: NamedRight(s, name)
  }

  ghost predicate NamedRight(s: State, name: Name) {
    && s.Known(name)
    && var r := s.At(name);
       && (name == r.id || Some(name) == r.alias)
       && r.id in s.channels && s.channels[r.id] == s.channels[name]
       && (r.alias.Some? ==> r.alias.value in s.channels && s.channels[r.alias.value] == s.channels[name])
  }

  /** Timers and the channels that have one correspond; those have timeouts of more than
      1, and the due dates lie between now and their deadlines. */
  ghost predicate Timed(s: State) {
    && (forall h | h in s.timers ::
          && h < s.nextTimer
          && s.Known(s.timers[h].id) && s.At(s.timers[h].id).id == s.timers[h].id
          && s.At(s.timers[h].id).timer == Some(h))
    && (forall name | name in s.channels && s.Known(name) && s.At(name).timer.Some? ::
          && s.At(name).timer.value in s.timers
          && s.timers[s.At(name).timer.value].id == s.At(name).id
          && s.At(name).timeout > 1)
    && (forall name | name in s.channels && s.Known(name) ::
          s.At(name).lastActivity <= s.now)
    && (forall h | h in s.timers && s.Known(s.timers[h].id) ::
          && s.now <= s.timers[h].due <= s.At(s.timers[h].id).lastActivity + s.At(s.timers[h].id).timeout
          && 0 < s.timers[h].due - s.timers[h].since <= MAX_INT_32)
  }

  /** A record that timed out is gone; it was not early, and when it had a timer it was
      exactly at its deadline; and no record times out twice. */
  ghost predicate Punctual(s: State) {
    && (forall e | e in s.timeouts ::
          && e.ref < |s.records|
          && (forall name | name in s.channels :: s.channels[name] != e.ref)
          && e.at >= s.records[e.ref].lastActivity + s.records[e.ref].timeout
          && (s.records[e.ref].timer.Some? ==> e.at == s.records[e.ref].lastActivity + s.records[e.ref].timeout)
          && e.id == s.records[e.ref].id)
    && (forall i, j | 0 <= i < j < |s.timeouts| :: s.timeouts[i].ref != s.timeouts[j].ref)
  }

  ghost predicate Invariant(s: State) {
    Coherent(s) && Timed(s) && Punctual(s)
  }

  /** Unregistering by id removes the names of that record and no others. */
  lemma UnregisterNames(s: State, id: Name)
    requires Coherent(s) && s.Known(id) && s.At(id).id == id
    ensures Coherent(AfterUnregister(s, id))
    ensures forall name :: name in AfterUnregister(s, id).channels
                      <==> name in s.channels && s.channels[name] != s.channels[id]
  {
  }

  lemma UnregisterKeeps(s: State, id: Name)
    requires Invariant(s) && (s.Known(id) ==> s.At(id).id == id)
    ensures Invariant(AfterUnregister(s, id))
  {
    if s.Known(id) {
      UnregisterNames(s, id);
    }
  }

  /** `Timed`, except that the channel `id` has no pending timer. */
  ghost predicate TimedBut(s: State, id: Name) {
    && (forall h | h in s.timers ::
          && h < s.nextTimer
          && s.Known(s.timers[h].id) && s.At(s.timers[h].id).id == s.timers[h].id && s.timers[h].id != id
          && s.At(s.timers[h].id).timer == Some(h))
    && (forall name | name in s.channels && s.Known(name) && s.At(name).timer.Some? && s.At(name).id != id ::
          && s.At(name).timer.value in s.timers
          && s.timers[s.At(name).timer.value].id == s.At(name).id
          && s.At(name).timeout > 1)
    && (forall name | name in s.channels && s.Known(name) :: s.At(name).lastActivity <= s.now)
    && (forall h | h in s.timers && s.Known(s.timers[h].id) ::
          && s.now <= s.timers[h].due <= s.At(s.timers[h].id).lastActivity + s.At(s.timers[h].id).timeout
          && 0 < s.timers[h].due - s.timers[h].since <= MAX_INT_32)
  }

  /** Changing a record without renaming it, moving its deadline only later. */
  predicate Extends(s: State, name: Name, r: Record)
    requires s.Known(name)
  {
    var known := s.At(name);
    && r.id == known.id && r.alias == known.alias
    && r.lastActivity <= s.now && r.timeout >= known.timeout
    && r.lastActivity + r.timeout >= known.lastActivity + known.timeout
  }

  lemma PutCoherent(s: State, name: Name, r: Record)
    requires Coherent(s) && s.Known(name) && Extends(s, name, r)
    ensures Coherent(s.Put(name, r))
  {
  }

  lemma PutPunctual(s: State, name: Name, r: Record)
    requires Punctual(s) && s.Known(name)
    ensures Punctual(s.Put(name, r))
  {
  }

  lemma PutTimed(s: State, name: Name, r: Record)
    requires Coherent(s) && Timed(s) && s.Known(name) && Extends(s, name, r) && r.timer == s.At(name).timer
    ensures Timed(s.Put(name, r))
  {
  }

  lemma RearmTimed(s: State, id: Name, due: int)
    requires s.Known(id) && s.At(id).id == id && Coherent(s) && TimedBut(s, id)
    requires s.At(id).timeout > 1 && s.now < due <= s.At(id).lastActivity + s.At(id).timeout
    requires due - s.now <= MAX_INT_32
    ensures var s' := s.Put(id, s.At(id).(timer := Some(s.nextTimer)));
            Timed(s'.(timers := s.timers[s.nextTimer := Timer(id, s.now, due)], nextTimer := s.nextTimer + 1))
  {
  }

  lemma TimeoutKeeps(s: State, id: Name)
    requires s.Known(id) && s.At(id).id == id && Coherent(s) && TimedBut(s, id) && Punctual(s)
    requires var r := s.At(id);
             && s.now >= r.lastActivity + r.timeout
             && (r.timer.Some? ==> s.now == r.lastActivity + r.timeout && r.timer.value !in s.timers)
    ensures Invariant(AfterUnregister(s, id).(timeouts := s.timeouts + [Timeout(id, s.channels[id], s.now)]))
  {
    var s' := AfterUnregister(s, id);
    assert s'.timers == s.timers;
    UnregisterNames(s, id);
  }

  lemma CheckKeeps(s: State, id: Name, fired: Option<nat>)
    requires s.Known(id) && s.At(id).id == id && s.At(id).timer == fired
    requires Coherent(s) && TimedBut(s, id) && Punctual(s)
    requires fired.Some? ==>
               s.At(id).timeout > 1 && fired.value !in s.timers && s.now <= s.At(id).lastActivity + s.At(id).timeout
    ensures Invariant(AfterCheck(s, id))
  {
    hide Coherent, TimedBut, Punctual, Timed;
    var r := s.At(id);
    var inactive := s.now - r.lastActivity;
    assert inactive >= 0 by { ActivityIsPast(s, id); }
    if inactive >= r.timeout {
      TimeoutKeeps(s, id);
    } else if r.timeout > 1 {
      var due := s.now + Min(r.timeout - inactive, MAX_INT_32);
      var r' := r.(timer := Some(s.nextTimer));
      RearmTimed(s, id, due);
      PutCoherent(s, id, r');
      PutPunctual(s, id, r');
      TimersAside(s.Put(id, r'), s.timers[s.nextTimer := Timer(id, s.now, due)], s.nextTimer + 1);
    } else {
      UntimedKeeps(s, id);
    }
  }

  lemma ActivityIsPast(s: State, id: Name)
    requires s.Known(id) && (Timed(s) || TimedBut(s, id))
    ensures s.At(id).lastActivity <= s.now
  {
  }

  lemma TimersAside(s: State, timers: map<nat, Timer>, next: nat)
    requires Coherent(s) && Punctual(s)
    ensures Coherent(s.(timers := timers, nextTimer := next)) && Punctual(s.(timers := timers, nextTimer := next))
  {
  }

  lemma UntimedKeeps(s: State, id: Name)
    requires s.Known(id) && s.At(id).timer == None && s.At(id).id == id && Coherent(s) && TimedBut(s, id)
    ensures Timed(s)
  {
  }

  lemma RegisterKeeps(s: State, id: Name, timeout: int, alias: Option<Name>)
    requires Invariant(s) && id !in s.channels
    ensures Invariant(AfterRegister(s, id, timeout, alias))
  {
    hide AfterCheck;
    if !AliasTaken(s, alias) {
      var s' := Enter(s, id, timeout, alias);
      assert Coherent(s');
      assert TimedBut(s', id);
      assert Punctual(s');
      CheckKeeps(s', id, None);
    }
  }

  lemma FireKeeps(s: State, timer: nat)
    requires Invariant(s) && Allowed(s, DoFire(timer))
    ensures Invariant(AfterFire(s, timer))
  {
    hide Coherent, Timed, TimedBut, Punctual;
    var id, s' := s.timers[timer].id, s.(timers := s.timers - {timer});
    FiredTimed(s, timer);
    TimersAside(s, s'.timers, s.nextTimer);
    CheckKeeps(s', id, Some(timer));
  }

  lemma FiredTimed(s: State, timer: nat)
    requires Coherent(s) && Timed(s) && Allowed(s, DoFire(timer))
    ensures var id, s' := s.timers[timer].id, s.(timers := s.timers - {timer});
            && s'.Known(id) && s'.At(id).id == id && s'.At(id).timer == Some(timer) && TimedBut(s', id)
            && s'.At(id).timeout > 1 && s'.now <= s'.At(id).lastActivity + s'.At(id).timeout
  {
  }

  lemma ExtendKeeps(s: State, name: Name, more: int)
    requires Invariant(s) && more >= 0
    ensures Invariant(AfterKeepalive(s, name)) && Invariant(AfterUpdateTimeout(s, name, more))
  {
    hide Coherent, Timed, Punctual;
    if s.Known(name) {
      var r := s.At(name);
      var r1, r2 := r.(lastActivity := s.now), r.(timeout := r.timeout + more);
      assert r.lastActivity <= s.now by { ActivityIsPast(s, name); }
      PutCoherent(s, name, r1);
      PutTimed(s, name, r1);
      PutPunctual(s, name, r1);
      PutCoherent(s, name, r2);
      PutTimed(s, name, r2);
      PutPunctual(s, name, r2);
    }
  }

  /** In every allowed run: aliases are coherent, every armed channel has
      now <= due <= lastActivity + timeout, no channel times out early or twice. */
  lemma {:induction false} RunInvariant(ops: seq<Op>)
    requires AllowedRun(ops)
    ensures Invariant(Run(ops))
  {
    if ops != [] {
      var s, op := Run(ops[..|ops| - 1]), ops[|ops| - 1];
      RunInvariant(ops[..|ops| - 1]);
      match op
      case DoRegister(id, timeout, alias) => RegisterKeeps(s, id, timeout, alias);
      case DoUnregister(name) => UnregisterKeeps(s, name);
      case DoKeepalive(name) => ExtendKeeps(s, name, 0);
      case DoUpdateTimeout(name, more) => ExtendKeeps(s, name, more);
      case DoFire(timer) => FireKeeps(s, timer);
      case Advance(ms) =>
    }
  }

  // ---------- The class ----------

  class Channel {
    ghost const ref: nat
    const alias: Option<Name>
    var timeout: int
    var lastActivity: int
    var timer: Option<nat>

    constructor (timeout: int, alias: Option<Name>, now: int, ghost ref: nat)
      ensures this.timeout == timeout && this.alias == alias && lastActivity == now && timer == None && this.ref == ref
    {
      this.timeout, this.alias, lastActivity, timer, this.ref := timeout, alias, now, None, ref;
    }

    ghost predicate Matches(r: Record)
      reads this
    {
      timeout == r.timeout && alias == r.alias && lastActivity == r.lastActivity && timer == r.timer
    }
  }

  lemma CheckBy(s: State, name: Name)
    ensures !s.Known(name) ==> AfterCheck(s, name) == s
    ensures s.Known(name) ==>
              var r, s' := s.At(name), AfterCheck(s, name);
              if s.now - r.lastActivity >= r.timeout then
                && AfterUnregister(s, name).timeouts == s.timeouts
                && s' == AfterUnregister(s, name).(timeouts := s.timeouts + [Timeout(name, s.channels[name], s.now)])
              else if r.timeout > 1 then
                var due := s.now + Min(r.timeout - (s.now - r.lastActivity), MAX_INT_32);
                s' == s.(records := s.records[s.channels[name] := r.(timer := Some(s.nextTimer))],
                         timers := s.timers[s.nextTimer := Timer(name, s.now, due)], nextTimer := s.nextTimer + 1)
              else s' == s
  {
  }

  class ChannelManager {
    var channels: map<Name, Channel>
    var emitted: seq<Name>
    // The event loop: the clock and the pending timers.
    var now: int
    var timers: map<nat, Timer>
    var nextTimer: nat
    ghost var created: seq<Channel>
    ghost var view: State

    /** The objects are the records of `view`, and the table maps the same names to them. */
    ghost predicate Valid()
      reads this, created
    {
      && view.now == now && view.timers == timers && view.nextTimer == nextTimer
      && |created| == |view.records|
      && (forall i | 0 <= i < |created| :: created[i].ref == i && created[i].Matches(view.records[i]))
      && (forall n :: n in channels <==> n in view.channels)
      && (forall n | n in channels :: view.channels[n] < |created| && channels[n] == created[view.channels[n]])
      && |emitted| == |view.timeouts|
      && (forall i | 0 <= i < |emitted| :: emitted[i] == view.timeouts[i].id)
    }

    constructor ()
      ensures Valid() && view == EMPTY && created == []
    {
      channels, emitted, now, timers, nextTimer := map[], [], 0, map[], 0;
      created, view := [], EMPTY;
    }

    method Register(id: Name, timeout: int, alias: Option<Name>) returns (ok: bool)
      requires Valid()
      modifies this, created
      ensures Valid() && old(created) <= created && fresh(created[|old(created)|..])
      ensures ok <==> !AliasTaken(old(view), alias)
      ensures view == AfterRegister(old(view), id, timeout, alias)
    {
      hide AfterCheck;
      var channel := new Channel(timeout, alias, now, |created|);
      if alias.Some? {
        var name: Name := alias.value;
        if name in channels {
          return false;
        }
      }
      Store(id, channel, timeout);
      Check(id);
      return true;
    }

    /** The new channel under its alias, if it has one, and then under its id. */
    method Store(id: Name, channel: Channel, ghost timeout: int)
      requires Valid() && channel !in created
      requires channel.ref == |created| && channel.Matches(Record(id, timeout, channel.alias, now, None))
      modifies this`channels, this`created, this`view
      ensures Valid() && created == old(created) + [channel]
      ensures view == Enter(old(view), id, timeout, channel.alias)
    {
      if channel.alias.Some? {
        var name: Name := channel.alias.value;
        channels := channels[name := channel];
      }
      channels := channels[id := channel];
      created := created + [channel];
      view := Enter(view, id, timeout, channel.alias);
    }

    method Unregister(name: Name)
      requires Valid()
      modifies this`channels, this`timers, this`view
      ensures Valid() && view == AfterUnregister(old(view), name)
    {
      if name in channels {
        var channel := channels[name];
        channels := channels - {name};
        if channel.timer.Some? {
          timers := timers - {channel.timer.value};
        }
        if channel.alias.Some? {
          channels := channels - {channel.alias.value};
        }
      }
      view := AfterUnregister(view, name);
    }

    method Keepalive(name: Name)
      requires Valid()
      modifies this`view, created
      ensures Valid() && view == AfterKeepalive(old(view), name)
    {
      if name in channels {
        var channel := channels[name];
        channel.lastActivity := now;
      }
      view := AfterKeepalive(view, name);
    }

    method UpdateTimeout(name: Name, more: int)
      requires Valid()
      modifies this`view, created
      ensures Valid() && view == AfterUpdateTimeout(old(view), name, more)
    {
      if name in channels {
        var channel := channels[name];
        channel.timeout := channel.timeout + more;
      }
      view := AfterUpdateTimeout(view, name, more);
    }

    method Check(name: Name)
      requires Valid()
      modifies this, created
      ensures Valid() && created == old(created) && view == AfterCheck(old(view), name)
    {
      CheckBy(view, name);
      hide AfterCheck, AfterUnregister;
      if name !in channels {
        return;
      }
      var channel := channels[name];
      var inactivePeriod := now - channel.lastActivity;
      if inactivePeriod >= channel.timeout {
        ghost var timeout := Timeout(name, view.channels[name], now);
        Unregister(name);
        emitted := emitted + [name];
        view := view.(timeouts := view.timeouts + [timeout]);
      } else if channel.timeout > 1 {
        view := AfterCheck(view, name);
        var due := now + Min(channel.timeout - inactivePeriod, MAX_INT_32);
        timers := timers[nextTimer := Timer(name, now, due)];
        channel.timer := Some(nextTimer);
        nextTimer := nextTimer + 1;
      }
    }

    /** The event loop runs the callback of a pending timer. */
    method Fire(timer: nat)
      requires Valid() && timer in timers
      modifies this, created
      ensures Valid() && created == old(created) && view == AfterFire(old(view), timer)
    {
      var id := timers[timer].id;
      timers := timers - {timer};
      view := view.(timers := timers);
      Check(id);
    }
  }
}
