/** Request and reply over channels: the type-directed router, and transactions that
    settle by a reply on their own channel or by their own timer. */
module Transactions {
  import opened Wrappers

  /** Channel names, event names and message type names are only compared. The event of
      a message type is its type name, and its URL is made from that name one to one. */
  type Name = int

  datatype Url = Url(typeName: Name)

  /** A decoded `TransactionDoneMessage`, as far as it matters here. */
  datatype Reply = Reply(success: bool, body: int)

  /** An envelope: its message may be missing, or have no type URL (`None`), and it may
      name another channel. */
  datatype Packed = Packed(typeUrl: Option<Url>, reply: Reply)
  datatype Envelope = Envelope(message: Option<Packed>, channel: Option<Name>)

  const DONE: Name := 1
  const ANY_MESSAGE: Name := 0

  // ---------- The router ----------

  /** One call of a listener: the function, the channel it is told, the message if any. */
  datatype Delivery = Delivery(fn: nat, channel: Name, reply: Option<Reply>)

  datatype Router = Router(emitter: map<Name, seq<nat>>, types: map<Url, Name>) {
    function Listeners(event: Name): seq<nat> {
      if event in emitter then emitter[event] else []
    }

    /** `on` for an event name: the function is added. */
    function OnEvent(event: Name, fn: nat): Router {
      this.(emitter := emitter[event := Listeners(event) + [fn]])
    }

    /** `on` for a message type: the type is registered too, for good. */
    function On(messageType: Name, fn: nat): Router {
      OnEvent(messageType, fn).(types := types[Url(messageType) := messageType])
    }

    /** `removeListener`: the function goes, however often it was added. */
    function Off(event: Name, fn: nat): Router {
      this.(emitter := emitter[event := Without(Listeners(event), fn)])
    }

    /** `removeAllListeners` */
    function Clear(messageType: Name): Router {
      this.(emitter := emitter - {messageType})
    }
  }

  function Calls(fns: seq<nat>, channel: Name, reply: Option<Reply>): seq<Delivery> {
    seq(|fns|, i requires 0 <= i < |fns| => Delivery(fns[i], channel, reply))
  }

  /** What the handler calls for a message that arrives on `channel`. */
  function Dispatch(r: Router, channel: Name, e: Envelope): seq<Delivery> {
    if e.message.None? then []
    else
      var message := e.message.value;
      if message.typeUrl.None? || message.typeUrl.value !in r.types then []
      else
        Calls(r.Listeners(r.types[message.typeUrl.value]), if e.channel.Some? then e.channel.value else channel,
              Some(message.reply))
        + Calls(r.Listeners(ANY_MESSAGE), channel, None)
  }

  datatype Registration =
    | OnType(name: Name, fn: nat)
    | OnName(name: Name, fn: nat)
    | OffName(name: Name, fn: nat)
    | ClearType(name: Name)

  /** The router after a list of calls of `on` and of the two removals. */
  function Built(regs: seq<Registration>): Router {
    if regs == [] then Router(map[], map[])
    else
      var r := Built(regs[..|regs| - 1]);
      match regs[|regs| - 1]
      case OnType(name, fn) => r.On(name, fn)
      case OnName(name, fn) => r.OnEvent(name, fn)
      case OffName(name, fn) => r.Off(name, fn)
      case ClearType(name) => r.Clear(name)
  }

  /** The functions that listen to one name, in order. */
  function For(regs: seq<Registration>, name: Name): seq<nat> {
    if regs == [] then []
    else
      var fns, last := For(regs[..|regs| - 1], name), regs[|regs| - 1];
      if last.name != name then fns
      else
        match last
        case OnType(_, fn) => fns + [fn]
        case OnName(_, fn) => fns + [fn]
        case OffName(_, fn) => Without(fns, fn)
        case ClearType(_) => []
  }

  /** A function was once registered for the type, whatever was removed since. */
  predicate Typed(regs: seq<Registration>, messageType: Name) {
    exists i :: 0 <= i < |regs| && regs[i].OnType? && regs[i].name == messageType
  }

  lemma TypedSnoc(regs: seq<Registration>, messageType: Name)
    requires regs != []
    ensures var last := regs[|regs| - 1];
            Typed(regs, messageType) <==>
              Typed(regs[..|regs| - 1], messageType) || (last.OnType? && last.name == messageType)
  {
    var before := regs[..|regs| - 1];
    assert forall i | 0 <= i < |before| :: before[i] == regs[i];
    if regs[|regs| - 1].OnType? && regs[|regs| - 1].name == messageType {
      assert regs[|regs| - 1].OnType?;
    }
  }

  lemma {:induction false} BuiltKnows(regs: seq<Registration>, name: Name)
    ensures Built(regs).Listeners(name) == For(regs, name)
    ensures Url(name) in Built(regs).types <==> Typed(regs, name)
    ensures Url(name) in Built(regs).types ==> Built(regs).types[Url(name)] == name
  {
    hide Typed;
    if regs != [] {
      TypedSnoc(regs, name);
      BuiltKnows(regs[..|regs| - 1], name);
      BuiltKnows(regs[..|regs| - 1], regs[|regs| - 1].name);
    } else {
      NothingTyped(name);
    }
  }

  lemma NothingTyped(name: Name)
    ensures !Typed([], name)
  {
  }

  lemma DispatchIs(regs: seq<Registration>, channel: Name, e: Envelope)
    ensures Dispatch(Built(regs), channel, e) ==
            if e.message.None? || e.message.value.typeUrl.None? || !Typed(regs, e.message.value.typeUrl.value.typeName)
            then []
            else Calls(For(regs, e.message.value.typeUrl.value.typeName),
                       if e.channel.Some? then e.channel.value else channel, Some(e.message.value.reply))
                 + Calls(For(regs, ANY_MESSAGE), channel, None)
  {
    hide Typed;
    if e.message.Some? && e.message.value.typeUrl.Some? {
      BuiltKnows(regs, e.message.value.typeUrl.value.typeName);
      BuiltKnows(regs, ANY_MESSAGE);
    }
  }

  /** A message reaches the functions that listen to its type's name, in order, with the
      channel its envelope names or else the one it came on, and then those that listen
      to every message; but it reaches nobody when its type was never registered. */
  lemma DispatchByType(regs: seq<Registration>, channel: Name, e: Envelope)
    ensures var calls := Dispatch(Built(regs), channel, e);
            if e.message.None? || e.message.value.typeUrl.None? || !Typed(regs, e.message.value.typeUrl.value.typeName)
            then calls == []
            else
              var typed, any := For(regs, e.message.value.typeUrl.value.typeName), For(regs, ANY_MESSAGE);
              && |calls| == |typed| + |any|
              && (forall k | 0 <= k < |typed| ::
                    calls[k] == Delivery(typed[k], if e.channel.Some? then e.channel.value else channel,
                                         Some(e.message.value.reply)))
              && (forall k | 0 <= k < |any| :: calls[|typed| + k] == Delivery(any[k], channel, None))
  {
    hide Typed, Dispatch, Built, For;
    DispatchIs(regs, channel, e);
  }

  /** What a function that is registered for a type and removed again leaves: the type is
      registered, and the function is gone, earlier copies of it included. */
  lemma AfterRemoval(regs: seq<Registration>, messageType: Name, fn: nat, name: Name)
    ensures var all := regs + [OnType(messageType, fn), OffName(messageType, fn)];
            && For(all, name) == (if name == messageType then Without(For(regs, name), fn) else For(regs, name))
            && (Typed(all, name) <==> Typed(regs, name) || name == messageType)
  {
    hide Typed;
    var on := regs + [OnType(messageType, fn)];
    var all := regs + [OnType(messageType, fn), OffName(messageType, fn)];
    assert on[..|on| - 1] == regs && all[..|all| - 1] == on;
    WithoutLast(For(regs, messageType), fn);
    TypedSnoc(on, name);
    TypedSnoc(all, name);
  }

  /** Registering a function for a type and removing it again leaves the deliveries of a
      message as they were, exactly when: the type of the message was registered before, and
      the function did not listen to a name that the message is delivered under; or that type
      was not registered and still is not, or it is now but nobody listens. */
  lemma RemovalUndoesExactlyWhen(regs: seq<Registration>, messageType: Name, fn: nat, channel: Name, e: Envelope)
    ensures Dispatch(Built(regs + [OnType(messageType, fn), OffName(messageType, fn)]), channel, e)
              == Dispatch(Built(regs), channel, e)
       <==> || e.message.None? || e.message.value.typeUrl.None?
            || var name, fns := e.message.value.typeUrl.value.typeName, For(regs, messageType);
               if Typed(regs, name) then fn !in fns || (name != messageType && ANY_MESSAGE != messageType)
               else
                 || name != messageType
                 || (Without(fns, fn) == [] && (ANY_MESSAGE == messageType || For(regs, ANY_MESSAGE) == []))
  {
    hide Typed, Built, Dispatch, For;
    var all := regs + [OnType(messageType, fn), OffName(messageType, fn)];
    DispatchIs(regs, channel, e);
    DispatchIs(all, channel, e);
    AfterRemoval(regs, messageType, fn, ANY_MESSAGE);
    WithoutShrinks(For(regs, messageType), fn);
    if e.message.Some? && e.message.value.typeUrl.Some? {
      var name: Name := e.message.value.typeUrl.value.typeName;
      AfterRemoval(regs, messageType, fn, name);
    }
  }

  lemma {:induction false} WithoutShrinks(fns: seq<nat>, fn: nat)
    ensures |Without(fns, fn)| <= |fns|
    ensures fn in fns ==> |Without(fns, fn)| < |fns|
  {
    if fns != [] {
      WithoutShrinks(fns[1..], fn);
    }
  }

  /** A function that listens to a type already is lost when it is added and removed again. */
  lemma LostListenerExample(fn: nat, reply: Reply)
    ensures var regs, e := [OnType(DONE, fn)], Envelope(Some(Packed(Some(Url(DONE)), reply)), None);
            && Dispatch(Built(regs), 7, e) == [Delivery(fn, 7, Some(reply))]
            && Dispatch(Built(regs + [OnType(DONE, fn), OffName(DONE, fn)]), 7, e) == []
  {
    var regs, e := [OnType(DONE, fn)], Envelope(Some(Packed(Some(Url(DONE)), reply)), None);
    assert regs[..0] == [];
    assert For(regs, DONE) == [fn] && For(regs, ANY_MESSAGE) == [];
    AfterRemoval(regs, DONE, fn, DONE);
    AfterRemoval(regs, DONE, fn, ANY_MESSAGE);
    DispatchIs(regs, 7, e);
    DispatchIs(regs + [OnType(DONE, fn), OffName(DONE, fn)], 7, e);
    assert [fn][1..] == [];
    assert Without([fn], fn) == [];
  }

  lemma {:induction false} WithoutLast(fns: seq<nat>, fn: nat)
    ensures Without(fns + [fn], fn) == Without(fns, fn)
  {
    if fns == [] {
      assert fns + [fn] == [fn] && [fn][1..] == [];
    } else {
      assert (fns + [fn])[1..] == fns[1..] + [fn];
      WithoutLast(fns[1..], fn);
    }
  }

  // ---------- Transactions ----------

  datatype Outcome = Pending | Resolved(reply: Reply) | Rejected(reply: Reply) | TimedOut

  /** A transaction: its response channel, how its promise stands, and how often
      resolve or reject was called. */
  datatype Txn = Txn(channel: Name, outcome: Outcome, settlements: nat)

  datatype Hub = Hub(txns: seq<Txn>, listeners: map<Name, seq<nat>>, subs: multiset<Name>, timers: set<nat>) {
    function On(channel: Name): seq<nat> {
      if channel in listeners then listeners[channel] else []
    }
  }

  const NO_TRANSACTIONS := Hub([], map[], multiset{}, {})

  function Begin(h: Hub, channel: Name): Hub {
    Hub(h.txns + [Txn(channel, Pending, 0)], h.listeners[channel := h.On(channel) + [|h.txns|]],
        h.subs + multiset{channel}, h.timers + {|h.txns|})
  }

  /** Both ends: the timer, the subscription and the listener go, and the promise is
      settled, unless it was before. */
  function Close(h: Hub, i: nat, outcome: Outcome): Hub
    requires i < |h.txns|
  {
    var t := h.txns[i];
    Hub(h.txns[i := Txn(t.channel, if t.outcome.Pending? then outcome else t.outcome, t.settlements + 1)],
        h.listeners[t.channel := Without(h.On(t.channel), i)], h.subs - multiset{t.channel}, h.timers - {i})
  }

  /** The router of transaction `i`: one function, for the done message. */
  function TxnRouter(i: nat): Router {
    Built([OnType(DONE, i)])
  }

  lemma TxnRouterIs(i: nat)
    ensures Built([]).On(DONE, i) == TxnRouter(i)
  {
    assert [OnType(DONE, i)][..0] == [];
  }

  function Settlement(reply: Reply): Outcome {
    if reply.success then Resolved(reply) else Rejected(reply)
  }

  function Perform(h: Hub, calls: seq<Delivery>): Hub {
    if calls == [] then h
    else
      var h' := Perform(h, calls[..|calls| - 1]);
      var call := calls[|calls| - 1];
      if call.reply.Some? && call.fn < |h'.txns| then Close(h', call.fn, Settlement(call.reply.value)) else h'
  }

  /** The listeners that a channel had when the message came are called in order. */
  function DeliverTo(h: Hub, fns: seq<nat>, channel: Name, e: Envelope): Hub {
    if fns == [] then h
    else Perform(DeliverTo(h, fns[..|fns| - 1], channel, e), Dispatch(TxnRouter(fns[|fns| - 1]), channel, e))
  }

  datatype Event = Start(channel: Name) | Message(on: Name, envelope: Envelope) | Timer(txn: nat)

  function Apply(h: Hub, event: Event): Hub {
    match event
    case Start(channel) => Begin(h, channel)
    case Message(on, e) => DeliverTo(h, h.On(on), on, e)
    case Timer(i) => if i in h.timers && i < |h.txns| then Close(h, i, TimedOut) else h
  }

  function Run(events: seq<Event>): Hub {
    if events == [] then NO_TRANSACTIONS else Apply(Run(events[..|events| - 1]), events[|events| - 1])
  }

  /** Response channels are fresh, and only a timer that is set can fire. */
  ghost predicate Allowed(h: Hub, event: Event) {
    match event
    case Start(channel) => forall i | 0 <= i < |h.txns| :: h.txns[i].channel != channel
    case Message(on, e) => true
    case Timer(i) => i in h.timers
  }

  ghost predicate AllowedRun(events: seq<Event>) {
    events == [] ||
    (AllowedRun(events[..|events| - 1]) && Allowed(Run(events[..|events| - 1]), events[|events| - 1]))
  }

  // ---------- What holds in every run ----------

  predicate Open(h: Hub, i: nat) {
    i < |h.txns| && h.txns[i].outcome.Pending?
  }

  /** A transaction has one listener, one subscription and one timer while it is open,
      and then none, and its promise was settled once. */
  ghost predicate Tidy(h: Hub, i: nat)
    requires i < |h.txns|
  {
    var t, open := h.txns[i], Open(h, i);
    && h.On(t.channel) == (if open then [i] else [])
    && h.subs[t.channel] == (if open then 1 else 0)
    && (i in h.timers <==> open)
    && t.settlements == (if open then 0 else 1)
  }

  ghost predicate IsChannel(h: Hub, channel: Name) {
    exists i :: 0 <= i < |h.txns| && h.txns[i].channel == channel
  }

  /** Listeners, subscriptions and timers are exactly those of the unsettled
      transactions, one each; and nothing is settled twice. */
  ghost predicate Exact(h: Hub) {
    && (forall i, j | 0 <= i < j < |h.txns| :: h.txns[i].channel != h.txns[j].channel)
    && (forall i | 0 <= i < |h.txns| :: Tidy(h, i))
    && (forall c | h.On(c) != [] || h.subs[c] > 0 :: IsChannel(h, c))
    && (forall i | i in h.timers :: i < |h.txns|)
  }

  lemma BeginExact(h: Hub, channel: Name)
    requires Exact(h) && Allowed(h, Start(channel))
    ensures Exact(Begin(h, channel))
  {
    var h', n := Begin(h, channel), |h.txns|;
    assert !IsChannel(h, channel);
    assert h.On(channel) == [] && h.subs[channel] == 0;
    forall i | 0 <= i < |h'.txns| ensures Tidy(h', i) {
      if i < n {
        assert Tidy(h, i) && h'.txns[i] == h.txns[i];
      }
    }
    forall c | h'.On(c) != [] || h'.subs[c] > 0 ensures IsChannel(h', c) {
      if c == channel {
        assert h'.txns[n].channel == c;
      } else {
        assert IsChannel(h, c);
        var i :| 0 <= i < n && h.txns[i].channel == c;
        assert h'.txns[i].channel == c;
      }
    }
  }

  lemma CloseExact(h: Hub, i: nat, outcome: Outcome)
    requires Exact(h) && Open(h, i) && !outcome.Pending?
    ensures Exact(Close(h, i, outcome))
  {
    var h' := Close(h, i, outcome);
    assert Without([i], i) == [];
    assert Tidy(h, i);
    forall j | 0 <= j < |h'.txns| ensures Tidy(h', j) {
      assert Tidy(h, j);
      if j != i {
        assert h'.txns[j] == h.txns[j] && h.txns[j].channel != h.txns[i].channel;
      }
    }
    forall c | h'.On(c) != [] || h'.subs[c] > 0 ensures IsChannel(h', c) {
      assert h.On(c) != [] || h.subs[c] > 0;
      assert IsChannel(h, c);
      var j :| 0 <= j < |h.txns| && h.txns[j].channel == c;
      assert h'.txns[j].channel == c;
    }
  }

  /** What one event does to the transaction it concerns. */
  function Reaction(event: Event, i: nat, channel: Name): Outcome {
    match event
    case Start(_) => Pending
    case Message(on, e) =>
      if on == channel && e.message.Some? && e.message.value.typeUrl == Some(Url(DONE))
      then Settlement(e.message.value.reply) else Pending
    case Timer(j) => if i == j then TimedOut else Pending
  }

  lemma DeliverEffect(h: Hub, i: nat, channel: Name, e: Envelope)
    requires i < |h.txns|
    ensures Perform(h, Dispatch(TxnRouter(i), channel, e))
         == if Reaction(Message(channel, e), i, channel).Pending? then h
            else Close(h, i, Reaction(Message(channel, e), i, channel))
  {
    var regs := [OnType(DONE, i)];
    assert regs[..0] == [];
    DispatchIs(regs, channel, e);
    assert For(regs, DONE) == [i] && For(regs, ANY_MESSAGE) == [];
    if !Reaction(Message(channel, e), i, channel).Pending? {
      var call := Delivery(i, if e.channel.Some? then e.channel.value else channel, Some(e.message.value.reply));
      assert Dispatch(TxnRouter(i), channel, e) == [call];
      assert [call][..0] == [];
    } else if e.message.Some? && e.message.value.typeUrl.Some? {
      assert For(regs, e.message.value.typeUrl.value.typeName) == [];
    }
  }

  /** The outcomes after a step, as each transaction alone would have them. */
  ghost predicate Isolated(h: Hub, h': Hub, event: Event) {
    && |h.txns| <= |h'.txns|
    && forall i | 0 <= i < |h.txns| ::
         && h'.txns[i].channel == h.txns[i].channel
         && h'.txns[i].outcome ==
              if h.txns[i].outcome.Pending? then Reaction(event, i, h.txns[i].channel) else h.txns[i].outcome
  }

  lemma MessageIsolated(h: Hub, on: Name, e: Envelope)
    requires Exact(h)
    ensures Exact(DeliverTo(h, h.On(on), on, e)) && Isolated(h, DeliverTo(h, h.On(on), on, e), Message(on, e))
  {
    hide Dispatch, Perform;
    if h.On(on) == [] {
      forall i | 0 <= i < |h.txns| && Open(h, i) ensures h.txns[i].channel != on {
        assert Tidy(h, i);
      }
    } else {
      assert IsChannel(h, on);
      var i :| 0 <= i < |h.txns| && h.txns[i].channel == on;
      assert Tidy(h, i);
      assert h.On(on) == [i] && [i][..0] == [];
      assert DeliverTo(h, [], on, e) == h;
      DeliverEffect(h, i, on, e);
      if !Reaction(Message(on, e), i, on).Pending? {
        CloseExact(h, i, Reaction(Message(on, e), i, on));
      }
    }
  }

  /** An event changes the outcome of exactly the open transactions that react to it. */
  lemma StepIsolated(h: Hub, event: Event)
    requires Exact(h) && Allowed(h, event)
    ensures Exact(Apply(h, event)) && Isolated(h, Apply(h, event), event)
  {
    match event
    case Start(channel) => BeginExact(h, channel);
    case Message(on, e) => MessageIsolated(h, on, e);
    case Timer(i) =>
      assert Tidy(h, i);
      CloseExact(h, i, TimedOut);
  }

  /** In every run, what is live is exactly what is unsettled. */
  lemma {:induction false} RunExact(events: seq<Event>)
    requires AllowedRun(events)
    ensures Exact(Run(events))
  {
    if events != [] {
      RunExact(events[..|events| - 1]);
      StepIsolated(Run(events[..|events| - 1]), events[|events| - 1]);
    }
  }

  /** The first reaction in a list of events: what one transaction alone would do. */
  function Fate(events: seq<Event>, i: nat, channel: Name): Outcome {
    if events == [] then Pending
    else
      var before := Fate(events[..|events| - 1], i, channel);
      if before.Pending? then Reaction(events[|events| - 1], i, channel) else before
  }

  /** The event settles transaction `i`: a done message on its channel, or its timer. */
  predicate Answers(event: Event, i: nat, channel: Name) {
    match event
    case Start(_) => false
    case Message(on, e) => on == channel && e.message.Some? && e.message.value.typeUrl == Some(Url(DONE))
    case Timer(j) => i == j
  }

  lemma {:induction false} FateIsFirst(events: seq<Event>, i: nat, channel: Name, k: nat)
    requires k < |events| && Answers(events[k], i, channel)
    requires forall j | 0 <= j < k :: !Answers(events[j], i, channel)
    ensures Fate(events, i, channel) == Reaction(events[k], i, channel)
  {
    var before := events[..|events| - 1];
    if k == |before| {
      NoFate(before, i, channel);
    } else {
      FateIsFirst(before, i, channel, k);
    }
  }

  lemma {:induction false} NoFate(events: seq<Event>, i: nat, channel: Name)
    requires forall j | 0 <= j < |events| :: !Answers(events[j], i, channel)
    ensures Fate(events, i, channel) == Pending
  {
    if events != [] {
      NoFate(events[..|events| - 1], i, channel);
    }
  }

  /** In every run with any number of transactions: the first answer after it began settles
      a transaction for good. A done message that reports success resolves it with that
      reply, one that does not rejects it with that reply, and the timer times it out; with
      no answer it is open. */
  lemma FirstAnswerSettles(events: seq<Event>, start: nat)
    requires AllowedRun(events) && start < |events| && events[start].Start?
    ensures var i, channel := |Run(events[..start]).txns|, events[start].channel;
            && i < |Run(events).txns|
            && var outcome := Run(events).txns[i].outcome;
               && ((forall j | start < j < |events| :: !Answers(events[j], i, channel)) ==> outcome == Pending)
               && forall k |
                    start < k < |events| && Answers(events[k], i, channel)
                    && (forall j | start < j < k :: !Answers(events[j], i, channel)) ::
                    match events[k]
                    case Message(_, e) =>
                      e.message.Some? &&
                      var reply := e.message.value.reply;
                      outcome == if reply.success then Resolved(reply) else Rejected(reply)
                    case _ => outcome == TimedOut
  {
    hide Run, AllowedRun, Fate, Answers;
    var i, channel := |Run(events[..start]).txns|, events[start].channel;
    var rest := events[start + 1..];
    SettlesInIsolation(events, start);
    assert forall j | 0 <= j < |rest| :: rest[j] == events[start + 1 + j];
    if forall j | start < j < |events| :: !Answers(events[j], i, channel) {
      NoFate(rest, i, channel);
    }
    forall k |
      start < k < |events| && Answers(events[k], i, channel)
      && (forall j | start < j < k :: !Answers(events[j], i, channel))
      ensures
        match events[k]
        case Message(_, e) =>
          e.message.Some? &&
          var reply := e.message.value.reply;
          Run(events).txns[i].outcome == if reply.success then Resolved(reply) else Rejected(reply)
        case _ => Run(events).txns[i].outcome == TimedOut
    {
      FateIsFirst(rest, i, channel, k - start - 1);
      AnswerIs(events[k], i, channel);
    }
  }

  lemma AnswerIs(event: Event, i: nat, channel: Name)
    requires Answers(event, i, channel)
    ensures match event
            case Message(_, e) =>
              e.message.Some? &&
              var reply := e.message.value.reply;
              Reaction(event, i, channel) == if reply.success then Resolved(reply) else Rejected(reply)
            case _ => Reaction(event, i, channel) == TimedOut
  {
  }

  lemma LastStep(events: seq<Event>, i: nat, channel: Name)
    requires events != []
    ensures var before, event := events[..|events| - 1], events[|events| - 1];
            && Run(events) == Apply(Run(before), event)
            && (AllowedRun(events) <==> AllowedRun(before) && Allowed(Run(before), event))
            && Fate(events, i, channel)
                 == if Fate(before, i, channel).Pending? then Reaction(event, i, channel) else Fate(before, i, channel)
  {
  }

  lemma JustStarted(h: Hub, event: Event)
    requires event.Start?
    ensures Apply(h, event).txns == h.txns + [Txn(event.channel, Pending, 0)]
    ensures Fate([], |h.txns|, event.channel) == Pending
  {
  }

  /** Among any number of concurrent transactions, each ends as if it were alone: with the
      first done message on its own response channel, or its own timer, after it began. */
  lemma {:induction false} SettlesInIsolation(events: seq<Event>, k: nat)
    requires AllowedRun(events) && k < |events| && events[k].Start?
    ensures var i := |Run(events[..k]).txns|;
            && i < |Run(events).txns|
            && Run(events).txns[i].channel == events[k].channel
            && Run(events).txns[i].outcome == Fate(events[k + 1..], i, events[k].channel)
    decreases |events|
  {
    hide Exact, Allowed, AllowedRun, Run, Apply, Fate, Reaction;
    var before, event, n := events[..|events| - 1], events[|events| - 1], |events| - 1;
    var i, rest := |Run(events[..k]).txns|, events[k + 1..];
    LastStep(events, i, events[k].channel);
    if k == n {
      assert rest == [];
      JustStarted(Run(before), event);
    } else {
      assert before[..k] == events[..k] && rest[..|rest| - 1] == before[k + 1..];
      RunExact(before);
      StepIsolated(Run(before), event);
      SettlesInIsolation(before, k);
      LastStep(rest, i, events[k].channel);
    }
  }

  /** Listeners add up: were two transactions on one channel, a done message would settle both. */
  lemma SharedChannelExample(reply: Reply)
    requires reply.success
    ensures var e := Envelope(Some(Packed(Some(Url(DONE)), reply)), None);
            var h := Run([Start(7), Start(7), Message(7, e)]);
            h.txns == [Txn(7, Resolved(reply), 1), Txn(7, Resolved(reply), 1)] && h.On(7) == []
  {
    hide Dispatch, Perform, Run, TxnRouter;
    var e := Envelope(Some(Packed(Some(Url(DONE)), reply)), None);
    var h := SharedChannel();
    var h1 := Close(h, 0, Resolved(reply));
    var h2 := Close(h1, 1, Resolved(reply));
    assert Without([0, 1], 0) == [1] && Without([1], 1) == [];
    assert h1.txns == [Txn(7, Resolved(reply), 1), Txn(7, Pending, 0)] && h1.On(7) == [1];
    assert h2.txns == [Txn(7, Resolved(reply), 1), Txn(7, Resolved(reply), 1)] && h2.On(7) == [];
    DeliverEffect(h, 0, 7, e);
    DeliverEffect(h1, 1, 7, e);
    DeliverTwo(h, 0, 1, 7, e);
    RunSnoc([Start(7), Start(7)], Message(7, e));
    assert [Start(7), Start(7)] + [Message(7, e)] == [Start(7), Start(7), Message(7, e)];
  }

  lemma RunSnoc(events: seq<Event>, event: Event)
    ensures Run(events + [event]) == Apply(Run(events), event)
  {
  }

  lemma DeliverTwo(h: Hub, i: nat, j: nat, channel: Name, e: Envelope)
    ensures DeliverTo(h, [i, j], channel, e)
         == Perform(Perform(h, Dispatch(TxnRouter(i), channel, e)), Dispatch(TxnRouter(j), channel, e))
  {
    hide Dispatch, Perform, TxnRouter;
    var fns := [i, j];
    assert fns[..1] == [i] && [i][..0] == [];
    assert DeliverTo(h, [i], channel, e) == Perform(h, Dispatch(TxnRouter(i), channel, e));
  }

  lemma SharedChannel() returns (h: Hub)
    ensures h == Run([Start(7), Start(7)])
    ensures h.txns == [Txn(7, Pending, 0), Txn(7, Pending, 0)] && h.On(7) == [0, 1]
  {
    hide Run;
    NothingBegun();
    var none: seq<Event> := [];
    RunSnoc(none, Start(7));
    RunSnoc(none + [Start(7)], Start(7));
    assert none + [Start(7)] + [Start(7)] == [Start(7), Start(7)];
    h := Run([Start(7), Start(7)]);
  }

  lemma NothingBegun()
    ensures Run([]) == NO_TRANSACTIONS
  {
  }

  // ---------- The classes ----------

  class WireRouter {
    var emitter: map<Name, seq<nat>>
    var registeredTypes: map<Url, Name>

    ghost function State(): Router
      reads this
    {
      Router(emitter, registeredTypes)
    }

    constructor ()
      ensures State() == Built([])
    {
      emitter, registeredTypes := map[], map[];
    }

    method On(messageType: Name, fn: nat)
      modifies this
      ensures State() == old(State()).On(messageType, fn)
    {
      OnEvent(messageType, fn);
      registeredTypes := registeredTypes[Url(messageType) := messageType];
    }

    method OnEvent(event: Name, fn: nat)
      modifies this`emitter
      ensures State() == old(State()).OnEvent(event, fn)
    {
      var fns := if event in emitter then emitter[event] else [];
      emitter := emitter[event := fns + [fn]];
    }

    method RemoveListener(event: Name, fn: nat)
      modifies this`emitter
      ensures State() == old(State()).Off(event, fn)
    {
      var fns := if event in emitter then emitter[event] else [];
      emitter := emitter[event := Without(fns, fn)];
    }

    method RemoveAllListeners(messageType: Name)
      modifies this`emitter
      ensures State() == old(State()).Clear(messageType)
    {
      emitter := emitter - {messageType};
    }

    method Emit(event: Name, channel: Name, reply: Option<Reply>) returns (calls: seq<Delivery>)
      ensures calls == Calls(State().Listeners(event), channel, reply)
    {
      var fns := if event in emitter then emitter[event] else [];
      calls := [];
      for i := 0 to |fns|
        invariant calls == Calls(fns[..i], channel, reply)
      {
        calls := calls + [Delivery(fns[i], channel, reply)];
      }
      assert fns[..|fns|] == fns;
    }

    /** The function `handler` returns, on one message. */
    method Handle(channel: Name, e: Envelope) returns (calls: seq<Delivery>)
      ensures calls == Dispatch(State(), channel, e)
    {
      if e.message.None? {
        return [];
      }
      var message := e.message.value;
      if message.typeUrl.None? {
        return [];
      }
      var target: Url := message.typeUrl.value;
      if target !in registeredTypes {
        return [];
      }
      var typed := Emit(registeredTypes[target], if e.channel.Some? then e.channel.value else channel, Some(message.reply));
      var any := Emit(ANY_MESSAGE, channel, None);
      return typed + any;
    }
  }

  /** Only transactions listen. */
  ghost predicate Bounded(h: Hub) {
    forall c, i | i in h.On(c) :: i < |h.txns|
  }

  lemma BoundedAt(h: Hub, channel: Name)
    requires Bounded(h)
    ensures forall k | 0 <= k < |h.On(channel)| :: h.On(channel)[k] < |h.txns|
  {
    assert forall k | 0 <= k < |h.On(channel)| :: h.On(channel)[k] in h.On(channel);
  }

  lemma CloseBounded(h: Hub, i: nat, outcome: Outcome)
    requires Bounded(h) && i < |h.txns|
    ensures Bounded(Close(h, i, outcome))
  {
    var h' := Close(h, i, outcome);
    forall c, j | j in h'.On(c) ensures j < |h'.txns| {
      assert j in h.On(c);
    }
  }

  lemma BeginBounded(h: Hub, channel: Name)
    requires Bounded(h)
    ensures Bounded(Begin(h, channel))
  {
    var h' := Begin(h, channel);
    forall c, j | j in h'.On(c) ensures j < |h'.txns| {
      assert j in h.On(c) || j == |h.txns|;
    }
  }

  /** The channel router, the subscriptions, the timers, and the transactions on them. */
  class TransactionManager {
    var txns: seq<Txn>
    var routers: seq<WireRouter>
    var listeners: map<Name, seq<nat>>
    var subs: multiset<Name>
    var timers: set<nat>

    ghost function State(): Hub
      reads this
    {
      Hub(txns, listeners, subs, timers)
    }

    ghost predicate Valid()
      reads this, routers
    {
      && |routers| == |txns|
      && (forall i | 0 <= i < |routers| :: routers[i].State() == TxnRouter(i))
      && Bounded(State())
    }

    constructor ()
      ensures Valid() && State() == NO_TRANSACTIONS
    {
      txns, routers, listeners, subs, timers := [], [], map[], multiset{}, {};
    }

    method RunTransaction(responseChannel: Name) returns (i: nat)
      requires Valid()
      modifies this
      ensures Valid() && State() == Begin(old(State()), responseChannel) && i == |old(txns)|
      ensures old(routers) <= routers && fresh(routers[|old(routers)|..])
    {
      hide Bounded, Built, TxnRouter;
      BeginBounded(State(), responseChannel);
      i := |txns|;
      subs := subs + multiset{responseChannel};
      var messageListener := new WireRouter();
      messageListener.On(DONE, i);
      TxnRouterIs(i);
      timers := timers + {i};
      var there := if responseChannel in listeners then listeners[responseChannel] else [];
      listeners := listeners[responseChannel := there + [i]];
      routers := routers + [messageListener];
      txns := txns + [Txn(responseChannel, Pending, 0)];
    }

    method CloseTransaction(i: nat, outcome: Outcome)
      requires Valid() && i < |txns|
      modifies this`txns, this`listeners, this`subs, this`timers
      ensures Valid() && State() == Close(old(State()), i, outcome) && |txns| == |old(txns)|
    {
      hide Bounded, Without, TxnRouter;
      CloseBounded(State(), i, outcome);
      var t := txns[i];
      timers := timers - {i};
      subs := subs - multiset{t.channel};
      var there := if t.channel in listeners then listeners[t.channel] else [];
      listeners := listeners[t.channel := Without(there, i)];
      txns := txns[i := Txn(t.channel, if t.outcome.Pending? then outcome else t.outcome, t.settlements + 1)];
    }

    method OnTimeout(i: nat)
      requires Valid() && i in timers && i < |txns|
      modifies this`txns, this`listeners, this`subs, this`timers
      ensures Valid() && State() == Apply(old(State()), Timer(i))
    {
      CloseTransaction(i, TimedOut);
    }

    /** `channelRouter.emit`: the listeners there were at the beginning are called. */
    method Receive(on: Name, e: Envelope)
      requires Valid()
      modifies this`txns, this`listeners, this`subs, this`timers
      ensures Valid() && State() == Apply(old(State()), Message(on, e))
    {
      hide Bounded, Close, Dispatch, TxnRouter, Perform;
      var fns := if on in listeners then listeners[on] else [];
      BoundedAt(State(), on);
      assert fns == State().On(on);
      assert forall k | 0 <= k < |fns| :: fns[k] < |old(txns)|;
      for k := 0 to |fns|
        invariant Valid() && |txns| == |old(txns)|
        invariant State() == DeliverTo(old(State()), fns[..k], on, e)
      {
        assert fns[..k + 1][..k] == fns[..k];
        assert fns[k] < |routers|;
        var calls := routers[fns[k]].Handle(on, e);
        ghost var before := State();
        PerformAll(calls);
        assert fns[..k + 1][k] == fns[k];
      }
      assert fns[..|fns|] == fns;
    }

    /** The callbacks of one message: each done message closes a transaction. */
    method PerformAll(calls: seq<Delivery>)
      requires Valid()
      modifies this`txns, this`listeners, this`subs, this`timers
      ensures Valid() && |txns| == |old(txns)|
      ensures State() == Perform(old(State()), calls)
    {
      hide Bounded, Close, TxnRouter;
      for j := 0 to |calls|
        invariant Valid() && |txns| == |old(txns)|
        invariant State() == Perform(old(State()), calls[..j])
      {
        assert calls[..j + 1][..j] == calls[..j];
        var call := calls[j];
        if call.reply.Some? && call.fn < |txns| {
          var reply: Reply := call.reply.value;
          CloseTransaction(call.fn, Settlement(reply));
        }
      }
      assert calls[..|calls|] == calls;
    }
  }
}
