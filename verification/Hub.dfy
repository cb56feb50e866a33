/** What the broadcaster promises, on values: a log of published events, and
    per subscriber the part it has received and the part still buffered
    (daemon/state/broadcaster.go). The Broadcaster module refines this. */
module Hub {
  import opened Wrappers

  /** `change` is the store write an event reports. */
  datatype Event = Event(name: string, change: nat)

  /** One subscription, registered while `open`; `start` is the log's length when it began. */
  datatype Sub = Sub(cap: nat, start: nat, got: seq<Event>, buf: seq<Event>, open: bool)

  datatype Hub = Hub(subs: seq<Sub>, closed: bool, log: seq<Event>)

  function Empty(): Hub {
    Hub([], false, [])
  }

  datatype Op =
    | Subscribe(buffer: int)
    | Publish(ev: Event)
    | Cancel(i: nat)
    | Receive(i: nat)
    | Close

  /** A receive by subscriber i does not block. */
  predicate Ready(h: Hub, i: nat) {
    i < |h.subs| && (h.subs[i].buf != [] || !h.subs[i].open)
  }

  predicate Enabled(h: Hub, op: Op) {
    match op
    case Subscribe(_) => true
    case Publish(_) => true
    case Cancel(i) => i < |h.subs|
    case Receive(i) => Ready(h, i)
    case Close => true
  }

  function Capacity(buffer: int): (cap: nat)
    ensures cap >= 1
  {
    if buffer < 1 then 1 else buffer
  }

  /** A full subscriber is dropped, and the event with it. */
  function Offered(s: Sub, ev: Event): Sub {
    if !s.open then s
    else if |s.buf| < s.cap then s.(buf := s.buf + [ev])
    else s.(open := false)
  }

  function Shut(s: Sub): Sub {
    s.(open := false)
  }

  function Taken(s: Sub): Sub {
    if s.buf == [] then s else s.(got := s.got + [s.buf[0]], buf := s.buf[1..])
  }

  function Apply(h: Hub, op: Op): Hub
    requires Enabled(h, op)
  {
    match op
    case Subscribe(buffer) => h.(subs := h.subs + [Sub(Capacity(buffer), |h.log|, [], [], !h.closed)])
    case Publish(ev) =>
      if h.closed then h
      else Hub(seq(|h.subs|, (i: nat) requires i < |h.subs| => Offered(h.subs[i], ev)), false, h.log + [ev])
    case Cancel(i) => h.(subs := h.subs[i := Shut(h.subs[i])])
    case Receive(i) => h.(subs := h.subs[i := Taken(h.subs[i])])
    case Close =>
      if h.closed then h
      else Hub(seq(|h.subs|, (i: nat) requires i < |h.subs| => Shut(h.subs[i])), true, h.log)
  }

  // ---- the invariant ----

  /** Received and buffered events together are a contiguous slice of the log
      from the subscription on, up to the log's end while registered. */
  ghost predicate SubInv(s: Sub, log: seq<Event>) {
    var n := |s.got| + |s.buf|;
    && |s.buf| <= s.cap && s.cap >= 1 && s.start + n <= |log|
    && s.got + s.buf == log[s.start..s.start + n]
    && (s.open ==> s.start + n == |log|)
  }

  ghost predicate HubInv(h: Hub) {
    && (forall i :: 0 <= i < |h.subs| ==> SubInv(h.subs[i], h.log))
    && (h.closed ==> forall i :: 0 <= i < |h.subs| ==> !h.subs[i].open)
  }

  lemma OfferedKeeps(s: Sub, log: seq<Event>, ev: Event)
    requires SubInv(s, log)
    ensures SubInv(Offered(s, ev), log + [ev])
  {
    var n := |s.got| + |s.buf|;
    assert (log + [ev])[s.start..s.start + n] == log[s.start..s.start + n];
    if s.open && |s.buf| < s.cap {
      assert s.got + (s.buf + [ev]) == (s.got + s.buf) + [ev];
      assert (log + [ev])[s.start..s.start + n + 1] == log[s.start..s.start + n] + [ev];
    }
  }

  lemma TakenKeeps(s: Sub, log: seq<Event>)
    requires SubInv(s, log)
    ensures SubInv(Taken(s), log) && Taken(s).got + Taken(s).buf == s.got + s.buf
  {
    if s.buf != [] {
      assert s.got + [s.buf[0]] + s.buf[1..] == s.got + s.buf;
    }
  }

  lemma ApplyKeepsInv(h: Hub, op: Op)
    requires HubInv(h) && Enabled(h, op)
    ensures HubInv(Apply(h, op))
  {
    match op
    case Publish(ev) => PublishKeepsInv(h, ev);
    case Receive(i) => TakenKeeps(h.subs[i], h.log);
    case _ =>
  }

  lemma PublishKeepsInv(h: Hub, ev: Event)
    requires HubInv(h)
    ensures HubInv(Apply(h, Publish(ev)))
  {
    forall i | 0 <= i < |h.subs|
      ensures SubInv(Offered(h.subs[i], ev), h.log + [ev])
    {
      OfferedKeeps(h.subs[i], h.log, ev);
    }
  }

  // ---- whole histories ----

  predicate Runnable(ops: seq<Op>)
    decreases |ops|, 0
  {
    ops == [] || (Runnable(ops[..|ops| - 1]) && Enabled(After(ops[..|ops| - 1]), ops[|ops| - 1]))
  }

  function After(ops: seq<Op>): Hub
    requires Runnable(ops)
    decreases |ops|, 1
  {
    if ops == [] then Empty() else Apply(After(ops[..|ops| - 1]), ops[|ops| - 1])
  }

  lemma {:induction false} HistoryInv(ops: seq<Op>)
    requires Runnable(ops)
    ensures HubInv(After(ops))
    decreases |ops|
  {
    if ops != [] {
      HistoryInv(ops[..|ops| - 1]);
      ApplyKeepsInv(After(ops[..|ops| - 1]), ops[|ops| - 1]);
    }
  }

  /** Whatever subscribers, publishers and cancels do, what a subscriber got and
      has buffered is the log from its subscription on, in order and without a
      gap: all of it while it is registered, the part up to its drop after. */
  lemma SubscriberSeesTheLog(ops: seq<Op>, i: nat)
    requires Runnable(ops) && i < |After(ops).subs|
    ensures var h := After(ops); var s := h.subs[i];
            && s.start <= |h.log|
            && (if s.open then s.got + s.buf == h.log[s.start..] else s.got + s.buf <= h.log[s.start..])
  {
    HistoryInv(ops);
    var h := After(ops);
    var s := h.subs[i];
    assert h.log[s.start..][..|s.got| + |s.buf|] == s.got + s.buf;
  }

  /** A channel is closed at most once and never opened again, never sent to once
      closed, and closed for good by Close. */
  lemma ClosedForGood(h: Hub, op: Op, i: nat)
    requires HubInv(h) && Enabled(h, op) && i < |h.subs| && !h.subs[i].open
    ensures var s, s' := h.subs[i], Apply(h, op).subs[i];
            && !s'.open && s'.got + s'.buf == s.got + s.buf && |s'.buf| <= |s.buf|
  {
    if op.Receive? && op.i == i {
      TakenKeeps(h.subs[i], h.log);
    }
  }

  /** One subscriber's buffer never changes what another gets: what an
      operation that is not its own does to subscriber i depends on i alone. */
  lemma Independent(h: Hub, g: Hub, op: Op, i: nat)
    requires Enabled(h, op) && Enabled(g, op) && i < |h.subs| && i < |g.subs|
    requires h.subs[i] == g.subs[i] && h.closed == g.closed
    ensures Apply(h, op).subs[i] == Apply(g, op).subs[i]
  {
  }

  /** A subscriber is dropped by Publish exactly when its buffer is full. */
  lemma DroppedIffFull(h: Hub, ev: Event, i: nat)
    requires i < |h.subs| && h.subs[i].open && !h.closed
    ensures var s, s' := h.subs[i], Apply(h, Publish(ev)).subs[i];
            && (s'.open <==> |s.buf| < s.cap)
            && (s'.open ==> s'.buf == s.buf + [ev]) && (!s'.open ==> s'.buf == s.buf) && s'.got == s.got
  {
  }
}
