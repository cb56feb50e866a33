/** The event stream of one client (daemon/api/events.go, StreamEvents): it
    subscribes before it reads the snapshot, so that no change published after
    its store write can fall between the two. Store writes, publishers, other
    subscribers and the client interleave freely. */
module EventStream {
  import opened Wrappers
  import opened Hub

  const STREAM_BUFFER: int := 64

  /** `version` counts the store writes the snapshot contains; None is the empty
      snapshot sent when the read fails. */
  datatype Client =
    | Away
    | Subscribed(sub: nat)
    | Streaming(sub: nat, version: Option<nat>)

  /** `writes` counts the store writes so far. */
  datatype World = World(hub: Hub, writes: nat, client: Client)

  datatype Step =
    | Write                             // some goroutine changes the store
    | Announce(name: string, change: nat)  // and later publishes that change
    | Attach                            // the client subscribes
    | Snapshot(fails: bool)
    | Forward                           // the client receives
    | Other(op: Op)                     // any other use of the broadcaster, Close included

  predicate Allowed(w: World, s: Step) {
    match s
    case Write => true
    case Announce(_, change) => change < w.writes
    case Attach => w.client.Away?
    case Snapshot(_) => w.client.Subscribed?
    case Forward => w.client.Streaming? && Ready(w.hub, w.client.sub)
    case Other(op) =>
      && !op.Publish? && Enabled(w.hub, op)
      && ((op.Cancel? || op.Receive?) && !w.client.Away? ==> op.i != w.client.sub)
  }

  function Next(w: World, s: Step): World
    requires Allowed(w, s)
  {
    match s
    case Write => w.(writes := w.writes + 1)
    case Announce(name, change) => w.(hub := Apply(w.hub, Publish(Event(name, change))))
    case Attach => w.(hub := Apply(w.hub, Op.Subscribe(STREAM_BUFFER)), client := Subscribed(|w.hub.subs|))
    case Snapshot(fails) => w.(client := Streaming(w.client.sub, if fails then None else Some(w.writes)))
    case Forward => w.(hub := Apply(w.hub, Op.Receive(w.client.sub)))
    case Other(op) => w.(hub := Apply(w.hub, op))
  }

  ghost predicate Run(ws: seq<World>, steps: seq<Step>) {
    && |ws| == |steps| + 1 && ws[0].hub == Empty() && ws[0].client.Away?
    && forall i :: 0 <= i < |steps| ==> Allowed(ws[i], steps[i]) && ws[i + 1] == Next(ws[i], steps[i])
  }

  /** Events follow their writes; what was published before the client
      subscribed had been written before its snapshot was read. */
  ghost predicate Inv(w: World) {
    && HubInv(w.hub)
    && (forall q :: 0 <= q < |w.hub.log| ==> w.hub.log[q].change < w.writes)
    && (!w.client.Away? ==> w.client.sub < |w.hub.subs|)
    && (w.client.Streaming? && w.client.version.Some? ==>
          forall q :: 0 <= q < w.hub.subs[w.client.sub].start ==> w.hub.log[q].change < w.client.version.value)
  }

  /** The log only grows, and a subscription keeps its start. */
  lemma HubGrows(h: Hub, op: Op)
    requires Enabled(h, op)
    ensures h.log <= Apply(h, op).log && |h.subs| <= |Apply(h, op).subs|
    ensures forall i :: 0 <= i < |h.subs| ==> Apply(h, op).subs[i].start == h.subs[i].start
    ensures !op.Publish? ==> Apply(h, op).log == h.log
  {
  }

  lemma StepKeepsInv(w: World, s: Step)
    requires Inv(w) && Allowed(w, s)
    ensures Inv(Next(w, s))
  {
    match s
    case Announce(name, change) => HubStep(w, Publish(Event(name, change)));
    case Attach => HubStep(w, Op.Subscribe(STREAM_BUFFER));
    case Forward => HubStep(w, Op.Receive(w.client.sub));
    case Other(op) => HubStep(w, op);
    case _ =>
  }

  lemma HubStep(w: World, op: Op)
    requires Inv(w) && Enabled(w.hub, op) && (op.Publish? ==> op.ev.change < w.writes)
    ensures Inv(w.(hub := Apply(w.hub, op)))
  {
    ApplyKeepsInv(w.hub, op);
    HubGrows(w.hub, op);
    assert forall i :: 0 <= i < |w.hub.subs| ==> w.hub.subs[i].start <= |w.hub.log|;
  }

  lemma {:induction false} RunKeepsInv(ws: seq<World>, steps: seq<Step>, n: nat)
    requires Run(ws, steps) && n < |ws|
    ensures Inv(ws[n])
  {
    if n > 0 {
      RunKeepsInv(ws, steps, n - 1);
      StepKeepsInv(ws[n - 1], steps[n - 1]);
    }
  }

  /** The client is streaming and has not been dropped. */
  predicate Live(w: World) {
    w.client.Streaming? && w.client.sub < |w.hub.subs| && w.hub.subs[w.client.sub].open
  }

  /** The change that the q-th published event reports is in the client's snapshot. */
  predicate InSnapshot(w: World, q: nat)
    requires Live(w) && q < |w.hub.log|
  {
    w.client.version.Some? && w.hub.log[q].change < w.client.version.value
  }

  /** The q-th published event is in the client's stream, forwarded or next to be. */
  predicate InStream(w: World, q: nat)
    requires Live(w) && q < |w.hub.log|
  {
    var s := w.hub.subs[w.client.sub];
    s.start <= q < s.start + |s.got + s.buf| && (s.got + s.buf)[q - s.start] == w.hub.log[q]
  }

  predicate Covered(w: World, q: nat)
    requires Live(w) && q < |w.hub.log|
  {
    InSnapshot(w, q) || InStream(w, q)
  }

  /** A live client has an event in its stream exactly if it was published after
      the client subscribed. */
  lemma StreamedExactly(ws: seq<World>, steps: seq<Step>, n: nat, q: nat)
    requires Run(ws, steps) && n < |ws| && Live(ws[n]) && q < |ws[n].hub.log|
    ensures InStream(ws[n], q) <==> ws[n].hub.subs[ws[n].client.sub].start <= q
  {
    RunKeepsInv(ws, steps, n);
  }

  /** In every run, a live client misses exactly the events published before it
      subscribed, and those only if its snapshot read failed. */
  lemma MissedExactly(ws: seq<World>, steps: seq<Step>, n: nat, q: nat)
    requires Run(ws, steps) && n < |ws| && Live(ws[n]) && q < |ws[n].hub.log|
    ensures !Covered(ws[n], q) <==>
            ws[n].client.version.None? && q < ws[n].hub.subs[ws[n].client.sub].start
  {
    RunKeepsInv(ws, steps, n);
    StreamedExactly(ws, steps, n, q);
  }

  /** So the promise that a client which was never dropped sees every published
      change holds exactly if the snapshot read worked or nothing had been
      published when the client came. */
  lemma NothingIsMissedExactly(ws: seq<World>, steps: seq<Step>, n: nat)
    requires Run(ws, steps) && n < |ws| && Live(ws[n])
    ensures (forall q: nat :: q < |ws[n].hub.log| ==> Covered(ws[n], q)) <==>
            ws[n].client.version.Some? || ws[n].hub.subs[ws[n].client.sub].start == 0
  {
    RunKeepsInv(ws, steps, n);
    forall q: nat | q < |ws[n].hub.log|
      ensures !Covered(ws[n], q) <==> ws[n].client.version.None? && q < ws[n].hub.subs[ws[n].client.sub].start
    {
      MissedExactly(ws, steps, n, q);
    }
    if ws[n].client.version.None? && ws[n].hub.subs[ws[n].client.sub].start > 0 {
      assert !Covered(ws[n], 0);
    }
  }

  /** What a client gets, dropped or not, is the log from its subscription on
      without a gap, so a drop only cuts the end off. */
  lemma StreamIsGapless(ws: seq<World>, steps: seq<Step>, n: nat)
    requires Run(ws, steps) && n < |ws| && !ws[n].client.Away?
    ensures var w := ws[n];
            && w.client.sub < |w.hub.subs|
            && var s := w.hub.subs[w.client.sub];
            s.start <= |w.hub.log| && s.got + s.buf <= w.hub.log[s.start..]
  {
    RunKeepsInv(ws, steps, n);
    var w := ws[n];
    var s := w.hub.subs[w.client.sub];
    assert w.hub.log[s.start..][..|s.got| + |s.buf|] == s.got + s.buf;
  }

  /** An instance: with a failed snapshot read, a change published just before
      the client came is nowhere. */
  lemma FailedSnapshotMisses(name: string) returns (ws: seq<World>, steps: seq<Step>)
    ensures Run(ws, steps) && |ws| == 5
    ensures var w := ws[4];
            && w.client == Streaming(0, None) && w.hub.log == [Event(name, 0)]
            && Live(w) && !Covered(w, 0)
  {
    var w0 := World(Empty(), 0, Away);
    var w1 := Next(w0, Write);
    var w2 := Next(w1, Announce(name, 0));
    assert w2.hub.log == [Event(name, 0)] && w2.hub.subs == [];
    var w3 := Next(w2, Attach);
    assert w3.hub.subs == [Sub(64, 1, [], [], true)];
    var w4 := Next(w3, Snapshot(true));
    assert w4.hub.subs[0].start == 1;
    ws, steps := [w0, w1, w2, w3, w4], [Write, Announce(name, 0), Attach, Snapshot(true)];
  }

  /** The order of the two calls matters: had the client read its snapshot before
      subscribing, a write and its event in between would be in neither. */
  lemma SnapshotFirstWouldMiss(h: Hub, version: nat, name: string)
    requires HubInv(h) && !h.closed
    ensures var h1 := Apply(h, Publish(Event(name, version)));
            var h2 := Apply(h1, Op.Subscribe(STREAM_BUFFER));
            && h2.log == h.log + [Event(name, version)] && h2.log[|h.log|].change >= version
            && h2.subs[|h.subs|].start == |h2.log| && h2.subs[|h.subs|].got + h2.subs[|h.subs|].buf == []
  {
    var h1 := Apply(h, Publish(Event(name, version)));
    assert |h1.subs| == |h.subs|;
  }
}
