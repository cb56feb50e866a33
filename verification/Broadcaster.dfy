/** The broadcaster as an object: channels with bounded buffers on the heap, a
    set of registered ones, loops over that set (daemon/state/broadcaster.go).
    Sending on a closed channel or closing it again would panic, so both are
    preconditions here. Every method refines the matching Hub operation. */
module Broadcaster {
  import opened Wrappers
  import opened Hub

  class Channel {
    const cap: nat
    var buf: seq<Event>
    var open: bool
    ghost var got: seq<Event>

    constructor (capacity: nat)
      ensures cap == capacity && buf == [] && got == [] && open
    {
      cap, buf, open := capacity, [], true;
      got := [];
    }

    /** select with a default branch */
    method TrySend(ev: Event) returns (sent: bool)
      requires open
      modifies `buf
      ensures sent <==> old(|buf|) < cap
      ensures buf == if sent then old(buf) + [ev] else old(buf)
    {
      sent := |buf| < cap;
      if sent {
        buf := buf + [ev];
      }
    }

    method Close()
      requires open
      modifies `open
      ensures !open
    {
      open := false;
    }
  }

  class Broadcaster {
    var subs: set<Channel>
    var closed: bool
    ghost var log: seq<Event>
    ghost var chans: seq<Channel>   // every channel ever handed out, in order
    ghost var starts: seq<nat>      // the log's length at each subscription

    ghost predicate Valid()
      reads this, chans
    {
      && |starts| == |chans|
      && (forall i, j :: 0 <= i < j < |chans| ==> chans[i] != chans[j])
      && (forall ch :: ch in subs ==> ch in chans)
      && (forall i :: 0 <= i < |chans| ==> (chans[i].open <==> chans[i] in subs))
      && (closed ==> subs == {})
      && HubInv(View())
    }

    ghost function SubOf(i: nat): Sub
      requires i < |chans| && |starts| == |chans|
      reads this, chans
    {
      Sub(chans[i].cap, starts[i], chans[i].got, chans[i].buf, chans[i].open)
    }

    ghost function View(): Hub
      requires |starts| == |chans|
      reads this, chans
    {
      Hub(seq(|chans|, (i: nat) requires i < |chans| && |starts| == |chans| reads this, chans => SubOf(i)), closed, log)
    }

    constructor ()
      ensures Valid() && View() == Empty()
    {
      subs, closed := {}, false;
      log, chans, starts := [], [], [];
    }

    /** On a closed broadcaster the channel comes back closed. */
    method Subscribe(buffer: int) returns (ch: Channel)
      requires Valid()
      modifies this
      ensures Valid() && fresh(ch) && chans == old(chans) + [ch]
      ensures ch.cap == (if buffer < 1 then 1 else buffer) && ch.buf == [] && (ch.open <==> !old(closed))
      ensures View() == Apply(old(View()), Op.Subscribe(buffer))
    {
      ghost var before := View();
      var capacity := buffer;
      if capacity < 1 {
        capacity := 1;
      }
      ch := new Channel(capacity);
      if closed {
        ch.Close();
      } else {
        subs := subs + {ch};
      }
      chans, starts := chans + [ch], starts + [|log|];
      ApplyKeepsInv(before, Op.Subscribe(buffer));
      assert View() == Apply(before, Op.Subscribe(buffer));
    }

    /** The idempotent cancel function of one subscription. */
    method Cancel(ch: Channel, ghost i: nat)
      requires Valid() && i < |chans| && chans[i] == ch
      modifies this, ch
      ensures Valid() && chans == old(chans)
      ensures !ch.open && ch.buf == old(ch.buf) && subs == old(subs) - {ch} && closed == old(closed)
      ensures View() == Apply(old(View()), Op.Cancel(i))
    {
      ghost var before := View();
      if ch in subs {
        subs := subs - {ch};
        ch.Close();
      }
      ApplyKeepsInv(before, Op.Cancel(i));
      assert View() == Apply(before, Op.Cancel(i));
    }

    /** A receive by the subscriber: the next buffered event, or None once the
        channel is closed and drained. */
    method Receive(ch: Channel, ghost i: nat) returns (ev: Option<Event>)
      requires Valid() && i < |chans| && chans[i] == ch && Ready(View(), i)
      modifies ch
      ensures Valid() && chans == old(chans)
      ensures View() == Apply(old(View()), Op.Receive(i))
      ensures ev == if old(ch.buf) != [] then Some(old(ch.buf)[0]) else None
      ensures ch.buf == (if old(ch.buf) != [] then old(ch.buf)[1..] else []) && ch.open == old(ch.open)
    {
      ghost var before := View();
      if ch.buf == [] {
        ev := None;
      } else {
        ev := Some(ch.buf[0]);
        ch.got := ch.got + [ch.buf[0]];
        ch.buf := ch.buf[1..];
      }
      ApplyKeepsInv(before, Op.Receive(i));
      assert View() == Apply(before, Op.Receive(i));
    }

    /** Offers the event to every registered channel, in any order, then removes
        and closes the full ones. */
    method Publish(ev: Event)
      requires Valid()
      modifies this, chans
      ensures Valid() && chans == old(chans)
      ensures forall i :: 0 <= i < |chans| ==>
                chans[i].buf == if old(chans[i].open && |chans[i].buf| < chans[i].cap) then old(chans[i].buf) + [ev]
                                else old(chans[i].buf)
      ensures forall i :: 0 <= i < |chans| ==> (chans[i].open <==> old(chans[i].open && |chans[i].buf| < chans[i].cap))
      ensures View() == Apply(old(View()), Op.Publish(ev))
    {
      if closed {
        return;
      }
      ghost var before := View();
      var dropped := Offer(ev);
      Drop(dropped);
      log := log + [ev];
      ApplyKeepsInv(before, Op.Publish(ev));
      assert View() == Apply(before, Op.Publish(ev));
    }

    /** The first loop of Publish. */
    method Offer(ev: Event) returns (dropped: set<Channel>)
      requires forall ch :: ch in subs ==> ch.open
      modifies subs`buf
      ensures dropped == set ch | ch in subs && old(|ch.buf|) >= ch.cap
      ensures forall ch :: ch in subs ==> ch.buf == if ch in dropped then old(ch.buf) else old(ch.buf) + [ev]
    {
      dropped := {};
      var rest := subs;
      while rest != {}
        invariant rest <= subs
        invariant dropped == set ch | ch in subs - rest && old(|ch.buf|) >= ch.cap
        invariant forall ch :: ch in rest ==> ch.buf == old(ch.buf)
        invariant forall ch :: ch in subs - rest ==> ch.buf == if ch in dropped then old(ch.buf) else old(ch.buf) + [ev]
        decreases |rest|
      {
        var ch := PickOne(rest);
        var sent := ch.TrySend(ev);
        if !sent {
          dropped := dropped + {ch};
        }
        rest := rest - {ch};
      }
    }

    /** The second loop of Publish. */
    method Drop(dropped: set<Channel>)
      requires dropped <= subs && forall ch :: ch in subs ==> ch.open
      modifies `subs, dropped`open
      ensures subs == old(subs) - dropped && forall ch :: ch in dropped ==> !ch.open
    {
      var rest := dropped;
      while rest != {}
        invariant rest <= dropped && subs == old(subs) - (dropped - rest)
        invariant forall ch :: ch in rest ==> ch.open
        invariant forall ch :: ch in dropped - rest ==> !ch.open
        decreases |rest|
      {
        var ch := PickOne(rest);
        subs := subs - {ch};
        ch.Close();
        rest := rest - {ch};
      }
    }

    method Close()
      requires Valid()
      modifies this, chans
      ensures Valid() && chans == old(chans) && closed
      ensures forall i :: 0 <= i < |chans| ==> !chans[i].open && chans[i].buf == old(chans[i].buf)
      ensures View() == Apply(old(View()), Op.Close)
    {
      if closed {
        return;
      }
      ghost var before := View();
      closed := true;
      var rest := subs;
      while rest != {}
        modifies subs`open
        invariant rest <= subs
        invariant forall ch :: ch in rest ==> ch.open
        invariant forall ch :: ch in subs - rest ==> !ch.open
        decreases |rest|
      {
        var ch := PickOne(rest);
        ch.Close();
        rest := rest - {ch};
      }
      subs := {};
      ApplyKeepsInv(before, Op.Close);
      assert View() == Apply(before, Op.Close);
    }
  }
}
