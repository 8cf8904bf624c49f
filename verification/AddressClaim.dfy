/** Claiming a source address on the bus (ISO 11783-5): the sender that holds ordinary traffic behind its
    claim, and the bus thread that defends the address or moves.

    Times are the monotonic clock's. `trace` is what has reached the bus. */
module AddressClaim {
  import opened Options

  const ADDRESS_CLAIM := 60928
  const CLAIM_SETTLE_S := 0.25
  const CLAIM_RETRY_S := 1.0
  const NULL_ADDRESS := 254

  /** A frame on the bus, or our own change of address. `ordinary`: sent with no source override, and no
      address claim. */
  datatype BusEvent = Frame(t: real, src: int, pgn: int, ordinary: bool) | Moved(t: real, sa: int)

  ghost predicate ClaimAt(trace: seq<BusEvent>, i: int, sa: int) {
    0 <= i < |trace| && trace[i].Frame? && trace[i].pgn == 60928 && trace[i].src == sa
  }

  ghost predicate NoMoveAfter(trace: seq<BusEvent>, i: int, upTo: int) {
    forall k :: 0 <= i < k < upTo <= |trace| ==> !trace[k].Moved?
  }

  /** A claim from `sa` is on the bus at least `settle` before `t`, and we have not moved since. */
  ghost predicate ClaimedBefore(trace: seq<BusEvent>, upTo: int, sa: int, t: real) {
    exists i :: 0 <= i < upTo <= |trace| && ClaimAt(trace, i, sa) && trace[i].t + 0.25 <= t
                && NoMoveAfter(trace, i, upTo)
  }

  /** Every ordinary frame is covered by such a claim. */
  ghost predicate Announced(trace: seq<BusEvent>) {
    forall j :: 0 <= j < |trace| && trace[j].Frame? && trace[j].ordinary ==>
      ClaimedBefore(trace, j, trace[j].src, trace[j].t)
  }

  lemma AnnouncedAppend(trace: seq<BusEvent>, e: BusEvent)
    requires Announced(trace)
    requires e.Frame? && e.ordinary ==> ClaimedBefore(trace, |trace|, e.src, e.t)
    ensures Announced(trace + [e])
  {
    var more := trace + [e];
    forall j | 0 <= j < |more| && more[j].Frame? && more[j].ordinary
      ensures ClaimedBefore(more, j, more[j].src, more[j].t)
    {
      assert j < |trace| ==> more[j] == trace[j];
      assert ClaimedBefore(trace, j, more[j].src, more[j].t);
      var i :| 0 <= i < j <= |trace| && ClaimAt(trace, i, more[j].src) && trace[i].t + 0.25 <= more[j].t
               && NoMoveAfter(trace, i, j);
      assert ClaimAt(more, i, more[j].src) && NoMoveAfter(more, i, j);
    }
  }

  /** A try to get the pending claim out, or a change of address, after which the next try need not wait. */
  datatype Attempt = Tried(t: real, force: bool) | Reset

  /** A try that is not forced comes at least CLAIM_RETRY_S after the one before it. */
  ghost predicate Spaced(attempts: seq<Attempt>) {
    forall k :: 1 <= k < |attempts| && attempts[k].Tried? && !attempts[k].force && attempts[k - 1].Tried? ==>
      attempts[k - 1].t + 1.0 <= attempts[k].t
  }

  function LastTry(attempts: seq<Attempt>): Option<real> {
    if attempts == [] || attempts[|attempts| - 1].Reset? then None else Some(attempts[|attempts| - 1].t)
  }

  /** From `from` on the trace holds `n` frames of this message. */
  ghost predicate Frames(trace: seq<BusEvent>, from: nat, n: nat, src: int, pgn: int, ordinary: bool) {
    && |trace| == from + n
    && forall i :: from <= i < |trace| ==>
         trace[i].Frame? && trace[i].src == src && trace[i].pgn == pgn && trace[i].ordinary == ordinary
  }

  datatype SendResult = Count(n: nat) | Settling(left: real)

  class Sender {
    var sa: int
    var claimPending: bool
    var claimTriedAt: Option<real>
    var settleUntil: Option<real>           // None: minus infinity
    var sendErrors: nat
    var framesSent: nat
    var now: real
    ghost var trace: seq<BusEvent>
    ghost var attempts: seq<Attempt>

    ghost predicate Valid()
      reads this
    {
      && Announced(trace)
      && (forall i :: 0 <= i < |trace| ==> trace[i].t <= now)
      && Spaced(attempts) && claimTriedAt == LastTry(attempts)
      && (!claimPending ==> settleUntil.Some? && ClaimedBefore(trace, |trace|, sa, settleUntil.value))
    }

    /** Starts with the claim pending: nothing ordinary can go out before it. */
    constructor (sa: int)
      ensures Valid() && this.sa == sa && claimPending && trace == [] && sendErrors == framesSent == 0
    {
      this.sa, claimPending, claimTriedAt, settleUntil := sa, true, None, None;
      sendErrors, framesSent, now, trace, attempts := 0, 0, 0.0, [], [];
    }

    method Tick()
      modifies this`now
      ensures old(now) <= now
    {
      var d: real := *;
      if d > 0.0 {
        now := now + d;
      }
    }

    /** Put up to `n` frames of one message on the bus; an error can stop it anywhere, but not when calm. */
    method Emit(pgn: int, src: int, ordinary: bool, n: nat, calm: bool) returns (ok: bool)
      requires Valid()
      requires ordinary ==> !claimPending && src == sa && settleUntil.value <= now
      modifies this`now, this`trace, this`sendErrors, this`framesSent
      ensures Valid() && old(now) <= now && old(trace) <= trace
      ensures forall i :: |old(trace)| <= i < |trace| ==> trace[i].Frame? && trace[i].src == src && trace[i].pgn == pgn
                                                          && trace[i].ordinary == ordinary && old(now) <= trace[i].t
      ensures if ok then |trace| == |old(trace)| + n else |trace| < |old(trace)| + n
      ensures calm ==> ok
      ensures if ok then framesSent == old(framesSent) + n && sendErrors == old(sendErrors)
              else framesSent == old(framesSent) && sendErrors == old(sendErrors) + 1
    {
      ok := true;
      for i := 0 to n
        invariant Valid() && old(now) <= now && old(trace) <= trace && |trace| == |old(trace)| + i
        invariant framesSent == old(framesSent) && sendErrors == old(sendErrors)
        invariant forall j :: |old(trace)| <= j < |trace| ==>
                  trace[j].Frame? && trace[j].src == src && trace[j].pgn == pgn
                                                              && trace[j].ordinary == ordinary && old(now) <= trace[j].t
      {
        Tick();
        var fails: bool := *;
        if fails && !calm {
          sendErrors := sendErrors + 1;
          return false;
        }
        Log(Frame(now, src, pgn, ordinary));
      }
      framesSent := framesSent + n;
    }

    ghost method Log(e: BusEvent)
      requires Valid() && e.Frame? && e.t == now
      requires e.ordinary ==> !claimPending && e.src == sa && settleUntil.value <= now
      modifies this`trace
      ensures Valid() && trace == old(trace) + [e]
    {
      if !claimPending {
        StillClaimed(trace, e, sa, settleUntil.value);
      }
      if e.ordinary {
        LaterStillClaimed(trace, sa, settleUntil.value, now);
      }
      AnnouncedAppend(trace, e);
      trace := trace + [e];
    }

    lemma StillClaimed(was: seq<BusEvent>, e: BusEvent, a: int, t: real)
      requires ClaimedBefore(was, |was|, a, t) && e.Frame?
      ensures ClaimedBefore(was + [e], |was| + 1, a, t)
    {
      var i :| 0 <= i < |was| && ClaimAt(was, i, a) && was[i].t + 0.25 <= t && NoMoveAfter(was, i, |was|);
      var more := was + [e];
      assert ClaimAt(more, i, a) && NoMoveAfter(more, i, |more|);
    }

    lemma LaterStillClaimed(was: seq<BusEvent>, a: int, t: real, u: real)
      requires ClaimedBefore(was, |was|, a, t) && t <= u
      ensures ClaimedBefore(was, |was|, a, u)
    {
    }

    /** `_try_claim_locked`: the pending claim, at most once per CLAIM_RETRY_S unless forced (Valid keeps
        the tries Spaced). True when none is pending. A claim goes out only with a try. */
    method TryClaim(force: bool, calm: bool) returns (clear: bool)
      requires Valid()
      modifies this
      ensures Valid() && sa == old(sa) && old(now) <= now && old(trace) <= trace && clear == !claimPending
      ensures old(!claimPending) ==> clear && trace == old(trace) && settleUntil == old(settleUntil)
      // the claim, exactly when one was pending and is no longer; ordinary traffic waits from then on
      ensures if old(claimPending) && clear then Frames(trace, |old(trace)|, 1, sa, 60928, false)
              else trace == old(trace)
      ensures old(claimPending) && clear ==> settleUntil == Some(now + 0.25)
      ensures attempts == old(attempts)
                || (claimTriedAt.Some? && attempts == old(attempts) + [Tried(claimTriedAt.value, force)]
                    && claimTriedAt.value >= old(now))
      ensures trace != old(trace) ==>
              attempts != old(attempts) && claimTriedAt.Some? && trace[|old(trace)|].t >= claimTriedAt.value
      // and it is tried whenever it may be
      ensures old(claimPending) && attempts == old(attempts) ==>
                !force && old(claimTriedAt).Some? && now - old(claimTriedAt).value < 1.0
      ensures calm && attempts != old(attempts) ==> clear
      ensures framesSent == old(framesSent) + (if old(claimPending) && clear then 1 else 0)
      ensures sendErrors == old(sendErrors) + (if attempts != old(attempts) && !clear then 1 else 0)
    {
      if !claimPending {
        return true;
      }
      Tick();
      if !force && claimTriedAt.Some? && now - claimTriedAt.value < CLAIM_RETRY_S {
        return false;
      }
      claimTriedAt := Some(now);
      attempts := attempts + [Tried(now, force)];
      var ok := Emit(ADDRESS_CLAIM, sa, false, 1, calm);
      if !ok {
        return false;
      }
      ghost var i := |trace| - 1;
      Tick();
      assert ClaimAt(trace, i, sa) && NoMoveAfter(trace, i, |trace|);
      claimPending, settleUntil := false, Some(now + CLAIM_SETTLE_S);
      clear := true;
    }

    /** The claim is out, or could not be sent for now. */
    method Ready(calm: bool) returns (clear: bool, ghost said: nat)
      requires Valid()
      modifies this
      ensures Valid() && sa == old(sa) && old(now) <= now && old(trace) <= trace && clear == !claimPending
      ensures said == (if old(claimPending) && clear then 1 else 0)
      ensures Frames(trace, |old(trace)|, said, sa, 60928, false)
      ensures framesSent == old(framesSent) + said && old(sendErrors) <= sendErrors
      ensures clear ==> sendErrors == old(sendErrors)
      ensures old(!claimPending) ==> clear && settleUntil == old(settleUntil)
      ensures calm && (old(claimTriedAt).None? || old(now) - old(claimTriedAt).value >= 1.0) ==> clear
    {
      clear := TryClaim(false, calm);
      said := if old(claimPending) && clear then 1 else 0;
    }

    /** `_send_counted`, with the lock held. `src` overrides the source address for this message. First the
        claim, if one is pending; then the message, or, inside the settle, how long an ordinary one waits. */
    method SendCounted(pgn: int, n: nat, src: Option<int>, calm: bool) returns (r: SendResult, ghost said: nat)
      requires Valid()
      modifies this
      ensures Valid() && sa == old(sa) && old(now) <= now && old(trace) <= trace
      ensures src.None? && sa > 253 ==>
                r == Count(0) && said == 0 && trace == old(trace) && sendErrors == old(sendErrors) + 1
      ensures said <= 1 && (old(!claimPending) ==> said == 0 && settleUntil == old(settleUntil) && !claimPending)
      ensures r.Settling? ==>
                && src.None? && pgn != 60928 && r.left > 0.0 && !claimPending
                && settleUntil == Some(now + r.left) && Frames(trace, |old(trace)|, said, sa, 60928, false)
      ensures r.Count? ==> r.n == 0 || r.n == n
      // each frame of a message sent is counted, and each message that is not as an error
      ensures framesSent == old(framesSent) + said + (if r.Count? then r.n else 0)
      ensures r.Settling? || (r == Count(n) && n > 0) ==> sendErrors == old(sendErrors)
      ensures r == Count(0) && n > 0 ==> sendErrors > old(sendErrors)
      ensures r == Count(0) && n > 0 && old(!claimPending) ==> sendErrors == old(sendErrors) + 1
      ensures r == Count(n) && n > 0 ==>
                && |trace| == |old(trace)| + said + n
                && Frames(trace[..|old(trace)| + said], |old(trace)|, said, sa, 60928, false)
                && Frames(trace, |old(trace)| + said, n, if src.None? then sa else src.value, pgn,
                          src.None? && pgn != 60928)
      // when calm it goes, or waits for the settle alone
      ensures calm && (src.Some? || sa <= 253)
                && (old(!claimPending) || old(claimTriedAt).None? || old(now) - old(claimTriedAt).value >= 1.0) ==>
                if src.Some? || pgn == 60928 || r.Count? then r == Count(n) else r.Settling?
      ensures calm && src.None? && pgn != 60928 && sa <= 253 && old(!claimPending && settleUntil.value <= now) ==>
                r == Count(n)
    {
      said := 0;
      if src.None? && sa > 253 {
        sendErrors := sendErrors + 1;
        return Count(0), 0;
      }
      var clear;
      clear, said := Ready(calm);
      if !clear {
        sendErrors := sendErrors + 1;
        return Count(0), said;
      }
      if src.None? && pgn != ADDRESS_CLAIM {
        Tick();
        if settleUntil.value - now > 0.0 {
          return Settling(settleUntil.value - now), said;
        }
      }
      ghost var before := trace;
      var from := if src.None? then sa else src.value;
      var ok := Emit(pgn, from, src.None? && pgn != ADDRESS_CLAIM, n, calm);
      assert trace[..|before|] == before;
      r := Count(if ok then n else 0);
    }

    /** Another thread's turn, between two holds of the lock. */
    method Others()
      requires Valid()
      modifies this
      ensures Valid() && old(now) <= now && old(trace) <= trace
    {
      var steps :| 0 <= steps;
      for i := 0 to steps
        invariant Valid() && old(now) <= now && old(trace) <= trace
      {
        Tick();
        if * {
          var to: int := *;
          var _ := ChangeAddress(to, false);
        } else if * {
          var _ := TryClaim(false, false);
        } else {
          var pgn: int, n, src: Option<int> := *, 1, *;
          var _, _ := SendCounted(pgn, n, src, false);
        }
      }
    }

    /** `send`: an ordinary message inside the settle waits outside the lock and then goes. The wait can
        be renewed for as long as other threads keep moving the address; `patience` ends it here. When calm
        no other thread runs, and no send fails. */
    method Send(pgn: int, n: nat, src: Option<int>, patience: nat, calm: bool) returns (r: SendResult)
      requires Valid()
      modifies this
      ensures Valid() && old(now) <= now && old(trace) <= trace
      ensures calm ==> sa == old(sa)
      // held, not dropped: with the address claimed it goes, from that address
      ensures calm && n > 0 && patience >= 2 && old(!claimPending) && (src.Some? || sa <= 253) ==>
                && r == Count(n) && !claimPending
                && Frames(trace, |old(trace)|, n, if src.None? then sa else src.value, pgn, src.None? && pgn != 60928)
    {
      r := Count(0);
      for i := 0 to patience
        invariant Valid() && old(now) <= now && old(trace) <= trace
        invariant calm ==> sa == old(sa)
        invariant calm && old(!claimPending) ==> !claimPending && trace == old(trace)
        invariant calm && old(!claimPending) && i > 0 && src.None? && pgn != 60928 ==> settleUntil.value <= now
        invariant i > 0 ==> src.None? && pgn != 60928
        invariant calm && old(!claimPending) && sa <= 253 ==> i <= 1
      {
        ghost var said;
        r, said := SendCounted(pgn, n, src, calm);
        if r.Count? {
          assert trace[..|old(trace)|] == old(trace);
          return;
        }
        now := now + r.left;                                // sleep
        if !calm {
          Others();
        }
      }
    }

    /** `change_address`: the move and the claim from the new address in one hold of the lock. */
    method ChangeAddress(to: int, calm: bool) returns (clear: bool)
      requires Valid()
      modifies this
      ensures Valid() && sa == to && old(now) <= now && old(trace) <= trace && clear == !claimPending
      ensures |trace| > |old(trace)| && trace[|old(trace)|].Moved? && trace[|old(trace)|].sa == to
      ensures Frames(trace, |old(trace)| + 1, if clear then 1 else 0, to, 60928, false)
      ensures calm ==> clear
    {
      Tick();
      AnnouncedAppend(trace, BusEvent.Moved(now, to));
      trace := trace + [BusEvent.Moved(now, to)];
      sa, claimPending, claimTriedAt := to, true, None;
      attempts := attempts + [Reset];
      clear := TryClaim(true, calm);
    }
  }

  // ---- the bus thread ------------------------------------------------------------------------------------

  datatype Peer = Peer(last: real, name: Option<nat>)

  /** A received frame: who sent it, to whom, and what it says. */
  datatype Content = Request(pgn: int) | Claim(name: nat) | OtherContent
  datatype Message = Message(src: int, dest: int, content: Content)

  const FIRST_FREE := 128
  const PAST_FREE := 248

  class BusThread {
    const sender: Sender
    const name: nat
    var peers: map<int, Peer>
    var conflicts: nat

    constructor (sender: Sender, name: nat)
      ensures this.sender == sender && this.name == name && peers == map[] && conflicts == 0
    {
      this.sender, this.name := sender, name;
      peers, conflicts := map[], 0;
    }

    /** The first address of the self-configurable range that no peer uses; 254 when there is none. */
    method FreeAddress() returns (a: int)
      ensures a == 254 || (128 <= a <= 247 && a !in peers)
      ensures forall b :: 128 <= b < (if a == 254 then 248 else a) ==> b in peers
    {
      a := FIRST_FREE;
      while a < PAST_FREE
        invariant 128 <= a <= 248 && forall b :: 128 <= b < a ==> b in peers
      {
        if a !in peers {
          return;
        }
        a := a + 1;
      }
      a := NULL_ADDRESS;
    }

    /** Who has been heard, and the NAME each last claimed with. */
    method Note(msg: Message, now: real, me: int)
      modifies this`peers
      ensures old(peers.Keys) <= peers.Keys <= old(peers.Keys) + {msg.src}
      ensures forall p :: p in old(peers) && p != msg.src ==> peers[p] == old(peers)[p]
      ensures msg.src == 254 || (msg.src == me && !msg.content.Claim?) ==> peers == old(peers)
      ensures msg.src != 254 && (msg.src != me || msg.content.Claim?) ==>
                && msg.src in peers && peers[msg.src].last == now
                && (msg.content.Claim? ==> peers[msg.src].name == Some(msg.content.name))
                && (!msg.content.Claim? ==>
                    peers[msg.src].name == if msg.src in old(peers) then old(peers)[msg.src].name else None)
    {
      if msg.src != me && msg.src != NULL_ADDRESS {
        peers := peers[msg.src := Peer(now, if msg.src in peers then peers[msg.src].name else None)];
      }
      if msg.content.Claim? && msg.src != NULL_ADDRESS {
        peers := peers[msg.src := Peer(now, Some(msg.content.name))];
      }
    }

    /** One received frame. A lost contest always ends at an address no peer is known to use, the one just
        lost included, or silences the sender; one that is won is answered by claiming again. */
    method Handle(msg: Message, now: real, calm: bool)
      requires sender.Valid()
      modifies this, sender
      ensures sender.Valid() && old(sender.trace) <= sender.trace
      ensures old(peers.Keys) <= peers.Keys <= old(peers.Keys) + {msg.src}
      ensures msg.content.Claim? && msg.src != 254 ==>
                msg.src in peers && peers[msg.src] == Peer(now, Some(msg.content.name))
      ensures conflicts == old(conflicts) + if Contested(msg, old(sender.sa)) then 1 else 0
      // lost: to the first free address, or to 254 when there is none
      ensures var me, trace := old(sender.sa), old(sender.trace);
        Contested(msg, me) && msg.content.name < name ==>
          && (sender.sa == 254 || (128 <= sender.sa <= 247 && sender.sa !in peers))
          && (forall b :: 128 <= b < (if sender.sa == 254 then 248 else sender.sa) ==> b in peers)
          && (me == 254 || me in peers)
          && |sender.trace| > |trace| && sender.trace[|trace|].Moved? && sender.trace[|trace|].sa == sender.sa
          && Frames(sender.trace, |trace| + 1, if sender.claimPending then 0 else 1, sender.sa, 60928, false)
          && (calm ==> !sender.claimPending)
      // won: defended from where we are
      ensures var me, trace := old(sender.sa), old(sender.trace);
        Contested(msg, me) && msg.content.name > name ==>
          && sender.sa == me
          && (calm && me <= 253 && old(!sender.claimPending) ==> Frames(sender.trace, |trace|, 1, me, 60928, false))
      // an equal NAME is our own claim
      ensures msg.content.Claim? && !Contested(msg, old(sender.sa)) ==>
                sender.sa == old(sender.sa) && sender.trace == old(sender.trace)
      ensures msg.content.OtherContent? ==> sender.sa == old(sender.sa) && sender.trace == old(sender.trace)
      // a request, to us or to all
      ensures var me, trace := old(sender.sa), old(sender.trace);
        msg.content.Request? && calm && old(!sender.claimPending) && me <= 253 ==>
          var reply := if msg.dest == me || msg.dest == 255
                       then Reply(msg.content.pgn, msg.dest == me && msg.src != me) else (0, 0);
          Frames(sender.trace, |trace|, reply.1, me, reply.0, reply.0 != 60928)
      ensures msg.content.Request? && msg.dest != old(sender.sa) && msg.dest != 255 ==>
                sender.trace == old(sender.trace)
    {
      var me := sender.sa;
      Note(msg, now, me);
      match msg.content
      case Request(pgn) =>
        if msg.dest == me || msg.dest == 0xFF {
          Answer(pgn, msg.src, msg.dest == me, calm);
        }
      case Claim(theirs) =>
        if msg.src == me && theirs != name {
          conflicts := conflicts + 1;
          if name < theirs {
            var _, _ := sender.SendCounted(ADDRESS_CLAIM, 1, None, calm);      // defend
          } else {
            var to := FreeAddress();
            var _ := sender.ChangeAddress(to, calm);
          }
        }
      case OtherContent =>
    }

    /** Somebody else claims our address. */
    predicate Contested(msg: Message, me: int) {
      msg.src == me && msg.content.Claim? && msg.content.name != name
    }

    /** What is sent for a request, and in how many frames. */
    static function Reply(pgn: int, refuse: bool): (int, nat) {
      if pgn == 60928 then (60928, 1)
      else if pgn == 126996 then (126996, 20)
      else if pgn == 126464 then (126464, 6)
      else if pgn == 126993 then (126993, 1)
      else if refuse then (59392, 1)
      else (0, 0)
    }

    /** Requests for what we send are answered; another one sent to us directly is refused. */
    method Answer(pgn: int, requester: int, directed: bool, calm: bool)
      requires sender.Valid()
      modifies sender
      ensures sender.Valid() && old(sender.trace) <= sender.trace
      ensures calm && old(!sender.claimPending) && old(sender.sa) <= 253 ==>
                var reply := Reply(pgn, directed && requester != old(sender.sa));
                && sender.sa == old(sender.sa)
                && Frames(sender.trace, |old(sender.trace)|, reply.1, sender.sa, reply.0, reply.0 != 60928)
    {
      if pgn == ADDRESS_CLAIM {
        var _, _ := sender.SendCounted(ADDRESS_CLAIM, 1, None, calm);
      } else if pgn == 126996 {
        var _ := sender.Send(126996, 20, None, 2, calm);
      } else if pgn == 126464 {
        var _ := sender.Send(126464, 4, None, 2, calm);
        var _ := sender.Send(126464, 2, None, 2, calm);
      } else if pgn == 126993 {
        var _ := sender.Send(126993, 1, None, 2, calm);
      } else if directed && requester != sender.sa {
        var _ := sender.Send(59392, 1, None, 2, calm);
      }
    }
  }
}
