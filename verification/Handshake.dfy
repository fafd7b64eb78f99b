/** The loops that dial and answer over a lossy network, run by one phone at a time. */
module Handshake {
  import opened Results
  import opened Bytes

  const CONNECT: byte := 0x80
  const ACCEPT: byte := 0x40
  const RESPONSES: nat := 100

  type Address = a: seq<byte> | |a| == 4 witness [0, 0, 0, 0]

  function ConnectPacket(target: Address): seq<byte>
  {
    [CONNECT] + target
  }

  function AcceptPacket(target: Address): seq<byte>
  {
    [ACCEPT] + target
  }

  datatype Datagram = Datagram(from: Address, to: Address, bytes: seq<byte>)

  /** What one round of waiting brings: nothing in time, an error, or a packet and the address it came from. */
  datatype Arrival = Nothing | Broken | Packet(bytes: seq<byte>, from: Address)

  predicate Brings(a: Arrival, bytes: seq<byte>)
  {
    a.Packet? && a.bytes == bytes
  }

  /** A Connect packet is 0x80, an Accept packet 0x40, and then the four bytes of the address; no other packet is either. */
  lemma PacketForm(a: Arrival, target: Address)
    ensures Brings(a, ConnectPacket(target)) <==>
            a.Packet? && |a.bytes| == 5 && a.bytes[0] == 0x80 && a.bytes[1..] == target
    ensures Brings(a, AcceptPacket(target)) <==>
            a.Packet? && |a.bytes| == 5 && a.bytes[0] == 0x40 && a.bytes[1..] == target
    ensures |ConnectPacket(target)| == |AcceptPacket(target)| == 5
    ensures ConnectPacket(target)[0] == 0x80 && AcceptPacket(target)[0] == 0x40
    ensures ConnectPacket(target)[1..] == AcceptPacket(target)[1..] == target
  {
    if a.Packet? && |a.bytes| == 5 {
      assert a.bytes == [a.bytes[0]] + a.bytes[1..];
    }
  }

  /** A packet is for one phone, and of one kind. */
  lemma PacketsDiffer(a: Address, b: Address)
    ensures ConnectPacket(a) != AcceptPacket(b)
    ensures a != b ==> ConnectPacket(a) != ConnectPacket(b) && AcceptPacket(a) != AcceptPacket(b)
  {
    PacketForm(Nothing, a);
    PacketForm(Nothing, b);
  }

  /** How a loop that waits for Connect packets to this address has ended, packet by packet. */
  lemma AwaitedConnect(arrivals: nat -> Arrival, rounds: nat, target: Address, tries: nat, strays: nat, arrived: bool)
    requires EndsAfter(arrivals, rounds, ConnectPacket(target), tries, strays, arrived, false)
    ensures forall i :: 0 <= i < rounds - (if arrived then 1 else 0) ==>
      !(arrivals(i).Packet? && |arrivals(i).bytes| == 5 && arrivals(i).bytes[0] == 0x80 && arrivals(i).bytes[1..] == target)
    ensures arrived ==>
      && rounds > 0 && arrivals(rounds - 1).Packet? && |arrivals(rounds - 1).bytes| == 5
      && arrivals(rounds - 1).bytes[0] == 0x80 && arrivals(rounds - 1).bytes[1..] == target
    ensures !arrived ==> Quiet(arrivals, rounds) == tries || rounds - Quiet(arrivals, rounds) == strays
  {
    forall i | 0 <= i < rounds
      ensures Brings(arrivals(i), ConnectPacket(target)) <==>
              && arrivals(i).Packet? && |arrivals(i).bytes| == 5
              && arrivals(i).bytes[0] == 0x80 && arrivals(i).bytes[1..] == target
    {
      PacketForm(arrivals(i), target);
    }
  }

  lemma AwaitedAccept(arrivals: nat -> Arrival, rounds: nat, target: Address, tries: nat, strays: nat, arrived: bool)
    requires EndsAfter(arrivals, rounds, AcceptPacket(target), tries, strays, arrived, false)
    ensures forall i :: 0 <= i < rounds - (if arrived then 1 else 0) ==>
      !(arrivals(i).Packet? && |arrivals(i).bytes| == 5 && arrivals(i).bytes[0] == 0x40 && arrivals(i).bytes[1..] == target)
    ensures arrived ==>
      && rounds > 0 && arrivals(rounds - 1).Packet? && |arrivals(rounds - 1).bytes| == 5
      && arrivals(rounds - 1).bytes[0] == 0x40 && arrivals(rounds - 1).bytes[1..] == target
    ensures !arrived ==> Quiet(arrivals, rounds) == tries || rounds - Quiet(arrivals, rounds) == strays
  {
    forall i | 0 <= i < rounds
      ensures Brings(arrivals(i), AcceptPacket(target)) <==>
              && arrivals(i).Packet? && |arrivals(i).bytes| == 5
              && arrivals(i).bytes[0] == 0x40 && arrivals(i).bytes[1..] == target
    {
      PacketForm(arrivals(i), target);
    }
  }

  /** None of the first n rounds brings these bytes, or an error. */
  predicate NoneOf(arrivals: nat -> Arrival, n: nat, bytes: seq<byte>)
  {
    forall i :: 0 <= i < n ==> !Brings(arrivals(i), bytes) && !arrivals(i).Broken?
  }

  /** How many of the first n rounds bring nothing. */
  function Quiet(arrivals: nat -> Arrival, n: nat): (k: nat)
    ensures k <= n
  {
    if n == 0 then 0 else Quiet(arrivals, n - 1) + (if arrivals(n - 1).Nothing? then 1 else 0)
  }

  function Repeated(d: Datagram, n: nat): seq<Datagram>
  {
    seq(n, _ => d)
  }

  /**
   After `rounds` rounds of waiting for these bytes the loop has ended: by the packet or an error in the last
   round, or because the tries or the stray credits are used up.
   */
  predicate EndsAfter(arrivals: nat -> Arrival, rounds: nat, bytes: seq<byte>, tries: nat, strays: nat,
                      arrived: bool, broken: bool)
  {
    && !(arrived && broken)
    && (if arrived || broken then
          && 0 < rounds && NoneOf(arrivals, rounds - 1, bytes)
          && Brings(arrivals(rounds - 1), bytes) == arrived && arrivals(rounds - 1).Broken? == broken
          && Quiet(arrivals, rounds - 1) < tries && rounds - 1 - Quiet(arrivals, rounds - 1) < strays
        else
          && NoneOf(arrivals, rounds, bytes)
          && Quiet(arrivals, rounds) <= tries && rounds - Quiet(arrivals, rounds) <= strays
          && (Quiet(arrivals, rounds) == tries || rounds - Quiet(arrivals, rounds) == strays)
          && (rounds > 0 ==> Quiet(arrivals, rounds - 1) < tries && rounds - 1 - Quiet(arrivals, rounds - 1) < strays))
  }

  /** After n rounds without these bytes or an error, so many tries and stray credits are left. */
  predicate Waiting(arrivals: nat -> Arrival, n: nat, bytes: seq<byte>, tries: nat, strays: nat, triesLeft: nat,
                    strayLeft: nat)
  {
    && NoneOf(arrivals, n, bytes) && strayLeft > 0
    && triesLeft == tries - Quiet(arrivals, n) && strayLeft == strays - (n - Quiet(arrivals, n))
    && (n == 0 || (Quiet(arrivals, n - 1) < tries && n - 1 - Quiet(arrivals, n - 1) < strays))
  }

  /** What the next round comes to. */
  lemma NextRound(arrivals: nat -> Arrival, n: nat, bytes: seq<byte>, tries: nat, strays: nat, triesLeft: nat,
                  strayLeft: nat)
    requires Waiting(arrivals, n, bytes, tries, strays, triesLeft, strayLeft) && triesLeft > 0
    ensures n + 1 <= tries + strays - 1
    ensures match arrivals(n)
            case Nothing => Waiting(arrivals, n + 1, bytes, tries, strays, triesLeft - 1, strayLeft)
            case Broken => EndsAfter(arrivals, n + 1, bytes, tries, strays, false, true)
            case Packet(b, from) =>
              if b == bytes then EndsAfter(arrivals, n + 1, bytes, tries, strays, true, false)
              else if strayLeft == 1 then EndsAfter(arrivals, n + 1, bytes, tries, strays, false, false)
              else Waiting(arrivals, n + 1, bytes, tries, strays, triesLeft, strayLeft - 1)
  {
  }

  lemma LastRound(arrivals: nat -> Arrival, n: nat, bytes: seq<byte>, tries: nat, strays: nat, strayLeft: nat)
    requires Waiting(arrivals, n, bytes, tries, strays, 0, strayLeft)
    ensures EndsAfter(arrivals, n, bytes, tries, strays, false, false)
  {
  }

  lemma WaitedForNone(arrivals: nat -> Arrival, n: nat, bytes: seq<byte>, tries: nat, strays: nat, triesLeft: nat,
                      strayLeft: nat)
    requires Waiting(arrivals, n, bytes, tries, strays, triesLeft, strayLeft)
    ensures NoneOf(arrivals, n, bytes)
  {
  }

  lemma FirstRound(arrivals: nat -> Arrival, bytes: seq<byte>, tries: nat, strays: nat)
    requires strays > 0
    ensures Waiting(arrivals, 0, bytes, tries, strays, tries, strays) && NoneOf(arrivals, 0, bytes)
    ensures forall d :: Repeated(d, 0) == []
  {
  }

  class Phone {
    const host: Address
    var socket: bool
    var remote: Address
    ghost var sent: seq<Datagram>
    ghost var faults: nat                // failures to bind, to send, or to start the call

    constructor (host: Address)
      ensures this.host == host && !socket && sent == [] && faults == 0
    {
      this.host, socket, remote, sent, faults := host, false, [0, 0, 0, 0], [], 0;
    }

    /** A step of the system that may fail. */
    method Try() returns (ok: bool)
      modifies `faults
      ensures faults == old(faults) + if ok then 0 else 1
    {
      ok := *;
      if !ok {
        faults := faults + 1;
      }
    }

    method Send(bytes: seq<byte>) returns (ok: bool)
      modifies `sent, `faults
      ensures sent == old(sent) + if ok then [Datagram(host, remote, bytes)] else []
      ensures faults == old(faults) + if ok then 0 else 1
    {
      ok := Try();
      if ok {
        sent := sent + [Datagram(host, remote, bytes)];
      }
    }

    /** Sends the response many times over. */
    method Respond(bytes: seq<byte>) returns (ok: bool, ghost n: nat)
      modifies `sent, `faults
      ensures sent == old(sent) + Repeated(Datagram(host, remote, bytes), n) && n <= RESPONSES
      ensures ok ==> n == RESPONSES
      ensures faults == old(faults) + if ok then 0 else 1
    {
      ghost var d := Datagram(host, remote, bytes);
      ok, n := true, 0;
      assert sent == sent + Repeated(d, 0);
      for index := 0 to RESPONSES
        invariant ok && n == index && faults == old(faults) && sent == old(sent) + Repeated(d, index)
      {
        ok := Send(bytes);
        if !ok {
          return;
        }
        n := n + 1;
        assert Repeated(d, index + 1) == Repeated(d, index) + [d];
      }
    }

    /** The loop that waits for a Connect packet. */
    method AwaitConnect(arrivals: nat -> Arrival, tries: nat, strays: nat)
      returns (code: Code, rounds: nat, ghost responses: nat)
      requires strays > 0 && !socket
      modifies this
      ensures socket ==>
        && code == Ok && EndsAfter(arrivals, rounds, ConnectPacket(host), tries, strays, true, false)
        && remote == arrivals(rounds - 1).from && responses == RESPONSES
      ensures sent == old(sent) + Repeated(Datagram(host, remote, AcceptPacket(remote)), responses) && responses <= RESPONSES
      ensures responses > 0 ==>
        EndsAfter(arrivals, rounds, ConnectPacket(host), tries, strays, true, false) && remote == arrivals(rounds - 1).from
      ensures !socket && code == Ok ==>
        EndsAfter(arrivals, rounds, ConnectPacket(host), tries, strays, false, false) && sent == old(sent)
      ensures forall d :: d in sent && d !in old(sent) ==>
        exists i :: 0 <= i < rounds && Brings(arrivals(i), ConnectPacket(host))
                    && d == Datagram(host, arrivals(i).from, AcceptPacket(arrivals(i).from))
      ensures rounds == 0 || rounds <= tries + strays - 1
      ensures code != Ok ==>
        || (EndsAfter(arrivals, rounds, ConnectPacket(host), tries, strays, false, true) && sent == old(sent))
        || (EndsAfter(arrivals, rounds, ConnectPacket(host), tries, strays, true, false) && faults > old(faults))
    {
      hide EndsAfter, Waiting;
      rounds, responses := 0, 0;
      FirstRound(arrivals, ConnectPacket(host), tries, strays);
      var triesLeft, strayLeft := tries, strays;
      while triesLeft > 0
        invariant strayLeft > 0 && Waiting(arrivals, rounds, ConnectPacket(host), tries, strays, triesLeft, strayLeft)
        invariant sent == old(sent) && !socket && faults == old(faults) && responses == 0
        invariant rounds == 0 || rounds <= tries + strays - 1
        decreases triesLeft + strayLeft
      {
        NextRound(arrivals, rounds, ConnectPacket(host), tries, strays, triesLeft, strayLeft);
        triesLeft := triesLeft - 1;
        var arrival := arrivals(rounds);
        rounds := rounds + 1;
        if arrival.Nothing? {
          continue;
        }
        if arrival.Broken? {
          return SocketFailure, rounds, responses;
        }
        remote := arrival.from;
        if arrival.bytes == ConnectPacket(host) {
          var ok;
          ok, responses := Respond(AcceptPacket(remote));
          if !ok {
            return SocketFailure, rounds, responses;
          }
          var started := Try();
          if !started {
            return SocketFailure, rounds, responses;
          }
          socket := true;
          return Ok, rounds, responses;
        } else {
          strayLeft := strayLeft - 1;
          if strayLeft <= 0 {
            return Ok, rounds, responses;
          }
          triesLeft := triesLeft + 1;
        }
      }
      LastRound(arrivals, rounds, ConnectPacket(host), tries, strays, strayLeft);
      return Ok, rounds, responses;
    }

    /**
     Waits for a Connect packet that carries this phone's own address, and answers it. Success is reported also when
     the call was given up; the socket is open afterwards only when this dial completed. A dial made during a call is
     refused, and its clean-up closes the socket of that call.
     */
    method DialRemote(arrivals: nat -> Arrival, tries: nat, strays: nat)
      returns (code: Code, rounds: nat, ghost responses: nat)
      requires strays > 0
      modifies this
      ensures old(socket) ==> code == Started && rounds == 0 && !socket && sent == old(sent) && responses == 0
      ensures socket ==>
        && !old(socket) && code == Ok && EndsAfter(arrivals, rounds, ConnectPacket(host), tries, strays, true, false)
        && remote == arrivals(rounds - 1).from && responses == RESPONSES
      ensures !old(socket) ==>
        sent == old(sent) + Repeated(Datagram(host, remote, AcceptPacket(remote)), responses) && responses <= RESPONSES
      ensures responses > 0 ==>
        EndsAfter(arrivals, rounds, ConnectPacket(host), tries, strays, true, false) && remote == arrivals(rounds - 1).from
      ensures !old(socket) && !socket && code == Ok ==>
        EndsAfter(arrivals, rounds, ConnectPacket(host), tries, strays, false, false) && sent == old(sent)
      ensures forall d :: d in sent && d !in old(sent) ==>
        exists i :: 0 <= i < rounds && Brings(arrivals(i), ConnectPacket(host))
                    && d == Datagram(host, arrivals(i).from, AcceptPacket(arrivals(i).from))
      ensures socket ==>
        && responses == 100 && rounds > 0 && arrivals(rounds - 1).Packet? && |arrivals(rounds - 1).bytes| == 5
        && arrivals(rounds - 1).bytes[0] == 0x80 && arrivals(rounds - 1).bytes[1..] == host
      ensures !old(socket) && code == Ok ==>
        && (forall i :: 0 <= i < rounds - (if socket then 1 else 0) ==>
              !(&& arrivals(i).Packet? && |arrivals(i).bytes| == 5
                && arrivals(i).bytes[0] == 0x80 && arrivals(i).bytes[1..] == host))
        && (!socket ==> Quiet(arrivals, rounds) == tries || rounds - Quiet(arrivals, rounds) == strays)
      ensures forall d :: d in sent && d !in old(sent) ==>
        d.from == host && |d.bytes| == 5 && d.bytes[0] == 0x40 && d.bytes[1..] == d.to
      ensures rounds == 0 || rounds <= tries + strays - 1
      ensures !old(socket) && faults == old(faults) && code != Ok ==>
        EndsAfter(arrivals, rounds, ConnectPacket(host), tries, strays, false, true)
      ensures !old(socket) && code != Ok ==>
        || rounds == 0 || EndsAfter(arrivals, rounds, ConnectPacket(host), tries, strays, false, true)
        || EndsAfter(arrivals, rounds, ConnectPacket(host), tries, strays, true, false)
    {
      hide EndsAfter;
      if socket {
        socket := false;
        return Started, 0, 0;
      }
      assert forall d :: Repeated(d, 0) == [];
      var bound := Try();
      if !bound {
        return SocketFailure, 0, 0;
      }
      code, rounds, responses := AwaitConnect(arrivals, tries, strays);
      if code == Ok {
        AwaitedConnect(arrivals, rounds, host, tries, strays, socket);
      }
      forall d | d in sent && d !in old(sent)
        ensures d.from == host && |d.bytes| == 5 && d.bytes[0] == 0x40 && d.bytes[1..] == d.to
      {
        PacketForm(Nothing, d.to);
      }
    }

    /** The loop that asks for an Accept packet. */
    method AwaitAccept(arrivals: nat -> Arrival, tries: nat, strays: nat) returns (code: Code, rounds: nat)
      requires strays > 0 && !socket
      modifies `socket, `sent, `faults
      ensures socket ==> code == Ok && EndsAfter(arrivals, rounds, AcceptPacket(host), tries, strays, true, false)
      ensures !socket && code == Ok ==> EndsAfter(arrivals, rounds, AcceptPacket(host), tries, strays, false, false)
      ensures sent == old(sent) + Repeated(Datagram(host, remote, ConnectPacket(remote)), rounds)
      ensures rounds == 0 || rounds <= tries + strays - 1
      ensures code != Ok ==>
        || (NoneOf(arrivals, rounds, AcceptPacket(host)) && faults > old(faults))
        || EndsAfter(arrivals, rounds, AcceptPacket(host), tries, strays, false, true)
        || (EndsAfter(arrivals, rounds, AcceptPacket(host), tries, strays, true, false) && faults > old(faults))
    {
      hide EndsAfter, Waiting;
      rounds := 0;
      FirstRound(arrivals, AcceptPacket(host), tries, strays);
      ghost var request := Datagram(host, remote, ConnectPacket(remote));
      var triesLeft, strayLeft := tries, strays;
      while triesLeft > 0
        invariant strayLeft > 0 && Waiting(arrivals, rounds, AcceptPacket(host), tries, strays, triesLeft, strayLeft)
        invariant sent == old(sent) + Repeated(request, rounds) && !socket && faults == old(faults)
        invariant rounds == 0 || rounds <= tries + strays - 1
        decreases triesLeft + strayLeft
      {
        NextRound(arrivals, rounds, AcceptPacket(host), tries, strays, triesLeft, strayLeft);
        triesLeft := triesLeft - 1;
        var ok := Send(ConnectPacket(remote));
        if !ok {
          WaitedForNone(arrivals, rounds, AcceptPacket(host), tries, strays, triesLeft + 1, strayLeft);
          return SocketFailure, rounds;
        }
        assert Repeated(request, rounds + 1) == Repeated(request, rounds) + [request];
        var arrival := arrivals(rounds);
        rounds := rounds + 1;
        if arrival.Nothing? {
          continue;
        }
        if arrival.Broken? {
          return SocketFailure, rounds;
        }
        if arrival.bytes == AcceptPacket(host) {
          var started := Try();
          if !started {
            return SocketFailure, rounds;
          }
          socket := true;
          return Ok, rounds;
        } else {
          strayLeft := strayLeft - 1;
          if strayLeft <= 0 {
            return Ok, rounds;
          }
          triesLeft := triesLeft + 1;
        }
      }
      LastRound(arrivals, rounds, AcceptPacket(host), tries, strays, strayLeft);
      return Ok, rounds;
    }

    /**
     Asks the other phone to connect, once a round, until an Accept packet that carries this phone's own address
     comes in. Whoever sent it is not looked at. An answer made during a call is refused, and its clean-up closes the
     socket of that call.
     */
    method AnswerRemote(other: Address, arrivals: nat -> Arrival, tries: nat, strays: nat) returns (code: Code, rounds: nat)
      requires strays > 0
      modifies this
      ensures old(socket) ==> code == Started && rounds == 0 && !socket && sent == old(sent)
      ensures socket ==>
        && !old(socket) && code == Ok && EndsAfter(arrivals, rounds, AcceptPacket(host), tries, strays, true, false)
        && remote == other
      ensures !old(socket) && !socket && code == Ok ==>
        EndsAfter(arrivals, rounds, AcceptPacket(host), tries, strays, false, false)
      ensures !old(socket) ==> sent == old(sent) + Repeated(Datagram(host, other, ConnectPacket(other)), rounds)
      ensures forall d :: d in sent && d !in old(sent) ==> d == Datagram(host, other, ConnectPacket(other))
      ensures socket ==>
        && rounds > 0 && arrivals(rounds - 1).Packet? && |arrivals(rounds - 1).bytes| == 5
        && arrivals(rounds - 1).bytes[0] == 0x40 && arrivals(rounds - 1).bytes[1..] == host
      ensures !old(socket) && code == Ok ==>
        && (forall i :: 0 <= i < rounds - (if socket then 1 else 0) ==>
              !(&& arrivals(i).Packet? && |arrivals(i).bytes| == 5
                && arrivals(i).bytes[0] == 0x40 && arrivals(i).bytes[1..] == host))
        && (!socket ==> Quiet(arrivals, rounds) == tries || rounds - Quiet(arrivals, rounds) == strays)
      ensures forall d :: d in sent && d !in old(sent) ==>
        d.from == host && |d.bytes| == 5 && d.bytes[0] == 0x80 && d.bytes[1..] == d.to
      ensures rounds == 0 || rounds <= tries + strays - 1
      ensures !old(socket) && faults == old(faults) && code != Ok ==>
        EndsAfter(arrivals, rounds, AcceptPacket(host), tries, strays, false, true)
      ensures !old(socket) && code != Ok ==>
        || NoneOf(arrivals, rounds, AcceptPacket(host))
        || EndsAfter(arrivals, rounds, AcceptPacket(host), tries, strays, false, true)
        || EndsAfter(arrivals, rounds, AcceptPacket(host), tries, strays, true, false)
    {
      hide EndsAfter;
      if socket {
        socket := false;
        return Started, 0;
      }
      assert forall d :: Repeated(d, 0) == [];
      var bound := Try();
      if !bound {
        return SocketFailure, 0;
      }
      remote := other;
      code, rounds := AwaitAccept(arrivals, tries, strays);
      if code == Ok {
        AwaitedAccept(arrivals, rounds, host, tries, strays, socket);
      }
      PacketForm(Nothing, other);
    }
  }

  lemma {:induction false} QuietGrows(arrivals: nat -> Arrival, m: nat, n: nat)
    requires m <= n
    ensures Quiet(arrivals, m) <= Quiet(arrivals, n) && m - Quiet(arrivals, m) <= n - Quiet(arrivals, n)
  {
    if m < n {
      QuietGrows(arrivals, m, n - 1);
    }
  }

  /** When and how a loop ends depends on what arrives alone: two runs over the same arrivals end alike. */
  lemma EndIsDetermined(arrivals: nat -> Arrival, bytes: seq<byte>, tries: nat, strays: nat,
                        rounds: nat, arrived: bool, broken: bool, rounds': nat, arrived': bool, broken': bool)
    requires EndsAfter(arrivals, rounds, bytes, tries, strays, arrived, broken)
    requires EndsAfter(arrivals, rounds', bytes, tries, strays, arrived', broken')
    ensures rounds == rounds' && arrived == arrived' && broken == broken'
  {
    if rounds < rounds' {
      EndsFirst(arrivals, bytes, tries, strays, rounds, arrived, broken, rounds', arrived', broken');
    } else if rounds' < rounds {
      EndsFirst(arrivals, bytes, tries, strays, rounds', arrived', broken', rounds, arrived, broken);
    }
  }

  lemma EndsFirst(arrivals: nat -> Arrival, bytes: seq<byte>, tries: nat, strays: nat,
                  rounds: nat, arrived: bool, broken: bool, rounds': nat, arrived': bool, broken': bool)
    requires EndsAfter(arrivals, rounds, bytes, tries, strays, arrived, broken) && rounds < rounds'
    ensures !EndsAfter(arrivals, rounds', bytes, tries, strays, arrived', broken')
  {
    QuietGrows(arrivals, rounds, rounds' - 1);
  }

  /** The bound on the rounds is reached: the loop may run that long, whatever the limits. */
  lemma {:induction false} BoundIsReached(bytes: seq<byte>, tries: nat, strays: nat, stray: seq<byte>)
    requires tries > 0 && strays > 0 && stray != bytes
    ensures var arrivals := (i: nat) => if i < strays - 1 then Packet(stray, [0, 0, 0, 0]) else Nothing;
      EndsAfter(arrivals, tries + strays - 1, bytes, tries, strays, false, false)
  {
    var arrivals := (i: nat) => if i < strays - 1 then Packet(stray, [0, 0, 0, 0]) else Nothing;
    QuietCount(arrivals, strays - 1, stray, tries + strays - 1);
    QuietCount(arrivals, strays - 1, stray, tries + strays - 2);
  }

  lemma {:induction false} QuietCount(arrivals: nat -> Arrival, k: nat, stray: seq<byte>, n: nat)
    requires forall i: nat :: arrivals(i) == if i < k then Packet(stray, [0, 0, 0, 0]) else Nothing
    ensures Quiet(arrivals, n) == if n <= k then 0 else n - k
  {
    if n > 0 {
      QuietCount(arrivals, k, stray, n - 1);
    }
  }
}
