/** The dial and answer loops as runs of the network: what a loop sends, and how it ends. */
module Calls {
  import opened Results
  import opened Bytes
  import opened Handshake
  import opened Network

  predicate By(act: Action, x: Address)
  {
    match act
    case Dial(y) => y == x
    case Answer(y, other) => y == x
    case Ask(y) => y == x
    case Deliver(g) => g.to == x
    case Start(y) => y == x
    case Speak(y, bytes) => y == x
    case GiveUp(y) => y == x
  }

  predicate ByOthers(acts: seq<Action>, x: Address)
  {
    forall act :: act in acts ==> !By(act, x)
  }

  /** The network knows phone x to be in this call, or in none, and to have sent these packets of the handshake. */
  ghost predicate Mirrors(n: Net, x: Address, call: Option<Address>, sent: seq<Datagram>)
  {
    && ModeOf(n, x) == (match call case Some(peer) => Talking(peer) case None => Idle)
    && forall d: Datagram :: d in sent <==> SentBy(n, x, d)
  }

  ghost predicate Reflects(n: Net, p: Phone)
    reads p
  {
    Mirrors(n, p.host, if p.socket then Some(p.remote) else None, p.sent)
  }

  predicate SentBy(n: Net, x: Address, d: Datagram)
  {
    d in n.sent && d.from == x && |d.bytes| == 5
  }

  lemma {:induction false} RunAppend(n: Net, first: seq<Action>, second: seq<Action>)
    requires Run(n, first) && Run(After(n, first), second)
    ensures Run(n, first + second) && After(n, first + second) == After(After(n, first), second)
    decreases |first|
  {
    hide Next, Enabled;
    if first == [] {
      assert first + second == second;
    } else {
      assert (first + second)[1..] == first[1..] + second;
      RunAppend(Next(n, first[0]), first[1..], second);
    }
  }

  lemma OneAction(n: Net, act: Action)
    requires Enabled(n, act)
    ensures Run(n, [act]) && After(n, [act]) == Next(n, act)
  {
    hide Next, Enabled;
  }

  /** The history of phone x is the same, up to its asking of other phones. */
  ghost predicate SameFor(n: Net, m: Net, x: Address)
  {
    && (forall o: Address :: (x, o) in n.attempts <==> (x, o) in m.attempts)
    && forall d: Datagram :: d.from == x ==> (d in n.sent <==> d in m.sent)
  }

  lemma {:induction false} OthersKeep(n: Net, acts: seq<Action>, x: Address)
    requires Run(n, acts) && ByOthers(acts, x)
    ensures ModeOf(After(n, acts), x) == ModeOf(n, x) && SameFor(n, After(n, acts), x)
    decreases |acts|
  {
    if acts != [] {
      assert !By(acts[0], x);
      OtherKeeps(n, acts[0], x);
      OthersKeep(Next(n, acts[0]), acts[1..], x);
    }
  }

  lemma OtherKeeps(n: Net, act: Action, x: Address)
    requires Enabled(n, act) && !By(act, x)
    ensures ModeOf(Next(n, act), x) == ModeOf(n, x) && SameFor(n, Next(n, act), x)
  {
  }

  /** What the phone hears in a round. */
  function Heard(x: Address, a: Arrival): seq<Action>
  {
    if a.Packet? then [Deliver(Datagram(a.from, x, a.bytes))] else []
  }

  /** What the phone says in a round: a dialer listens, an answerer asks. */
  function Said(x: Address, asks: bool): seq<Action>
  {
    if asks then [Ask(x)] else []
  }

  /** The first k rounds: the phone speaks, the others act, the phone hears what comes in. */
  function Rounds(x: Address, asks: bool, arrivals: nat -> Arrival, others: nat -> seq<Action>, k: nat): seq<Action>
  {
    if k == 0 then []
    else Rounds(x, asks, arrivals, others, k - 1) + Said(x, asks) + others(k - 1) + Heard(x, arrivals(k - 1))
  }

  /**
   As long as the phone plays its part, the others do what the network lets them do, and what arrives is something that
   has been sent to the phone.
   */
  ghost predicate Plausible(n: Net, x: Address, asks: bool, arrivals: nat -> Arrival, others: nat -> seq<Action>, k: nat)
  {
    k > 0 ==>
      && Plausible(n, x, asks, arrivals, others, k - 1)
      && var before := Rounds(x, asks, arrivals, others, k - 1) + Said(x, asks);
         (Run(n, before) ==> Obliging(After(n, before), x, others(k - 1), arrivals(k - 1)))
  }

  ghost predicate Obliging(n: Net, x: Address, acts: seq<Action>, a: Arrival)
  {
    && Run(n, acts) && ByOthers(acts, x)
    && (a.Packet? ==> Datagram(a.from, x, a.bytes) in After(n, acts).sent)
  }

  /** What the phone is waiting for. */
  function Wanted(x: Address, asks: bool): seq<byte>
  {
    if asks then AcceptPacket(x) else ConnectPacket(x)
  }

  predicate Unbrought(arrivals: nat -> Arrival, k: nat, bytes: seq<byte>)
  {
    forall i :: 0 <= i < k ==> !Brings(arrivals(i), bytes)
  }

  /** The phone is where its loop is; it has sent what it had sent before, and its requests. */
  ghost predicate StillWaiting(n: Net, m: Net, x: Address, asks: bool, k: nat)
  {
    && ModeOf(m, x) == ModeOf(n, x) && (if asks then ModeOf(n, x).Answering? else ModeOf(n, x) == Dialing)
    && (forall o: Address :: (x, o) in m.attempts <==> (x, o) in n.attempts)
    && forall d: Datagram :: d.from == x ==>
         (d in m.sent <==> d in n.sent || (asks && k > 0 && d == Request(x, ModeOf(n, x).other)))
  }

  function Request(x: Address, other: Address): Datagram
  {
    Datagram(x, other, ConnectPacket(other))
  }

  /** Rounds that do not bring what the phone waits for leave it waiting. */
  lemma {:induction false} StrayRounds(n: Net, x: Address, asks: bool, arrivals: nat -> Arrival,
                                       others: nat -> seq<Action>, k: nat)
    requires if asks then ModeOf(n, x).Answering? else ModeOf(n, x) == Dialing
    requires Plausible(n, x, asks, arrivals, others, k) && Unbrought(arrivals, k, Wanted(x, asks))
    ensures Run(n, Rounds(x, asks, arrivals, others, k))
    ensures StillWaiting(n, After(n, Rounds(x, asks, arrivals, others, k)), x, asks, k)
  {
    hide Enabled, Next, Wanted, StillWaiting;
    if k == 0 {
      NoRoundsYet(n, x, asks);
    } else {
      StrayRounds(n, x, asks, arrivals, others, k - 1);
      UpToArrival(n, x, asks, arrivals, others, k - 1);
      StrayHeard(n, x, asks, arrivals, others, k - 1);
    }
  }

  lemma NoRoundsYet(n: Net, x: Address, asks: bool)
    requires if asks then ModeOf(n, x).Answering? else ModeOf(n, x) == Dialing
    ensures StillWaiting(n, n, x, asks, 0)
  {
  }

  /** The first k rounds, and the next up to what arrives in it. */
  function UntilArrival(x: Address, asks: bool, arrivals: nat -> Arrival, others: nat -> seq<Action>, k: nat): seq<Action>
  {
    Rounds(x, asks, arrivals, others, k) + Said(x, asks) + others(k)
  }

  lemma UpToArrival(n: Net, x: Address, asks: bool, arrivals: nat -> Arrival, others: nat -> seq<Action>, k: nat)
    requires Plausible(n, x, asks, arrivals, others, k + 1) && Run(n, Rounds(x, asks, arrivals, others, k))
    requires StillWaiting(n, After(n, Rounds(x, asks, arrivals, others, k)), x, asks, k)
    ensures Run(n, UntilArrival(x, asks, arrivals, others, k))
    ensures StillWaiting(n, After(n, UntilArrival(x, asks, arrivals, others, k)), x, asks, k + 1)
    ensures var a := arrivals(k);
      a.Packet? ==> Datagram(a.from, x, a.bytes) in After(n, UntilArrival(x, asks, arrivals, others, k)).sent
  {
    hide Enabled, Next, StillWaiting;
    var rounds := Rounds(x, asks, arrivals, others, k);
    var m := After(n, rounds);
    Asks(n, m, x, asks, k);
    RunAppend(n, rounds, Said(x, asks));
    var spoken := After(n, rounds + Said(x, asks));
    OthersKeep(spoken, others(k), x);
    RunAppend(n, rounds + Said(x, asks), others(k));
    StaysWaiting(n, spoken, After(spoken, others(k)), x, asks, k + 1);
  }

  lemma Asks(n: Net, m: Net, x: Address, asks: bool, k: nat)
    requires StillWaiting(n, m, x, asks, k)
    ensures Run(m, Said(x, asks)) && StillWaiting(n, After(m, Said(x, asks)), x, asks, k + 1)
  {
    if asks {
      OneAction(m, Ask(x));
    }
  }

  lemma StaysWaiting(n: Net, m: Net, m': Net, x: Address, asks: bool, k: nat)
    requires StillWaiting(n, m, x, asks, k) && ModeOf(m', x) == ModeOf(m, x) && SameFor(m, m', x)
    ensures StillWaiting(n, m', x, asks, k)
  {
  }

  lemma StrayHeard(n: Net, x: Address, asks: bool, arrivals: nat -> Arrival, others: nat -> seq<Action>, k: nat)
    requires Run(n, UntilArrival(x, asks, arrivals, others, k)) && !Brings(arrivals(k), Wanted(x, asks))
    requires StillWaiting(n, After(n, UntilArrival(x, asks, arrivals, others, k)), x, asks, k + 1)
    requires var a := arrivals(k);
      a.Packet? ==> Datagram(a.from, x, a.bytes) in After(n, UntilArrival(x, asks, arrivals, others, k)).sent
    ensures Run(n, Rounds(x, asks, arrivals, others, k + 1))
    ensures After(n, Rounds(x, asks, arrivals, others, k + 1)) == After(n, UntilArrival(x, asks, arrivals, others, k))
  {
    hide Run, After, Rounds;
    var m := After(n, UntilArrival(x, asks, arrivals, others, k));
    IsStray(m, x, asks, arrivals(k));
    RunAppend(n, UntilArrival(x, asks, arrivals, others, k), Heard(x, arrivals(k)));
    RoundsNext(x, asks, arrivals, others, k);
  }

  lemma RoundsNext(x: Address, asks: bool, arrivals: nat -> Arrival, others: nat -> seq<Action>, k: nat)
    ensures Rounds(x, asks, arrivals, others, k + 1) == UntilArrival(x, asks, arrivals, others, k) + Heard(x, arrivals(k))
  {
  }

  /** A packet the phone does not wait for changes nothing. */
  lemma IsStray(m: Net, x: Address, asks: bool, a: Arrival)
    requires (if asks then ModeOf(m, x).Answering? else ModeOf(m, x) == Dialing) && !Brings(a, Wanted(x, asks))
    requires a.Packet? ==> Datagram(a.from, x, a.bytes) in m.sent
    ensures Run(m, Heard(x, a)) && After(m, Heard(x, a)) == m
  {
    if a.Packet? {
      OneAction(m, Deliver(Datagram(a.from, x, a.bytes)));
    }
  }

  /** The packet the phone waits for comes in the round after the first k. */
  lemma Arrived(n: Net, x: Address, asks: bool, arrivals: nat -> Arrival, others: nat -> seq<Action>, k: nat)
    requires if asks then ModeOf(n, x).Answering? else ModeOf(n, x) == Dialing
    requires Plausible(n, x, asks, arrivals, others, k + 1) && Unbrought(arrivals, k, Wanted(x, asks))
    requires Brings(arrivals(k), Wanted(x, asks))
    ensures Run(n, UntilArrival(x, asks, arrivals, others, k))
    ensures StillWaiting(n, After(n, UntilArrival(x, asks, arrivals, others, k)), x, asks, k + 1)
    ensures Run(n, Rounds(x, asks, arrivals, others, k + 1))
    ensures After(n, Rounds(x, asks, arrivals, others, k + 1))
            == Received(After(n, UntilArrival(x, asks, arrivals, others, k)), Datagram(arrivals(k).from, x, Wanted(x, asks)))
  {
    hide Run, After, Rounds, StillWaiting, Wanted, Received;
    StrayRounds(n, x, asks, arrivals, others, k);
    UpToArrival(n, x, asks, arrivals, others, k);
    OneAction(After(n, UntilArrival(x, asks, arrivals, others, k)), Deliver(Datagram(arrivals(k).from, x, arrivals(k).bytes)));
    RunAppend(n, UntilArrival(x, asks, arrivals, others, k), Heard(x, arrivals(k)));
    RoundsNext(x, asks, arrivals, others, k);
  }

  /** The attempt begins, these actions follow, and it ends. */
  lemma WholeAttempt(n: Net, first: Action, middle: seq<Action>, last: Action)
    requires Enabled(n, first) && Run(Next(n, first), middle) && Enabled(After(Next(n, first), middle), last)
    ensures Run(n, [first] + middle + [last])
    ensures After(n, [first] + middle + [last]) == Next(After(Next(n, first), middle), last)
  {
    hide Enabled, Next;
    OneAction(n, first);
    RunAppend(n, [first], middle);
    OneAction(After(n, [first] + middle), last);
    RunAppend(n, [first] + middle, [last]);
  }

  lemma SentToo(sent: seq<Datagram>, g: Datagram, k: nat)
    ensures forall d: Datagram :: d in sent + Repeated(g, k) <==> d in sent || (k > 0 && d == g)
  {
    if k > 0 {
      assert Repeated(g, k)[0] == g;
    }
  }

  function Ending(x: Address, done: bool): Action
  {
    if done then Start(x) else GiveUp(x)
  }

  function Begun(n: Net, act: Action): Net
  {
    if Enabled(n, act) then Next(n, act) else n
  }

  /**
   A dial as actions of the network. One made during a call ends that call. A Connect that could not be answered even
   once is as good as lost.
   */
  function DialActs(x: Address, arrivals: nat -> Arrival, others: nat -> seq<Action>, rounds: nat, responses: nat,
                    done: bool, refused: bool): seq<Action>
  {
    if refused then [GiveUp(x)] else [Dial(x)] + Dialed(x, arrivals, others, rounds, responses) + [Ending(x, done)]
  }

  function Dialed(x: Address, arrivals: nat -> Arrival, others: nat -> seq<Action>, rounds: nat, responses: nat): seq<Action>
  {
    if rounds > 0 && Brings(arrivals(rounds - 1), ConnectPacket(x)) && responses == 0 then
      UntilArrival(x, false, arrivals, others, rounds - 1)
    else Rounds(x, false, arrivals, others, rounds)
  }

  lemma DialEnds(n: Net, x: Address, sent: seq<Datagram>, arrivals: nat -> Arrival, others: nat -> seq<Action>,
                 rounds: nat, responses: nat, remote: Address, done: bool)
    requires Mirrors(n, x, None, sent) && Plausible(Begun(n, Dial(x)), x, false, arrivals, others, rounds)
    requires rounds > 0 ==> Unbrought(arrivals, rounds - 1, ConnectPacket(x))
    requires done ==> responses > 0
    requires responses > 0 ==>
      rounds > 0 && Brings(arrivals(rounds - 1), ConnectPacket(x)) && remote == arrivals(rounds - 1).from
    ensures var acts := DialActs(x, arrivals, others, rounds, responses, done, false);
      && Run(n, acts)
      && Mirrors(After(n, acts), x, if done then Some(remote) else None,
                 sent + Repeated(Datagram(x, remote, AcceptPacket(remote)), responses))
      && (done ==> (x, remote) in After(n, acts).dialed)
  {
    hide Run, After, Plausible, Rounds, UntilArrival;
    var m := Next(n, Dial(x));
    var middle := Dialed(x, arrivals, others, rounds, responses);
    if rounds > 0 && Brings(arrivals(rounds - 1), ConnectPacket(x)) {
      Arrived(m, x, false, arrivals, others, rounds - 1);
      if responses > 0 {
        AcceptIsNotConnect(x, remote);
      }
    } else {
      StrayRounds(m, x, false, arrivals, others, rounds);
    }
    WholeAttempt(n, Dial(x), middle, Ending(x, done));
    SentToo(sent, Datagram(x, remote, AcceptPacket(remote)), responses);
  }

  /** An answer as actions of the network. */
  function AnswerActs(x: Address, other: Address, arrivals: nat -> Arrival, others: nat -> seq<Action>, rounds: nat,
                      done: bool, refused: bool): seq<Action>
  {
    if refused then [GiveUp(x)]
    else [Answer(x, other)] + Rounds(x, true, arrivals, others, rounds) + [Ending(x, done)]
  }

  lemma AnswerEnds(n: Net, x: Address, other: Address, sent: seq<Datagram>, arrivals: nat -> Arrival,
                   others: nat -> seq<Action>, rounds: nat, done: bool)
    requires Mirrors(n, x, None, sent) && Plausible(Begun(n, Answer(x, other)), x, true, arrivals, others, rounds)
    requires rounds > 0 ==> Unbrought(arrivals, rounds - 1, AcceptPacket(x))
    requires done ==> rounds > 0 && Brings(arrivals(rounds - 1), AcceptPacket(x))
    ensures var acts := AnswerActs(x, other, arrivals, others, rounds, done, false);
      && Run(n, acts)
      && Mirrors(After(n, acts), x, if done then Some(other) else None, sent + Repeated(Request(x, other), rounds))
      && (forall o: Address :: (x, o) in After(n, acts).attempts <==> (x, o) in n.attempts || o == other)
      && (done ==> (x, other) in After(n, acts).answered)
  {
    hide Run, After, Plausible, Rounds, UntilArrival;
    var m := Next(n, Answer(x, other));
    if rounds > 0 && Brings(arrivals(rounds - 1), AcceptPacket(x)) {
      Arrived(m, x, true, arrivals, others, rounds - 1);
    } else {
      StrayRounds(m, x, true, arrivals, others, rounds);
    }
    WholeAttempt(n, Answer(x, other), Rounds(x, true, arrivals, others, rounds), Ending(x, done));
    SentToo(sent, Request(x, other), rounds);
  }

  /** The end of a call by a dial or answer made during it. */
  lemma CallEnds(n: Net, x: Address, peer: Address, sent: seq<Datagram>)
    requires Mirrors(n, x, Some(peer), sent)
    ensures Run(n, [GiveUp(x)]) && Mirrors(After(n, [GiveUp(x)]), x, None, sent)
  {
    OneAction(n, GiveUp(x));
  }

  lemma BroughtLast(arrivals: nat -> Arrival, rounds: nat, bytes: seq<byte>, tries: nat, strays: nat, arrived: bool,
                    broken: bool)
    requires EndsAfter(arrivals, rounds, bytes, tries, strays, arrived, broken)
    ensures rounds > 0 ==> Unbrought(arrivals, rounds - 1, bytes)
    ensures arrived ==> rounds > 0 && Brings(arrivals(rounds - 1), bytes)
  {
  }

  /**
   A phone dials on a network that has come this far. Whatever the others do meanwhile, the dial is a run of the network,
   and afterwards the network knows what the phone knows. An open socket means that the phone at the other end asked for
   this call, and was accepted.
   */
  method DialOn(p: Phone, arrivals: nat -> Arrival, tries: nat, strays: nat, ghost past: seq<Action>,
                ghost others: nat -> seq<Action>)
    returns (code: Code, rounds: nat, ghost acts: seq<Action>)
    requires strays > 0 && Run(EMPTY, past) && Reflects(After(EMPTY, past), p)
    modifies p
    ensures exists responses: nat :: acts == DialActs(p.host, arrivals, others, rounds, responses, p.socket, old(p.socket))
    ensures Plausible(Begun(After(EMPTY, past), Dial(p.host)), p.host, false, arrivals, others, rounds) ==>
      && Run(EMPTY, past + acts) && Reflects(After(EMPTY, past + acts), p)
      && (p.socket ==> Matched(After(EMPTY, past + acts), p.host, p.remote))
    ensures p.socket ==> !old(p.socket)
  {
    hide Run, After, EndsAfter, Mirrors, Plausible, Rounds, Begun, Matched;
    ghost var n, wasOpen, remote, sent := After(EMPTY, past), p.socket, p.remote, p.sent;
    ghost var responses;
    code, rounds, responses := p.DialRemote(arrivals, tries, strays);
    acts := DialActs(p.host, arrivals, others, rounds, responses, p.socket, wasOpen);
    if wasOpen {
      CallEnds(n, p.host, remote, sent);
      RunAppend(EMPTY, past, acts);
    } else if Plausible(Begun(n, Dial(p.host)), p.host, false, arrivals, others, rounds) {
      forall arrived, broken | EndsAfter(arrivals, rounds, ConnectPacket(p.host), tries, strays, arrived, broken)
        ensures rounds > 0 ==> Unbrought(arrivals, rounds - 1, ConnectPacket(p.host))
        ensures arrived ==> rounds > 0 && Brings(arrivals(rounds - 1), ConnectPacket(p.host))
      {
        BroughtLast(arrivals, rounds, ConnectPacket(p.host), tries, strays, arrived, broken);
      }
      DialEnds(n, p.host, sent, arrivals, others, rounds, responses, p.remote, p.socket);
      RunAppend(EMPTY, past, acts);
      if p.socket {
        DialImpliesConnect(past + acts, p.host, p.remote);
      }
    }
  }

  /**
   A phone answers. Again this is a run of the network, and both agree afterwards. When the phone has asked no other, an
   open socket means that the phone it asked has accepted it.
   */
  method AnswerOn(p: Phone, other: Address, arrivals: nat -> Arrival, tries: nat, strays: nat, ghost past: seq<Action>,
                  ghost others: nat -> seq<Action>)
    returns (code: Code, rounds: nat, ghost acts: seq<Action>)
    requires strays > 0 && Run(EMPTY, past) && Reflects(After(EMPTY, past), p)
    modifies p
    ensures acts == AnswerActs(p.host, other, arrivals, others, rounds, p.socket, old(p.socket))
    ensures Plausible(Begun(After(EMPTY, past), Answer(p.host, other)), p.host, true, arrivals, others, rounds) ==>
      && Run(EMPTY, past + acts) && Reflects(After(EMPTY, past + acts), p)
      && (p.socket && (forall o: Address :: (p.host, o) in After(EMPTY, past).attempts ==> o == other) ==>
            Matched(After(EMPTY, past + acts), other, p.host))
    ensures p.socket ==> !old(p.socket)
  {
    hide Run, After, EndsAfter, Mirrors, Plausible, Rounds, Begun, Matched;
    ghost var n, wasOpen, remote, sent := After(EMPTY, past), p.socket, p.remote, p.sent;
    code, rounds := p.AnswerRemote(other, arrivals, tries, strays);
    acts := AnswerActs(p.host, other, arrivals, others, rounds, p.socket, wasOpen);
    if wasOpen {
      CallEnds(n, p.host, remote, sent);
      RunAppend(EMPTY, past, acts);
    } else if Plausible(Begun(n, Answer(p.host, other)), p.host, true, arrivals, others, rounds) {
      forall arrived, broken | EndsAfter(arrivals, rounds, AcceptPacket(p.host), tries, strays, arrived, broken)
        ensures rounds > 0 ==> Unbrought(arrivals, rounds - 1, AcceptPacket(p.host))
        ensures arrived ==> rounds > 0 && Brings(arrivals(rounds - 1), AcceptPacket(p.host))
      {
        BroughtLast(arrivals, rounds, AcceptPacket(p.host), tries, strays, arrived, broken);
      }
      AnswerEnds(n, p.host, other, sent, arrivals, others, rounds, p.socket);
      RunAppend(EMPTY, past, acts);
      if p.socket && forall o: Address :: (p.host, o) in n.attempts ==> o == other {
        SoleRemoteAccepted(past + acts, p.host, other);
      }
    }
  }
}
