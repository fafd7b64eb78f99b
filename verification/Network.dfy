/** Many phones on a network that loses, repeats and reorders datagrams, but forges none. */
module Network {
  import opened Bytes
  import opened Handshake

  /**
   What a phone is doing. `Ready` has exchanged the handshake's packets with its peer, but has still to start the
   call, which may fail.
   */
  datatype Mode = Idle | Dialing | Answering(other: Address) | Ready(peer: Address, dialed: bool) | Talking(peer: Address)

  type Pair = (Address, Address)

  /**
   The network: what each phone is doing, every datagram ever sent, and a history. (a, o) is in `attempts` once a has
   tried to answer o, and in `answered` once a talks to o on that account. (d, a) is in `accepted` once d has received
   a's Connect and sent its Accept, and in `dialed` once d talks to a on that account.
   */
  datatype Net = Net(
    modes: map<Address, Mode>,
    sent: set<Datagram>,
    attempts: set<Pair>,
    answered: set<Pair>,
    accepted: set<Pair>,
    dialed: set<Pair>)

  datatype Action =
    | Dial(phone: Address)
    | Answer(phone: Address, other: Address)
    | Ask(phone: Address)
    | Deliver(datagram: Datagram)
    | Start(phone: Address)
    | Speak(phone: Address, bytes: seq<byte>)
    | GiveUp(phone: Address)

  const EMPTY := Net(map[], {}, {}, {}, {}, {})

  function ModeOf(n: Net, x: Address): Mode
  {
    if x in n.modes then n.modes[x] else Idle
  }

  predicate Enabled(n: Net, act: Action)
  {
    match act
    case Dial(x) => ModeOf(n, x) == Idle
    case Answer(x, other) => ModeOf(n, x) == Idle
    case Ask(x) => ModeOf(n, x).Answering?
    case Deliver(g) => g in n.sent
    case Start(x) => ModeOf(n, x).Ready?
    case Speak(x, bytes) => ModeOf(n, x).Talking? && |bytes| != 5
    case GiveUp(x) => true
  }

  /** A datagram comes in: again or for the first time, early or late. */
  function Received(n: Net, g: Datagram): Net
  {
    match ModeOf(n, g.to)
    case Dialing =>
      if g.bytes != ConnectPacket(g.to) then n
      else n.(modes := n.modes[g.to := Ready(g.from, true)],
              sent := n.sent + {Datagram(g.to, g.from, AcceptPacket(g.from))},
              accepted := n.accepted + {(g.to, g.from)})
    case Answering(other) =>
      if g.bytes != AcceptPacket(g.to) then n
      else n.(modes := n.modes[g.to := Ready(other, false)])
    case _ => n
  }

  /** The call starts. */
  function Started(n: Net, x: Address): Net
    requires ModeOf(n, x).Ready?
  {
    var peer := ModeOf(n, x).peer;
    var m := n.(modes := n.modes[x := Talking(peer)]);
    if ModeOf(n, x).dialed then m.(dialed := n.dialed + {(x, peer)}) else m.(answered := n.answered + {(x, peer)})
  }

  function Next(n: Net, act: Action): Net
    requires Enabled(n, act)
  {
    match act
    case Dial(x) => n.(modes := n.modes[x := Dialing])
    case Answer(x, other) => n.(modes := n.modes[x := Answering(other)], attempts := n.attempts + {(x, other)})
    case Ask(x) =>
      n.(sent := n.sent + {Datagram(x, ModeOf(n, x).other, ConnectPacket(ModeOf(n, x).other))})
    case Deliver(g) => Received(n, g)
    case Start(x) => Started(n, x)
    case Speak(x, bytes) => n.(sent := n.sent + {Datagram(x, ModeOf(n, x).peer, bytes)})
    case GiveUp(x) => n.(modes := n.modes[x := Idle])
  }

  /** The datagram is voice, or was sent for the reason the handshake gives. */
  predicate Accounted(n: Net, g: Datagram)
  {
    || |g.bytes| != 5
    || (g.bytes == ConnectPacket(g.to) && (g.from, g.to) in n.attempts)
    || (g.bytes == AcceptPacket(g.to) && (g.from, g.to) in n.accepted)
  }

  /** The dialer got the answerer's Connect and sent its Accept. */
  predicate Matched(n: Net, dialer: Address, answerer: Address)
  {
    && Datagram(answerer, dialer, ConnectPacket(dialer)) in n.sent
    && Datagram(dialer, answerer, AcceptPacket(answerer)) in n.sent
    && (answerer, dialer) in n.attempts
  }

  /** Somebody has accepted this phone. */
  predicate Confirmed(n: Net, a: Address)
  {
    exists p :: p in n.accepted && p.1 == a
  }

  /** What a phone is doing is backed by the history. */
  predicate Backed(n: Net, x: Address)
  {
    match ModeOf(n, x)
    case Answering(other) => (x, other) in n.attempts
    case Ready(peer, dialed) => if dialed then (x, peer) in n.accepted else (x, peer) in n.attempts && Confirmed(n, x)
    case _ => true
  }

  predicate Inv(n: Net)
  {
    && (forall g :: g in n.sent ==> Accounted(n, g))
    && (forall p :: p in n.accepted ==> Matched(n, p.0, p.1))
    && (forall x :: x in n.modes ==> Backed(n, x))
    && (forall p :: p in n.answered ==> p in n.attempts && Confirmed(n, p.0))
    && n.dialed <= n.accepted
  }

  /** n followed by m: the history only grows. */
  predicate Grows(n: Net, m: Net)
  {
    && n.sent <= m.sent && n.attempts <= m.attempts && n.answered <= m.answered
    && n.accepted <= m.accepted && n.dialed <= m.dialed
  }

  lemma AcceptIsNotConnect(t: Address, u: Address)
    ensures ConnectPacket(t) != AcceptPacket(u) && |ConnectPacket(t)| == 5 && |AcceptPacket(u)| == 5
  {
    assert ConnectPacket(t)[0] == CONNECT && AcceptPacket(u)[0] == ACCEPT;
  }

  lemma NextInv(n: Net, act: Action)
    requires Inv(n) && Enabled(n, act)
    ensures Inv(Next(n, act)) && Grows(n, Next(n, act))
  {
    match act
    case Deliver(g) => ReceivedInv(n, g);
    case Ask(x) => assert Backed(n, x);
    case Start(x) => assert Backed(n, x);
    case _ =>
  }

  lemma ReceivedInv(n: Net, g: Datagram)
    requires Inv(n) && g in n.sent
    ensures Inv(Received(n, g)) && Grows(n, Received(n, g))
  {
    AcceptIsNotConnect(g.to, g.to);
    assert Accounted(n, g) && (ModeOf(n, g.to) == Idle || Backed(n, g.to));
    var m := Received(n, g);
    StillConfirmed(n, m);
    if ModeOf(n, g.to).Answering? && g.bytes == AcceptPacket(g.to) {
      assert (g.from, g.to) in n.accepted;
    }
  }

  lemma StillConfirmed(n: Net, m: Net)
    requires n.accepted <= m.accepted
    ensures forall a :: Confirmed(n, a) ==> Confirmed(m, a)
  {
  }

  predicate Run(n: Net, acts: seq<Action>)
    decreases acts
  {
    acts == [] || (Enabled(n, acts[0]) && Run(Next(n, acts[0]), acts[1..]))
  }

  function After(n: Net, acts: seq<Action>): Net
    requires Run(n, acts)
    decreases acts
  {
    if acts == [] then n else After(Next(n, acts[0]), acts[1..])
  }

  lemma {:induction false} RunInv(n: Net, acts: seq<Action>)
    requires Inv(n) && Run(n, acts)
    ensures Inv(After(n, acts)) && Grows(n, After(n, acts))
    decreases acts
  {
    hide Inv;
    if acts != [] {
      NextInv(n, acts[0]);
      RunInv(Next(n, acts[0]), acts[1..]);
    }
  }

  /**
   Causality, in every run: an answerer completes only if some phone it has asked received its Connect and sent it
   the matching Accept.
   */
  lemma AnswerImpliesAccept(acts: seq<Action>, a: Address, o: Address)
    requires Run(EMPTY, acts) && (a, o) in After(EMPTY, acts).answered
    ensures exists d: Address :: (d, a) in After(EMPTY, acts).accepted && Matched(After(EMPTY, acts), d, a)
  {
    RunInv(EMPTY, acts);
    var n := After(EMPTY, acts);
    assert Confirmed(n, a);
    var p :| p in n.accepted && p.1 == a;
    assert (p.0, a) in n.accepted && Matched(n, p.0, a);
  }

  /** An answerer that has only ever asked one phone completes only if that very phone accepted it. */
  lemma SoleRemoteAccepted(acts: seq<Action>, a: Address, o: Address)
    requires Run(EMPTY, acts) && (a, o) in After(EMPTY, acts).answered
    requires forall p :: p in After(EMPTY, acts).attempts && p.0 == a ==> p.1 == o
    ensures (o, a) in After(EMPTY, acts).accepted && Matched(After(EMPTY, acts), o, a)
  {
    AnswerImpliesAccept(acts, a, o);
    var n := After(EMPTY, acts);
    var d: Address :| (d, a) in n.accepted && Matched(n, d, a);
    assert (a, d) in n.attempts;
  }

  /** A dialer that completes was asked by the phone it answers, and had accepted it. */
  lemma DialImpliesConnect(acts: seq<Action>, d: Address, a: Address)
    requires Run(EMPTY, acts) && (d, a) in After(EMPTY, acts).dialed
    ensures (d, a) in After(EMPTY, acts).accepted && Matched(After(EMPTY, acts), d, a)
  {
    RunInv(EMPTY, acts);
    assert Matched(After(EMPTY, acts), d, a);
  }

  /** A run in which a phone that has asked d before completes with o, though o has received nothing. */
  function StaleRun(a: Address, d: Address, o: Address): seq<Action>
  {
    [Answer(a, d), Ask(a), GiveUp(a), Dial(d), Deliver(Datagram(a, d, ConnectPacket(d))),
     GiveUp(d), Answer(a, o), Deliver(Datagram(d, a, AcceptPacket(a))), Start(a)]
  }

  /**
   Once a phone has asked any other phone, an Accept of that one can come late and complete a call to a phone that
   never accepted. The other phone may even be the caller itself, and its own call may have failed.
   */
  lemma StaleAccept(a: Address, d: Address, o: Address)
    requires d != o
    ensures Run(EMPTY, StaleRun(a, d, o))
    ensures var n := After(EMPTY, StaleRun(a, d, o));
      (a, o) in n.answered && (o, a) !in n.accepted && n.attempts == {(a, d), (a, o)}
  {
    hide Next, Enabled;
    var acts := StaleRun(a, d, o);
    var n1, n2, n3, n4, n5, n6, n7, n8, n9 := StaleStates(a, d, o);
    OneMore(n8, [], acts[8]);
    OneMore(n7, acts[8..], acts[7]);
    OneMore(n6, acts[7..], acts[6]);
    OneMore(n5, acts[6..], acts[5]);
    OneMore(n4, acts[5..], acts[4]);
    OneMore(n3, acts[4..], acts[3]);
    OneMore(n2, acts[3..], acts[2]);
    OneMore(n1, acts[2..], acts[1]);
    OneMore(EMPTY, acts[1..], acts[0]);
  }

  /** The states of that run. */
  lemma StaleStates(a: Address, d: Address, o: Address)
    returns (n1: Net, n2: Net, n3: Net, n4: Net, n5: Net, n6: Net, n7: Net, n8: Net, n9: Net)
    requires d != o
    ensures var acts := StaleRun(a, d, o);
      && Enabled(EMPTY, acts[0]) && n1 == Next(EMPTY, acts[0]) && Enabled(n1, acts[1]) && n2 == Next(n1, acts[1])
      && Enabled(n2, acts[2]) && n3 == Next(n2, acts[2]) && Enabled(n3, acts[3]) && n4 == Next(n3, acts[3])
      && Enabled(n4, acts[4]) && n5 == Next(n4, acts[4]) && Enabled(n5, acts[5]) && n6 == Next(n5, acts[5])
      && Enabled(n6, acts[6]) && n7 == Next(n6, acts[6]) && Enabled(n7, acts[7]) && n8 == Next(n7, acts[7])
      && Enabled(n8, acts[8]) && n9 == Next(n8, acts[8])
    ensures (a, o) in n9.answered && (o, a) !in n9.accepted && n9.attempts == {(a, d), (a, o)}
  {
    hide Next, Enabled;
    n1, n2, n3 := FirstCall(a, d);
    n4, n5, n6 := LateDial(n3, a, d);
    n7, n8, n9 := SecondCall(n6, a, d, o);
  }

  /** a asks d and gives up. */
  lemma FirstCall(a: Address, d: Address) returns (n1: Net, n2: Net, n3: Net)
    ensures Enabled(EMPTY, Answer(a, d)) && n1 == Next(EMPTY, Answer(a, d))
    ensures Enabled(n1, Ask(a)) && n2 == Next(n1, Ask(a)) && Enabled(n2, GiveUp(a)) && n3 == Next(n2, GiveUp(a))
    ensures Datagram(a, d, ConnectPacket(d)) in n3.sent && n3.attempts == {(a, d)} && n3.accepted == {}
    ensures forall x :: ModeOf(n3, x) == Idle
  {
    n1 := Next(EMPTY, Answer(a, d));
    n2 := Next(n1, Ask(a));
    n3 := Next(n2, GiveUp(a));
  }

  /** d dials, gets the Connect late, accepts, and fails to start its call. */
  lemma LateDial(n3: Net, a: Address, d: Address) returns (n4: Net, n5: Net, n6: Net)
    requires Datagram(a, d, ConnectPacket(d)) in n3.sent && n3.accepted == {} && forall x :: ModeOf(n3, x) == Idle
    ensures Enabled(n3, Dial(d)) && n4 == Next(n3, Dial(d))
    ensures Enabled(n4, Deliver(Datagram(a, d, ConnectPacket(d)))) && n5 == Next(n4, Deliver(Datagram(a, d, ConnectPacket(d))))
    ensures Enabled(n5, GiveUp(d)) && n6 == Next(n5, GiveUp(d))
    ensures Datagram(d, a, AcceptPacket(a)) in n6.sent && n6.attempts == n3.attempts && n6.accepted == {(d, a)}
    ensures forall x :: ModeOf(n6, x) == Idle
  {
    n4 := Next(n3, Dial(d));
    n5 := Next(n4, Deliver(Datagram(a, d, ConnectPacket(d))));
    n6 := Next(n5, GiveUp(d));
    forall x
      ensures ModeOf(n6, x) == Idle
    {
      assert ModeOf(n3, x) == Idle;
    }
  }

  /** a asks o, and the Accept of d comes in. */
  lemma SecondCall(n6: Net, a: Address, d: Address, o: Address) returns (n7: Net, n8: Net, n9: Net)
    requires Datagram(d, a, AcceptPacket(a)) in n6.sent && n6.accepted == {(d, a)} && n6.attempts == {(a, d)}
    requires d != o && forall x :: ModeOf(n6, x) == Idle
    ensures Enabled(n6, Answer(a, o)) && n7 == Next(n6, Answer(a, o))
    ensures Enabled(n7, Deliver(Datagram(d, a, AcceptPacket(a)))) && n8 == Next(n7, Deliver(Datagram(d, a, AcceptPacket(a))))
    ensures Enabled(n8, Start(a)) && n9 == Next(n8, Start(a))
    ensures (a, o) in n9.answered && (o, a) !in n9.accepted && n9.attempts == {(a, d), (a, o)}
  {
    AcceptIsNotConnect(d, a);
    n7 := Next(n6, Answer(a, o));
    n8 := Next(n7, Deliver(Datagram(d, a, AcceptPacket(a))));
    n9 := Next(n8, Start(a));
  }

  lemma OneMore(n: Net, acts: seq<Action>, act: Action)
    requires Enabled(n, act) && Run(Next(n, act), acts)
    ensures Run(n, [act] + acts) && After(n, [act] + acts) == After(Next(n, act), acts)
  {
    assert ([act] + acts)[1..] == acts;
  }

  /** All phones that a asks in this run are among these. */
  predicate AsksOnly(acts: seq<Action>, a: Address, asked: set<Address>)
    requires Run(EMPTY, acts)
  {
    forall p :: p in After(EMPTY, acts).attempts && p.0 == a ==> p.1 in asked
  }

  /** In every run in which a asks no others, a completes with o only if o has accepted it. */
  ghost predicate Trusted(a: Address, o: Address, asked: set<Address>)
  {
    forall acts: seq<Action> :: Run(EMPTY, acts) && AsksOnly(acts, a, asked) && (a, o) in After(EMPTY, acts).answered ==>
      (o, a) in After(EMPTY, acts).accepted
  }

  /** A completed answer means acceptance by the phone asked if and only if the phone asks no other. */
  lemma TrustedIffSole(a: Address, o: Address, asked: set<Address>)
    requires o in asked
    ensures Trusted(a, o, asked) <==> asked == {o}
  {
    if asked == {o} {
      forall acts: seq<Action> | Run(EMPTY, acts) && AsksOnly(acts, a, asked) && (a, o) in After(EMPTY, acts).answered
        ensures (o, a) in After(EMPTY, acts).accepted
      {
        SoleRemoteAccepted(acts, a, o);
      }
    } else {
      var d :| d in asked && d != o;
      StaleAccept(a, d, o);
      assert AsksOnly(StaleRun(a, d, o), a, asked);
    }
  }
}
