/** The star protocol of BMR/TrustedParty.cpp and BMR/Party.cpp: rounds of keys, pseudo-random
    outputs, garbled circuits and receipts over reliable first-in first-out channels, with
    message handlers run in any order. */
module Protocol {

  // A message of round k; the trusted party sends the first seven, the parties the last two.
  datatype Msg =
    | Delta(k: nat) | Keys(k: nat) | InMasks(k: nat) | OutMasks(k: nat) | SpdzWires(k: nat, op: nat) | Circuit(k: nat)
    | LaunchOnline | Prf(k: nat) | Received(k: nat)

  // The round of the delta a party has, and what it has stored, in order of arrival.
  datatype Party = Party(
    delta: nat, circuits: seq<Msg>, inMasks: seq<Msg>, outMasks: seq<Msg>, spdz: seq<Msg>, online: bool)

  // Before any delta or message.
  const BLANK := Party(0, [], [], [], [], false)

  // The counters of the trusted party, the last outputs of every party, and whether the circuit
  // of the current round has been sent.
  datatype Server = Server(round: nat, numPrf: nat, numReceived: nat, prfs: seq<Msg>, done: bool)

  // n parties, and the round in which _fill_keys reports the end of the program.
  datatype Config = Config(n: nat, rounds: nat)

  // BaseParty::NewMessage: the new store and what is sent back.
  function Handle(p: Party, m: Msg): (Party, seq<Msg>) {
    match m
    case Delta(k) => (p.(delta := k), [])
    case Keys(k) => (p, [Prf(k)])
    case InMasks(_) => (p.(inMasks := p.inMasks + [m]), [])
    case OutMasks(_) => (p.(outMasks := p.outMasks + [m]), [])
    case Circuit(k) => (p.(circuits := p.circuits + [m]), [Received(k)])
    case SpdzWires(_, _) => (p.(spdz := p.spdz + [m]), [])
    case LaunchOnline => (p.(circuits := p.circuits + [m], online := true), [])
    case _ => (p, [])
  }

  // NodeReady: the deltas, then the randomness of a new round.
  function Opening(k: nat): seq<Msg> {
    [Delta(k), Keys(k), InMasks(k), OutMasks(k)]
  }

  // garble and the broadcast after it.
  function Closing(k: nat): seq<Msg> {
    [SpdzWires(k, 0), SpdzWires(k, 1), SpdzWires(k, 2), Circuit(k)]
  }

  // BaseTrustedParty::NewMessage: the new counters and what every party is sent.
  function HandleServer(c: Config, s: Server, from: nat, m: Msg): (Server, seq<Msg>) {
    match m
    case Prf(_) =>
      var s1 := s.(prfs := if from < |s.prfs| then s.prfs[from := m] else s.prfs, numPrf := s.numPrf + 1);
      if s1.numPrf == c.n then (s1.(numPrf := 0), Closing(s.round)) else (s1, [])
    case Received(_) =>
      var s1 := s.(numReceived := s.numReceived + 1);
      if s1.numReceived != c.n then (s1, []) else
      if s.done then (s1.(numReceived := 0), [LaunchOnline])
      else (s1.(numReceived := 0, round := s.round + 1, done := s.round + 1 == c.rounds), Opening(s.round + 1))
    case _ => (s, [])
  }

  // All nodes and channels. handled and taken count the messages every party has handled, and
  // those of every party the trusted party has handled.
  datatype State = State(
    server: Server, parties: seq<Party>, to: seq<seq<Msg>>, back: seq<seq<Msg>>, handled: seq<nat>, taken: seq<nat>)

  function Start(c: Config): State {
    State(Server(1, 0, 0, seq(c.n, i => LaunchOnline), c.rounds == 1), seq(c.n, i => BLANK),
      seq(c.n, i => Opening(1)), seq(c.n, i => []), seq(c.n, i => 0), seq(c.n, i => 0))
  }

  ghost predicate Sized(c: Config, s: State) {
    |s.parties| == |s.to| == |s.back| == |s.handled| == |s.taken| == |s.server.prfs| == c.n
  }

  // Party i handles its next message.
  function PartyStep(s: State, i: nat): State
    requires i < |s.parties| && |s.to| == |s.back| == |s.handled| == |s.parties| && s.to[i] != []
  {
    var (p, replies) := Handle(s.parties[i], s.to[i][0]);
    s.(parties := s.parties[i := p], to := s.to[i := s.to[i][1..]], back := s.back[i := s.back[i] + replies],
       handled := s.handled[i := s.handled[i] + 1])
  }

  // The trusted party handles the next message of party i.
  function ServerStep(c: Config, s: State, i: nat): State
    requires i < |s.back| && |s.taken| == |s.back| && s.back[i] != []
  {
    var (sv, sent) := HandleServer(c, s.server, i, s.back[i][0]);
    s.(server := sv, back := s.back[i := s.back[i][1..]], taken := s.taken[i := s.taken[i] + 1],
       to := seq(|s.to|, j requires 0 <= j < |s.to| => s.to[j] + sent))
  }

  ghost predicate Next(c: Config, s: State, s': State) {
    && Sized(c, s)
    && exists i: nat :: i < c.n && ((s.to[i] != [] && s' == PartyStep(s, i)) ||
        (s.back[i] != [] && s' == ServerStep(c, s, i)))
  }

  ghost predicate Run(c: Config, run: seq<State>) {
    run != [] && run[0] == Start(c) && forall t :: 0 <= t < |run| - 1 ==> Next(c, run[t], run[t + 1])
  }

  // ----- the logs -----

  // Everything sent to a party up to the opening of round r.
  function Opened(r: nat): seq<Msg> {
    if r == 0 then [] else Opened(r - 1) + (if r > 1 then Closing(r - 1) else []) + Opening(r)
  }

  // Stage 0: waiting for outputs; 1: for receipts; 2: launched.
  function Log(r: nat, stage: nat): seq<Msg> {
    Opened(r) + (if stage >= 1 then Closing(r) else []) + if stage >= 2 then [LaunchOnline] else []
  }

  // The store of a party that has handled the log, and what it has sent.
  function After(log: seq<Msg>): Party {
    if log == [] then BLANK else Handle(After(log[..|log| - 1]), log[|log| - 1]).0
  }

  function Replies(log: seq<Msg>): seq<Msg> {
    if log == [] then [] else Replies(log[..|log| - 1]) + Handle(BLANK, log[|log| - 1]).1
  }

  // The d-th reply of a party.
  function Reply(d: nat): Msg {
    if d % 2 == 0 then Prf(d / 2 + 1) else Received(d / 2 + 1)
  }

  lemma {:induction false} RepliesConcat(a: seq<Msg>, b: seq<Msg>)
    ensures Replies(a + b) == Replies(a) + Replies(b)
  {
    if b == [] {
      assert a + b == a;
    } else {
      assert (a + b)[..|a + b| - 1] == a + b[..|b| - 1];
      RepliesConcat(a, b[..|b| - 1]);
    }
  }

  lemma RepliesOne(m: Msg)
    ensures Replies([m]) == Handle(BLANK, m).1
  {
    assert [m][..0] == [];
  }

  lemma RepliesParts(k: nat)
    ensures Replies(Opening(k)) == [Prf(k)] && Replies(Closing(k)) == [Received(k)] && Replies([LaunchOnline]) == []
  {
    assert Opening(k) == [Delta(k)] + [Keys(k)] + [InMasks(k)] + [OutMasks(k)];
    RepliesConcat([Delta(k)] + [Keys(k)] + [InMasks(k)], [OutMasks(k)]);
    RepliesConcat([Delta(k)] + [Keys(k)], [InMasks(k)]);
    RepliesConcat([Delta(k)], [Keys(k)]);
    RepliesOne(Delta(k));
    RepliesOne(Keys(k));
    RepliesOne(InMasks(k));
    RepliesOne(OutMasks(k));
    assert Closing(k) == [SpdzWires(k, 0)] + [SpdzWires(k, 1)] + [SpdzWires(k, 2)] + [Circuit(k)];
    RepliesConcat([SpdzWires(k, 0)] + [SpdzWires(k, 1)] + [SpdzWires(k, 2)], [Circuit(k)]);
    RepliesConcat([SpdzWires(k, 0)] + [SpdzWires(k, 1)], [SpdzWires(k, 2)]);
    RepliesConcat([SpdzWires(k, 0)], [SpdzWires(k, 1)]);
    RepliesOne(SpdzWires(k, 0));
    RepliesOne(SpdzWires(k, 1));
    RepliesOne(SpdzWires(k, 2));
    RepliesOne(Circuit(k));
    RepliesOne(LaunchOnline);
  }

  // A party answers each round's keys and circuit, in that order.
  ghost predicate InOrder(replies: seq<Msg>, len: nat) {
    |replies| == len && forall d :: 0 <= d < len ==> replies[d] == Reply(d)
  }

  lemma OpenedStep(r: nat)
    requires r >= 1
    ensures Opened(r) == if r == 1 then Opening(1) else Opened(r - 1) + Closing(r - 1) + Opening(r)
  {
    hide Opening, Closing;
    assert r == 1 ==> Opened(0) == [];
  }

  lemma {:induction false} RepliesOpened(r: nat)
    requires r >= 1
    ensures InOrder(Replies(Opened(r)), 2 * r - 1)
  {
    hide Opening, Closing, Opened, Replies, Handle;
    OpenedStep(r);
    RepliesParts(r);
    if r > 1 {
      RepliesOpened(r - 1);
      RepliesParts(r - 1);
      RepliesConcat(Opened(r - 1) + Closing(r - 1), Opening(r));
      RepliesConcat(Opened(r - 1), Closing(r - 1));
    }
  }

  lemma RepliesLog(r: nat, stage: nat)
    requires r >= 1 && stage <= 2
    ensures InOrder(Replies(Log(r, stage)), if stage == 0 then 2 * r - 1 else 2 * r)
  {
    hide Opening, Closing, Opened, Replies, Handle;
    RepliesOpened(r);
    RepliesParts(r);
    var o := Opened(r);
    if stage == 0 {
      assert Log(r, 0) == o;
    } else {
      RepliesConcat(o, Closing(r));
      if stage == 2 {
        RepliesConcat(o + Closing(r), [LaunchOnline]);
        assert Log(r, 2) == (o + Closing(r)) + [LaunchOnline];
      } else {
        assert Log(r, 1) == o + Closing(r);
      }
    }
  }

  lemma LogSteps(r: nat)
    requires r >= 1
    ensures Log(r, 1) == Log(r, 0) + Closing(r) && Log(r, 2) == Log(r, 1) + [LaunchOnline] &&
      Log(r + 1, 0) == Log(r, 1) + Opening(r + 1)
  {
    hide Opening, Closing;
    assert Opened(r + 1) == Opened(r) + Closing(r) + Opening(r + 1);
  }

  // ----- the invariant -----

  // The channels and the store of one party, when log is what it was sent.
  ghost predicate PartyOk(log: seq<Msg>, p: Party, to: seq<Msg>, back: seq<Msg>, h: nat, d: nat) {
    && h <= |log| && to == log[h..] && p == After(log[..h])
    && d <= |Replies(log[..h])| && back == Replies(log[..h])[d..]
  }

  function Count(taken: seq<nat>, v: nat): (k: nat)
    ensures k <= |taken|
  {
    if taken == [] then 0 else Count(taken[..|taken| - 1], v) + if taken[|taken| - 1] == v then 1 else 0
  }

  lemma {:induction false} CountUpdate(taken: seq<nat>, i: nat, v: nat)
    requires i < |taken| && taken[i] != v
    ensures Count(taken[i := v], v) == Count(taken, v) + 1
  {
    var n := |taken| - 1;
    if i == n {
      assert taken[i := v][..n] == taken[..n];
    } else {
      assert taken[i := v][..n] == taken[..n][i := v];
      CountUpdate(taken[..n], i, v);
    }
  }

  lemma {:induction false} CountAll(taken: seq<nat>, v: nat, i: nat)
    requires i < |taken|
    ensures Count(taken, v) == |taken| ==> taken[i] == v
    ensures Count(taken, v) == 0 ==> taken[i] != v
  {
    if i < |taken| - 1 {
      CountAll(taken[..|taken| - 1], v, i);
    }
  }

  lemma {:induction false} CountNone(taken: seq<nat>, v: nat)
    requires forall i :: 0 <= i < |taken| ==> taken[i] != v
    ensures Count(taken, v) == 0
  {
    if taken != [] {
      CountNone(taken[..|taken| - 1], v);
    }
  }

  // The replies the trusted party has handled in the current round.
  ghost predicate CountersOk(c: Config, s: Server, stage: nat, taken: seq<nat>) {
    && |taken| == |s.prfs| == c.n && 1 <= s.round <= c.rounds && s.done == (s.round == c.rounds)
    && stage <= 2 && (stage == 2 ==> s.done)
    && s.numPrf == (if stage == 0 then Count(taken, 2 * s.round - 1) else 0)
    && s.numReceived == (if stage == 1 then Count(taken, 2 * s.round) else 0)
    && (s.numPrf < c.n && s.numReceived < c.n)
    && (forall i :: 0 <= i < c.n ==> TakenOk(s, stage, i, taken[i]))
  }

  ghost predicate TakenOk(s: Server, stage: nat, i: nat, d: nat) {
    && i < |s.prfs| && s.round >= 1
    && (stage == 0 ==> d == 2 * s.round - 2 || (d == 2 * s.round - 1 && s.prfs[i] == Prf(s.round)))
    && (stage == 1 ==> d == 2 * s.round - 1 || d == 2 * s.round)
    && (stage == 2 ==> d == 2 * s.round)
  }

  ghost predicate InvAt(c: Config, s: State, stage: nat) {
    && Sized(c, s) && CountersOk(c, s.server, stage, s.taken)
    && forall i :: 0 <= i < c.n ==>
         PartyOk(Log(s.server.round, stage), s.parties[i], s.to[i], s.back[i], s.handled[i], s.taken[i])
  }

  ghost predicate Inv(c: Config, s: State) {
    exists stage: nat :: InvAt(c, s, stage)
  }

  lemma StartOk(c: Config)
    requires c.n >= 1 && c.rounds >= 1
    ensures InvAt(c, Start(c), 0)
  {
    var s := Start(c);
    assert Opened(0) == [] && Log(1, 0) == Opening(1);
    CountNone(s.taken, 1);
    forall i | 0 <= i < c.n ensures PartyOk(Log(1, 0), s.parties[i], s.to[i], s.back[i], s.handled[i], s.taken[i]) {
      assert Log(1, 0)[..0] == [];
    }
  }

  // A party handles one more message of the log.
  lemma PartyMoves(log: seq<Msg>, p: Party, to: seq<Msg>, back: seq<Msg>, h: nat, d: nat)
    requires PartyOk(log, p, to, back, h, d) && to != []
    ensures PartyOk(log, Handle(p, to[0]).0, to[1..], back + Handle(p, to[0]).1, h + 1, d)
  {
    var m := log[h];
    assert log[..h + 1][..h] == log[..h] && log[..h + 1][h] == m;
    assert Handle(p, m).1 == Handle(BLANK, m).1;
  }

  // The trusted party handles one more reply.
  lemma ReplyMoves(log: seq<Msg>, p: Party, to: seq<Msg>, back: seq<Msg>, h: nat, d: nat, len: nat)
    requires PartyOk(log, p, to, back, h, d) && back != [] && InOrder(Replies(log), len)
    ensures d < len && back[0] == Reply(d) && PartyOk(log, p, to, back[1..], h, d + 1)
  {
    assert log == log[..h] + log[h..];
    RepliesConcat(log[..h], log[h..]);
    assert back[0] == Replies(log[..h])[d] == Replies(log)[d];
  }

  // More is sent.
  lemma LogGrows(log: seq<Msg>, sent: seq<Msg>, p: Party, to: seq<Msg>, back: seq<Msg>, h: nat, d: nat)
    requires PartyOk(log, p, to, back, h, d)
    ensures PartyOk(log + sent, p, to + sent, back, h, d)
  {
    assert (log + sent)[..h] == log[..h];
  }

  lemma PartyStepOk(c: Config, s: State, stage: nat, i: nat)
    requires InvAt(c, s, stage) && i < c.n && s.to[i] != []
    ensures InvAt(c, PartyStep(s, i), stage)
  {
    hide Log, After, Replies, Handle, PartyOk, CountersOk;
    PartyMoves(Log(s.server.round, stage), s.parties[i], s.to[i], s.back[i], s.handled[i], s.taken[i]);
  }

  // The trusted party gets the outputs of party i for the current round.
  lemma PrfMoves(c: Config, s: Server, taken: seq<nat>, i: nat) returns (stage': nat)
    requires CountersOk(c, s, 0, taken) && i < c.n && taken[i] == 2 * s.round - 2
    ensures
      var (s', sent) := HandleServer(c, s, i, Prf(s.round));
      CountersOk(c, s', stage', taken[i := taken[i] + 1]) && Log(s'.round, stage') == Log(s.round, 0) + sent
  {
    hide Log, Opening, Closing;
    var r, taken' := s.round, taken[i := taken[i] + 1];
    var s' := HandleServer(c, s, i, Prf(r)).0;
    LogSteps(r);
    CountUpdate(taken, i, 2 * r - 1);
    assert Log(r, 0) + [] == Log(r, 0);
    stage' := if s.numPrf + 1 == c.n then 1 else 0;
    if stage' == 1 {
      forall j | 0 <= j < c.n ensures taken'[j] == 2 * r - 1 {
        CountAll(taken', 2 * r - 1, j);
      }
      CountNone(taken', 2 * r);
    }
    forall j | 0 <= j < c.n ensures TakenOk(s', stage', j, taken'[j]) {
      assert TakenOk(s, 0, j, taken[j]);
    }
  }

  // It gets the receipt of party i for the current round.
  lemma ReceiptMoves(c: Config, s: Server, taken: seq<nat>, i: nat) returns (stage': nat)
    requires CountersOk(c, s, 1, taken) && i < c.n && taken[i] == 2 * s.round - 1
    ensures
      var (s', sent) := HandleServer(c, s, i, Received(s.round));
      CountersOk(c, s', stage', taken[i := taken[i] + 1]) && Log(s'.round, stage') == Log(s.round, 1) + sent
  {
    hide Log, Opening, Closing;
    var r, taken' := s.round, taken[i := taken[i] + 1];
    var s' := HandleServer(c, s, i, Received(r)).0;
    LogSteps(r);
    CountUpdate(taken, i, 2 * r);
    assert Log(r, 1) + [] == Log(r, 1);
    stage' := if s.numReceived + 1 != c.n then 1 else if s.done then 2 else 0;
    if stage' != 1 {
      forall j | 0 <= j < c.n ensures taken'[j] == 2 * r {
        CountAll(taken', 2 * r, j);
      }
      CountNone(taken', 2 * r + 1);
    }
    forall j | 0 <= j < c.n ensures TakenOk(s', stage', j, taken'[j]) {
      assert TakenOk(s, 1, j, taken[j]);
    }
  }

  // How the trusted party reacts to the reply it gets, and which stage it enters.
  lemma ServerMoves(c: Config, s: Server, stage: nat, taken: seq<nat>, i: nat) returns (stage': nat)
    requires CountersOk(c, s, stage, taken) && i < c.n && taken[i] < if stage == 0 then 2 * s.round - 1 else 2 * s.round
    ensures
      var (s', sent) := HandleServer(c, s, i, Reply(taken[i]));
      CountersOk(c, s', stage', taken[i := taken[i] + 1]) && Log(s'.round, stage') == Log(s.round, stage) + sent
  {
    hide Log, HandleServer, Count;
    CountersSay(c, s, stage, taken, i);
    if stage == 0 {
      stage' := PrfMoves(c, s, taken, i);
    } else {
      stage' := ReceiptMoves(c, s, taken, i);
    }
  }

  lemma ServerStepOk(c: Config, s: State, stage: nat, i: nat) returns (stage': nat)
    requires InvAt(c, s, stage) && i < c.n && s.back[i] != []
    ensures InvAt(c, ServerStep(c, s, i), stage')
  {
    hide Log, After, Replies, PartyOk, CountersOk, HandleServer, Reply;
    StageOk(c, s.server, stage, s.taken);
    var log := Log(s.server.round, stage);
    RepliesLog(s.server.round, stage);
    ReplyMoves(log, s.parties[i], s.to[i], s.back[i], s.handled[i], s.taken[i],
               if stage == 0 then 2 * s.server.round - 1 else 2 * s.server.round);
    stage' := ServerMoves(c, s.server, stage, s.taken, i);
    var (sv, sent) := HandleServer(c, s.server, i, Reply(s.taken[i]));
    var s' := ServerStep(c, s, i);
    StageOk(c, sv, stage', s'.taken);
    forall j | 0 <= j < c.n
      ensures PartyOk(log + sent, s'.parties[j], s'.to[j], s'.back[j], s'.handled[j], s'.taken[j])
    {
      LogGrows(log, sent, s.parties[j], s.to[j], s'.back[j], s.handled[j], s'.taken[j]);
    }
  }

  lemma StageOk(c: Config, s: Server, stage: nat, taken: seq<nat>)
    requires CountersOk(c, s, stage, taken)
    ensures stage <= 2 && s.round >= 1 && |taken| == |s.prfs| == c.n
  {
  }

  // Every reachable state satisfies the invariant.
  lemma {:induction false} RunOk(c: Config, run: seq<State>, t: nat)
    requires c.n >= 1 && c.rounds >= 1 && Run(c, run) && t < |run|
    ensures Inv(c, run[t])
  {
    hide InvAt;
    if t == 0 {
      StartOk(c);
    } else {
      RunOk(c, run, t - 1);
      assert Next(c, run[t - 1], run[t - 1 + 1]);
      var s := run[t - 1];
      var stage: nat :| InvAt(c, s, stage);
      var i: nat :| i < c.n && ((s.to[i] != [] && run[t] == PartyStep(s, i)) ||
          (s.back[i] != [] && run[t] == ServerStep(c, s, i)));
      if s.to[i] != [] && run[t] == PartyStep(s, i) {
        PartyStepOk(c, s, stage, i);
      } else {
        var stage' := ServerStepOk(c, s, stage, i);
      }
    }
  }

  // ----- safety -----

  // When the last reply completes a set, the trusted party garbles from exactly one message of
  // the current round of every party.
  lemma GarblesCurrent(c: Config, run: seq<State>, t: nat, i: nat, j: nat)
    requires c.n >= 1 && c.rounds >= 1 && Run(c, run) && t < |run|
    requires i < c.n && Sized(c, run[t]) && run[t].back[i] != [] && run[t].back[i][0].Prf? &&
      run[t].server.numPrf + 1 == c.n
    ensures var s := run[t].server;
      HandleServer(c, s, i, run[t].back[i][0]).1 == Closing(s.round) &&
      (j < c.n ==>
        HandleServer(c, s, i, run[t].back[i][0]).0.prfs[j] == Prf(s.round) &&
        run[t].taken[j] == 2 * s.round - if j == i then 2 else 1)
  {
    hide Run, Log, Replies, After, Closing, CountersOk;
    RunOk(c, run, t);
    var s := run[t];
    var stage: nat :| InvAt(c, s, stage);
    StageOk(c, s.server, stage, s.taken);
    CountersSay(c, s.server, stage, s.taken, i);
    var len := if stage == 0 then 2 * s.server.round - 1 else 2 * s.server.round;
    RepliesLog(s.server.round, stage);
    ReplyMoves(Log(s.server.round, stage), s.parties[i], s.to[i], s.back[i], s.handled[i], s.taken[i], len);
    if j < c.n {
      LastReply(c, s.server, s.taken, i, j);
    }
  }

  lemma CountersSay(c: Config, s: Server, stage: nat, taken: seq<nat>, i: nat)
    requires CountersOk(c, s, stage, taken) && i < c.n
    ensures TakenOk(s, stage, i, taken[i])
  {
  }

  // With all but one reply in, the missing one is that of i.
  lemma LastReply(c: Config, s: Server, taken: seq<nat>, i: nat, j: nat)
    requires CountersOk(c, s, 0, taken) && s.numPrf + 1 == c.n && i < c.n && j < c.n && taken[i] == 2 * s.round - 2
    ensures j != i ==> taken[j] == 2 * s.round - 1 && s.prfs[j] == Prf(s.round)
  {
    var v := 2 * s.round - 1;
    CountUpdate(taken, i, v);
    CountAll(taken[i := v], v, j);
    assert TakenOk(s, 0, j, taken[j]);
  }

  // The round a message belongs to; the launch belongs to none.
  function RoundOf(m: Msg): nat {
    match m
    case LaunchOnline => 0
    case SpdzWires(k, _) => k
    case m => m.k
  }

  function Past(r: nat): seq<Msg> {
    if r <= 1 then [] else Opened(r - 1) + Closing(r - 1)
  }

  function Current(r: nat, stage: nat): seq<Msg> {
    Opening(r) + (if stage >= 1 then Closing(r) else []) + if stage >= 2 then [LaunchOnline] else []
  }

  lemma Regroup(a: seq<Msg>, b: seq<Msg>, c: seq<Msg>, d: seq<Msg>)
    ensures a + b + c + d == a + (b + c + d)
  {
  }

  lemma LogSplits(r: nat, stage: nat)
    requires r >= 1
    ensures Log(r, stage) == Past(r) + Current(r, stage)
  {
    hide Opening, Closing;
    OpenedStep(r);
    assert Opened(r) == Past(r) + Opening(r);
    Regroup(Past(r), Opening(r), if stage >= 1 then Closing(r) else [], if stage >= 2 then [LaunchOnline] else []);
  }

  // Without its last message the past does not contain all its replies.
  lemma PastReplies(r: nat, h: nat)
    requires r >= 1 && h < |Past(r)|
    ensures |Replies(Past(r)[..h])| < 2 * r - 2
  {
    hide Opened, Opening, Closing, Replies, Handle;
    var past, k := Past(r), r - 1;
    var most := Opened(k) + [SpdzWires(k, 0), SpdzWires(k, 1), SpdzWires(k, 2)];
    ClosingIs(k);
    assert past == most + [Circuit(k)];
    RepliesOpened(k);
    RepliesParts(k);
    RepliesConcat(Opened(k), Closing(k));
    RepliesConcat(most, [Circuit(k)]);
    RepliesOne(Circuit(k));
    CircuitReplies(k);
    assert past[..h] == most[..h];
    assert most == most[..h] + most[h..];
    RepliesConcat(most[..h], most[h..]);
  }

  lemma ClosingIs(k: nat)
    ensures Closing(k) == [SpdzWires(k, 0), SpdzWires(k, 1), SpdzWires(k, 2)] + [Circuit(k)]
  {
  }

  lemma CircuitReplies(k: nat)
    ensures Handle(BLANK, Circuit(k)).1 == [Received(k)]
  {
  }

  // Whoever has acknowledged all earlier rounds has handled all their messages.
  lemma HandledPast(r: nat, stage: nat, p: Party, to: seq<Msg>, back: seq<Msg>, h: nat, d: nat)
    requires r >= 1 && stage <= 2 && PartyOk(Log(r, stage), p, to, back, h, d) && d >= 2 * r - 2
    ensures h >= |Past(r)|
  {
    hide Opened, After, Replies, Past, Current, Log;
    if h < |Past(r)| {
      PrefixReplies(r, stage, h);
    }
  }

  lemma PrefixReplies(r: nat, stage: nat, h: nat)
    requires r >= 1 && h < |Past(r)|
    ensures h <= |Log(r, stage)| && |Replies(Log(r, stage)[..h])| < 2 * r - 2
  {
    hide Past, Current, Log, Replies;
    LogSplits(r, stage);
    PastReplies(r, h);
    assert Log(r, stage)[..h] == Past(r)[..h];
  }

  // The channels carry messages of the current round only: no party is ever a round ahead, or
  // behind.
  lemma OneRound(c: Config, run: seq<State>, t: nat, i: nat)
    requires c.n >= 1 && c.rounds >= 1 && Run(c, run) && t < |run| && i < c.n
    ensures Sized(c, run[t])
    ensures 2 * run[t].server.round - 2 <= run[t].taken[i] <= 2 * run[t].server.round
    ensures forall m :: m in run[t].to[i] ==> m == LaunchOnline || RoundOf(m) == run[t].server.round
    ensures forall m :: m in run[t].back[i] ==> RoundOf(m) == run[t].server.round
  {
    hide Run, Log, Replies, After, CountersOk, Past;
    RunOk(c, run, t);
    var s := run[t];
    var stage: nat :| InvAt(c, s, stage);
    var r := s.server.round;
    StageOk(c, s.server, stage, s.taken);
    CountersSay(c, s.server, stage, s.taken, i);
    var log := Log(r, stage);
    assert PartyOk(log, s.parties[i], s.to[i], s.back[i], s.handled[i], s.taken[i]);
    HandledPast(r, stage, s.parties[i], s.to[i], s.back[i], s.handled[i], s.taken[i]);
    LogSplits(r, stage);
    CurrentRound(r, stage);
    assert s.to[i] == Current(r, stage)[s.handled[i] - |Past(r)|..];
    RepliesLog(r, stage);
    RepliesConcat(log[..s.handled[i]], log[s.handled[i]..]);
    assert log == log[..s.handled[i]] + log[s.handled[i]..];
    forall m | m in s.back[i] ensures RoundOf(m) == r {
      var x :| 0 <= x < |s.back[i]| && s.back[i][x] == m;
      assert m == Replies(log)[s.taken[i] + x] == Reply(s.taken[i] + x);
    }
  }

  lemma CurrentRound(r: nat, stage: nat)
    ensures forall m :: m in Current(r, stage) ==> m == LaunchOnline || RoundOf(m) == r
  {
  }

  // ----- what the parties hold when the online phase starts -----

  lemma AfterStep(log: seq<Msg>, m: Msg)
    ensures After(log + [m]) == Handle(After(log), m).0
  {
    assert (log + [m])[..|log|] == log;
  }

  // One round's messages, in order.
  lemma AfterParts(log: seq<Msg>, k: nat)
    ensures var p := After(log);
      After(log + Opening(k)) ==
      p.(delta := k, inMasks := p.inMasks + [InMasks(k)], outMasks := p.outMasks + [OutMasks(k)])
    ensures var p := After(log);
      After(log + Closing(k)) == p.(circuits := p.circuits + [Circuit(k)],
          spdz := p.spdz + [SpdzWires(k, 0)] + [SpdzWires(k, 1)] + [SpdzWires(k, 2)])
  {
    hide After;
    assert log + Opening(k) == log + [Delta(k)] + [Keys(k)] + [InMasks(k)] + [OutMasks(k)];
    AfterStep(log, Delta(k));
    AfterStep(log + [Delta(k)], Keys(k));
    AfterStep(log + [Delta(k)] + [Keys(k)], InMasks(k));
    AfterStep(log + [Delta(k)] + [Keys(k)] + [InMasks(k)], OutMasks(k));
    assert log + Closing(k) == log + [SpdzWires(k, 0)] + [SpdzWires(k, 1)] + [SpdzWires(k, 2)] + [Circuit(k)];
    AfterStep(log, SpdzWires(k, 0));
    AfterStep(log + [SpdzWires(k, 0)], SpdzWires(k, 1));
    AfterStep(log + [SpdzWires(k, 0)] + [SpdzWires(k, 1)], SpdzWires(k, 2));
    AfterStep(log + [SpdzWires(k, 0)] + [SpdzWires(k, 1)] + [SpdzWires(k, 2)], Circuit(k));
  }

  // The wires for conversion of r rounds: of every round those of the three kinds, in their order.
  function Wires(r: nat): (wires: seq<Msg>)
    ensures |wires| == 3 * r && forall x :: 0 <= x < 3 * r ==> wires[x] == SpdzWires(x / 3 + 1, x % 3)
  {
    if r == 0 then [] else Wires(r - 1) + [SpdzWires(r, 0)] + [SpdzWires(r, 1)] + [SpdzWires(r, 2)]
  }

  // r circuits, and m masks of both kinds, one a round in round order.
  ghost predicate Holds(p: Party, r: nat, m: nat, online: bool) {
    && p.circuits == seq(r, k requires 0 <= k < r => Circuit(k + 1)) + (if online then [LaunchOnline] else [])
    && p.inMasks == seq(m, k requires 0 <= k < m => InMasks(k + 1))
    && p.outMasks == seq(m, k requires 0 <= k < m => OutMasks(k + 1))
    && p.online == online && p.spdz == Wires(r) && p.delta == m
  }

  lemma {:induction false} AfterOpened(r: nat)
    requires r >= 1
    ensures Holds(After(Opened(r)), r - 1, r, false)
  {
    hide After, Opening, Closing, Opened;
    OpenedStep(r);
    if r == 1 {
      AfterParts([], 1);
      AfterNothing();
      assert [] + Opening(1) == Opening(1);
    } else {
      AfterOpened(r - 1);
      AfterParts(Opened(r - 1), r - 1);
      AfterParts(Opened(r - 1) + Closing(r - 1), r);
    }
  }

  lemma AfterNothing()
    ensures After([]) == BLANK
  {
  }

  lemma AfterAll(r: nat)
    requires r >= 1
    ensures Holds(After(Log(r, 2)), r, r, true)
  {
    hide After, Opening, Closing, Opened;
    AfterOpened(r);
    AfterParts(Opened(r), r);
    AfterStep(Opened(r) + Closing(r), LaunchOnline);
  }

  // ----- in which order a party handles messages -----

  // What a message is handled with: the keys of a round with its delta, the circuit of a round when its masks
  // and wires are stored, and the launch when nothing is missing.
  ghost predicate Ready(c: Config, p: Party, m: Msg) {
    match m
    case Keys(k) => p.delta == k
    case Circuit(k) => k >= 1 && Holds(p.(spdz := Wires(k - 1)), k - 1, k, false) && p.spdz == Wires(k)
    case LaunchOnline => Holds(p, c.rounds, c.rounds, false)
    case _ => true
  }

  ghost predicate AllReady(c: Config, log: seq<Msg>) {
    forall h :: 0 <= h < |log| ==> Ready(c, After(log[..h]), log[h])
  }

  lemma ReadyStep(c: Config, log: seq<Msg>, m: Msg)
    requires AllReady(c, log) && Ready(c, After(log), m)
    ensures AllReady(c, log + [m])
  {
    hide Ready, After;
    var log' := log + [m];
    forall h | 0 <= h < |log'| ensures Ready(c, After(log'[..h]), log'[h]) {
      if h < |log| {
        assert log'[..h] == log[..h] && log'[h] == log[h];
      } else {
        assert log'[..h] == log;
      }
    }
  }

  lemma ReadyOpening(c: Config, log: seq<Msg>, k: nat)
    requires AllReady(c, log)
    ensures AllReady(c, log + Opening(k))
  {
    hide After, AllReady;
    AfterStep(log, Delta(k));
    ReadyStep(c, log, Delta(k));
    ReadyStep(c, log + [Delta(k)], Keys(k));
    ReadyStep(c, log + [Delta(k)] + [Keys(k)], InMasks(k));
    ReadyStep(c, log + [Delta(k)] + [Keys(k)] + [InMasks(k)], OutMasks(k));
    assert log + Opening(k) == log + [Delta(k)] + [Keys(k)] + [InMasks(k)] + [OutMasks(k)];
  }

  lemma ReadyClosing(c: Config, log: seq<Msg>, k: nat)
    requires AllReady(c, log) && k >= 1 && Holds(After(log), k - 1, k, false)
    ensures AllReady(c, log + Closing(k))
  {
    hide After, AllReady;
    var log0, log1 := log + [SpdzWires(k, 0)], log + [SpdzWires(k, 0)] + [SpdzWires(k, 1)];
    AfterStep(log, SpdzWires(k, 0));
    AfterStep(log0, SpdzWires(k, 1));
    AfterStep(log1, SpdzWires(k, 2));
    ReadyStep(c, log, SpdzWires(k, 0));
    ReadyStep(c, log0, SpdzWires(k, 1));
    ReadyStep(c, log1, SpdzWires(k, 2));
    ReadyStep(c, log1 + [SpdzWires(k, 2)], Circuit(k));
    assert log + Closing(k) == log1 + [SpdzWires(k, 2)] + [Circuit(k)];
  }

  lemma {:induction false} ReadyOpened(c: Config, r: nat)
    requires r >= 1
    ensures AllReady(c, Opened(r))
  {
    hide After, AllReady, Opening, Closing, Opened;
    OpenedStep(r);
    if r == 1 {
      ReadyNothing(c);
      ReadyOpening(c, [], 1);
      assert [] + Opening(1) == Opening(1);
    } else {
      ReadyOpened(c, r - 1);
      AfterOpened(r - 1);
      ReadyClosing(c, Opened(r - 1), r - 1);
      ReadyOpening(c, Opened(r - 1) + Closing(r - 1), r);
    }
  }

  lemma ReadyNothing(c: Config)
    ensures AllReady(c, [])
  {
  }

  lemma ReadyLog(c: Config, r: nat, stage: nat)
    requires r >= 1 && (stage >= 2 ==> r == c.rounds)
    ensures AllReady(c, Log(r, stage))
  {
    hide After, AllReady, Opening, Closing, Opened;
    ReadyOpened(c, r);
    var log := Opened(r);
    if stage == 0 {
      assert Log(r, 0) == log;
    } else {
      AfterOpened(r);
      AfterParts(log, r);
      ReadyClosing(c, log, r);
      if stage == 1 {
        assert Log(r, 1) == log + Closing(r);
      } else {
        WiresNext(r);
        ReadyStep(c, log + Closing(r), LaunchOnline);
      }
    }
  }

  lemma WiresNext(r: nat)
    requires r >= 1
    ensures Wires(r) == Wires(r - 1) + [SpdzWires(r, 0)] + [SpdzWires(r, 1)] + [SpdzWires(r, 2)]
  {
  }

  // Whatever message a party handles next, it has what it needs for it: the delta of the round when the keys
  // come, masks and wires of the round when the circuit comes.
  lemma NextReady(c: Config, run: seq<State>, t: nat, i: nat)
    requires c.n >= 1 && c.rounds >= 1 && Run(c, run) && t < |run| && i < c.n
    ensures Sized(c, run[t]) && (run[t].to[i] != [] ==> Ready(c, run[t].parties[i], run[t].to[i][0]))
  {
    hide Run, Replies, After, Log, Ready;
    RunOk(c, run, t);
    var s := run[t];
    var stage: nat :| InvAt(c, s, stage);
    ReadyLog(c, s.server.round, stage);
    assert PartyOk(Log(s.server.round, stage), s.parties[i], s.to[i], s.back[i], s.handled[i], s.taken[i]);
  }

  // ----- the launch -----

  lemma {:induction false} OnlineOnlyAfterLaunch(log: seq<Msg>)
    requires LaunchOnline !in log
    ensures !After(log).online
  {
    if log != [] {
      OnlineOnlyAfterLaunch(log[..|log| - 1]);
    }
  }

  lemma {:induction false} NoLaunchOpened(r: nat)
    ensures LaunchOnline !in Opened(r)
  {
    if r > 0 {
      NoLaunchOpened(r - 1);
    }
  }

  // A party that is online holds exactly one circuit, one message of input masks and one of
  // output masks for every round, in round order; the launch token comes last.
  lemma OnlineHolds(c: Config, run: seq<State>, t: nat, i: nat)
    requires c.n >= 1 && c.rounds >= 1 && Run(c, run) && t < |run| && i < c.n
    ensures Sized(c, run[t]) && (run[t].parties[i].online ==> Holds(run[t].parties[i], c.rounds, c.rounds, true))
  {
    hide Run, Replies, After, Opening, Opened;
    RunOk(c, run, t);
    var s := run[t];
    var stage: nat :| InvAt(c, s, stage);
    var r := s.server.round;
    var log := Log(r, stage);
    assert PartyOk(log, s.parties[i], s.to[i], s.back[i], s.handled[i], s.taken[i]);
    if s.parties[i].online {
      NoLaunchOpened(r);
      if LaunchOnline !in log[..s.handled[i]] {
        OnlineOnlyAfterLaunch(log[..s.handled[i]]);
      }
      assert log[..s.handled[i]] == log;
      AfterAll(r);
    }
  }

  // ----- progress -----

  // A state in which no message is under way is the end: every party is online.
  lemma QuietIsOnline(c: Config, run: seq<State>, t: nat, i: nat)
    requires c.n >= 1 && c.rounds >= 1 && Run(c, run) && t < |run| && i < c.n
    requires Sized(c, run[t]) && forall j :: 0 <= j < c.n ==> run[t].to[j] == [] && run[t].back[j] == []
    ensures Holds(run[t].parties[i], c.rounds, c.rounds, true)
  {
    hide Run, Replies, After, Log;
    RunOk(c, run, t);
    var s := run[t];
    var stage: nat :| InvAt(c, s, stage);
    var r := s.server.round;
    var log := Log(r, stage);
    StageOk(c, s.server, stage, s.taken);
    RepliesLog(r, stage);
    var v := if stage == 0 then 2 * r - 1 else 2 * r;
    forall j | 0 <= j < c.n ensures s.taken[j] == v && s.parties[j] == After(log) {
      assert PartyOk(log, s.parties[j], s.to[j], s.back[j], s.handled[j], s.taken[j]);
      assert log[..s.handled[j]] == log;
    }
    CountFull(s.taken, v);
    AfterAll(r);
  }

  lemma {:induction false} CountFull(taken: seq<nat>, v: nat)
    requires forall i :: 0 <= i < |taken| ==> taken[i] == v
    ensures Count(taken, v) == |taken|
  {
    if taken != [] {
      CountFull(taken[..|taken| - 1], v);
    }
  }

  function Sum(s: seq<nat>): nat {
    if s == [] then 0 else Sum(s[..|s| - 1]) + s[|s| - 1]
  }

  lemma {:induction false} SumUpdate(s: seq<nat>, i: nat)
    requires i < |s|
    ensures Sum(s[i := s[i] + 1]) == Sum(s) + 1
  {
    var n := |s| - 1;
    if i == n {
      assert s[i := s[i] + 1][..n] == s[..n];
    } else {
      assert s[i := s[i] + 1][..n] == s[..n][i := s[i] + 1];
      SumUpdate(s[..n], i);
    }
  }

  lemma {:induction false} SumZero(n: nat)
    ensures Sum(seq(n, i => 0)) == 0
  {
    if n > 0 {
      assert seq(n, i => 0)[..n - 1] == seq(n - 1, i => 0);
      SumZero(n - 1);
    }
  }

  lemma {:induction false} SumBound(s: seq<nat>, b: nat)
    requires forall i :: 0 <= i < |s| ==> s[i] <= b
    ensures Sum(s) <= |s| * b
  {
    if s != [] {
      SumBound(s[..|s| - 1], b);
      assert |s| * b == (|s| - 1) * b + b;
    }
  }

  lemma {:induction false} OpenedLength(r: nat)
    requires r >= 1
    ensures |Opened(r)| == 8 * r - 4
  {
    OpenedStep(r);
    if r > 1 {
      OpenedLength(r - 1);
    }
  }

  // Every step handles one message.
  lemma StepHandles(c: Config, s: State, s': State)
    requires Next(c, s, s')
    ensures Sum(s'.handled) + Sum(s'.taken) == Sum(s.handled) + Sum(s.taken) + 1
  {
    hide Handle, HandleServer, Sum;
    var i: nat :| i < c.n && ((s.to[i] != [] && s' == PartyStep(s, i)) ||
        (s.back[i] != [] && s' == ServerStep(c, s, i)));
    SumUpdate(s.handled, i);
    SumUpdate(s.taken, i);
  }

  // Every step handles one message.
  lemma {:induction false} StepsHandled(c: Config, run: seq<State>, t: nat)
    requires Run(c, run) && t < |run|
    ensures Sum(run[t].handled) + Sum(run[t].taken) == t
  {
    hide Next, Sum;
    if t == 0 {
      SumZero(c.n);
    } else {
      StepsHandled(c, run, t - 1);
      assert Next(c, run[t - 1], run[t - 1 + 1]);
      StepHandles(c, run[t - 1], run[t]);
    }
  }

  // Every run ends.
  lemma RunsEnd(c: Config, run: seq<State>)
    requires c.n >= 1 && c.rounds >= 1 && Run(c, run)
    ensures |run| - 1 <= c.n * (8 * c.rounds + 1) + c.n * (2 * c.rounds)
  {
    hide Replies, After, Opened, Opening, Closing;
    var t := |run| - 1;
    RunOk(c, run, t);
    StepsHandled(c, run, t);
    var s := run[t];
    var stage: nat :| InvAt(c, s, stage);
    LogLength(s.server.round, stage);
    forall i | 0 <= i < c.n ensures s.handled[i] <= 8 * c.rounds + 1 && s.taken[i] <= 2 * c.rounds {
      assert PartyOk(Log(s.server.round, stage), s.parties[i], s.to[i], s.back[i], s.handled[i], s.taken[i]);
      assert TakenOk(s.server, stage, i, s.taken[i]);
    }
    SumBound(s.handled, 8 * c.rounds + 1);
    SumBound(s.taken, 2 * c.rounds);
  }

  lemma LogLength(r: nat, stage: nat)
    requires r >= 1
    ensures |Log(r, stage)| <= 8 * r + 1
  {
    OpenedLength(r);
  }

  // ----- the message handlers -----

  class TrustedParty {
    const c: Config
    var round: nat
    var numPrfReceived: nat
    var receivedGcReceived: nat
    var prfOutputs: seq<Msg>
    var doneFilling: bool

    function Now(): Server
      reads this
    {
      Server(round, numPrfReceived, receivedGcReceived, prfOutputs, doneFilling)
    }

    constructor (c0: Config)
      ensures c == c0 && Now() == Start(c0).server
    {
      c := c0;
      round, numPrfReceived, receivedGcReceived, doneFilling := 1, 0, 0, c0.rounds == 1;
      prfOutputs := seq(c0.n, i => LaunchOnline);
    }

    // NodeReady, for a new round.
    method NodeReady() returns (sent: seq<Msg>)
      modifies this`round, this`doneFilling
      ensures round == old(round) + 1 && doneFilling == (round == c.rounds) && sent == Opening(round)
    {
      round := round + 1;
      sent := [Delta(round)];
      doneFilling := round == c.rounds;
      sent := sent + [Keys(round), InMasks(round)];
      sent := sent + [OutMasks(round)];
    }

    // Returns what every party is sent.
    method NewMessage(from: nat, m: Msg) returns (sent: seq<Msg>)
      requires from < |prfOutputs|
      modifies this
      ensures Now() == HandleServer(c, old(Now()), from, m).0 && sent == HandleServer(c, old(Now()), from, m).1
    {
      sent := [];
      match m {
        case Prf(_) =>
          prfOutputs := prfOutputs[from := m];
          numPrfReceived := numPrfReceived + 1;
          if numPrfReceived == c.n {
            numPrfReceived := 0;
            sent := [SpdzWires(round, 0), SpdzWires(round, 1), SpdzWires(round, 2)] + [Circuit(round)];
          }
        case Received(_) =>
          receivedGcReceived := receivedGcReceived + 1;
          if receivedGcReceived == c.n {
            receivedGcReceived := 0;
            if doneFilling {
              sent := [LaunchOnline];
            } else {
              sent := NodeReady();
            }
          }
        case _ =>
      }
    }
  }

  // The stores from round k + 1 on.
  ghost predicate Remaining(circuits: seq<Msg>, inputs: seq<Msg>, outputs: seq<Msg>, k: nat, rounds: nat) {
    && |circuits| == |inputs| + 1 == |outputs| + 1 == rounds - k + 1 && circuits[rounds - k] == LaunchOnline
    && (forall j :: 0 <= j < rounds - k ==> circuits[j] == Circuit(k + j + 1))
    && (forall j :: 0 <= j < rounds - k ==> inputs[j] == InMasks(k + j + 1))
    && (forall j :: 0 <= j < rounds - k ==> outputs[j] == OutMasks(k + j + 1))
  }

  lemma NextRemaining(circuits: seq<Msg>, inputs: seq<Msg>, outputs: seq<Msg>, k: nat, rounds: nat,
                      circuits': seq<Msg>, inputs': seq<Msg>, outputs': seq<Msg>)
    requires k < rounds && Remaining(circuits, inputs, outputs, k, rounds)
    requires circuits[1..] == circuits' && inputs[1..] == inputs' && outputs[1..] == outputs'
    ensures circuits[0] == Circuit(k + 1) && inputs[0] == InMasks(k + 1) && outputs[0] == OutMasks(k + 1)
    ensures Remaining(circuits', inputs', outputs', k + 1, rounds)
  {
    var n := rounds - k - 1;
    forall j | 0 <= j < n
      ensures circuits'[j] == Circuit(k + 1 + j + 1)
      ensures inputs'[j] == InMasks(k + 1 + j + 1) && outputs'[j] == OutMasks(k + 1 + j + 1)
    {
      assert circuits'[j] == circuits[j + 1] && inputs'[j] == inputs[j + 1] && outputs'[j] == outputs[j + 1];
    }
    assert circuits'[n] == circuits[n + 1];
  }

  class ProgramParty {
    var delta: nat
    var garbledCircuits: seq<Msg>
    var inputMasksStore: seq<Msg>
    var outputMasksStore: seq<Msg>
    var spdzWires: seq<Msg>
    var online: bool

    function Now(): Party
      reads this
    {
      Party(delta, garbledCircuits, inputMasksStore, outputMasksStore, spdzWires, online)
    }

    constructor ()
      ensures Now() == BLANK
    {
      delta, garbledCircuits, inputMasksStore, outputMasksStore, spdzWires, online := 0, [], [], [], [], false;
    }

    // Returns what the trusted party is sent.
    method NewMessage(m: Msg) returns (sent: seq<Msg>)
      modifies this
      ensures Now() == Handle(old(Now()), m).0 && sent == Handle(old(Now()), m).1
    {
      sent := [];
      match m {
        case Keys(k) => sent := [Prf(k)];
        case InMasks(_) => inputMasksStore := inputMasksStore + [m];
        case OutMasks(_) => outputMasksStore := outputMasksStore + [m];
        case Circuit(k) =>
          garbledCircuits := garbledCircuits + [m];
          sent := [Received(k)];
        case LaunchOnline =>
          garbledCircuits := garbledCircuits + [m];
          online := true;
        case Delta(k) => delta := k;
        case SpdzWires(_, _) => spdzWires := spdzWires + [m];
        case _ =>
      }
    }

    // load_garbled_circuit: one circuit with the masks of its round, or a missing message.
    method LoadGarbledCircuit() returns (ok: bool, circuit: Msg, output: Msg, input: Msg)
      modifies this
      ensures ok == old(garbledCircuits != [] && outputMasksStore != [] && inputMasksStore != [])
      ensures ok ==> old(garbledCircuits) == [circuit] + garbledCircuits
      ensures ok ==> old(outputMasksStore) == [output] + outputMasksStore
      ensures ok ==> old(inputMasksStore) == [input] + inputMasksStore
      ensures spdzWires == old(spdzWires) && online == old(online) && delta == old(delta)
    {
      ok, circuit, output, input := false, LaunchOnline, LaunchOnline, LaunchOnline;
      if garbledCircuits == [] { return; }
      circuit, garbledCircuits := garbledCircuits[0], garbledCircuits[1..];
      if outputMasksStore == [] { return; }
      output, outputMasksStore := outputMasksStore[0], outputMasksStore[1..];
      if inputMasksStore == [] { return; }
      input, inputMasksStore := inputMasksStore[0], inputMasksStore[1..];
      ok := true;
    }

    // The online phase: it goes on as long as no message is missing. When a party is online every round finds a
    // circuit and masks of its own round.
    method Evaluate(rounds: nat) returns (ok: bool, used: seq<(Msg, Msg, Msg)>)
      modifies this
      ensures ok <==>
        old(|garbledCircuits|) >= rounds && old(|outputMasksStore|) >= rounds && old(|inputMasksStore|) >= rounds
      ensures old(Holds(Now(), rounds, rounds, true)) ==>
        ok && garbledCircuits == [LaunchOnline] && inputMasksStore == outputMasksStore == []
      ensures old(Holds(Now(), rounds, rounds, true)) ==>
        used == seq(rounds, k requires 0 <= k < rounds => (Circuit(k + 1), OutMasks(k + 1), InMasks(k + 1)))
    {
      ok, used := true, [];
      ghost var held := Holds(Now(), rounds, rounds, true);
      for k := 0 to rounds
        invariant |old(garbledCircuits)| == |garbledCircuits| + k && |old(outputMasksStore)| == |outputMasksStore| + k
        invariant |old(inputMasksStore)| == |inputMasksStore| + k && ok && |used| == k
        invariant held ==> Remaining(garbledCircuits, inputMasksStore, outputMasksStore, k, rounds)
        invariant held ==> forall j :: 0 <= j < k ==> used[j] == (Circuit(j + 1), OutMasks(j + 1), InMasks(j + 1))
      {
        ghost var circuits, inputs, outputs := garbledCircuits, inputMasksStore, outputMasksStore;
        var circuit, output, input;
        ok, circuit, output, input := LoadGarbledCircuit();
        if !ok {
          return;
        }
        assert circuits[1..] == garbledCircuits && inputs[1..] == inputMasksStore && outputs[1..] == outputMasksStore;
        if held {
          NextRemaining(circuits, inputs, outputs, k, rounds, garbledCircuits, inputMasksStore, outputMasksStore);
        }
        used := used + [(circuit, output, input)];
      }
    }
  }
}
