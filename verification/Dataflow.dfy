/** What a block of instructions on registers and memory means, and why rounds of instructions, run in
    any order that keeps conflicting accesses in order, mean the same. */
module Dataflow {
  import opened Prelude

  // An instruction: the registers it writes and reads (vector registers element by element), the memory
  // cells it writes and reads, and what the merger looks at. Registers and cells are locations.
  datatype Op = Op(
    defs: seq<nat>, uses: seq<nat>,
    cellsOut: seq<nat>, cellsIn: seq<nat>,
    after: seq<nat>,          // earlier instructions it is kept behind by an ordering edge
    mergeable: bool, kind: nat, mergeId: nat, load: nat,
    code: nat)                // opcode and immediate operands

  function Targets(op: Op): seq<nat> {
    op.defs + op.cellsOut
  }

  function Sources(op: Op): seq<nat> {
    op.uses + op.cellsIn
  }

  // The effect of an instruction: one value per location it writes.
  type Semantics = (Op, seq<int>) -> seq<int>

  // What registers and memory hold.
  type State = seq<int>

  function Read(st: State, locations: seq<nat>): (r: seq<int>)
    ensures |r| == |locations|
  {
    seq(|locations|, i requires 0 <= i < |locations| => if locations[i] < |st| then st[locations[i]] else 0)
  }

  function Result(sem: Semantics, op: Op, inputs: seq<int>, i: nat): int {
    var out := sem(op, inputs);
    if i < |out| then out[i] else 0
  }

  // Writes the first k results of op, computed from the given inputs.
  function Write(sem: Semantics, op: Op, inputs: seq<int>, k: nat, st: State): (r: State)
    requires k <= |Targets(op)| && forall i :: 0 <= i < |Targets(op)| ==> Targets(op)[i] < |st|
    ensures |r| == |st|
  {
    if k == 0 then st else
    Write(sem, op, inputs, k - 1, st)[Targets(op)[k - 1] := Result(sem, op, inputs, k - 1)]
  }

  predicate Fitting(op: Op, n: nat) {
    && (forall i :: 0 <= i < |Targets(op)| ==> Targets(op)[i] < n)
    && (forall i :: 0 <= i < |Sources(op)| ==> Sources(op)[i] < n)
  }

  predicate AllFit(ops: seq<Op>, n: nat) {
    forall i :: 0 <= i < |ops| ==> Fitting(ops[i], n)
  }

  // All results of op.
  function Effect(sem: Semantics, op: Op, inputs: seq<int>, st: State): (r: State)
    requires Fitting(op, |st|)
    ensures |r| == |st|
  {
    Write(sem, op, inputs, |Targets(op)|, st)
  }

  // The block run in order, up to instruction k.
  function RunSeq(sem: Semantics, ops: seq<Op>, k: nat, st: State): (r: State)
    requires k <= |ops| && AllFit(ops, |st|)
    ensures |r| == |st|
  {
    if k == 0 then st else
    var s := RunSeq(sem, ops, k - 1, st);
    Effect(sem, ops[k - 1], Read(s, Sources(ops[k - 1])), s)
  }

  // One fused instruction: its first k members all read the state before the round.
  function RunRound(sem: Semantics, ops: seq<Op>, members: seq<nat>, k: nat, st: State): (r: State)
    requires k <= |members| && AllFit(ops, |st|) && forall i :: 0 <= i < |members| ==> members[i] < |ops|
    ensures |r| == |st|
  {
    if k == 0 then st else
    var op := ops[members[k - 1]];
    Effect(sem, op, Read(st, Sources(op)), RunRound(sem, ops, members, k - 1, st))
  }

  ghost predicate RoundsInRange(rounds: seq<seq<nat>>, n: nat) {
    forall r, i :: 0 <= r < |rounds| && 0 <= i < |rounds[r]| ==> rounds[r][i] < n
  }

  // The fused block run in order, up to round k.
  ghost function RunRounds(sem: Semantics, ops: seq<Op>, rounds: seq<seq<nat>>, k: nat, st: State): (r: State)
    requires k <= |rounds| && AllFit(ops, |st|) && RoundsInRange(rounds, |ops|)
    ensures |r| == |st|
  {
    if k == 0 then st else
    RunRound(sem, ops, rounds[k - 1], |rounds[k - 1]|, RunRounds(sem, ops, rounds, k - 1, st))
  }

  // ----- schedules -----

  predicate InRound(rounds: seq<seq<nat>>, r: nat, i: nat) {
    r < |rounds| && i in rounds[r]
  }

  ghost predicate Scheduled(rounds: seq<seq<nat>>, i: nat) {
    exists r :: InRound(rounds, r, i)
  }

  ghost predicate EachOnce(rounds: seq<seq<nat>>, n: nat) {
    && RoundsInRange(rounds, n)
    && (forall i: nat :: i < n ==> Scheduled(rounds, i))
    && (forall r, r', i :: InRound(rounds, r, i) && InRound(rounds, r', i) ==> r == r')
    && (forall r :: 0 <= r < |rounds| ==> Injective(rounds[r]))
  }

  // Both touch location r, and one of them writes it.
  predicate Clash(i: Op, j: Op, r: nat) {
    (r in Targets(i) && (r in Sources(j) || r in Targets(j))) || (r in Sources(i) && r in Targets(j))
  }

  ghost predicate Conflict(ops: seq<Op>, i: nat, j: nat) {
    i < j < |ops| && exists r :: Clash(ops[i], ops[j], r)
  }

  // Every instruction is in one round, and conflicting accesses keep their order.
  ghost predicate Schedules(ops: seq<Op>, rounds: seq<seq<nat>>) {
    && EachOnce(rounds, |ops|)
    && (forall r, r', i, j :: InRound(rounds, r, i) && InRound(rounds, r', j) && Conflict(ops, i, j) ==> r < r')
  }

  // ----- what a location holds -----

  predicate Writes(ops: seq<Op>, i: nat, r: nat) {
    i < |ops| && r in Targets(ops[i])
  }

  // The last of the first n instructions that writes location r, or -1.
  function LastWrite(ops: seq<Op>, n: nat, r: nat): (i: int)
    requires n <= |ops|
    ensures -1 <= i < n && (i >= 0 ==> Writes(ops, i, r))
    ensures forall j: nat :: i < j < n ==> !Writes(ops, j, r)
  {
    if n == 0 then -1 else if Writes(ops, n - 1, r) then n - 1 else LastWrite(ops, n - 1, r)
  }

  lemma {:induction false} WriteAt(sem: Semantics, op: Op, inputs: seq<int>, k: nat, s: State, t: State, r: nat)
    requires k <= |Targets(op)| && Fitting(op, |s|) && |s| == |t| && r < |s|
    ensures r in Targets(op)[..k] ==> Write(sem, op, inputs, k, s)[r] == Write(sem, op, inputs, k, t)[r]
    ensures r !in Targets(op)[..k] ==> Write(sem, op, inputs, k, s)[r] == s[r]
  {
    if k > 0 {
      WriteAt(sem, op, inputs, k - 1, s, t, r);
      assert Targets(op)[..k] == Targets(op)[..k - 1] + [Targets(op)[k - 1]];
    }
  }

  // What an instruction leaves where it writes depends on its inputs only.
  lemma EffectAt(sem: Semantics, op: Op, inputs: seq<int>, s: State, t: State, r: nat)
    requires Fitting(op, |s|) && |s| == |t| && r < |s|
    ensures r in Targets(op) ==> Effect(sem, op, inputs, s)[r] == Effect(sem, op, inputs, t)[r]
    ensures r !in Targets(op) ==> Effect(sem, op, inputs, s)[r] == s[r]
  {
    assert Targets(op)[..|Targets(op)|] == Targets(op);
    WriteAt(sem, op, inputs, |Targets(op)|, s, t, r);
  }

  lemma {:induction false} Unwritten(sem: Semantics, ops: seq<Op>, low: nat, high: nat, st: State, r: nat)
    requires low <= high <= |ops| && AllFit(ops, |st|) && r < |st|
    requires forall i: nat :: low <= i < high ==> !Writes(ops, i, r)
    ensures RunSeq(sem, ops, high, st)[r] == RunSeq(sem, ops, low, st)[r]
  {
    if low < high {
      Unwritten(sem, ops, low, high - 1, st, r);
      var s := RunSeq(sem, ops, high - 1, st);
      assert !Writes(ops, high - 1, r);
      EffectAt(sem, ops[high - 1], Read(s, Sources(ops[high - 1])), s, s, r);
    }
  }

  // What location r holds after instruction w when the block is run in order.
  function Held(sem: Semantics, ops: seq<Op>, st: State, w: int, r: nat): int
    requires -1 <= w < |ops| && AllFit(ops, |st|) && r < |st|
  {
    RunSeq(sem, ops, w + 1, st)[r]
  }

  // It is what the last writer left there, or what was there at first.
  lemma HeldAt(sem: Semantics, ops: seq<Op>, n: nat, st: State, r: nat)
    requires n <= |ops| && AllFit(ops, |st|) && r < |st|
    ensures Held(sem, ops, st, n - 1, r) == Held(sem, ops, st, LastWrite(ops, n, r), r)
  {
    Unwritten(sem, ops, LastWrite(ops, n, r) + 1, n, st, r);
  }

  // ----- any order of rounds that keeps conflicts in order -----

  // w is the last writer of r among the instructions done, or -1 if none of them writes it.
  ghost predicate LastDone(ops: seq<Op>, done: set<nat>, r: nat, w: int) {
    && (w == -1 || (w >= 0 && w in done && Writes(ops, w, r))) && w < |ops|
    && forall i :: i in done && Writes(ops, i, r) ==> i <= w
  }

  // Every location holds what the last writer done leaves there when the block is run in order.
  ghost predicate Agrees(sem: Semantics, ops: seq<Op>, st: State, done: set<nat>, s: State)
    requires AllFit(ops, |st|)
  {
    && |s| == |st|
    && forall r, w :: 0 <= r < |s| && LastDone(ops, done, r, w) ==> s[r] == Held(sem, ops, st, w, r)
  }

  // What conflicts with j is done if it comes before, and not if it comes after.
  ghost predicate Ready(ops: seq<Op>, done: set<nat>, j: nat) {
    && j < |ops| && j !in done
    && (forall i :: Conflict(ops, i, j) ==> i in done)
    && (forall i :: Conflict(ops, j, i) ==> i !in done)
  }

  lemma AgreesAt(sem: Semantics, ops: seq<Op>, st: State, done: set<nat>, s: State, r: nat, w: int)
    requires AllFit(ops, |st|) && Agrees(sem, ops, st, done, s)
    requires r < |s| && LastDone(ops, done, r, w)
    ensures -1 <= w < |ops| && s[r] == Held(sem, ops, st, w, r)
  {
    hide Held, AllFit;
  }

  lemma ClashIs(ops: seq<Op>, i: nat, j: nat, r: nat)
    requires i < j < |ops| && Clash(ops[i], ops[j], r)
    ensures Conflict(ops, i, j)
  {
  }

  lemma ReadsAt(sem: Semantics, ops: seq<Op>, st: State, done: set<nat>, s: State, j: nat, r: nat)
    requires AllFit(ops, |st|) && Agrees(sem, ops, st, done, s) && Ready(ops, done, j)
    requires r in Sources(ops[j]) && r < |st|
    ensures s[r] == Held(sem, ops, st, j - 1, r)
  {
    hide Held, Conflict, AllFit, Targets, LastWrite, Agrees;
    AgreesSize(sem, ops, st, done, s);
    var w := LastWrite(ops, j, r);
    if w >= 0 {
      ClashIs(ops, w, j, r);
    }
    forall i | i in done && Writes(ops, i, r) ensures i <= w {
      if i > j {
        ClashIs(ops, j, i, r);
      }
    }
    AgreesAt(sem, ops, st, done, s, r, w);
    HeldAt(sem, ops, j, st, r);
  }

  // An instruction that is ready reads what it reads when the block is run in order.
  lemma ReadsSame(sem: Semantics, ops: seq<Op>, st: State, done: set<nat>, s: State, j: nat)
    requires AllFit(ops, |st|) && Agrees(sem, ops, st, done, s) && Ready(ops, done, j)
    ensures Read(s, Sources(ops[j])) == Read(RunSeq(sem, ops, j, st), Sources(ops[j]))
  {
    hide RunSeq, AllFit, Agrees, Conflict, Sources;
    AgreesSize(sem, ops, st, done, s);
    var locations := Sources(ops[j]);
    forall i | 0 <= i < |locations| && locations[i] < |st|
      ensures s[locations[i]] == RunSeq(sem, ops, j, st)[locations[i]]
    {
      ReadsAt(sem, ops, st, done, s, j, locations[i]);
    }
  }

  // The last writer after j has been done, too.
  lemma LastAfter(ops: seq<Op>, done: set<nat>, j: nat, r: nat, w: int)
    requires Ready(ops, done, j) && LastDone(ops, done + {j}, r, w)
    ensures if Writes(ops, j, r) then w == j else LastDone(ops, done, r, w)
  {
    hide Conflict;
    if Writes(ops, j, r) {
      assert j in done + {j};
      if w > j {
        ClashIs(ops, j, w, r);
      }
    } else {
      forall i | i in done && Writes(ops, i, r) ensures i <= w {
        assert i in done + {j};
      }
    }
  }

  // It leaves what it leaves then.
  lemma OpAgrees(sem: Semantics, ops: seq<Op>, st: State, done: set<nat>, s: State, j: nat)
    requires AllFit(ops, |st|) && Agrees(sem, ops, st, done, s) && Ready(ops, done, j)
    ensures Fitting(ops[j], |s|)
    ensures Agrees(sem, ops, st, done + {j}, Effect(sem, ops[j], Read(RunSeq(sem, ops, j, st), Sources(ops[j])), s))
  {
    hide Conflict, Effect, Read, LastDone, Targets, Sources, Fitting;
    assert Fitting(ops[j], |st|);
    var before := RunSeq(sem, ops, j, st);
    var inputs := Read(before, Sources(ops[j]));
    var t := Effect(sem, ops[j], inputs, s);
    assert RunSeq(sem, ops, j + 1, st) == Effect(sem, ops[j], inputs, before);
    forall r, w | 0 <= r < |t| && LastDone(ops, done + {j}, r, w)
      ensures -1 <= w < |ops| && t[r] == Held(sem, ops, st, w, r)
    {
      EffectAt(sem, ops[j], inputs, s, before, r);
      LastAfter(ops, done, j, r, w);
      LastRange(ops, done + {j}, r, w);
    }
  }

  lemma LastRange(ops: seq<Op>, done: set<nat>, r: nat, w: int)
    requires LastDone(ops, done, r, w)
    ensures -1 <= w < |ops|
  {
  }

  // Members of a round that are ready when it starts are ready one after the other.
  ghost predicate RoundReady(ops: seq<Op>, done: set<nat>, members: seq<nat>) {
    && Injective(members) && (forall x :: 0 <= x < |members| ==> Ready(ops, done, members[x]))
    && (forall i, j :: i in members && j in members ==> !Conflict(ops, i, j))
  }

  lemma {:induction false} RoundAgrees(sem: Semantics, ops: seq<Op>, st: State, done: set<nat>,
                                       members: seq<nat>, k: nat, s: State)
    requires k <= |members| && AllFit(ops, |st|) && Agrees(sem, ops, st, done, s) && RoundReady(ops, done, members)
    ensures forall x :: 0 <= x < |members| ==> members[x] < |ops|
    ensures Agrees(sem, ops, st, done + Elements(members[..k]), RunRound(sem, ops, members, k, s))
  {
    hide Conflict, RunSeq, Effect, Agrees;
    assert forall x :: 0 <= x < |members| ==> Ready(ops, done, members[x]);
    AgreesSize(sem, ops, st, done, s);
    if k == 0 {
      assert done + Elements(members[..0]) == done;
    } else {
      RoundAgrees(sem, ops, st, done, members, k - 1, s);
      var j := members[k - 1];
      var done' := done + Elements(members[..k - 1]);
      ReadyLater(ops, done, members, k - 1);
      ReadsSame(sem, ops, st, done, s, j);
      OpAgrees(sem, ops, st, done', RunRound(sem, ops, members, k - 1, s), j);
      assert members[..k] == members[..k - 1] + [j];
      assert done + Elements(members[..k]) == done' + {j};
    }
  }

  lemma AgreesSize(sem: Semantics, ops: seq<Op>, st: State, done: set<nat>, s: State)
    requires AllFit(ops, |st|) && Agrees(sem, ops, st, done, s)
    ensures |s| == |st|
  {
  }

  lemma ReadyLater(ops: seq<Op>, done: set<nat>, members: seq<nat>, k: nat)
    requires k < |members| && RoundReady(ops, done, members)
    ensures Ready(ops, done + Elements(members[..k]), members[k])
  {
    hide Conflict;
    var j := members[k];
    assert j in members && Ready(ops, done, j);
    assert j !in members[..k];
    forall i | Conflict(ops, j, i) ensures i !in done + Elements(members[..k]) {
      assert i in members[..k] ==> i in members;
    }
  }

  // The instructions of the first k rounds.
  ghost function Done(rounds: seq<seq<nat>>, k: nat): (d: set<nat>)
    requires k <= |rounds|
  {
    if k == 0 then {} else Done(rounds, k - 1) + Elements(rounds[k - 1])
  }

  lemma {:induction false} DoneIs(rounds: seq<seq<nat>>, k: nat, i: nat)
    requires k <= |rounds|
    ensures i in Done(rounds, k) <==> exists r: nat :: r < k && InRound(rounds, r, i)
  {
    if k > 0 {
      DoneIs(rounds, k - 1, i);
      if i in rounds[k - 1] {
        assert InRound(rounds, k - 1, i);
      }
    }
  }

  lemma RoundIsReady(ops: seq<Op>, rounds: seq<seq<nat>>, k: nat)
    requires Schedules(ops, rounds) && k < |rounds|
    ensures RoundReady(ops, Done(rounds, k), rounds[k])
  {
    hide Conflict;
    var members := rounds[k];
    forall x | 0 <= x < |members| ensures Ready(ops, Done(rounds, k), members[x]) {
      var j := members[x];
      assert InRound(rounds, k, j);
      DoneIs(rounds, k, j);
      forall i | Conflict(ops, i, j) ensures i in Done(rounds, k) {
        ConflictRange(ops, i, j);
        assert Scheduled(rounds, i);
        var r :| InRound(rounds, r, i);
        DoneIs(rounds, k, i);
      }
      forall i | Conflict(ops, j, i) ensures i !in Done(rounds, k) {
        DoneIs(rounds, k, i);
      }
    }
    forall i, j | i in members && j in members ensures !Conflict(ops, i, j) {
      assert InRound(rounds, k, i) && InRound(rounds, k, j);
    }
  }

  lemma ConflictRange(ops: seq<Op>, i: nat, j: nat)
    requires Conflict(ops, i, j)
    ensures i < j < |ops|
  {
  }

  lemma {:induction false} RoundsAgree(sem: Semantics, ops: seq<Op>, rounds: seq<seq<nat>>, k: nat, st: State)
    requires k <= |rounds| && AllFit(ops, |st|) && Schedules(ops, rounds)
    ensures Agrees(sem, ops, st, Done(rounds, k), RunRounds(sem, ops, rounds, k, st))
  {
    hide Conflict, AllFit, RoundReady, RunRound;
    if k == 0 {
      assert RunSeq(sem, ops, 0, st) == st;
    } else {
      RoundsAgree(sem, ops, rounds, k - 1, st);
      var members := rounds[k - 1];
      RoundIsReady(ops, rounds, k - 1);
      RoundAgrees(sem, ops, st, Done(rounds, k - 1), members, |members|, RunRounds(sem, ops, rounds, k - 1, st));
      assert members[..|members|] == members;
    }
  }

  lemma AllDone(rounds: seq<seq<nat>>, n: nat, i: nat)
    requires EachOnce(rounds, n) && i < n
    ensures i in Done(rounds, |rounds|)
  {
    assert Scheduled(rounds, i);
    DoneIs(rounds, |rounds|, i);
  }

  lemma LastOfAll(ops: seq<Op>, rounds: seq<seq<nat>>, r: nat)
    requires EachOnce(rounds, |ops|)
    ensures LastDone(ops, Done(rounds, |rounds|), r, LastWrite(ops, |ops|, r))
  {
    hide EachOnce, Done, LastWrite;
    var w := LastWrite(ops, |ops|, r);
    if w >= 0 {
      AllDone(rounds, |ops|, w);
    }
    assert forall i: nat :: Writes(ops, i, r) ==> i < |ops|;
  }

  lemma FinalAt(sem: Semantics, ops: seq<Op>, st: State, done: set<nat>, s: State, r: nat, w: int)
    requires AllFit(ops, |st|) && Agrees(sem, ops, st, done, s) && r < |s|
    requires LastDone(ops, done, r, w) && w == LastWrite(ops, |ops|, r)
    ensures |s| == |st| && s[r] == Held(sem, ops, st, |ops| - 1, r)
  {
    hide AllFit, Writes, LastWrite, LastDone, Agrees, Held;
    AgreesSize(sem, ops, st, done, s);
    AgreesAt(sem, ops, st, done, s, r, w);
    HeldAt(sem, ops, |ops|, st, r);
  }

  // Scheduling preserves meaning: whatever the instructions compute and whatever registers and memory
  // hold, running the rounds leaves in both what running the block in order leaves.
  lemma SchedulePreserves(sem: Semantics, ops: seq<Op>, rounds: seq<seq<nat>>, st: State)
    requires AllFit(ops, |st|) && Schedules(ops, rounds)
    ensures RunRounds(sem, ops, rounds, |rounds|, st) == RunSeq(sem, ops, |ops|, st)
  {
    hide RunRounds, RunSeq, AllFit, Conflict, Agrees;
    var s := RunRounds(sem, ops, rounds, |rounds|, st);
    RoundsAgree(sem, ops, rounds, |rounds|, st);
    forall r: nat | r < |st| ensures s[r] == RunSeq(sem, ops, |ops|, st)[r] {
      LastOfAll(ops, rounds, r);
      FinalAt(sem, ops, st, Done(rounds, |rounds|), s, r, LastWrite(ops, |ops|, r));
    }
  }
}
