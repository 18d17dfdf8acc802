/** The matchmaker of Compiler/gs.py for as many women as men: men propose in the order of their lists,
    which may be shorter than there are women, and a stack holds the unengaged men. */
module Matching {
  import opened Prelude
  import opened Oblivious

  // prefs[m][j] is the j-th of the k choices of man m; ranks[w][m] the rank woman w gives man m.
  datatype Problem = Problem(n: nat, k: nat, prefs: seq<seq<nat>>, ranks: seq<map<nat, nat>>)

  // No list names a woman twice, no two men have the same rank, and every woman ranks the men whose
  // lists she is on.
  ghost predicate IsProblem(p: Problem) {
    && |p.prefs| == p.n && |p.ranks| == p.n && p.k <= p.n
    && (forall m :: 0 <= m < p.n ==> |p.prefs[m]| == p.k && Injective(p.prefs[m]))
    && (forall m, j :: 0 <= m < p.n && 0 <= j < p.k ==> p.prefs[m][j] < p.n && m in p.ranks[p.prefs[m][j]])
    && (forall w, m, m' :: 0 <= w < p.n && m in p.ranks[w] && m' in p.ranks[w] && m != m' ==>
        p.ranks[w][m] != p.ranks[w][m'])
  }

  // ----- matchings -----

  // The wife of m is on his list.
  ghost predicate OnList(p: Problem, mu: seq<nat>, m: nat) {
    m < |mu| && m < |p.prefs| && exists j :: 0 <= j < |p.prefs[m]| && p.prefs[m][j] == mu[m]
  }

  // mu[m] is the wife of m, who is on his list. No man and woman on his list prefer each other to
  // whom mu gives them.
  ghost predicate Stable(p: Problem, mu: seq<nat>)
    requires IsProblem(p)
  {
    && |mu| == p.n && IsPerm(mu) && (forall m :: 0 <= m < p.n ==> OnList(p, mu, m))
    && forall m, m', j, j' ::
         (0 <= m < p.n && 0 <= m' < p.n && 0 <= j < j' < p.k && p.prefs[m][j] == mu[m'] && p.prefs[m][j'] == mu[m])
         ==> Rank(p, mu[m'], m') <= Rank(p, mu[m'], m)
  }

  // Every man weakly prefers mu to nu.
  ghost predicate BetterForMen(p: Problem, mu: seq<nat>, nu: seq<nat>)
    requires IsProblem(p) && |mu| == p.n && |nu| == p.n
  {
    forall m, j, j' ::
      (0 <= m < p.n && 0 <= j < p.k && 0 <= j' < p.k && p.prefs[m][j] == mu[m] && p.prefs[m][j'] == nu[m])
      ==> j <= j'
  }

  // ----- one round, on values -----

  // The stores wives, husbands and propose, and the stack of unengaged men.
  datatype State = State(wives: Store<nat>, husbands: Store<nat>, asked: Store<nat>, stack: seq<nat>)

  // f_ranks[w][m]; a man without a rank reads as 0.
  function Rank(p: Problem, w: nat, m: nat): nat {
    if Ranked(p, w, m) then p.ranks[w][m] else 0
  }

  predicate Ranked(p: Problem, w: nat, m: nat) {
    w < |p.ranks| && m in p.ranks[w]
  }

  // The loop body of match for the man on top of the stack.
  function Round(p: Problem, s: State): State
    requires IsProblem(p) && s.stack != [] && Top(s) < p.n && Get(s.asked, Top(s)) < p.k
  {
    var man, rest := Top(s), s.stack[..|s.stack| - 1];
    var woman := p.prefs[man][Get(s.asked, man)];
    var asked := s.asked[man := Get(s.asked, man) + 1];
    if woman !in s.husbands then
      State(s.wives[man := woman], s.husbands[woman := man], asked, rest)
    else
      var fiance := s.husbands[woman];
      if Rank(p, woman, man) < Rank(p, woman, fiance) then
        State((s.wives - {fiance})[man := woman], (s.husbands - {woman})[woman := man], asked, rest + [fiance])
      else
        State(s.wives, s.husbands, asked, rest + [man])
  }

  function Top(s: State): nat
    requires s.stack != []
  {
    s.stack[|s.stack| - 1]
  }

  // What propose does for real. With short lists a woman leaves a man she does not rank.
  function Proposed(p: Problem, s: State, man: nat, woman: nat): State {
    var fiance := Get(s.husbands, woman);
    if woman !in s.husbands then
      s.(wives := s.wives[man := woman], husbands := s.husbands[woman := man])
    else if Rank(p, woman, man) < Rank(p, woman, fiance) || (p.k < p.n && !Ranked(p, woman, fiance)) then
      State((s.wives - {fiance})[man := woman], (s.husbands - {woman})[woman := man], s.asked, s.stack + [fiance])
    else s.(stack := s.stack + [man])
  }

  // ----- what every round keeps -----

  // wives and husbands are inverse partial maps.
  ghost predicate Inverse(p: Problem, s: State) {
    && (forall m :: m in s.wives ==> m < p.n && s.wives[m] in s.husbands && s.husbands[s.wives[m]] == m)
    && (forall w :: w in s.husbands ==> w < p.n && s.husbands[w] in s.wives && s.wives[s.husbands[w]] == w)
  }

  // The stack holds exactly the unmatched men.
  ghost predicate StackOk(p: Problem, s: State) {
    Injective(s.stack) && forall m: nat :: m in s.stack <==> m < p.n && m !in s.wives
  }

  // A matched man has his last proposal for wife; whoever was asked is engaged to someone she
  // ranks no worse than the asker.
  ghost predicate AskedOk(p: Problem, s: State)
    requires IsProblem(p)
  {
    && (forall m :: 0 <= m < p.n ==> Get(s.asked, m) <= p.k)
    && (forall m :: m in s.wives && m < p.n ==> Get(s.asked, m) > 0 && p.prefs[m][Get(s.asked, m) - 1] == s.wives[m])
    && (forall m, j :: 0 <= m < p.n && 0 <= j < Get(s.asked, m) ==> Settled(p, s, m, p.prefs[m][j]))
  }

  ghost predicate Settled(p: Problem, s: State, m: nat, w: nat)
    requires IsProblem(p)
  {
    m < p.n && w < p.n && w in s.husbands && Rank(p, w, s.husbands[w]) <= Rank(p, w, m)
  }

  // The proposals of m that were turned down.
  function Refused(s: State, m: nat): nat {
    if m in s.wives && Get(s.asked, m) > 0 then Get(s.asked, m) - 1 else Get(s.asked, m)
  }

  // Nobody was turned down by a woman he could have in a stable matching.
  ghost predicate NoneLost(p: Problem, s: State)
    requires IsProblem(p) && AskedOk(p, s)
  {
    forall mu, m, j :: Stable(p, mu) && 0 <= m < p.n && 0 <= j < Refused(s, m) ==> p.prefs[m][j] != mu[m]
  }

  ghost predicate Ok(p: Problem, s: State) {
    IsProblem(p) && Inverse(p, s) && StackOk(p, s) && AskedOk(p, s) && NoneLost(p, s)
  }

  // A man on the stack has not run through a list of all women: otherwise every woman is engaged,
  // each to a different man, so every man is.
  lemma NotExhausted(p: Problem, s: State, m: nat)
    requires Ok(p, s) && m in s.stack && p.k == p.n
    ensures Get(s.asked, m) < p.n
  {
    if Get(s.asked, m) == p.n {
      forall w: nat | w < p.n ensures w in s.husbands {
        PermOnto(p.prefs[m], w);
        var j :| 0 <= j < p.n && p.prefs[m][j] == w;
        assert Settled(p, s, m, p.prefs[m][j]);
      }
      var men := seq(p.n, w requires 0 <= w < p.n => s.husbands[w]);
      forall w, w' | 0 <= w < w' < p.n ensures men[w] != men[w'] {
        assert s.wives[men[w]] == w && s.wives[men[w']] == w';
      }
      PermOnto(men, m);
    }
  }

  // If he has run through a shorter one, there is no stable matching at all.
  lemma Exhausted(p: Problem, s: State, m: nat)
    requires Ok(p, s) && m in s.stack && Get(s.asked, m) >= p.k
    ensures forall mu :: !Stable(p, mu)
  {
    forall mu ensures !Stable(p, mu) {
      assert Stable(p, mu) ==> OnList(p, mu, m);
    }
  }

  lemma RoundInverse(p: Problem, s: State)
    requires IsProblem(p) && Inverse(p, s) && StackOk(p, s)
    requires s.stack != [] && Top(s) < p.n && Get(s.asked, Top(s)) < p.k
    ensures Inverse(p, Round(p, s))
  {
    hide Rank, Injective;
    assert Top(s) in s.stack;
  }

  lemma RoundStack(p: Problem, s: State)
    requires IsProblem(p) && Inverse(p, s) && StackOk(p, s)
    requires s.stack != [] && Top(s) < p.n && Get(s.asked, Top(s)) < p.k
    ensures StackOk(p, Round(p, s))
  {
    hide Rank, Injective, IsProblem;
    var man, rest := Top(s), s.stack[..|s.stack| - 1];
    var woman := Asks(p, s);
    var s' := Round(p, s);
    assert s.stack == rest + [man];
    StackParts(s.stack, rest, man);
    if woman !in s.husbands {
      assert s'.stack == rest;
    } else {
      var fiance := s.husbands[woman];
      assert fiance in s.wives && fiance !in s.stack;
      StackPush(rest, fiance);
      StackPush(rest, man);
    }
  }

  // The woman the top of the stack asks next.
  function Asks(p: Problem, s: State): nat
    requires IsProblem(p) && s.stack != [] && Top(s) < p.n && Get(s.asked, Top(s)) < p.k
  {
    p.prefs[Top(s)][Get(s.asked, Top(s))]
  }

  lemma StackParts(stack: seq<nat>, rest: seq<nat>, man: nat)
    requires stack == rest + [man] && Injective(stack)
    ensures Injective(rest) && man !in rest && forall m :: m in stack <==> m in rest || m == man
  {
    assert stack[|rest|] == man;
    forall i | 0 <= i < |rest| ensures rest[i] == stack[i] && rest[i] != man {
    }
  }

  lemma StackPush(rest: seq<nat>, man: nat)
    requires Injective(rest)
    ensures man !in rest ==> Injective(rest + [man])
    ensures forall m :: m in rest + [man] <==> m in rest || m == man
  {
  }

  // The man whose turn it is, the woman he asks, and the state after.
  ghost predicate Turn(p: Problem, s: State, man: nat, k: nat, woman: nat, s': State) {
    && IsProblem(p) && Inverse(p, s) && s.stack != [] && man == Top(s) && man < p.n && man !in s.wives
    && k == Get(s.asked, man) && k < p.k && woman == p.prefs[man][k] && woman < p.n && s' == Round(p, s)
  }

  lemma TurnIs(p: Problem, s: State)
    requires Ok(p, s) && s.stack != [] && Top(s) < p.n && Get(s.asked, Top(s)) < p.k
    ensures var man := Top(s);
      Turn(p, s, man, Get(s.asked, man), p.prefs[man][Get(s.asked, man)], Round(p, s))
  {
    assert Top(s) in s.stack;
  }

  lemma AskedAfter(p: Problem, s: State, man: nat, k: nat, woman: nat, s': State)
    requires Turn(p, s, man, k, woman, s')
    ensures forall m: nat :: Get(s'.asked, m) == if m == man then k + 1 else Get(s.asked, m)
  {
    hide Rank, Inverse;
  }

  lemma WivesAfter(p: Problem, s: State, man: nat, k: nat, woman: nat, s': State)
    requires Turn(p, s, man, k, woman, s')
    ensures forall m :: m in s'.wives ==>
      if m == man then s'.wives[m] == woman else m in s.wives && s'.wives[m] == s.wives[m]
    ensures forall m :: m in s.wives && m !in s'.wives ==>
      woman in s.husbands && s.husbands[woman] == m && Rank(p, woman, man) < Rank(p, woman, m)
    ensures man !in s'.wives ==> woman in s.husbands && Rank(p, woman, s.husbands[woman]) <= Rank(p, woman, man)
  {
    hide Rank, Inverse;
  }

  // Women only ever improve.
  lemma HusbandsAfter(p: Problem, s: State, man: nat, k: nat, woman: nat, s': State)
    requires Turn(p, s, man, k, woman, s')
    ensures forall w :: w in s.husbands ==>
      w in s'.husbands && Rank(p, w, s'.husbands[w]) <= Rank(p, w, s.husbands[w])
    ensures woman in s'.husbands && Rank(p, woman, s'.husbands[woman]) <= Rank(p, woman, man)
  {
    hide Rank, Inverse;
  }

  lemma RoundAsked(p: Problem, s: State)
    requires Ok(p, s) && s.stack != [] && Top(s) < p.n && Get(s.asked, Top(s)) < p.k
    ensures AskedOk(p, Round(p, s))
  {
    hide NoneLost, Rank, Ranked, Stable, Round, Get, Inverse, StackOk, Top, Injective;
    TurnIs(p, s);
    var man, k, s' := Top(s), Get(s.asked, Top(s)), Round(p, s);
    var woman := p.prefs[man][k];
    AskedAfter(p, s, man, k, woman, s');
    WivesAfter(p, s, man, k, woman, s');
    HusbandsAfter(p, s, man, k, woman, s');
    forall m, j | 0 <= m < p.n && 0 <= j < Get(s'.asked, m) ensures Settled(p, s', m, p.prefs[m][j]) {
      if m != man || j < k {
        assert Settled(p, s, m, p.prefs[m][j]);
      }
    }
  }

  // In a stable mu, man does not have the woman who turns him down for rival: rival has not been
  // turned down by his own partner in mu, so he would prefer her too and the two would block mu.
  lemma TurnedDown(p: Problem, mu: seq<nat>, man: nat, rival: nat, woman: nat, j: nat)
    requires IsProblem(p) && Stable(p, mu) && man < p.n && rival < p.n && man != rival
    requires Rank(p, woman, rival) < Rank(p, woman, man)
    requires j < p.k && p.prefs[rival][j] == woman
    requires forall i :: 0 <= i < j ==> p.prefs[rival][i] != mu[rival]
    ensures mu[man] != woman
  {
    assert OnList(p, mu, rival);
    var i :| 0 <= i < p.k && p.prefs[rival][i] == mu[rival];
    assert mu[man] != mu[rival];
  }

  lemma RanksDiffer(p: Problem, w: nat, m: nat, m': nat)
    requires IsProblem(p) && Ranked(p, w, m) && Ranked(p, w, m') && m != m'
    ensures Rank(p, w, m) != Rank(p, w, m')
  {
  }

  lemma ChoiceRanked(p: Problem, m: nat, j: nat)
    requires IsProblem(p) && m < p.n && j < p.k
    ensures Ranked(p, p.prefs[m][j], m)
  {
  }

  // Who is turned down in a round, by whom and for whom.
  lemma Refusals(p: Problem, s: State, man: nat, k: nat, woman: nat, s': State, m: nat, j: nat)
    requires Turn(p, s, man, k, woman, s') && AskedOk(p, s) && m < p.n && Refused(s, m) <= j < Refused(s', m)
    ensures woman in s.husbands && j < p.k && p.prefs[m][j] == woman
    ensures var fiance := s.husbands[woman];
      && fiance < p.n && fiance != man && fiance in s.wives && s.wives[fiance] == woman
      && ((m == man && Rank(p, woman, fiance) <= Rank(p, woman, man)) ||
          (m == fiance && Rank(p, woman, man) < Rank(p, woman, fiance)))
  {
    hide Rank, Round, Settled, Injective;
    AskedAfter(p, s, man, k, woman, s');
    WivesAfter(p, s, man, k, woman, s');
  }

  lemma RoundNoneLost(p: Problem, s: State)
    requires Ok(p, s) && s.stack != [] && Top(s) < p.n && Get(s.asked, Top(s)) < p.k
    requires AskedOk(p, Round(p, s))
    ensures NoneLost(p, Round(p, s))
  {
    hide Rank, Stable, Round, Get, Inverse, StackOk, Top, Refused, AskedOk;
    TurnIs(p, s);
    var man, k, s' := Top(s), Get(s.asked, Top(s)), Round(p, s);
    var woman := p.prefs[man][k];
    forall mu, m, j | Stable(p, mu) && 0 <= m < p.n && 0 <= j < Refused(s', m)
      ensures j < p.k && |mu| == p.n && p.prefs[m][j] != mu[m]
    {
      StableSize(p, mu);
      RefusedRange(p, s', m);
      if Refused(s, m) <= j {
        Refusals(p, s, man, k, woman, s', m, j);
        var fiance := s.husbands[woman];
        LastAsked(p, s, fiance);
        ChoiceRanked(p, man, k);
        ChoiceRanked(p, fiance, Refused(s, fiance));
        RanksDiffer(p, woman, man, fiance);
        RefusedUnmatched(s, man);
        if m == man {
          TurnedDown(p, mu, man, fiance, woman, Refused(s, fiance));
        } else {
          TurnedDown(p, mu, fiance, man, woman, k);
        }
      }
    }
  }

  lemma RefusedRange(p: Problem, s: State, m: nat)
    requires IsProblem(p) && AskedOk(p, s) && m < p.n
    ensures Refused(s, m) <= p.k
  {
  }

  lemma RefusedUnmatched(s: State, m: nat)
    ensures m !in s.wives ==> Refused(s, m) == Get(s.asked, m)
  {
  }

  lemma LastAsked(p: Problem, s: State, m: nat)
    requires IsProblem(p) && AskedOk(p, s) && m < p.n && m in s.wives
    ensures Refused(s, m) < p.k && p.prefs[m][Refused(s, m)] == s.wives[m]
  {
  }

  lemma StableSize(p: Problem, mu: seq<nat>)
    requires IsProblem(p) && Stable(p, mu)
    ensures |mu| == p.n
  {
  }

  // One round keeps the whole invariant.
  lemma RoundOk(p: Problem, s: State)
    requires Ok(p, s) && s.stack != [] && Get(s.asked, Top(s)) < p.k
    ensures Top(s) < p.n && Ok(p, Round(p, s))
  {
    assert Top(s) in s.stack;
    hide Ok, Round;
    OkParts(p, s);
    OkInverse(p, s);
    RoundInverse(p, s);
    RoundStack(p, s);
    RoundAsked(p, s);
    RoundNoneLost(p, s);
    OkFrom(p, Round(p, s));
  }

  lemma OkParts(p: Problem, s: State)
    requires Ok(p, s)
    ensures IsProblem(p)
  {
  }

  lemma OkInverse(p: Problem, s: State)
    requires Ok(p, s)
    ensures Inverse(p, s) && StackOk(p, s)
  {
  }

  lemma OkFrom(p: Problem, s: State)
    requires IsProblem(p) && Inverse(p, s) && StackOk(p, s) && AskedOk(p, s) && NoneLost(p, s)
    ensures Ok(p, s)
  {
  }

  // ----- the result -----

  // The matching when nobody is left on the stack.
  function Wives(p: Problem, s: State): (mu: seq<nat>)
    ensures |mu| == p.n
  {
    seq(p.n, m requires 0 <= m < p.n => Get(s.wives, m))
  }

  lemma FinalMatched(p: Problem, s: State)
    requires Ok(p, s) && s.stack == []
    ensures IsPerm(Wives(p, s))
    ensures forall m :: 0 <= m < p.n ==> m in s.wives && s.husbands[s.wives[m]] == m && Wives(p, s)[m] == s.wives[m]
  {
    forall m: nat | m < p.n ensures m in s.wives {
      assert m !in s.stack;
    }
  }

  // The final matching is perfect and stable, and no man does better in any stable matching.
  lemma FinalStable(p: Problem, s: State)
    requires Ok(p, s) && s.stack == []
    ensures Stable(p, Wives(p, s))
    ensures forall nu :: Stable(p, nu) ==> BetterForMen(p, Wives(p, s), nu)
  {
    hide Rank, NoneLost;
    var mu := Wives(p, s);
    FinalMatched(p, s);
    FinalBest(p, s);
    forall m: nat | m < p.n ensures OnList(p, mu, m) {
      LastAsked(p, s, m);
    }
    forall m, m', j, j' |
      0 <= m < p.n && 0 <= m' < p.n && 0 <= j < j' < p.k && p.prefs[m][j] == mu[m'] && p.prefs[m][j'] == mu[m]
      ensures Rank(p, mu[m'], m') <= Rank(p, mu[m'], m)
    {
      LastIs(p, s, m, j');
      assert Settled(p, s, m, p.prefs[m][j]);
    }
  }

  lemma FinalBest(p: Problem, s: State)
    requires Ok(p, s) && s.stack == []
    ensures forall nu :: Stable(p, nu) ==> BetterForMen(p, Wives(p, s), nu)
  {
    hide Rank;
    var mu := Wives(p, s);
    FinalMatched(p, s);
    forall nu, m, j, j' |
      Stable(p, nu) && 0 <= m < p.n && 0 <= j < p.k && 0 <= j' < p.k && p.prefs[m][j] == mu[m] &&
        p.prefs[m][j'] == nu[m]
      ensures j <= j'
    {
      LastIs(p, s, m, j);
    }
  }

  lemma LastIs(p: Problem, s: State, m: nat, j: nat)
    requires IsProblem(p) && AskedOk(p, s) && m < p.n && j < p.k && m in s.wives && p.prefs[m][j] == s.wives[m]
    ensures j == Get(s.asked, m) - 1 == Refused(s, m)
  {
    var i := Get(s.asked, m) - 1;
    assert p.prefs[m][i] == p.prefs[m][j];
    assert Injective(p.prefs[m]);
  }

  // At the start all men are on the stack.
  lemma StartOk(p: Problem, s: State)
    requires IsProblem(p) && s.wives == map[] && s.husbands == map[] && s.asked == map[]
    requires |s.stack| == p.n && forall i :: 0 <= i < p.n ==> s.stack[i] == i
    ensures Ok(p, s)
  {
    forall m: nat ensures m in s.stack <==> m < p.n {
      if m < p.n {
        assert s.stack[m] == m;
      }
    }
  }

  // ----- the number of rounds -----

  // The proposals made by the first k men.
  function Asked(s: State, k: nat): nat {
    if k == 0 then 0 else Asked(s, k - 1) + Get(s.asked, k - 1)
  }

  lemma {:induction false} AskedBound(p: Problem, s: State, k: nat)
    requires IsProblem(p) && AskedOk(p, s) && k <= p.n
    ensures Asked(s, k) <= k * p.k
  {
    if k > 0 {
      AskedBound(p, s, k - 1);
      assert k * p.k == (k - 1) * p.k + p.k;
    }
  }

  lemma {:induction false} AskedStep(s: State, s': State, man: nat, k: nat)
    requires forall m: nat :: Get(s'.asked, m) == Get(s.asked, m) + if m == man then 1 else 0
    ensures Asked(s', k) == Asked(s, k) + if man < k then 1 else 0
  {
    if k > 0 {
      AskedStep(s, s', man, k - 1);
    }
  }

  // Where w is on a list.
  function PlaceOf(list: seq<nat>, w: nat): (j: nat)
    ensures j <= |list| && (j < |list| ==> list[j] == w) && (w in list ==> j < |list|)
  {
    if list == [] || list[0] == w then 0 else 1 + PlaceOf(list[1..], w)
  }

  // The proposals of the first k men if mu is what they end with: a man goes down his list to his wife.
  function Proposals(p: Problem, mu: seq<nat>, k: nat): nat
    requires k <= |p.prefs| && k <= |mu|
  {
    if k == 0 then 0 else Proposals(p, mu, k - 1) + PlaceOf(p.prefs[k - 1], mu[k - 1]) + 1
  }

  lemma WifePlace(p: Problem, s: State, m: nat)
    requires IsProblem(p) && AskedOk(p, s) && m < p.n && m in s.wives
    ensures Get(s.asked, m) == PlaceOf(p.prefs[m], s.wives[m]) + 1
  {
    hide AskedOk, Settled, PlaceOf;
    LastAsked(p, s, m);
    LastIs(p, s, m, PlaceOf(p.prefs[m], s.wives[m]));
  }

  lemma {:induction false} FinalAsked(p: Problem, s: State, k: nat)
    requires Ok(p, s) && s.stack == [] && k <= p.n
    ensures |p.prefs| == p.n && Asked(s, k) == Proposals(p, Wives(p, s), k)
  {
    hide Rank, NoneLost, Stable, AskedOk, PlaceOf, Inverse, StackOk;
    if k > 0 {
      FinalAsked(p, s, k - 1);
      FinalMatched(p, s);
      WifePlace(p, s, k - 1);
    }
  }

  // ----- the objects -----

  function Slots(m: Store<nat>, n: nat): (s: seq<nat>)
    ensures |s| == n
  {
    seq(n, i requires 0 <= i < n => Get(m, i))
  }

  // The stack: a store and a secret size; popped entries are left in the store.
  class OStack {
    var oram: Store<nat>
    var size: nat

    function Contents(): (s: seq<nat>)
      reads this
    {
      Slots(oram, size)
    }

    constructor ()
      ensures Contents() == []
    {
      oram, size := map[], 0;
    }

    method Append(item: nat, forReal: bool)
      modifies this
      ensures Contents() == if forReal then old(Contents()) + [item] else old(Contents())
    {
      oram := Access(oram, size, item, forReal);
      size := size + if forReal then 1 else 0;
      assert forReal ==> Contents() == old(Contents()) + [item];
    }

    method Pop() returns (item: nat)
      requires Contents() != []
      modifies this
      ensures old(Contents()) == Contents() + [item]
    {
      assert size == |Contents()|;
      size := size - 1;
      item := Get(oram, size);
      assert old(Contents()) == Contents() + [item];
    }
  }

  class Matchmaker {
    const p: Problem
    var wives: Store<nat>
    var husbands: Store<nat>
    var asked: Store<nat>
    const unengaged: OStack

    function Now(): State
      reads this, unengaged
    {
      State(wives, husbands, asked, unengaged.Contents())
    }

    constructor (p0: Problem)
      ensures p == p0 && fresh(unengaged)
      ensures Now() == State(map[], map[], map[], [])
    {
      p := p0;
      wives, husbands, asked := map[], map[], map[];
      unengaged := new OStack();
    }

    method Engage(man: nat, woman: nat, forReal: bool)
      modifies this`wives, this`husbands
      ensures wives == (if forReal then old(wives)[man := woman] else old(wives))
      ensures husbands == (if forReal then old(husbands)[woman := man] else old(husbands))
    {
      wives := Access(wives, man, woman, forReal);
      husbands := Access(husbands, woman, man, forReal);
    }

    method Dump(man: nat, woman: nat, forReal: bool)
      modifies this`wives, this`husbands, unengaged
      ensures wives == (if forReal then old(wives) - {man} else old(wives))
      ensures husbands == (if forReal then old(husbands) - {woman} else old(husbands))
      ensures unengaged.Contents() == old(unengaged.Contents()) + (if forReal then [man] else [])
    {
      wives := Delete(wives, man, forReal);
      husbands := Delete(husbands, woman, forReal);
      unengaged.Append(man, forReal);
    }

    // propose: every store is accessed whatever happens; the flags decide what is written.
    method Propose(man: nat, woman: nat, forReal: bool)
      modifies this`wives, this`husbands, unengaged
      ensures Now() == if forReal then Proposed(p, old(Now()), man, woman) else old(Now())
    {
      var fiance, free := Get(husbands, woman), woman !in husbands;
      var engaged := !free;
      var rankMan := Rank(p, woman, man);
      var asFiance := if engaged then fiance else 0;
      var rankFiance, worstFiance := Rank(p, woman, asFiance), !Ranked(p, woman, asFiance);
      var leaving := rankMan < rankFiance;
      if p.k < p.n { leaving := leaving || worstFiance; }
      Dump(fiance, woman, engaged && leaving && forReal);
      Engage(man, woman, !(engaged && !leaving) && forReal);
      unengaged.Append(man, engaged && !leaving && forReal);
    }

    // The body of the loop in match. It stops the program if the man has no choices left.
    method Turn() returns (ok: bool, more: bool)
      requires Ok(p, Now()) && unengaged.Contents() != []
      modifies this, unengaged
      ensures ok <==> Get(old(asked), Top(old(Now()))) < p.k
      ensures ok ==> Now() == Round(p, old(Now())) && Ok(p, Now())
      ensures ok ==> Asked(Now(), p.n) == Asked(old(Now()), p.n) + 1
      ensures ok ==> more == (unengaged.Contents() != [])
    {
      hide Ok, IsProblem, Proposed, Round;
      ghost var s := Now();
      OkParts(p, s);
      TopRange(p, s);
      ListOf(p, Top(s));
      var man := unengaged.Pop();
      assert unengaged.Contents() == s.stack[..|s.stack| - 1] && man == Top(s);
      var pref := Get(asked, man);
      if p.k < p.n && pref == p.k {
        return false, false;
      }
      RoundOk(p, s);
      asked := asked[man := pref + 1];
      RoundIs(p, s);
      Propose(man, p.prefs[man][pref], true);
      AskedStep(s, Now(), man, p.n);
      ok, more := true, unengaged.size > 0;
    }

    // match, run until nobody is left on the stack: it stops within n * k rounds. It fails exactly if
    // there is no stable matching; otherwise every man and woman is matched, the matching is stable, and
    // it is the best stable one for every man. With full lists it never fails.
    method Match() returns (ok: bool, rounds: nat)
      requires IsProblem(p) && p.n > 0 && Now() == State(map[], map[], map[], [])
      modifies this, unengaged
      ensures ok <==> exists mu :: Stable(p, mu)
      ensures p.k == p.n ==> ok
      ensures rounds <= p.n * p.k + 1 && (ok ==> rounds == Proposals(p, Wives(p, Now()), p.n))
      ensures ok ==> Ok(p, Now()) && unengaged.Contents() == []
      ensures ok ==> Stable(p, Wives(p, Now())) && forall m :: 0 <= m < p.n ==> m in wives && husbands[wives[m]] == m
      ensures ok ==> forall nu :: Stable(p, nu) ==> BetterForMen(p, Wives(p, Now()), nu)
    {
      hide IsProblem, Ok, Asked, Stable, BetterForMen, Round, Wives, Top;
      for i := 0 to p.n
        invariant wives == husbands == asked == map[]
        invariant |unengaged.Contents()| == i && forall k :: 0 <= k < i ==> unengaged.Contents()[k] == k
      {
        unengaged.Append(i, true);
      }
      StartOk(p, Now());
      NobodyAsked(Now(), p.n);
      rounds := 0;
      ok := true;
      var more := true;
      while more
        invariant ok && Ok(p, Now()) && more == (unengaged.Contents() != [])
        invariant rounds == Asked(Now(), p.n) <= p.n * p.k
        decreases p.n * p.k - rounds
      {
        rounds := rounds + 1;
        TopRange(p, Now());
        if Get(asked, Top(Now())) >= p.k {
          Exhausted(p, Now(), Top(Now()));
        }
        ok, more := Turn();
        if !ok {
          return;
        }
        RoundsBound(p, Now());
      }
      FinalMatched(p, Now());
      FinalStable(p, Now());
      FinalAsked(p, Now(), p.n);
    }
  }

  // The man on top of the stack, and what is left of his list.
  lemma TopRange(p: Problem, s: State)
    requires Ok(p, s) && s.stack != []
    ensures Top(s) in s.stack && Top(s) < p.n && Get(s.asked, Top(s)) <= p.k
    ensures p.k == p.n ==> Get(s.asked, Top(s)) < p.k
  {
    assert Top(s) in s.stack;
    if p.k == p.n {
      NotExhausted(p, s, Top(s));
    }
  }

  // A round is a proposal of the man who has been taken off the stack.
  lemma RoundIs(p: Problem, s: State)
    requires Ok(p, s) && s.stack != [] && Top(s) < p.n && Get(s.asked, Top(s)) < p.k
    ensures
      var man, pref := Top(s), Get(s.asked, Top(s));
      var s0 := State(s.wives, s.husbands, s.asked[man := pref + 1], s.stack[..|s.stack| - 1]);
      Round(p, s) == Proposed(p, s0, man, p.prefs[man][pref])
      && forall m: nat :: Get(Round(p, s).asked, m) == Get(s.asked, m) + if m == man then 1 else 0
  {
    FianceRanked(p, s, Asks(p, s));
    hide Ok, IsProblem, Rank, Ranked, Injective, OnList;
  }

  lemma ListOf(p: Problem, m: nat)
    requires IsProblem(p) && m < p.n
    ensures m < |p.prefs| && |p.prefs[m]| == p.k
  {
  }

  // A woman ranks the man she is engaged to: he has her on his list.
  lemma FianceRanked(p: Problem, s: State, w: nat)
    requires Ok(p, s)
    ensures w in s.husbands ==> Ranked(p, w, s.husbands[w])
  {
    if w in s.husbands {
      LastAsked(p, s, s.husbands[w]);
      ChoiceRanked(p, s.husbands[w], Refused(s, s.husbands[w]));
    }
  }

  lemma {:induction false} NobodyAsked(s: State, k: nat)
    requires s.asked == map[]
    ensures Asked(s, k) == 0
  {
    if k > 0 {
      NobodyAsked(s, k - 1);
    }
  }

  lemma RoundsBound(p: Problem, s: State)
    requires Ok(p, s)
    ensures Asked(s, p.n) <= p.n * p.k
  {
    AskedBound(p, s, p.n);
  }
}
