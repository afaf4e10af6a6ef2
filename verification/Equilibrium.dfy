/** The game scoring of ai_modules/equilibrium.rs.

    Players stand in the iteration order of the player map. Utilities are counted in halves of the
    original's unit, which makes them integers. */
module Games {
  import opened Wrappers

  datatype Action = Cooperate | Defect | NoAction

  /** The actions of all players. */
  type Profile = seq<Action>

  // ---------- Scoring ----------

  function Count(p: Profile, a: Action): (r: nat)
    ensures r <= |p|
  {
    if p == [] then 0 else (if p[0] == a then 1 else 0) + Count(p[1..], a)
  }

  /** The score of an action among `n` players of whom `cooperators` cooperate. Everybody who does not
      cooperate counts as a defector. */
  function Payoff(a: Action, cooperators: nat, n: nat): (r: int) {
    match a
    case Cooperate => 4 * cooperators
    case Defect => 6 * cooperators - if n - cooperators > 1 then 3 * (n - cooperators) else 0
    case NoAction => 0
  }

  /** `calculate_utility`. */
  function Utility(p: Profile, player: nat): (r: int) {
    if |p| <= 1 || player >= |p| then 0 else Payoff(p[player], Count(p, Cooperate), |p|)
  }

  /** The sum of the utilities of the first `n` players. */
  function SumOfUtilities(p: Profile, n: nat): (r: int) {
    if n == 0 then 0 else SumOfUtilities(p, n - 1) + Utility(p, n - 1)
  }

  function Total(p: Profile): (r: int) {
    SumOfUtilities(p, |p|)
  }

  function Uniform(n: nat, a: Action): (r: Profile)
    ensures |r| == n
    ensures forall i | 0 <= i < n :: r[i] == a
  {
    if n == 0 then [] else [a] + Uniform(n - 1, a)
  }

  lemma {:induction false} CountUniform(n: nat, a: Action, b: Action)
    ensures Count(Uniform(n, a), b) == if a == b then n else 0
  {
    if n > 0 {
      assert Uniform(n, a)[1..] == Uniform(n - 1, a);
      CountUniform(n - 1, a, b);
    }
  }

  lemma {:induction false} CountConcat(p: Profile, q: Profile, a: Action)
    ensures Count(p + q, a) == Count(p, a) + Count(q, a)
  {
    if p == [] {
      assert p + q == q;
    } else {
      assert (p + q)[1..] == p[1..] + q;
      CountConcat(p[1..], q, a);
    }
  }

  lemma CountSnoc(h: seq<Action>, j: nat, a: Action)
    requires j < |h|
    ensures Count(h[..j + 1], a) == Count(h[..j], a) + if h[j] == a then 1 else 0
  {
    assert h[..j + 1] == h[..j] + [h[j]];
    CountConcat(h[..j], [h[j]], a);
  }

  lemma {:induction false} CountsAddUp(p: Profile)
    ensures Count(p, Cooperate) + Count(p, Defect) + Count(p, NoAction) == |p|
  {
    if p != [] { CountsAddUp(p[1..]); }
  }

  lemma {:induction false} CountAll(p: Profile, a: Action)
    requires Count(p, a) == |p|
    ensures p == Uniform(|p|, a)
  {
    if p != [] { CountAll(p[1..], a); }
  }

  lemma {:induction false} CountMember(p: Profile, i: nat)
    requires i < |p|
    ensures Count(p, p[i]) >= 1
  {
    if i > 0 { CountMember(p[1..], i - 1); }
  }

  lemma {:induction false} CountHas(p: Profile, a: Action) returns (i: nat)
    requires Count(p, a) > 0
    ensures i < |p| && p[i] == a
  {
    if p[0] == a {
      i := 0;
    } else {
      i := CountHas(p[1..], a);
      i := i + 1;
    }
  }

  lemma {:induction false} CountAfter(p: Profile, i: nat, a: Action, b: Action)
    requires i < |p|
    ensures Count(p[i := a], b) == Count(p, b) - (if p[i] == b then 1 else 0) + if a == b then 1 else 0
  {
    if i == 0 {
      assert p[0 := a][1..] == p[1..];
    } else {
      assert p[i := a][1..] == p[1..][i - 1 := a];
      CountAfter(p[1..], i - 1, a, b);
    }
  }

  lemma {:induction false} CountIsMultiplicity(p: Profile, a: Action)
    ensures Count(p, a) == multiset(p)[a]
  {
    if p != [] {
      CountIsMultiplicity(p[1..], a);
      assert p == [p[0]] + p[1..];
    }
  }

  /** The scores, in halves: a cooperator gets two for every cooperator, a defector three, less one and a half
      for everybody who does not cooperate if these are more than one, and an idle player nothing. A single
      player and one who is not there score nothing. */
  lemma UtilityMeaning(p: Profile, i: nat)
    ensures i >= |p| || |p| <= 1 ==> Utility(p, i) == 0
    ensures i < |p| && |p| > 1 ==>
              var k := multiset(p)[Cooperate];
              var d := |p| - k;
              Utility(p, i) == match p[i]
                               case Cooperate => 4 * k
                               case Defect => 6 * k - (if d > 1 then 3 * d else 0)
                               case NoAction => 0
  {
    CountIsMultiplicity(p, Cooperate);
  }

  // ---------- Total utility ----------

  lemma {:induction false} SumByCounts(p: Profile, n: nat, c: int, d: int)
    requires |p| > 1 && n <= |p|
    requires c == Payoff(Cooperate, Count(p, Cooperate), |p|) && d == Payoff(Defect, Count(p, Cooperate), |p|)
    ensures SumOfUtilities(p, n) == Count(p[..n], Cooperate) * c + Count(p[..n], Defect) * d
  {
    if n > 0 {
      SumByCounts(p, n - 1, c, d);
      CountSnoc(p, n - 1, Cooperate);
      CountSnoc(p, n - 1, Defect);
      AddedOnce(Count(p[..n - 1], Cooperate), c);
      AddedOnce(Count(p[..n - 1], Defect), d);
    }
  }

  lemma AddedOnce(k: int, x: int)
    ensures (k + 1) * x == k * x + x
  {
  }

  /** The counts decide the total. */
  lemma TotalByCounts(p: Profile)
    requires |p| > 1
    ensures var k, d := Count(p, Cooperate), Count(p, Defect);
            Total(p) == k * (4 * k) + d * Payoff(Defect, k, |p|)
  {
    SumByCounts(p, |p|, Payoff(Cooperate, Count(p, Cooperate), |p|), Payoff(Defect, Count(p, Cooperate), |p|));
    assert p[..|p|] == p;
  }

  lemma TotalBelowSquare(n: nat, k: nat, d: nat)
    requires n > 1 && k < n && d <= n - k
    ensures k * (4 * k) + d * Payoff(Defect, k, n) < n * (4 * n)
  {
    var m := n - k;
    assert d * Payoff(Defect, k, n) <= d * (6 * k);
    assert d * (6 * k) <= 6 * (k * m);
    assert m * m >= 1;
    assert k * m >= 0;
  }

  /** For two or more players, everybody cooperating is the only profile of maximal total utility. */
  lemma CooperationMaximisesTotal(p: Profile)
    requires |p| > 1
    ensures Total(Uniform(|p|, Cooperate)) == |p| * (4 * |p|)
    ensures p != Uniform(|p|, Cooperate) ==> Total(p) < Total(Uniform(|p|, Cooperate))
  {
    var n, all := |p|, Uniform(|p|, Cooperate);
    TotalByCounts(all);
    CountUniform(n, Cooperate, Cooperate);
    CountUniform(n, Cooperate, Defect);
    if p != all {
      TotalByCounts(p);
      CountsAddUp(p);
      if Count(p, Cooperate) == n { CountAll(p, Cooperate); }
      TotalBelowSquare(n, Count(p, Cooperate), Count(p, Defect));
    }
  }

  /** `q` is at least as good as `p` for everybody and better for somebody. */
  ghost predicate Dominates(q: Profile, p: Profile) {
    && |q| == |p|
    && (forall i | 0 <= i < |p| :: Utility(q, i) >= Utility(p, i))
    && (exists i | 0 <= i < |p| :: Utility(q, i) > Utility(p, i))
  }

  lemma {:induction false} SumMonotone(q: Profile, p: Profile, n: nat)
    requires n <= |p| == |q| && forall i | 0 <= i < |p| :: Utility(q, i) >= Utility(p, i)
    ensures SumOfUtilities(q, n) >= SumOfUtilities(p, n)
    ensures (exists i | 0 <= i < n :: Utility(q, i) > Utility(p, i)) ==> SumOfUtilities(q, n) > SumOfUtilities(p, n)
  {
    if n > 0 { SumMonotone(q, p, n - 1); }
  }

  /** Nothing Pareto-dominates cooperation. */
  lemma CooperationIsParetoOptimal(q: Profile)
    requires |q| > 1
    ensures !Dominates(q, Uniform(|q|, Cooperate))
  {
    var p := Uniform(|q|, Cooperate);
    if Dominates(q, p) {
      SumMonotone(q, p, |q|);
      CooperationMaximisesTotal(q);
    }
  }

  // ---------- Nash equilibria ----------

  /** What player `i` gets when he alone switches to `a`. */
  function Deviation(p: Profile, i: nat, a: Action): (r: int)
    requires i < |p|
  {
    Utility(p[i := a], i)
  }

  ghost predicate Content(p: Profile, i: nat)
    requires i < |p|
  {
    forall a :: Deviation(p, i, a) <= Utility(p, i)
  }

  /** Nobody gains by changing only his own action. */
  ghost predicate IsNash(p: Profile) {
    forall i | 0 <= i < |p| :: Content(p, i)
  }

  /** The cooperators among the other players. */
  function Others(p: Profile, i: nat): (r: nat)
    requires i < |p|
  {
    CountMember(p, i);
    Count(p, Cooperate) - if p[i].Cooperate? then 1 else 0
  }

  lemma DeviationPays(p: Profile, i: nat, a: Action)
    requires i < |p| && |p| > 1
    ensures Others(p, i) < |p|
    ensures Deviation(p, i, a) == Payoff(a, Others(p, i) + if a.Cooperate? then 1 else 0, |p|)
  {
    CountAfter(p, i, a, Cooperate);
    CountAfter(p, i, Defect, Cooperate);
    CountAfter(p, i, Cooperate, Cooperate);
  }

  lemma ContentWhen(p: Profile, i: nat)
    requires i < |p| && |p| > 1
    ensures Content(p, i) <==> Settled(p[i], Count(p, Cooperate), |p|)
  {
    assert p[i := p[i]] == p;
    forall a: Action
      ensures Deviation(p, i, a) == Payoff(a, Others(p, i) + if a.Cooperate? then 1 else 0, |p|)
    {
      DeviationPays(p, i, a);
    }
    DeviationPays(p, i, p[i]);
    BestAction(p[i], Others(p, i), |p|);
  }

  /** With `k` cooperators among `n` players no action beats `own`, which is one of them. */
  predicate Settled(own: Action, k: nat, n: nat) {
    match own
    case Cooperate => if k >= n then k <= 3 else 2 * k <= 9 + 3 * (n - k)
    case Defect => if k + 1 >= n then k >= 2 else 2 * k >= 4 + 3 * (n - k)
    case NoAction => false
  }

  lemma BestAction(own: Action, others: nat, n: nat)
    requires others < n
    ensures (forall a: Action ::
              Payoff(a, others + (if a.Cooperate? then 1 else 0), n)
              <= Payoff(own, others + (if own.Cooperate? then 1 else 0), n))
            <==> Settled(own, others + (if own.Cooperate? then 1 else 0), n)
  {
    assert Payoff(Cooperate, others + 1, n) == 4 * others + 4;
    assert Payoff(Defect, others, n) == 6 * others - if n - others > 1 then 3 * (n - others) else 0;
    assert Payoff(NoAction, others, n) == 0;
  }

  /** The numbers of cooperators and defectors that make an equilibrium. */
  ghost predicate Balanced(k: nat, d: nat) {
    if d == 0 then k <= 3
    else if d == 1 then 2 <= k <= 6
    else 4 + 3 * d <= 2 * k <= 9 + 3 * d
  }

  /** All pure equilibria of the game: everybody acts, and about three in five cooperate. */
  lemma NashCharacterised(p: Profile)
    requires |p| > 1
    ensures IsNash(p) <==> Count(p, NoAction) == 0 && Balanced(Count(p, Cooperate), Count(p, Defect))
  {
    var k, n := Count(p, Cooperate), |p|;
    CountsAddUp(p);
    if IsNash(p) {
      forall a: Action | Count(p, a) > 0 ensures Settled(a, k, n) {
        var i := CountHas(p, a);
        assert Content(p, i);
        ContentWhen(p, i);
      }
    } else {
      var i :| 0 <= i < n && !Content(p, i);
      ContentWhen(p, i);
      CountMember(p, i);
    }
  }

  /** Everybody cooperating is an equilibrium for two or three players only, and everybody defecting
      for no number of players. */
  lemma UniformProfiles(n: nat)
    requires n > 1
    ensures IsNash(Uniform(n, Cooperate)) <==> n <= 3
    ensures !IsNash(Uniform(n, Defect))
  {
    NashCharacterised(Uniform(n, Cooperate));
    NashCharacterised(Uniform(n, Defect));
    forall a, b: Action { CountUniform(n, a, b); }
  }

  function Mixed(k: nat, d: nat): (r: Profile)
    ensures |r| == k + d
  {
    Uniform(k, Cooperate) + Uniform(d, Defect)
  }

  lemma CountMixed(k: nat, d: nat, a: Action)
    ensures Count(Mixed(k, d), a) == (if a.Cooperate? then k else 0) + if a.Defect? then d else 0
  {
    CountConcat(Uniform(k, Cooperate), Uniform(d, Defect), a);
    CountUniform(k, Cooperate, a);
    CountUniform(d, Defect, a);
  }

  function DefectorsFor(n: nat): (d: nat)
    requires n > 1
    ensures d <= n && Balanced(n - d, d)
  {
    if n <= 3 then 0 else if n <= 7 then 1 else (2 * n - 4) / 5
  }

  /** Every number of players from two on has an equilibrium. */
  lemma NashExists(n: nat) returns (p: Profile)
    requires n > 1
    ensures |p| == n && IsNash(p)
  {
    var d := DefectorsFor(n);
    p := Mixed(n - d, d);
    CountMixed(n - d, d, Cooperate);
    CountMixed(n - d, d, Defect);
    CountMixed(n - d, d, NoAction);
    NashCharacterised(p);
  }

  // ---------- Strategies ----------

  datatype Strategy =
    | AlwaysCooperate
    | AlwaysDefect
    | TitForTat
    | Random
    | ProfitMaximizing
    | Custom(name: string)

  datatype Player = Player(address: nat, strategy: Strategy, history: seq<Action>)

  predicate EndsWithDefect(history: seq<Action>) {
    history != [] && history[|history| - 1] == Defect
  }

  function CountInAll(histories: seq<seq<Action>>, a: Action): (r: nat) {
    if histories == [] then 0 else CountInAll(histories[..|histories| - 1], a) + Count(histories[|histories| - 1], a)
  }

  function LengthOfAll(histories: seq<seq<Action>>): (r: nat) {
    if histories == [] then 0 else LengthOfAll(histories[..|histories| - 1]) + |histories[|histories| - 1]|
  }

  /** What a player does, given the histories of all players, his own among them, and a random draw. */
  function Choice(s: Strategy, histories: seq<seq<Action>>, draw: real): (r: Action) {
    match s
    case AlwaysCooperate => Cooperate
    case AlwaysDefect => Defect
    case TitForTat => if exists h | h in histories :: EndsWithDefect(h) then Defect else Cooperate
    case Random => if draw < 0.5 then Cooperate else Defect
    case ProfitMaximizing =>
      var total := LengthOfAll(histories);
      if total == 0 || 10 * CountInAll(histories, Defect) < 3 * total then Cooperate else Defect
    case Custom(_) => Cooperate
  }

  /** All actions of the histories. */
  ghost function Flat(histories: seq<seq<Action>>): (r: seq<Action>) {
    if histories == [] then [] else Flat(histories[..|histories| - 1]) + histories[|histories| - 1]
  }

  lemma {:induction false} CountsOfFlat(histories: seq<seq<Action>>, a: Action)
    ensures CountInAll(histories, a) == multiset(Flat(histories))[a]
    ensures LengthOfAll(histories) == |Flat(histories)|
  {
    if histories != [] {
      CountsOfFlat(histories[..|histories| - 1], a);
      CountIsMultiplicity(histories[|histories| - 1], a);
    }
  }

  /** Tit for tat defects exactly when the last action of some history is a defection, the profit maximizer
      exactly when three in ten of all recorded actions, or more, are defections, and the random player exactly
      for draws of at least one half; otherwise they cooperate, as a custom strategy always does. */
  lemma StrategiesMean(histories: seq<seq<Action>>, draw: real, name: string)
    ensures var retaliates := exists i | 0 <= i < |histories| ::
                                histories[i] != [] && histories[i][|histories[i]| - 1] == Defect;
            Choice(TitForTat, histories, draw) == if retaliates then Defect else Cooperate
    ensures var all := Flat(histories);
            Choice(ProfitMaximizing, histories, draw) ==
            if all != [] && 10 * multiset(all)[Defect] >= 3 * |all| then Defect else Cooperate
    ensures Choice(Random, histories, draw) == if draw >= 0.5 then Defect else Cooperate
    ensures Choice(Custom(name), histories, draw) == Cooperate
  {
    CountsOfFlat(histories, Defect);
    if h :| h in histories && EndsWithDefect(h) {
      var i :| 0 <= i < |histories| && histories[i] == h;
    }
    if i :| 0 <= i < |histories| && histories[i] != [] && histories[i][|histories[i]| - 1] == Defect {
      assert histories[i] in histories && EndsWithDefect(histories[i]);
    }
  }

  method PredictAction(s: Strategy, histories: seq<seq<Action>>, draw: real) returns (action: Action)
    ensures action == Choice(s, histories, draw)
  {
    match s
    case AlwaysCooperate => action := Cooperate;
    case AlwaysDefect => action := Defect;
    case TitForTat =>
      var defected := SomeoneDefected(histories);
      action := if defected then Defect else Cooperate;
    case Random => action := if draw < 0.5 then Cooperate else Defect;
    case ProfitMaximizing =>
      var defections, total := CountActions(histories);
      if total > 0 { ShareBelow(defections, total); }
      action := if total == 0 || defections as real / total as real < 0.3 then Cooperate else Defect;
    case Custom(_) => action := Cooperate;
  }

  lemma ShareBelow(part: nat, total: nat)
    requires total > 0
    ensures part as real / total as real < 0.3 <==> 10 * part < 3 * total
  {
    AverageAbove(part as real, total as real, 0.3);
    assert (10 * part) as real == 10.0 * part as real && (3 * total) as real == 3.0 * total as real;
  }

  method SomeoneDefected(histories: seq<seq<Action>>) returns (found: bool)
    ensures found <==> exists h | h in histories :: EndsWithDefect(h)
  {
    for i := 0 to |histories|
      invariant forall j | 0 <= j < i :: !EndsWithDefect(histories[j])
    {
      if EndsWithDefect(histories[i]) {
        assert histories[i] in histories;
        return true;
      }
    }
    found := false;
  }

  method CountActions(histories: seq<seq<Action>>) returns (defections: nat, total: nat)
    ensures defections == CountInAll(histories, Defect) && total == LengthOfAll(histories)
  {
    defections, total := 0, 0;
    for i := 0 to |histories|
      invariant defections == CountInAll(histories[..i], Defect) && total == LengthOfAll(histories[..i])
    {
      var h := histories[i];
      for j := 0 to |h|
        invariant defections == CountInAll(histories[..i], Defect) + Count(h[..j], Defect)
        invariant total == LengthOfAll(histories[..i]) + j
      {
        CountSnoc(h, j, Defect);
        if h[j] == Defect { defections := defections + 1; }
        total := total + 1;
      }
      assert h[..|h|] == h && histories[..i + 1][..i] == histories[..i];
    }
    assert histories[..|histories|] == histories;
  }

  // ---------- A game ----------

  function Histories(players: seq<Player>): (r: seq<seq<Action>>)
    ensures |r| == |players|
    ensures forall i | 0 <= i < |players| :: r[i] == players[i].history
  {
    if players == [] then [] else [players[0].history] + Histories(players[1..])
  }

  /** The profile that a run plays, for the random draws of the players. */
  ghost predicate Plays(players: seq<Player>, draw: nat -> real, p: Profile) {
    && |p| == |players|
    && forall i | 0 <= i < |p| :: p[i] == Choice(players[i].strategy, Histories(players), draw(i))
  }

  /** `totalUtility` is in halves; the other amounts are in the original's unit. */
  datatype GameOutcome = GameOutcome(
    success: bool, profit: real, gasCost: real, actions: Profile, utilities: seq<int>, totalUtility: int)

  method RunGame(players: seq<Player>, draw: nat -> real, minUtility: real, baseGas: real)
      returns (outcome: Option<GameOutcome>)
    ensures outcome.None? <==> players == []
    ensures outcome.Some? ==>
              var o := outcome.value;
              && Plays(players, draw, o.actions)
              && |o.utilities| == |players|
              && (forall i | 0 <= i < |players| :: o.utilities[i] == Utility(o.actions, i))
              && o.totalUtility == Total(o.actions)
              && (o.success <==> o.totalUtility as real / 2.0 > minUtility * |players| as real)
              && o.gasCost == baseGas * |players| as real
              && o.profit == (if o.success then o.totalUtility as real / 2.0 else 0.0) - o.gasCost
  {
    if players == [] { return None; }
    var actions := PlayAll(players, draw);
    var utilities, total := Score(actions);
    var success, gas, profit := Settle(total, |players|, minUtility, baseGas);
    outcome := Some(GameOutcome(success, profit, gas, actions, utilities, total));
  }

  method PlayAll(players: seq<Player>, draw: nat -> real) returns (actions: Profile)
    ensures Plays(players, draw, actions)
  {
    var histories := Histories(players);
    actions := [];
    for i := 0 to |players|
      invariant |actions| == i
      invariant forall j | 0 <= j < i :: actions[j] == Choice(players[j].strategy, histories, draw(j))
    {
      var a := PredictAction(players[i].strategy, histories, draw(i));
      actions := actions + [a];
    }
  }

  method Score(actions: Profile) returns (utilities: seq<int>, total: int)
    ensures |utilities| == |actions| && forall i | 0 <= i < |actions| :: utilities[i] == Utility(actions, i)
    ensures total == Total(actions)
  {
    utilities, total := [], 0;
    for i := 0 to |actions|
      invariant |utilities| == i && forall j | 0 <= j < i :: utilities[j] == Utility(actions, j)
      invariant total == SumOfUtilities(actions, i)
    {
      var u := Utility(actions, i);
      utilities, total := utilities + [u], total + u;
    }
  }

  /** The average decides about success. */
  method Settle(total: int, n: nat, minUtility: real, baseGas: real)
      returns (success: bool, gas: real, profit: real)
    requires n > 0
    ensures success <==> total as real / 2.0 > minUtility * n as real
    ensures gas == baseGas * n as real
    ensures profit == (if success then total as real / 2.0 else 0.0) - gas
  {
    var utility := total as real / 2.0;
    AverageAbove(utility, n as real, minUtility);
    success, gas := utility / n as real > minUtility, baseGas * n as real;
    profit := if success then utility - gas else -gas;
  }

  lemma AverageAbove(total: real, n: real, bound: real)
    requires n > 0.0
    ensures total / n > bound <==> total > bound * n
    ensures total / n < bound <==> total < bound * n
  {
    var gap := total / n - bound;
    assert gap * n == total - bound * n;
    if gap > 0.0 { assert gap * n > 0.0; }
    if gap < 0.0 { assert -gap * n > 0.0; }
  }

  /** When everybody plays tit for tat, all act alike: one last defection in any history makes everybody
      defect, and without one everybody cooperates. */
  lemma TitForTatIsUnanimous(players: seq<Player>, draw: nat -> real, p: Profile)
    requires Plays(players, draw, p) && forall i | 0 <= i < |players| :: players[i].strategy == TitForTat
    ensures var grudge := exists i | 0 <= i < |players| ::
                            players[i].history != [] && players[i].history[|players[i].history| - 1] == Defect;
            p == Uniform(|players|, if grudge then Defect else Cooperate)
  {
    var histories := Histories(players);
    StrategiesMean(histories, 0.0, "");
    forall i | 0 <= i < |p| ensures p[i] == Choice(TitForTat, histories, 0.0) {
    }
    assert forall i | 0 <= i < |players| :: histories[i] == players[i].history;
  }

  // ---------- The recommended strategies ----------

  function Recommend(players: seq<Player>, s: Strategy): (r: seq<(nat, Strategy)>)
    ensures |r| == |players|
    ensures forall i | 0 <= i < |players| :: r[i] == (players[i].address, s)
  {
    if players == [] then [] else [(players[0].address, s)] + Recommend(players[1..], s)
  }

  method FindNashEquilibrium(players: seq<Player>) returns (answer: Option<seq<(nat, Strategy)>>)
    ensures answer == if players == [] then None else Some(Recommend(players, AlwaysDefect))
  {
    if players == [] { return None; }
    var equilibrium: seq<(nat, Strategy)> := [];
    for i := 0 to |players|
      invariant |equilibrium| == i && forall j | 0 <= j < i :: equilibrium[j] == (players[j].address, AlwaysDefect)
    {
      equilibrium := equilibrium + [(players[i].address, AlwaysDefect)];
    }
    assert equilibrium == Recommend(players, AlwaysDefect);
    answer := Some(equilibrium);
  }

  method FindParetoOptimal(players: seq<Player>) returns (answer: Option<seq<(nat, Strategy)>>)
    ensures answer == if players == [] then None else Some(Recommend(players, AlwaysCooperate))
  {
    if players == [] { return None; }
    var optimal: seq<(nat, Strategy)> := [];
    for i := 0 to |players|
      invariant |optimal| == i && forall j | 0 <= j < i :: optimal[j] == (players[j].address, AlwaysCooperate)
    {
      optimal := optimal + [(players[i].address, AlwaysCooperate)];
    }
    assert optimal == Recommend(players, AlwaysCooperate);
    answer := Some(optimal);
  }

  /** The players follow the recommendation. */
  ghost predicate Follow(players: seq<Player>, answer: seq<(nat, Strategy)>) {
    |players| == |answer| && forall i | 0 <= i < |players| :: answer[i] == (players[i].address, players[i].strategy)
  }

  /** The recommendation of `find_nash_equilibrium`, played by everybody whatever the histories, is an
      equilibrium of the scored game for no number of players from two on. */
  lemma NashAnswerIsNoEquilibrium(before: seq<Player>, players: seq<Player>, draw: nat -> real, p: Profile)
    requires |players| > 1 && Follow(players, Recommend(before, AlwaysDefect)) && Plays(players, draw, p)
    ensures !IsNash(p)
  {
    assert p == Uniform(|p|, Defect);
    UniformProfiles(|p|);
  }

  /** The recommendation of `find_pareto_optimal` is what its name says, and the unique maximum of the
      total; it is also an equilibrium exactly up to three players. */
  lemma ParetoAnswerIsOptimal(before: seq<Player>, players: seq<Player>, draw: nat -> real, p: Profile, q: Profile)
    requires |players| > 1 && Follow(players, Recommend(before, AlwaysCooperate)) && Plays(players, draw, p)
    requires |q| == |players|
    ensures !Dominates(q, p)
    ensures q != p ==> Total(q) < Total(p)
    ensures IsNash(p) <==> |players| <= 3
  {
    assert p == Uniform(|p|, Cooperate);
    CooperationIsParetoOptimal(q);
    CooperationMaximisesTotal(q);
    UniformProfiles(|p|);
  }
}
