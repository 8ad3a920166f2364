/**
 * The body of `poker_chances` after its nested helpers (main.py lines
 * 143-149): run `N_SIMULATIONS` trials, count the wins and turn the count
 * into a percentage. The random shuffles are an argument, one per trial.
 */
module Driver {
  import opened Optional
  import opened Cards
  import opened Dealer

  /** `N_SIMULATIONS` */
  const NumSimulations: nat := 1000

  /** The outcome of the trial run on each shuffle, trial after trial. */
  function Outcomes(onTable: seq<Card>, player: seq<Card>, others: seq<seq<Card>>, shuffles: seq<seq<Card>>): (outcomes: seq<Option<bool>>)
    ensures |outcomes| == |shuffles|
  {
    if shuffles == [] then []
    else
      var n := |shuffles| - 1;
      Outcomes(onTable, player, others, shuffles[..n]) + [Simulate(onTable, player, others, shuffles[n])]
  }

  /** Trial `i` is the trial run on shuffle `i`. */
  lemma {:induction false} OutcomesAt(onTable: seq<Card>, player: seq<Card>, others: seq<seq<Card>>, shuffles: seq<seq<Card>>, i: int)
    requires 0 <= i < |shuffles|
    ensures Outcomes(onTable, player, others, shuffles)[i] == Simulate(onTable, player, others, shuffles[i])
  {
    hide Simulate;
    var n := |shuffles| - 1;
    if i < n {
      OutcomesAt(onTable, player, others, shuffles[..n], i);
    }
  }

  /** Running one more shuffle appends its trial to the outcomes. */
  lemma OutcomesExtend(onTable: seq<Card>, player: seq<Card>, others: seq<seq<Card>>, shuffles: seq<seq<Card>>, i: int)
    requires 0 <= i < |shuffles|
    ensures Outcomes(onTable, player, others, shuffles[..i + 1])
         == Outcomes(onTable, player, others, shuffles[..i]) + [Simulate(onTable, player, others, shuffles[i])]
  {
    hide Simulate;
    assert shuffles[..i + 1][..i] == shuffles[..i];
  }

  /** The trials that were won. */
  function Won(outcomes: seq<Option<bool>>): set<int>
  {
    set i | 0 <= i < |outcomes| && outcomes[i] == Some(true)
  }

  /**
   * The `wins` counter after the trials with these outcomes, in turn;
   * `None` once a trial raises, since the exception leaves the loop.
   */
  function WinCount(outcomes: seq<Option<bool>>): (wins: Option<nat>)
    ensures wins.Some? ==> wins.value <= |outcomes|
  {
    if outcomes == [] then Some(0)
    else
      var before := WinCount(outcomes[..|outcomes| - 1]);
      var last := outcomes[|outcomes| - 1];
      if before.None? || last.None? then None
      else if last.value then Some(before.value + 1)
      else before
  }

  /** One more trial: a failure fails the count, a win adds one, a loss leaves it. */
  lemma WinCountAppend(outcomes: seq<Option<bool>>, last: Option<bool>)
    ensures last.None? ==> WinCount(outcomes + [last]).None?
    ensures last == Some(true) ==>
              WinCount(outcomes + [last]) == if WinCount(outcomes).None? then None else Some(WinCount(outcomes).value + 1)
    ensures last == Some(false) ==> WinCount(outcomes + [last]) == WinCount(outcomes)
  {
    assert (outcomes + [last])[..|outcomes|] == outcomes;
  }

  /** When no trial raises, the counter is the number of trials won. */
  lemma {:induction false} WinCountCountsWins(outcomes: seq<Option<bool>>)
    requires WinCount(outcomes).Some?
    ensures WinCount(outcomes).value == |Won(outcomes)|
  {
    if outcomes != [] {
      var n := |outcomes| - 1;
      var init := outcomes[..n];
      WinCountCountsWins(init);
      if outcomes[n] == Some(true) {
        assert Won(outcomes) == Won(init) + {n};
      } else {
        assert Won(outcomes) == Won(init);
      }
    }
  }

  /** The counter fails exactly when some trial fails. */
  lemma {:induction false} WinCountFailsIff(outcomes: seq<Option<bool>>)
    ensures WinCount(outcomes).None? <==> None in outcomes
  {
    if outcomes != [] {
      var n := |outcomes| - 1;
      var init := outcomes[..n];
      WinCountFailsIff(init);
      assert outcomes == init + [outcomes[n]];
    }
  }

  /**
   * With every shuffle a rearrangement of the full deck, the trials fail
   * exactly when there are no opponents.
   */
  lemma ShuffledOutcomes(onTable: seq<Card>, player: seq<Card>, others: seq<seq<Card>>, shuffles: seq<seq<Card>>)
    requires shuffles != []
    requires forall i :: 0 <= i < |shuffles| ==> multiset(shuffles[i]) == multiset(FullDeck())
    ensures None in Outcomes(onTable, player, others, shuffles) <==> others == []
  {
    var outcomes := Outcomes(onTable, player, others, shuffles);
    if others == [] {
      OutcomesAt(onTable, player, others, shuffles, 0);
      NoOpponentsFails(onTable, player, shuffles[0]);
      assert outcomes[0] == None;
    } else {
      forall i | 0 <= i < |shuffles|
        ensures outcomes[i].Some?
      {
        OutcomesAt(onTable, player, others, shuffles, i);
        ShuffledTrialFailsOnlyWithoutOpponents(onTable, player, others, shuffles[i]);
      }
    }
  }

  /** `(wins / N_SIMULATIONS) * 100`, on exact rationals rather than floating point. */
  function Chances(wins: nat): (percent: real)
    requires wins <= NumSimulations
    ensures 0.0 <= percent <= 100.0
    ensures percent == 100.0 <==> wins == NumSimulations
  {
    (wins as real / NumSimulations as real) * 100.0
  }

  /**
   * The driver loop of `poker_chances`: one trial per shuffle and
   * `wins += 1` on each win; `None` as soon as a trial raises.
   */
  method CountWins(onTable: seq<Card>, player: seq<Card>, others: seq<seq<Card>>, shuffles: seq<seq<Card>>)
    returns (wins: Option<nat>)
    requires forall i :: 0 <= i < |shuffles| ==> multiset(shuffles[i]) == multiset(FullDeck())
    ensures wins == WinCount(Outcomes(onTable, player, others, shuffles))
    ensures wins.Some? ==> wins.value <= |shuffles|
  {
    var count: nat := 0;
    assert WinCount(Outcomes(onTable, player, others, shuffles[..0])) == Some(count);
    hide Simulate, Outcomes, WinCount;
    for i := 0 to |shuffles|
      invariant WinCount(Outcomes(onTable, player, others, shuffles[..i])) == Some(count)
      invariant count <= i
    {
      var won := SimulateGame(onTable, player, others, shuffles[i]);
      OutcomesExtend(onTable, player, others, shuffles, i);
      WinCountAppend(Outcomes(onTable, player, others, shuffles[..i]), won);
      if won.None? {
        WinCountExtendNone(onTable, player, others, shuffles, i + 1);
        return None;
      }
      if won.value {
        count := count + 1;
      }
    }
    assert shuffles[..|shuffles|] == shuffles;
    return Some(count);
  }

  /** Once a trial fails, so does every longer run of trials. */
  lemma {:induction false} WinCountExtendNone(onTable: seq<Card>, player: seq<Card>, others: seq<seq<Card>>, shuffles: seq<seq<Card>>, j: int)
    requires 0 <= j <= |shuffles| && WinCount(Outcomes(onTable, player, others, shuffles[..j])).None?
    ensures WinCount(Outcomes(onTable, player, others, shuffles)).None?
  {
    hide Simulate;
    if j == |shuffles| {
      assert shuffles[..j] == shuffles;
    } else {
      var n := |shuffles| - 1;
      var init := shuffles[..n];
      assert init[..j] == shuffles[..j];
      WinCountExtendNone(onTable, player, others, init, j);
      var before := Outcomes(onTable, player, others, init);
      var outcomes := Outcomes(onTable, player, others, shuffles);
      assert outcomes == before + [Simulate(onTable, player, others, shuffles[n])];
      assert outcomes[..n] == before;
    }
  }

  /**
   * `poker_chances` with the shuffles given: the percentage of the
   * `N_SIMULATIONS` trials won. With shuffles of the full deck only missing
   * opponents make it raise.
   */
  method PokerChances(onTable: seq<Card>, player: seq<Card>, others: seq<seq<Card>>, shuffles: seq<seq<Card>>)
    returns (chances: Option<real>)
    requires |shuffles| == NumSimulations
    requires forall i :: 0 <= i < |shuffles| ==> multiset(shuffles[i]) == multiset(FullDeck())
    ensures chances.None? <==> others == []
    ensures chances.Some? ==>
              var outcomes := Outcomes(onTable, player, others, shuffles);
              WinCount(outcomes).Some?
              && WinCount(outcomes).value == |Won(outcomes)|
              && chances.value == Chances(WinCount(outcomes).value)
  {
    var wins := CountWins(onTable, player, others, shuffles);
    ghost var outcomes := Outcomes(onTable, player, others, shuffles);
    WinCountFailsIff(outcomes);
    ShuffledOutcomes(onTable, player, others, shuffles);
    if wins.None? {
      return None;
    }
    WinCountCountsWins(outcomes);
    chances := Some(Chances(wins.value));
  }
}
