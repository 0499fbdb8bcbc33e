/** The bound on new money, for every block of the best chain after any run. */
module Inflation {
  import opened Basics
  import opened Ledger
  import opened LedgerLaws
  import opened Rewards
  import opened BlockTree
  import opened ChainSpec
  import opened ChainLaws
  import opened SwitchConditions

  // ---------- every block of the best chain was accepted where it stands ----------

  /** Under some verdicts, block j of p was accepted on top of the replay of those before it. */
  ghost predicate WasAccepted(t: Tree, p: seq<Hash>, j: nat)
    requires Known(t, p) && 0 < j < |p|
  {
    exists vs: Verdicts :: AcceptableAt(t, p, j, vs)
  }

  ghost predicate ChainAccepted(t: Tree, p: seq<Hash>)
    requires Known(t, p)
  {
    forall j :: 0 < j < |p| ==> WasAccepted(t, p, j)
  }

  ghost predicate BestAccepted(s: Chain, g: Hash) {
    Good(s, g) && Known(s.tree, Path(s.tree, g, s.best)) && ChainAccepted(s.tree, Path(s.tree, g, s.best))
  }

  lemma SharedAccepted(t: Tree, p: seq<Hash>, q: seq<Hash>, j: nat, vs: Verdicts)
    requires Known(t, p) && Known(t, q) && 0 < j < |p| && j < |q| && p[..j + 1] == q[..j + 1]
    requires AcceptableAt(t, p, j, vs)
    ensures AcceptableAt(t, q, j, vs)
  {
    assert p[..j] == p[..j + 1][..j] && q[..j] == q[..j + 1][..j];
    assert p[j] == p[..j + 1][j] && q[j] == q[..j + 1][j];
  }

  /** A branch whose blocks are all accepted continues an accepted chain. */
  lemma BranchAccepted(t: Tree, p: seq<Hash>, q: seq<Hash>, k: nat, vs: Verdicts)
    requires Known(t, p) && Known(t, q) && 0 < k <= |p| && k <= |q| && p[..k] == q[..k]
    requires ChainAccepted(t, p) && AllAcceptable(t, q, k, vs)
    ensures ChainAccepted(t, q)
  {
    forall j | 0 < j < |q| ensures WasAccepted(t, q, j) {
      if j < k {
        assert WasAccepted(t, p, j);
        var vs0: Verdicts :| AcceptableAt(t, p, j, vs0);
        assert p[..j + 1] == p[..k][..j + 1] && q[..j + 1] == q[..k][..j + 1];
        SharedAccepted(t, p, q, j, vs0);
      } else {
        assert AcceptableAt(t, q, j, vs);
      }
    }
  }

  lemma SetBestChainAccepts(s: Chain, g: Hash, new': Hash, vs: Verdicts)
    requires BestAccepted(s, g) && new' in s.tree && s.tree[new'].height > 0 && SetBestChain(s, g, new', vs).complete
    ensures BestAccepted(SetBestChain(s, g, new', vs).chain, g)
  {
    SetBestChainKeeps(s, g, new', vs);
    SetBestChainReorganizes(s, g, new', vs);
    if SetBestChain(s, g, new', vs).ok {
      var p, q := Path(s.tree, g, s.best), Path(s.tree, g, new');
      PathKnown(s.tree, g, new');
      ForkIsCommonPrefix(s.tree, g, s.best, new');
      BranchAccepted(s.tree, p, q, CommonPrefix(p, q), vs);
    }
  }

  lemma GrowAccepted(s: Chain, g: Hash, b: NewBlock)
    requires BestAccepted(s, g) && b.hash !in s.tree && b.prev in s.tree
    ensures BestAccepted(s.(tree := Insert(s.tree, b)), g)
  {
    var t, t', p := s.tree, Insert(s.tree, b), Path(s.tree, g, s.best);
    GrowTree(s, g, b);
    PathStable(t, t', g, s.best);
    forall j | 0 < j < |p| ensures WasAccepted(t', p, j) {
      assert WasAccepted(t, p, j);
      var vs: Verdicts :| AcceptableAt(t, p, j, vs);
      ReplayStable(t, t', p[..j]);
      assert AcceptableAt(t', p, j, vs);
    }
  }

  lemma StepAccepts(s: Chain, g: Hash, e: Event)
    requires BestAccepted(s, g) && Step(s, g, e).complete
    ensures BestAccepted(Step(s, g, e).chain, g)
  {
    match e
    case Arrive(b, vs) =>
      if b.hash !in s.tree && b.prev in s.tree {
        GrowAccepted(s, g, b);
        var s1 := s.(tree := Insert(s.tree, b));
        if s1.tree[b.hash].trust > s1.tree[s.best].trust { SetBestChainAccepts(s1, g, b.hash, vs); }
      }
    case Force(h, vs) =>
      if h in s.tree && !IsInMainChain(s, h) {
        InMainChainIffAncestor(s, g, h);
        PathEnds(s.tree, g, s.best);
        SetBestChainAccepts(s, g, h, vs);
      }
  }

  /** After any run, each block of the best chain was accepted on top of exactly the blocks before it, whichever call
      connected it: as an extension, in a reorganisation, or postponed. */
  lemma {:induction false} EveryBlockAccepted(s: Chain, g: Hash, events: seq<Event>, s': Chain)
    requires IsStart(s, g) && Reaches(s, g, events, s')
    ensures BestAccepted(s', g)
    decreases |events|
  {
    StartIsGood(s, g);
    if events != [] {
      var m :| Reaches(s, g, Front(events), m) && Rooted(m, g)
               && Step(m, g, Last(events)).complete && s' == Step(m, g, Last(events)).chain;
      EveryBlockAccepted(s, g, Front(events), m);
      StepAccepts(m, g, Last(events));
    }
  }

  // ---------- new money ----------

  lemma {:induction false} ReplaySound(t: Tree, p: seq<Hash>)
    requires Known(t, p) && Replay(t, p).Some?
    ensures SoundOutputs(Replay(t, p).value)
  {
    if |p| > 1 {
      ReplaySound(t, Front(p));
      ConnectKeepsSoundOutputs(Replay(t, Front(p)).value, Last(p), t[Last(p)].txs);
    }
  }

  lemma ReplayNext(t: Tree, p: seq<Hash>, j: nat)
    requires Known(t, p) && 0 < j < |p| && Replay(t, p[..j + 1]).Some?
    ensures Replay(t, p[..j]).Some? && Connect(Replay(t, p[..j]).value, p[j], t[p[j]].txs).Some?
    ensures Replay(t, p[..j + 1]).value == Connect(Replay(t, p[..j]).value, p[j], t[p[j]].txs).value.view
  {
    assert Front(p[..j + 1]) == p[..j] && Last(p[..j + 1]) == p[j];
  }

  /** A rise from one value to the other by at most 0.02 / 485169 of it. */
  predicate RisesLittle(before: int, after: int) { (after - before) as real <= before as real * 0.02 / 485169.0 }

  /** How much the block at position j of p raises the value of all unspent outputs. */
  lemma AcceptedCreates(t: Tree, p: seq<Hash>, j: nat, vs: Verdicts)
    requires Known(t, p) && 0 < j < |p| && AcceptableAt(t, p, j, vs) && Replay(t, p[..j + 1]).Some?
    requires j > HARDFORK_HEIGHTV4 && IsProofOfStake(t[p[j]].txs)
    ensures var before, after := Total(Replay(t, p[..j]).value), Total(Replay(t, p[..j + 1]).value);
      before >= 0 && RisesLittle(before, after)
  {
    var v, h := Replay(t, p[..j]).value, p[j];
    ReplayNext(t, p, j);
    ReplaySound(t, p[..j]);
    TotalNonNegative(v);
    ConnectConserves(v, h, t[h].txs);
    InflationBound(v, h, t[h].txs, vs(h).legacyReward, t[h].time, j - 1, Total(v));
  }

  /** Block j of the best chain is a proof-of-stake block whose parent stands at HARDFORK_HEIGHTV4 or above. */
  ghost predicate StakesAt(s: Chain, p: seq<Hash>, j: nat) {
    HARDFORK_HEIGHTV4 < j < |p| && p[j] in s.tree && IsProofOfStake(s.tree[p[j]].txs)
  }

  function SupplyAfter(s: Chain, p: seq<Hash>, j: nat): int
    requires j < |p|
  {
    SupplyOf(s.supply, p[j])
  }

  lemma SupplyRises(t: Tree, supply: map<Hash, int>, p: seq<Hash>, j: nat, vs: Verdicts)
    requires Known(t, p) && HARDFORK_HEIGHTV4 < j < |p| && IsProofOfStake(t[p[j]].txs) && AcceptableAt(t, p, j, vs)
    requires SupplyAt(t, supply, p, j - 1) && SupplyAt(t, supply, p, j)
    ensures SupplyOf(supply, p[j - 1]) >= 0 && RisesLittle(SupplyOf(supply, p[j - 1]), SupplyOf(supply, p[j]))
  {
    assert p[..j - 1 + 1] == p[..j];
    AcceptedCreates(t, p, j, vs);
  }

  lemma AcceptedInflation(s: Chain, g: Hash, j: nat)
    requires BestAccepted(s, g) && StakesAt(s, Path(s.tree, g, s.best), j)
    ensures var p := Path(s.tree, g, s.best);
      SupplyAfter(s, p, j - 1) >= 0 && RisesLittle(SupplyAfter(s, p, j - 1), SupplyAfter(s, p, j))
  {
    var p := Path(s.tree, g, s.best);
    assert WasAccepted(s.tree, p, j);
    var vs: Verdicts :| AcceptableAt(s.tree, p, j, vs);
    SupplyRises(s.tree, s.supply, p, j, vs);
  }

  /** After any run, every proof-of-stake block of the best chain past the last fork height has raised the recorded
      money supply by at most 0.02 * supply / 485169, whatever fees it collected. */
  lemma StakeBlockInflation(s: Chain, g: Hash, events: seq<Event>, s': Chain, j: nat)
    requires IsStart(s, g) && Reaches(s, g, events, s')
    ensures Rooted(s', g)
    ensures var p := Path(s'.tree, g, s'.best);
      StakesAt(s', p, j) ==>
        RisesLittle(SupplyAfter(s', p, j - 1), SupplyAfter(s', p, j))
  {
    EveryBlockAccepted(s, g, events, s');
    if StakesAt(s', Path(s'.tree, g, s'.best), j) { AcceptedInflation(s', g, j); }
  }

  /** x after n increases by the factor of one block. */
  function Compounded(x: real, n: nat): real {
    if n == 0 then x else Compounded(x, n - 1) * (1.0 + 0.02 / 485169.0)
  }

  lemma {:induction false} AcceptedGrowth(s: Chain, g: Hash, i: nat, j: nat)
    requires BestAccepted(s, g) && i <= j < |Path(s.tree, g, s.best)|
    requires forall k :: i < k <= j ==> StakesAt(s, Path(s.tree, g, s.best), k)
    ensures var p := Path(s.tree, g, s.best);
      SupplyAfter(s, p, j) as real <= Compounded(SupplyAfter(s, p, i) as real, j - i)
  {
    if i < j {
      AcceptedGrowth(s, g, i, j - 1);
      AcceptedInflation(s, g, j);
    }
  }

  /** So over any stretch of the best chain that consists of such blocks the money supply grows at most by that
      factor per block. */
  lemma StretchInflation(s: Chain, g: Hash, events: seq<Event>, s': Chain, i: nat, j: nat)
    requires IsStart(s, g) && Reaches(s, g, events, s')
    ensures Rooted(s', g)
    ensures var p := Path(s'.tree, g, s'.best);
      i <= j < |p| && (forall k :: i < k <= j ==> StakesAt(s', p, k)) ==>
        SupplyAfter(s', p, j) as real <= Compounded(SupplyAfter(s', p, i) as real, j - i)
  {
    EveryBlockAccepted(s, g, events, s');
    var p := Path(s'.tree, g, s'.best);
    if i <= j < |p| && forall k :: i < k <= j ==> StakesAt(s', p, k) { AcceptedGrowth(s', g, i, j); }
  }
}
