/**
 * The scheduler's decision: score every candidate by a weighted sum of merit
 * terms, drop the candidates some term vetoes, and return the best of the
 * rest. Candidates are read lazily from the catalog on first use.
 */
module Scheduling {
  import opened Wrappers
  import opened Values
  import opened Targets
  import opened Merit

  /** The weights mapping, in its iteration order: merit-function name and weight. */
  type Weights = seq<(string, real)>

  datatype SchedError =
    | UnknownTerm(name: string)                  // no merit function under this name
    | CatalogError(index: nat, cause: BuildError) // the catalog entry at `index` cannot be built
    | UnorderableTie                             // sorting had to order two targets by themselves
    | UnboundMerit                               // the per-target log line read `merit_value` before any term set it

  /** Every weight names a registered merit function. */
  predicate Known(registry: Registry, weights: Weights)
  {
    forall i :: 0 <= i < |weights| ==> weights[i].0 in registry
  }

  /** The value the term's merit function gives `t`. */
  function TermValue(t: Target, obs: Observatory, registry: Registry, term: (string, real)): real
    requires term.0 in registry
  {
    registry[term.0](t, obs)
  }

  /** Some term gives `t` a falsy value. */
  predicate Vetoed(t: Target, obs: Observatory, registry: Registry, weights: Weights)
    requires Known(registry, weights)
  {
    exists i :: 0 <= i < |weights| && Falsy(TermValue(t, obs, registry, weights[i]))
  }

  /** The sum, over all terms, of weight times value. */
  function WeightedSum(t: Target, obs: Observatory, registry: Registry, weights: Weights): real
    requires Known(registry, weights)
  {
    if |weights| == 0 then 0.0
    else weights[0].1 * TermValue(t, obs, registry, weights[0]) + WeightedSum(t, obs, registry, weights[1..])
  }

  /** A candidate's overall merit: its priority times its weighted sum. */
  function Score(t: Target, obs: Observatory, registry: Registry, weights: Weights): real
    requires Known(registry, weights)
  {
    t.priority * WeightedSum(t, obs, registry, weights)
  }

  lemma {:induction false} WeightedSumSnoc(t: Target, obs: Observatory, registry: Registry, weights: Weights)
    requires Known(registry, weights) && |weights| > 0
    ensures var n := |weights| - 1;
      WeightedSum(t, obs, registry, weights) ==
        WeightedSum(t, obs, registry, weights[..n]) + weights[n].1 * TermValue(t, obs, registry, weights[n])
  {
    var n := |weights| - 1;
    if n > 0 {
      assert weights[1..][..n - 1] == weights[..n][1..];
      WeightedSumSnoc(t, obs, registry, weights[1..]);
    }
  }

  lemma VetoedSnoc(t: Target, obs: Observatory, registry: Registry, weights: Weights)
    requires Known(registry, weights) && |weights| > 0
    ensures var n := |weights| - 1;
      Vetoed(t, obs, registry, weights) <==>
        Vetoed(t, obs, registry, weights[..n]) || Falsy(TermValue(t, obs, registry, weights[n]))
  {
    var n := |weights| - 1;
    if Vetoed(t, obs, registry, weights) {
      var i :| 0 <= i < |weights| && Falsy(TermValue(t, obs, registry, weights[i]));
      if i < n {
        assert weights[..n][i] == weights[i];
      }
    }
    if Vetoed(t, obs, registry, weights[..n]) {
      var i :| 0 <= i < n && Falsy(TermValue(t, obs, registry, weights[..n][i]));
      assert weights[..n][i] == weights[i];
    }
  }

  /** Running state of one candidate's evaluation. */
  datatype Tally = Tally(merit: real, vetoed: bool)

  /** Evaluates every term for `t`, in order: a truthy value adds weight times
      value to the merit while `t` is not vetoed; a falsy one vetoes it, and
      nothing is added after that. A name with no merit function raises. */
  function Evaluate(t: Target, obs: Observatory, registry: Registry, weights: Weights): (r: Result<Tally, SchedError>)
    ensures r.Failure? <==> !Known(registry, weights)
    ensures r.Failure? ==>
      exists k :: 0 <= k < |weights| && weights[k].0 !in registry && r.error == UnknownTerm(weights[k].0) &&
        forall j :: 0 <= j < k ==> weights[j].0 in registry
    ensures r.Success? ==> (r.value.vetoed <==> Vetoed(t, obs, registry, weights))
    ensures r.Success? && !r.value.vetoed ==> r.value.merit == WeightedSum(t, obs, registry, weights)
  {
    if |weights| == 0 then Success(Tally(0.0, false))
    else
      var n := |weights| - 1;
      var (name, w) := weights[n];
      assert forall i :: 0 <= i < n ==> weights[..n][i] == weights[i];
      match Evaluate(t, obs, registry, weights[..n])
      case Failure(e) => Failure(e)
      case Success(acc) =>
        if name !in registry then Failure(UnknownTerm(name))
        else
          assert Known(registry, weights);
          WeightedSumSnoc(t, obs, registry, weights);
          VetoedSnoc(t, obs, registry, weights);
          var v := registry[name](t, obs);
          if !Falsy(v) && !acc.vetoed then Success(Tally(acc.merit + w * v, false))
          else Success(Tally(acc.merit, true))
  }

  /** `cands[k]` is a winner under the first-maximal rule: not vetoed, scoring
      at least as much as every other non-vetoed candidate, and strictly more
      than every non-vetoed candidate before it in the list. */
  predicate IsFirstBest(cands: seq<Target>, obs: Observatory, registry: Registry, weights: Weights, k: nat)
    requires Known(registry, weights)
  {
    && k < |cands|
    && !Vetoed(cands[k], obs, registry, weights)
    && (forall j :: 0 <= j < |cands| && !Vetoed(cands[j], obs, registry, weights) ==>
          Score(cands[j], obs, registry, weights) <= Score(cands[k], obs, registry, weights))
    && (forall j :: 0 <= j < k && !Vetoed(cands[j], obs, registry, weights) ==>
          Score(cands[j], obs, registry, weights) < Score(cands[k], obs, registry, weights))
  }

  /** The candidate leading the ranking so far: its index and recorded score. */
  datatype Leader = Leader(index: nat, score: real)

  /** `best` is the correct leader for `cands`: none when every candidate is
      vetoed, else the first-maximal candidate with its score recorded. */
  predicate Leads(cands: seq<Target>, obs: Observatory, registry: Registry, weights: Weights, best: Option<Leader>)
    requires Known(registry, weights)
  {
    match best
    case None => forall i :: 0 <= i < |cands| ==> Vetoed(cands[i], obs, registry, weights)
    case Some(l) =>
      IsFirstBest(cands, obs, registry, weights, l.index) && l.score == Score(cands[l.index], obs, registry, weights)
  }

  /** One comparison of the selection: a challenger displaces the leader
      only by scoring strictly more. */
  function Challenge(best: Option<Leader>, challenger: Leader): Option<Leader>
  {
    if best.None? || challenger.score > best.value.score then Some(challenger) else best
  }

  /** The leader after evaluating candidate `n`, `t`: unchanged when `t` is
      vetoed, otherwise challenged by `t` with its recorded score. */
  function Step(best: Option<Leader>, n: nat, t: Target, tally: Tally): Option<Leader>
  {
    if tally.vetoed then best else Challenge(best, Leader(n, t.priority * tally.merit))
  }

  lemma AllVetoedSnoc(cands: seq<Target>, obs: Observatory, registry: Registry, weights: Weights)
    requires Known(registry, weights) && |cands| > 0
    requires forall i :: 0 <= i < |cands| - 1 ==> Vetoed(cands[i], obs, registry, weights)
    requires Vetoed(cands[|cands| - 1], obs, registry, weights)
    ensures forall i :: 0 <= i < |cands| ==> Vetoed(cands[i], obs, registry, weights)
  {
  }

  /** Appending a vetoed candidate leaves the winner where it was. */
  lemma FirstBestSnocVetoed(cands: seq<Target>, obs: Observatory, registry: Registry, weights: Weights, k: nat)
    requires Known(registry, weights) && |cands| > 0
    requires IsFirstBest(cands[..|cands| - 1], obs, registry, weights, k)
    requires Vetoed(cands[|cands| - 1], obs, registry, weights)
    ensures IsFirstBest(cands, obs, registry, weights, k)
  {
    var n := |cands| - 1;
    assert forall i :: 0 <= i < n ==> cands[..n][i] == cands[i];
  }

  /** Appending a candidate that scores no more than the winner leaves the winner where it was. */
  lemma FirstBestSnocKeep(cands: seq<Target>, obs: Observatory, registry: Registry, weights: Weights, k: nat)
    requires Known(registry, weights) && |cands| > 0
    requires IsFirstBest(cands[..|cands| - 1], obs, registry, weights, k)
    requires Score(cands[|cands| - 1], obs, registry, weights) <= Score(cands[k], obs, registry, weights)
    ensures IsFirstBest(cands, obs, registry, weights, k)
  {
    var n := |cands| - 1;
    assert forall i :: 0 <= i < n ==> cands[..n][i] == cands[i];
  }

  /** A non-vetoed candidate that beats every earlier non-vetoed one becomes the winner. */
  lemma FirstBestSnocNew(cands: seq<Target>, obs: Observatory, registry: Registry, weights: Weights)
    requires Known(registry, weights) && |cands| > 0
    requires !Vetoed(cands[|cands| - 1], obs, registry, weights)
    requires forall j :: 0 <= j < |cands| - 1 && !Vetoed(cands[j], obs, registry, weights) ==>
      Score(cands[j], obs, registry, weights) < Score(cands[|cands| - 1], obs, registry, weights)
    ensures IsFirstBest(cands, obs, registry, weights, |cands| - 1)
  {
  }

  /** Evaluating one more candidate and letting it challenge the leader gives
      the correct leader for the longer list. */
  lemma LeadsSnoc(cands: seq<Target>, obs: Observatory, registry: Registry, weights: Weights,
                  best: Option<Leader>, tally: Tally)
    requires Known(registry, weights) && |cands| > 0
    requires Leads(cands[..|cands| - 1], obs, registry, weights, best)
    requires tally.vetoed <==> Vetoed(cands[|cands| - 1], obs, registry, weights)
    requires !tally.vetoed ==> tally.merit == WeightedSum(cands[|cands| - 1], obs, registry, weights)
    ensures Leads(cands, obs, registry, weights, Step(best, |cands| - 1, cands[|cands| - 1], tally))
  {
    var n := |cands| - 1;
    var prefix := cands[..n];
    if tally.vetoed {
      if best.None? {
        forall j | 0 <= j < n
          ensures Vetoed(cands[j], obs, registry, weights)
        {
          assert prefix[j] == cands[j];
        }
        AllVetoedSnoc(cands, obs, registry, weights);
      } else {
        FirstBestSnocVetoed(cands, obs, registry, weights, best.value.index);
      }
    } else {
      var score := cands[n].priority * tally.merit;
      assert score == Score(cands[n], obs, registry, weights);
      if best.None? {
        forall j | 0 <= j < n
          ensures Vetoed(cands[j], obs, registry, weights)
        {
          assert prefix[j] == cands[j];
        }
        FirstBestSnocNew(cands, obs, registry, weights);
      } else if score > best.value.score {
        var k := best.value.index;
        forall j | 0 <= j < n && !Vetoed(cands[j], obs, registry, weights)
          ensures Score(cands[j], obs, registry, weights) < score
        {
          assert prefix[j] == cands[j];
        }
        FirstBestSnocNew(cands, obs, registry, weights);
      } else {
        FirstBestSnocKeep(cands, obs, registry, weights, best.value.index);
      }
    }
  }

  /** Evaluates the candidates in list order and keeps the first one of
      maximal score among those not vetoed. */
  function Rank(cands: seq<Target>, obs: Observatory, registry: Registry, weights: Weights): (r: Result<Option<Leader>, SchedError>)
    ensures r.Failure? <==> |cands| > 0 && !Known(registry, weights)
    ensures r.Failure? ==> Evaluate(cands[0], obs, registry, weights) == Failure(r.error)
    ensures r.Success? && Known(registry, weights) ==> Leads(cands, obs, registry, weights, r.value)
  {
    if |cands| == 0 then Success(None)
    else
      var n := |cands| - 1;
      match Rank(cands[..n], obs, registry, weights)
      case Failure(e) => assert cands[..n][0] == cands[0]; Failure(e)
      case Success(best) =>
        match Evaluate(cands[n], obs, registry, weights)
        case Failure(e) => Failure(e)
        case Success(tally) =>
          LeadsSnoc(cands, obs, registry, weights, best, tally);
          Success(Step(best, n, cands[n], tally))
  }

  /** `get_target` on an already loaded candidate list. Returns no target when
      there are no candidates or all are vetoed; otherwise a non-vetoed
      candidate of maximal score, the first such in list order. A weight that
      names no merit function raises as soon as one candidate is evaluated. */
  function GetTarget(cands: seq<Target>, obs: Observatory, registry: Registry, weights: Weights): (r: Result<Option<Target>, SchedError>)
    ensures r.Failure? <==> |cands| > 0 && !Known(registry, weights)
    ensures r.Failure? ==>
      exists k :: 0 <= k < |weights| && weights[k].0 !in registry && r.error == UnknownTerm(weights[k].0) &&
        forall j :: 0 <= j < k ==> weights[j].0 in registry
    ensures r.Success? ==>
      (r.value.None? <==>
        forall i :: 0 <= i < |cands| ==> Known(registry, weights) && Vetoed(cands[i], obs, registry, weights))
    ensures r.Success? && r.value.Some? ==>
      && Known(registry, weights)
      && r.value.value in cands
      && !Vetoed(r.value.value, obs, registry, weights)
      && (forall i :: 0 <= i < |cands| && !Vetoed(cands[i], obs, registry, weights) ==>
            Score(cands[i], obs, registry, weights) <= Score(r.value.value, obs, registry, weights))
    ensures r.Success? && r.value.Some? ==>
      Known(registry, weights) &&
        exists k :: 0 <= k < |cands| && IsFirstBest(cands, obs, registry, weights, k) && cands[k] == r.value.value
  {
    match Rank(cands, obs, registry, weights)
    case Failure(e) => Failure(e)
    case Success(None) => Success(None)
    case Success(Some(leader)) => Success(Some(cands[leader.index]))
  }

  /** With no weighted terms nothing can veto, and every candidate scores 0. */
  lemma NoTermsNoVeto(t: Target, obs: Observatory, registry: Registry)
    ensures Evaluate(t, obs, registry, []) == Success(Tally(0.0, false))
    ensures Known(registry, []) && !Vetoed(t, obs, registry, []) && Score(t, obs, registry, []) == 0.0
  {
  }

  /** A target that one term vetoes is never chosen, whatever the other
      terms give it. */
  lemma VetoExcludes(cands: seq<Target>, obs: Observatory, registry: Registry, weights: Weights,
                     t: Target, i: nat)
    requires Known(registry, weights)
    requires i < |weights| && Falsy(TermValue(t, obs, registry, weights[i]))
    ensures GetTarget(cands, obs, registry, weights) != Success(Some(t))
  {
    assert Vetoed(t, obs, registry, weights);
  }

  /** A single candidate that no term vetoes is chosen. */
  lemma SingleCandidate(t: Target, obs: Observatory, registry: Registry, weights: Weights)
    requires Known(registry, weights) && !Vetoed(t, obs, registry, weights)
    ensures GetTarget([t], obs, registry, weights) == Success(Some(t))
  {
    var r := GetTarget([t], obs, registry, weights);
    assert !Vetoed([t][0], obs, registry, weights);
    assert r.value.Some?;
  }

  lemma ScaleStrict(p: real, q: real, m: real)
    requires p > q && m > 0.0
    ensures p * m > q * m
  {
    assert (p - q) * m > 0.0;
  }

  /** Of two candidates with the same positive weighted sum, the one of
      higher priority is chosen, in either list order. */
  lemma HigherPriorityWins(a: Target, b: Target, obs: Observatory, registry: Registry, weights: Weights)
    requires Known(registry, weights)
    requires !Vetoed(a, obs, registry, weights) && !Vetoed(b, obs, registry, weights)
    requires WeightedSum(a, obs, registry, weights) == WeightedSum(b, obs, registry, weights) > 0.0
    requires a.priority > b.priority
    ensures GetTarget([a, b], obs, registry, weights) == Success(Some(a))
    ensures GetTarget([b, a], obs, registry, weights) == Success(Some(a))
  {
    ScaleStrict(a.priority, b.priority, WeightedSum(a, obs, registry, weights));
    assert Score(b, obs, registry, weights) < Score(a, obs, registry, weights);
    var r1 := GetTarget([a, b], obs, registry, weights);
    assert !Vetoed([a, b][0], obs, registry, weights);
    assert r1.value.Some?;
    var r2 := GetTarget([b, a], obs, registry, weights);
    assert !Vetoed([b, a][1], obs, registry, weights);
    assert r2.value.Some?;
  }

  /** The tie-break: of two candidates with equal scores, the earlier one in
      the list is chosen. */
  lemma TieGoesToEarlier(a: Target, b: Target, obs: Observatory, registry: Registry, weights: Weights)
    requires Known(registry, weights)
    requires !Vetoed(a, obs, registry, weights) && !Vetoed(b, obs, registry, weights)
    requires Score(a, obs, registry, weights) == Score(b, obs, registry, weights)
    ensures GetTarget([a, b], obs, registry, weights) == Success(Some(a))
  {
    var cands := [a, b];
    var r := GetTarget(cands, obs, registry, weights);
    assert !Vetoed(cands[0], obs, registry, weights);
    assert r.value.Some?;
    var k :| 0 <= k < |cands| && IsFirstBest(cands, obs, registry, weights, k) && cands[k] == r.value.value;
    assert k == 0;
  }

  /** Two different entries of the candidate list are both left standing
      with equal scores. */
  predicate HasTie(cands: seq<Target>, obs: Observatory, registry: Registry, weights: Weights)
    requires Known(registry, weights)
  {
    exists i, j :: 0 <= i < j < |cands| &&
      !Vetoed(cands[i], obs, registry, weights) && !Vetoed(cands[j], obs, registry, weights) &&
      Score(cands[i], obs, registry, weights) == Score(cands[j], obs, registry, weights)
  }

  /** The selection as written. Two of its steps raise where the first-maximal
      rule returns a target:
      - the log line after each candidate's term loop formats `merit_value`,
        which only the term loop assigns, so with no weights the first
        candidate raises;
      - `sorted(merits)[-1]` sorts (score, target) pairs, which compares the
        targets themselves whenever two scores are equal, and targets define
        no ordering, so any tie raises.
      Otherwise the result is the unique best candidate. */
  function GetTargetAsWritten(cands: seq<Target>, obs: Observatory, registry: Registry, weights: Weights): (r: Result<Option<Target>, SchedError>)
    ensures r == Failure(UnboundMerit) <==> |cands| > 0 && |weights| == 0
    ensures r == Failure(UnorderableTie) <==>
      |cands| > 0 && |weights| > 0 && Known(registry, weights) && HasTie(cands, obs, registry, weights)
    ensures r != Failure(UnboundMerit) && r != Failure(UnorderableTie) ==> r == GetTarget(cands, obs, registry, weights)
  {
    if |cands| > 0 && |weights| == 0 then Failure(UnboundMerit)
    else
      match GetTarget(cands, obs, registry, weights)
      case Failure(e) => Failure(e)
      case Success(choice) =>
        if |cands| > 0 && HasTie(cands, obs, registry, weights) then Failure(UnorderableTie) else Success(choice)
  }

  /** The discrepancy: with no weights, the selection as written raises on the
      first candidate, where the first-maximal rule returns it. */
  lemma NoWeightsRaiseAsWritten(t: Target, obs: Observatory, registry: Registry)
    ensures GetTargetAsWritten([t], obs, registry, []) == Failure(UnboundMerit)
    ensures GetTarget([t], obs, registry, []) == Success(Some(t))
  {
    NoTermsNoVeto(t, obs, registry);
    SingleCandidate(t, obs, registry, []);
  }

  /** The discrepancy: two equally good candidates make the selection as
      written raise, where the first-maximal rule returns the earlier one.
      (With no weights at all every candidate ties at 0, but the log line
      raises first.) */
  lemma TieRaisesAsWritten(a: Target, b: Target, obs: Observatory, registry: Registry, weights: Weights)
    requires Known(registry, weights)
    requires !Vetoed(a, obs, registry, weights) && !Vetoed(b, obs, registry, weights)
    requires Score(a, obs, registry, weights) == Score(b, obs, registry, weights)
    ensures GetTargetAsWritten([a, b], obs, registry, weights) ==
      Failure(if |weights| == 0 then UnboundMerit else UnorderableTie)
    ensures GetTarget([a, b], obs, registry, weights) == Success(Some(a))
  {
    var cands := [a, b];
    assert !Vetoed(cands[0], obs, registry, weights) && !Vetoed(cands[1], obs, registry, weights);
    assert HasTie(cands, obs, registry, weights);
    TieGoesToEarlier(a, b, obs, registry, weights);
  }

  // ---------------------------------------------------------------------------
  // The scheduler's state: lazy loading of the candidate list
  // ---------------------------------------------------------------------------

  /** The raw catalog entries, and the targets read from them; an empty list
      means none have been read (or the catalog had none). */
  datatype Scheduler = Scheduler(catalog: seq<Value>, targets: seq<Target>)

  /** `Scheduler.get_target`: reads the catalog first when the list is empty,
      aborting on the first entry that cannot be built, then chooses among
      the targets. `positioned` stands for the coordinate parsing of each entry. */
  function Select(s: Scheduler, obs: Observatory, registry: Registry, weights: Weights,
                  positioned: CoordinateParser): (r: (Scheduler, Result<Option<Target>, SchedError>))
    ensures r.0.catalog == s.catalog
    ensures |s.targets| > 0 ==> r.0 == s
    ensures |s.targets| == 0 && r.1.Success? ==> |r.0.targets| == |s.catalog|
    ensures r.1.Success? && r.1.value.Some? ==> r.1.value.value in r.0.targets
    ensures r.1.Failure? && r.1.error.CatalogError? ==>
      && |s.targets| == 0 && r.0 == s
      && r.1.error.index < |s.catalog|
      && !Constructible(s.catalog[r.1.error.index], positioned)
      && forall i :: 0 <= i < r.1.error.index ==> Constructible(s.catalog[i], positioned)
    ensures |s.targets| == 0 && (forall i :: 0 <= i < |s.catalog| ==> Constructible(s.catalog[i], positioned)) ==>
      !(r.1.Failure? && r.1.error.CatalogError?)
    ensures |s.targets| == 0 && FromRecords(s.catalog, positioned).Success? ==>
      r.0.targets == FromRecords(s.catalog, positioned).value
    ensures !(r.1.Failure? && r.1.error.CatalogError?) ==> r.1 == GetTarget(r.0.targets, obs, registry, weights)
  {
    if |s.targets| > 0 then (s, GetTarget(s.targets, obs, registry, weights))
    else
      match FromRecords(s.catalog, positioned)
      case Failure((k, e)) => (s, Failure(CatalogError(k, e)))
      case Success(ts) =>
        var loaded := s.(targets := ts);
        (loaded, GetTarget(ts, obs, registry, weights))
  }

  /** Once the catalog has been read into a non-empty list, asking again
      neither re-reads it nor changes the answer. */
  lemma SelectStable(s: Scheduler, obs: Observatory, registry: Registry, weights: Weights,
                     positioned: CoordinateParser)
    requires var (s', r) := Select(s, obs, registry, weights, positioned); r.Success? && |s'.targets| > 0
    ensures var (s', r) := Select(s, obs, registry, weights, positioned);
      Select(s', obs, registry, weights, positioned) == (s', r)
  {
  }
}
