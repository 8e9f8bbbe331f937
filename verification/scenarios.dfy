/**
 * Two concrete catalogs worked through the whole model: reading the entries,
 * checking observability and choosing a target, each step proved.
 */
module Scenarios {
  import opened Wrappers
  import opened Values
  import opened Observations
  import opened Targets
  import opened Merit
  import opened Scheduling

  /** The sky positions of the two entries of these scenarios. */
  const WhereA: SkyPosition := SkyPosition(Str("10h00m00s +20d00m00s"), Str("icrs"))
  const WhereB: SkyPosition := SkyPosition(Str("14h00m00s -10d00m00s"), Str("icrs"))

  /** The coordinate parser of these scenarios: it accepts the two positions
      the entries give and nothing else. */
  function Resolves(p: SkyPosition): bool
  {
    p == WhereA || p == WhereB
  }

  /** The visit every entry lists: one observation whose master exposure is 60 s. */
  const SixtyVisit: Value := List([Dict(map["master_exptime" := Int(60)])])

  /** A catalog entry at `at` with that visit. */
  function Entry(name: string, priority: int, at: SkyPosition): Value
  {
    Dict(map[
      "name" := Str(name),
      "priority" := Int(priority),
      "position" := at.coordinates,
      "frame" := at.frame,
      "visit" := SixtyVisit])
  }

  /** The same entry without `position` and `frame`. */
  function BareEntry(name: string, priority: int): Value
  {
    Dict(map["name" := Str(name), "priority" := Int(priority), "visit" := SixtyVisit])
  }

  /** The observation that visit reads as: the slave channel keeps its defaults. */
  const Sixty: Observation := Observation(60.0, 1, None, false, 120.0, 1, None)

  const TargetA: Target := Target("A", 3.0, WhereA, [Sixty])
  const TargetB: Target := Target("B", 1.0, WhereB, [Sixty])

  lemma ReadEntry(name: string, priority: int, at: SkyPosition)
    requires Resolves(at)
    ensures FromRecord(Entry(name, priority, at), Resolves) == Success(Target(name, priority as real, at, [Sixty]))
  {
    var visit := SixtyVisit;
    assert FromValue(visit.items[0]) == Sixty;
    var observations := VisitOf(visit).value;
    assert |observations| == 1 && observations[0] == Sixty;
    assert observations == [Sixty];
    var rec := Entry(name, priority, at).fields;
    assert PositionOf(rec) == Some(at);
  }

  /** The two-entry catalog reads as A (priority 3) then B (priority 1). */
  lemma ReadCatalog()
    ensures FromRecords([Entry("A", 3, WhereA), Entry("B", 1, WhereB)], Resolves) == Success([TargetA, TargetB])
  {
    var catalog := [Entry("A", 3, WhereA), Entry("B", 1, WhereB)];
    ReadEntry("A", 3, WhereA);
    ReadEntry("B", 1, WhereB);
    assert Constructible(catalog[0], Resolves) && Constructible(catalog[1], Resolves);
    var targets := FromRecords(catalog, Resolves).value;
    assert targets[0] == TargetA && targets[1] == TargetB;
    assert targets == [TargetA, TargetB];
  }

  /** Entries without a position are rejected whatever the coordinate parser
      does: the first entry already fails. */
  lemma UnpositionedCatalogRejected(positioned: CoordinateParser)
    ensures FromRecords([BareEntry("A", 3), BareEntry("B", 1)], positioned) == Failure((0, PositionUnparsed))
  {
    var catalog := [BareEntry("A", 3), BareEntry("B", 1)];
    assert "position" !in catalog[0].fields;
    assert FromRecord(catalog[0], positioned) == Failure(PositionUnparsed);
    assert catalog[..1] == [catalog[0]];
    assert FromRecords(catalog[..1], positioned) == Failure((0, PositionUnparsed));
  }

  /** The 120 s visit is sampled at 0, 30, 60, 90 and 120 s. */
  lemma SixtySamples(t: Target)
    requires t.visit == [Sixty]
    ensures Samples(t) == [0, 30, 60, 90, 120]
  {
    assert EstimateDuration(Sixty, 0.0) == 120.0;
    assert VisitDuration(t.visit, 0.0) == 120.0;
  }

  /** With both targets always in the unobstructed sky and the default
      weights, A is chosen, with merit 3. */
  lemma BothObservable()
    ensures var clear := Observatory((p: SkyPosition, offset: int) => true);
      && GetTarget([TargetA, TargetB], clear, Builtins, DefaultWeights) == Success(Some(TargetA))
      && Score(TargetA, clear, Builtins, DefaultWeights) == 3.0
  {
    var clear := Observatory((p: SkyPosition, offset: int) => true);
    assert Known(Builtins, DefaultWeights);
    assert Observable(TargetA, clear) == 1.0;
    assert Observable(TargetB, clear) == 1.0;
    assert WeightedSum(TargetA, clear, Builtins, DefaultWeights) == 1.0;
    assert WeightedSum(TargetB, clear, Builtins, DefaultWeights) == 1.0;
    HigherPriorityWins(TargetA, TargetB, clear, Builtins, DefaultWeights);
  }

  /** With A's position obstructed and B's clear, B is chosen despite its
      lower priority. */
  lemma OnlyBObservable()
    ensures var onlyB := Observatory((p: SkyPosition, offset: int) => p == WhereB);
      GetTarget([TargetA, TargetB], onlyB, Builtins, DefaultWeights) == Success(Some(TargetB))
  {
    var onlyB := Observatory((p: SkyPosition, offset: int) => p == WhereB);
    assert Known(Builtins, DefaultWeights);
    SixtySamples(TargetA);
    assert !onlyB.horizon(TargetA.position, TimeStep * 0);
    assert Observable(TargetA, onlyB) == 0.0;
    assert TermValue(TargetA, onlyB, Builtins, DefaultWeights[0]) == 0.0;
    assert Vetoed(TargetA, onlyB, Builtins, DefaultWeights);
    assert Observable(TargetB, onlyB) == 1.0;
    assert !Vetoed(TargetB, onlyB, Builtins, DefaultWeights);
    var cands := [TargetA, TargetB];
    assert !Vetoed(cands[1], onlyB, Builtins, DefaultWeights);
    var r := GetTarget(cands, onlyB, Builtins, DefaultWeights);
    assert r.value.Some?;
  }
}
