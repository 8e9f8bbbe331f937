/**
 * A candidate target: a name, a priority and the ordered visit of
 * observations to take of it. Built from one catalog entry, failing only
 * where the constructor's assertions and unguarded lookups fail.
 */
module Targets {
  import opened Wrappers
  import opened Values
  import opened Observations

  /** Priority used when the entry gives none that float() can read. */
  const DefaultPriority: real := 1.0

  /** The sky position an entry gives: its raw `position` and `frame` values,
      which the coordinate parser turns into a sky coordinate. */
  datatype SkyPosition = SkyPosition(coordinates: Value, frame: Value)

  /** Whether the coordinate parser accepts a position. The parser itself is
      outside this model. */
  type CoordinateParser = SkyPosition -> bool

  /** The visit order is the order in which the entry lists its observations. */
  datatype Target = Target(name: string, priority: real, position: SkyPosition, visit: seq<Observation>)

  /** Why one catalog entry cannot be made into a target. */
  datatype BuildError =
    | NotARecord        // the entry is not a mapping, so it has no keys()
    | NameMissing       // the assertion that `name` is a key fails
    | NameNotString     // the assertion that `name` is a string fails
    | PositionUnparsed  // `position` or `frame` is missing or does not parse, so setting the equinox raises
    | VisitMissing      // `visit` is not a key
    | VisitNotIterable  // `visit` is a scalar the for-loop cannot iterate

  /** The observations the constructor's loop builds from the `visit` value:
      one per element of a list, and one all-default observation per
      character of a string or per key of a mapping (neither can be
      subscripted by field name). Scalars cannot be iterated. */
  function VisitOf(v: Value): (r: Option<seq<Observation>>)
    ensures v.List? ==>
      (r.Some? && |r.value| == |v.items| &&
       forall i :: 0 <= i < |v.items| ==> r.value[i] == FromValue(v.items[i]))
    ensures v.Str? ==>
      (r.Some? && |r.value| == |v.s| && forall i :: 0 <= i < |v.s| ==> r.value[i] == Default)
    ensures v.Dict? ==>
      (r.Some? && |r.value| == |v.fields| && forall i :: 0 <= i < |v.fields| ==> r.value[i] == Default)
    ensures v.Null? || v.Bool? || v.Int? || v.Num? ==> r.None?
  {
    match v
    case List(items) => Some(seq(|items|, i requires 0 <= i < |items| => FromValue(items[i])))
    case Str(s) => Some(seq(|s|, i requires 0 <= i < |s| => FromValue(Str([s[i]]))))
    case Dict(fields) => Some(seq(|fields|, _ => Default))
    case _ => None
  }

  /** The entry's sky position, when it has both keys the parser reads. */
  function PositionOf(rec: Record): (p: Option<SkyPosition>)
    ensures p.Some? <==> "position" in rec && "frame" in rec
    ensures p.Some? ==> p.value.coordinates == rec["position"] && p.value.frame == rec["frame"]
  {
    if "position" in rec && "frame" in rec then Some(SkyPosition(rec["position"], rec["frame"])) else None
  }

  /** Whether the constructor runs to completion on `raw`, given whether the
      coordinate parser accepts the entry's position. */
  predicate Constructible(raw: Value, positioned: CoordinateParser)
  {
    && raw.Dict?
    && "name" in raw.fields && raw.fields["name"].Str?
    && "position" in raw.fields && "frame" in raw.fields
    && positioned(SkyPosition(raw.fields["position"], raw.fields["frame"]))
    && "visit" in raw.fields && VisitOf(raw.fields["visit"]).Some?
  }

  /** Builds the target for one catalog entry. `positioned` stands for the
      coordinate parsing, which is outside this model. When a key it needs is
      missing or it fails, the position is `None` and the equinox assignment
      that follows raises. */
  function FromRecord(raw: Value, positioned: CoordinateParser): (r: Result<Target, BuildError>)
    ensures r.Success? <==> Constructible(raw, positioned)
    ensures !raw.Dict? ==> r == Failure(NotARecord)
    ensures raw.Dict? && "name" !in raw.fields ==> r == Failure(NameMissing)
    ensures raw.Dict? && "name" in raw.fields && !raw.fields["name"].Str? ==> r == Failure(NameNotString)
    ensures raw.Dict? && "name" in raw.fields && raw.fields["name"].Str? && PositionOf(raw.fields).None? ==>
      r == Failure(PositionUnparsed)
    ensures r.Success? ==> r.value.name == raw.fields["name"].s
    ensures r.Success? ==> r.value.position == SkyPosition(raw.fields["position"], raw.fields["frame"])
    ensures r.Success? && "priority" !in raw.fields ==> r.value.priority == DefaultPriority
    ensures r.Success? && "priority" in raw.fields && ToFloat(raw.fields["priority"]).None? ==>
      r.value.priority == DefaultPriority
    ensures r.Success? && "priority" in raw.fields && ToFloat(raw.fields["priority"]).Some? ==>
      r.value.priority == ToFloat(raw.fields["priority"]).value
    ensures r.Success? ==> forall i :: 0 <= i < |r.value.visit| ==> Valid(r.value.visit[i])
    ensures r.Success? && raw.fields["visit"].List? ==>
      var items := raw.fields["visit"].items;
      |r.value.visit| == |items| && forall i :: 0 <= i < |items| ==> r.value.visit[i] == FromValue(items[i])
  {
    match raw
    case Dict(rec) =>
      if "name" !in rec then Failure(NameMissing)
      else if !rec["name"].Str? then Failure(NameNotString)
      else
        (match PositionOf(rec)
         case None => Failure(PositionUnparsed)
         case Some(position) =>
           if !positioned(position) then Failure(PositionUnparsed)
           else if "visit" !in rec then Failure(VisitMissing)
           else
             (match VisitOf(rec["visit"])
              case None => Failure(VisitNotIterable)
              case Some(visit) =>
                Success(Target(rec["name"].s, ReadOr(rec, "priority", ToFloat, DefaultPriority), position, visit))))
    case _ => Failure(NotARecord)
  }

  /** A catalog entry that spells out `t`; the inverse direction of FromRecord. */
  function ToRecord(t: Target): Value
  {
    Dict(map[
      "name" := Str(t.name),
      "priority" := Num(t.priority),
      "position" := t.position.coordinates,
      "frame" := t.position.frame,
      "visit" := List(seq(|t.visit|, i requires 0 <= i < |t.visit| => Dict(Observations.ToRecord(t.visit[i]))))])
  }

  /** Every target whose observations are valid and whose position the
      parser accepts is the reading of some entry: reading back what ToRecord
      writes gives the same target. */
  lemma FromRecordToRecord(t: Target, positioned: CoordinateParser)
    requires forall i :: 0 <= i < |t.visit| ==> Valid(t.visit[i])
    requires positioned(t.position)
    ensures FromRecord(ToRecord(t), positioned) == Success(t)
  {
    var raw := ToRecord(t);
    var items := raw.fields["visit"].items;
    assert raw.fields["position"] == t.position.coordinates && raw.fields["frame"] == t.position.frame;
    forall i | 0 <= i < |t.visit|
      ensures FromValue(items[i]) == t.visit[i]
    {
      FromValueToRecord(t.visit[i]);
    }
    assert VisitOf(raw.fields["visit"]).value == t.visit;
  }

  /** The constructing loop of the catalog reader: one target per entry, in
      order; the first entry that cannot be built aborts the whole load and is
      reported with its index. */
  function FromRecords(records: seq<Value>, positioned: CoordinateParser): (r: Result<seq<Target>, (nat, BuildError)>)
    ensures r.Success? <==> forall i :: 0 <= i < |records| ==> Constructible(records[i], positioned)
    ensures r.Success? ==>
      (|r.value| == |records| &&
       forall i :: 0 <= i < |records| ==> FromRecord(records[i], positioned) == Success(r.value[i]))
    ensures r.Failure? ==>
      && r.error.0 < |records|
      && FromRecord(records[r.error.0], positioned) == Failure(r.error.1)
      && forall i :: 0 <= i < r.error.0 ==> Constructible(records[i], positioned)
  {
    if |records| == 0 then Success([])
    else
      var n := |records| - 1;
      match FromRecords(records[..n], positioned)
      case Failure(e) => Failure(e)
      case Success(ts) =>
        match FromRecord(records[n], positioned)
        case Failure(e) => Failure((n, e))
        case Success(t) => Success(ts + [t])
  }

  // ---------------------------------------------------------------------------
  // Visit duration
  // ---------------------------------------------------------------------------

  /** The plain total of the observations' own durations, with no overhead. */
  function SumDurations(visit: seq<Observation>): real
  {
    if |visit| == 0 then 0.0 else EstimateDuration(visit[0], 0.0) + SumDurations(visit[1..])
  }

  lemma {:induction false} SumDurationsSnoc(visit: seq<Observation>, o: Observation)
    ensures SumDurations(visit + [o]) == SumDurations(visit) + EstimateDuration(o, 0.0)
  {
    if |visit| > 0 {
      assert (visit + [o])[1..] == visit[1..] + [o];
      SumDurationsSnoc(visit[1..], o);
    }
  }

  /** `count` overheads, added one at a time. */
  function Charges(count: nat, overhead: real): real
  {
    if count == 0 then 0.0 else Charges(count - 1, overhead) + overhead
  }

  lemma {:induction false} ChargesProduct(count: nat, overhead: real)
    ensures Charges(count, overhead) == count as real * overhead
  {
    if count > 0 {
      ChargesProduct(count - 1, overhead);
      assert count as real * overhead == (count - 1) as real * overhead + overhead;
    }
  }

  /** One more observation adds its own duration and one more overhead. */
  lemma ClosedFormSnoc(visit: seq<Observation>, overhead: real)
    requires |visit| > 0
    ensures var n := |visit| - 1;
      SumDurations(visit[..n]) + Charges(n, overhead) + (EstimateDuration(visit[n], 0.0) + overhead) ==
        SumDurations(visit) + Charges(|visit|, overhead)
  {
    var n := |visit| - 1;
    assert visit[..n] + [visit[n]] == visit;
    SumDurationsSnoc(visit[..n], visit[n]);
  }

  /** `estimate_visit_duration`: the visit's duration, accumulated in visit
      order as the reading loop does, each observation estimated with no
      per-exposure overhead and then charged `overhead` once. The result is
      the plain total of the observations' durations plus one overhead per
      observation, so 0 for an empty visit and the plain total when the
      overhead is 0. */
  function VisitDuration(visit: seq<Observation>, overhead: real): (d: real)
    ensures d == SumDurations(visit) + Charges(|visit|, overhead)
  {
    if |visit| == 0 then 0.0
    else
      var n := |visit| - 1;
      ClosedFormSnoc(visit, overhead);
      VisitDuration(visit[..n], overhead) + (EstimateDuration(visit[n], 0.0) + overhead)
  }

  /** In closed form: the plain total plus the overhead times the number of
      observations. */
  lemma VisitDurationClosedForm(visit: seq<Observation>, overhead: real)
    ensures VisitDuration(visit, overhead) == SumDurations(visit) + |visit| as real * overhead
  {
    ChargesProduct(|visit|, overhead);
  }

  /** A visit of observations with non-negative times and counts, under a
      non-negative overhead, takes non-negative time. */
  lemma {:induction false} SumDurationsNonNegative(visit: seq<Observation>)
    requires forall i :: 0 <= i < |visit| ==> NonNegative(visit[i])
    ensures SumDurations(visit) >= 0.0
  {
    if |visit| > 0 {
      EstimateDurationNonNegative(visit[0], 0.0);
      SumDurationsNonNegative(visit[1..]);
    }
  }

  lemma VisitDurationNonNegative(visit: seq<Observation>, overhead: real)
    requires forall i :: 0 <= i < |visit| ==> NonNegative(visit[i])
    requires overhead >= 0.0
    ensures VisitDuration(visit, overhead) >= 0.0
  {
    SumDurationsNonNegative(visit);
    VisitDurationClosedForm(visit, overhead);
    ProductNonNegative(|visit| as real, overhead);
  }
}
