/**
 * One observation of a visit: a master and a slave camera channel, each with
 * an exposure time, an exposure count and an optional filter, plus the
 * `analyze` flag. Built from a raw record with best-effort defaults, and able
 * to estimate how long it takes.
 */
module Observations {
  import opened Wrappers
  import opened Values

  /** Exposure time used when a record gives none that can be read, in seconds. */
  const DefaultExptime: real := 120.0
  /** Exposure count used when a record gives none that can be read. */
  const DefaultNexp: int := 1
  /** The strings of `master_filter` that switch the `analyze` flag on. */
  const AnalyzeTokens: seq<string> := ["True", "true", "Yes", "yes", "Y", "y", "T", "t"]

  /** Exposure times are in seconds; a filter is `None` when unspecified. */
  datatype Observation = Observation(
    masterExptime: real,
    masterNexp: int,
    masterFilter: Option<int>,
    analyze: bool,
    slaveExptime: real,
    slaveNexp: int,
    slaveFilter: Option<int>)

  /** The observation a record with no readable field yields. */
  const Default: Observation :=
    Observation(DefaultExptime, DefaultNexp, None, false, DefaultExptime, DefaultNexp, None)

  /** Every constructed observation keeps this: a filter value that switched
      `analyze` on is not also an integer filter. */
  predicate Valid(o: Observation)
  {
    o.analyze ==> o.masterFilter.None?
  }

  predicate IsAnalyzeToken(v: Value)
  {
    v.Str? && v.s in AnalyzeTokens
  }

  /** A spelling that starts with a letter is not an integer literal. */
  lemma LetterFirstNotInteger(s: string)
    requires |s| > 0 && 'A' <= s[0] <= 'z' && !IsSpace(s[|s| - 1])
    ensures ParseInt(s).None?
  {
    StripUnspaced(s);
    assert s[0] != '-' && s[0] != '+';
    assert !AllDigits(s) by {
      assert !IsDigit(s[0]);
    }
  }

  /** A `master_filter` that switches `analyze` on never also reads as a filter number. */
  lemma AnalyzeTokensAreNotIntegers()
    ensures forall v :: IsAnalyzeToken(v) ==> ToInt(v).None?
  {
    forall t | t in AnalyzeTokens
      ensures ParseInt(t).None?
    {
      LetterFirstNotInteger(t);
    }
  }

  /** Builds the observation for one entry of a visit list. An entry that is
      not a mapping cannot be subscripted, so every field takes its default. */
  function FromValue(raw: Value): (o: Observation)
    ensures Valid(o)
    ensures !raw.Dict? ==> o == Default
    ensures raw.Dict? ==>
      (o.analyze <==> "master_filter" in raw.fields && IsAnalyzeToken(raw.fields["master_filter"]))
    // a field that is absent or cannot be converted takes its default
    ensures raw.Dict? && ("master_exptime" !in raw.fields || ToSeconds(raw.fields["master_exptime"]).None?) ==>
      o.masterExptime == DefaultExptime
    ensures raw.Dict? && ("master_nexp" !in raw.fields || ToInt(raw.fields["master_nexp"]).None?) ==>
      o.masterNexp == DefaultNexp
    ensures raw.Dict? && ("slave_exptime" !in raw.fields || ToSeconds(raw.fields["slave_exptime"]).None?) ==>
      o.slaveExptime == DefaultExptime
    ensures raw.Dict? && ("slave_nexp" !in raw.fields || ToInt(raw.fields["slave_nexp"]).None?) ==>
      o.slaveNexp == DefaultNexp
    // a field that converts keeps its converted value
    ensures raw.Dict? && "master_exptime" in raw.fields && ToSeconds(raw.fields["master_exptime"]).Some? ==>
      o.masterExptime == ToSeconds(raw.fields["master_exptime"]).value
    ensures raw.Dict? && "master_nexp" in raw.fields && ToInt(raw.fields["master_nexp"]).Some? ==>
      o.masterNexp == ToInt(raw.fields["master_nexp"]).value
    ensures raw.Dict? && "slave_exptime" in raw.fields && ToSeconds(raw.fields["slave_exptime"]).Some? ==>
      o.slaveExptime == ToSeconds(raw.fields["slave_exptime"]).value
    ensures raw.Dict? && "slave_nexp" in raw.fields && ToInt(raw.fields["slave_nexp"]).Some? ==>
      o.slaveNexp == ToInt(raw.fields["slave_nexp"]).value
    // a filter is the integer its field converts to, and None otherwise
    ensures raw.Dict? ==> o.masterFilter == Field(raw.fields, "master_filter", ToInt)
    ensures raw.Dict? ==> o.slaveFilter == Field(raw.fields, "slave_filter", ToInt)
  {
    match raw
    case Dict(rec) =>
      AnalyzeTokensAreNotIntegers();
      Observation(
        ReadOr(rec, "master_exptime", ToSeconds, DefaultExptime),
        ReadOr(rec, "master_nexp", ToInt, DefaultNexp),
        Field(rec, "master_filter", ToInt),
        "master_filter" in rec && IsAnalyzeToken(rec["master_filter"]),
        ReadOr(rec, "slave_exptime", ToSeconds, DefaultExptime),
        ReadOr(rec, "slave_nexp", ToInt, DefaultNexp),
        Field(rec, "slave_filter", ToInt))
    case _ => Default
  }

  /** A record that spells out `o`; the inverse direction of FromValue. */
  function ToRecord(o: Observation): Record
  {
    map[
      "master_exptime" := Num(o.masterExptime),
      "master_nexp" := Int(o.masterNexp),
      "master_filter" :=
        (match o.masterFilter
         case Some(f) => Int(f)
         case None => if o.analyze then Str("True") else Null),
      "slave_exptime" := Num(o.slaveExptime),
      "slave_nexp" := Int(o.slaveNexp),
      "slave_filter" :=
        (match o.slaveFilter
         case Some(f) => Int(f)
         case None => Null)]
  }

  /** The six field names are pairwise distinct. */
  lemma FieldNamesDistinct()
    ensures "master_exptime" != "master_nexp" && "master_exptime" != "master_filter"
    ensures "master_exptime" != "slave_exptime" && "master_exptime" != "slave_nexp"
    ensures "master_exptime" != "slave_filter"
    ensures "master_nexp" != "master_filter" && "master_nexp" != "slave_exptime"
    ensures "master_nexp" != "slave_nexp" && "master_nexp" != "slave_filter"
    ensures "master_filter" != "slave_exptime" && "master_filter" != "slave_nexp"
    ensures "master_filter" != "slave_filter"
    ensures "slave_exptime" != "slave_nexp" && "slave_exptime" != "slave_filter"
    ensures "slave_nexp" != "slave_filter"
  {
    assert "master_filter"[0] != "slave_exptime"[0];
  }

  /** Every valid observation is the reading of some record: reading back what
      ToRecord writes gives the same observation. */
  lemma FromValueToRecord(o: Observation)
    requires Valid(o)
    ensures FromValue(Dict(ToRecord(o))) == o
  {
    var rec := ToRecord(o);
    FieldNamesDistinct();
    assert rec["master_exptime"] == Num(o.masterExptime);
    assert rec["master_nexp"] == Int(o.masterNexp);
    assert rec["slave_exptime"] == Num(o.slaveExptime);
    assert rec["slave_nexp"] == Int(o.slaveNexp);
    var filter := rec["master_filter"];
    if o.masterFilter.None? && o.analyze {
      assert filter == Str("True");
      LetterFirstNotInteger("True");
      assert IsAnalyzeToken(filter);
    } else if o.masterFilter.None? {
      assert filter == Null;
    } else {
      assert filter == Int(o.masterFilter.value);
    }
  }

  /** A record with none of the fields yields the all-default observation. */
  lemma DefaultsWhenAbsent(rec: Record)
    requires forall k :: k in rec ==>
      k !in {"master_exptime", "master_nexp", "master_filter", "slave_exptime", "slave_nexp", "slave_filter"}
    ensures FromValue(Dict(rec)) == Default
  {
    assert "master_exptime" !in rec && "master_nexp" !in rec && "master_filter" !in rec;
    assert "slave_exptime" !in rec && "slave_nexp" !in rec && "slave_filter" !in rec;
  }

  // ---------------------------------------------------------------------------
  // Duration
  // ---------------------------------------------------------------------------

  /** Time one channel needs: each of its `nexp` exposures costs `exptime + overhead`. */
  function ChannelTotal(exptime: real, nexp: int, overhead: real): real
  {
    (exptime + overhead) * nexp as real
  }

  function MasterTotal(o: Observation, overhead: real): real
  {
    ChannelTotal(o.masterExptime, o.masterNexp, overhead)
  }

  function SlaveTotal(o: Observation, overhead: real): real
  {
    ChannelTotal(o.slaveExptime, o.slaveNexp, overhead)
  }

  /** The two channels expose at the same time, so the observation lasts as
      long as the slower channel: the least bound on both channel totals. */
  function EstimateDuration(o: Observation, overhead: real): (d: real)
    ensures d >= MasterTotal(o, overhead) && d >= SlaveTotal(o, overhead)
    ensures d == MasterTotal(o, overhead) || d == SlaveTotal(o, overhead)
  {
    var m := MasterTotal(o, overhead);
    var s := SlaveTotal(o, overhead);
    if m >= s then m else s
  }

  predicate NonNegative(o: Observation)
  {
    o.masterExptime >= 0.0 && o.masterNexp >= 0 && o.slaveExptime >= 0.0 && o.slaveNexp >= 0
  }

  /** `o'` exposes at least as long and at least as often as `o` on both channels. */
  predicate ExposesAtLeast(o': Observation, o: Observation)
  {
    && o.masterExptime <= o'.masterExptime && o.masterNexp <= o'.masterNexp
    && o.slaveExptime <= o'.slaveExptime && o.slaveNexp <= o'.slaveNexp
  }

  lemma ChannelTotalMonotone(e: real, n: int, e': real, n': int, overhead: real)
    requires 0.0 <= e <= e' && 0 <= n <= n' && overhead >= 0.0
    ensures ChannelTotal(e, n, overhead) <= ChannelTotal(e', n', overhead)
  {
    var a, a' := e + overhead, e' + overhead;
    var k, k' := n as real, n' as real;
    ProductNonNegative(a' - a, k);
    assert (a' - a) * k == a' * k - a * k;
    ProductNonNegative(a', k' - k);
    assert a' * (k' - k) == a' * k' - a' * k;
  }

  lemma ProductNonNegative(x: real, y: real)
    requires x >= 0.0 && y >= 0.0
    ensures x * y >= 0.0
  {
  }

  /** More or longer exposures never shorten the estimate. */
  lemma EstimateDurationMonotone(o: Observation, o': Observation, overhead: real)
    requires NonNegative(o) && ExposesAtLeast(o', o) && overhead >= 0.0
    ensures EstimateDuration(o, overhead) <= EstimateDuration(o', overhead)
  {
    ChannelTotalMonotone(o.masterExptime, o.masterNexp, o'.masterExptime, o'.masterNexp, overhead);
    ChannelTotalMonotone(o.slaveExptime, o.slaveNexp, o'.slaveExptime, o'.slaveNexp, overhead);
  }

  /** With non-negative times, counts and overhead, no observation takes negative time. */
  lemma EstimateDurationNonNegative(o: Observation, overhead: real)
    requires NonNegative(o) && overhead >= 0.0
    ensures EstimateDuration(o, overhead) >= 0.0
  {
    ChannelTotalMonotone(0.0, 0, o.masterExptime, o.masterNexp, overhead);
  }
}
