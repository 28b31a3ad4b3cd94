/** The interruption extractor and the three alert binary sensors
    (custom_components/termo_bucuresti/binary_sensor.py). The page is split at block-tag
    boundaries; every section that names the configured street and an interruption keyword
    becomes an interruption record; each sensor then derives its on/off state, its attributes
    and its icon from the record list. */
module Alerts {
  import opened Text
  import opened Probes

  /** A section is an interruption notice when it mentions one of these. */
  const InterruptionKeywords: seq<string> :=
    ["întrerupere", "avarie", "defect", "repara", "intervenție", "apă caldă", "căldură", "serviciu termic"]

  /** One outage candidate: the dictionary appended to `interruptions`. `detectedAt` is the
      timestamp of the pass, taken as an input. */
  datatype Interruption = Interruption(
    street: string,
    service: Service,
    cause: string,
    estimatedDate: string,
    estimatedTime: string,
    detectedAt: string)

  /** The dictionary `_parse_interruption_data` returns. */
  datatype InterruptionData = InterruptionData(interruptions: seq<Interruption>, totalFound: nat)

  /** The section names the street (both lower-cased) and one of the keywords. */
  predicate IsRelevant(street: string, section: string) {
    Contains(Lower(section), Lower(street)) && ContainsAny(Lower(section), InterruptionKeywords)
  }

  /** Relevance ignores case: lower-casing the street or the section first decides the same. */
  lemma RelevanceIgnoresCase(street: string, section: string)
    ensures IsRelevant(Lower(street), section) == IsRelevant(street, section)
    ensures IsRelevant(street, Lower(section)) == IsRelevant(street, section)
  {
    LowerIdempotent(street);
    LowerIdempotent(section);
  }

  /** The record built from one relevant section by running every probe on it. */
  function RecordOf(street: string, section: string, now: string): Interruption {
    Interruption(street, ExtractServiceType(section), ExtractCause(section),
                 ExtractEstimatedDate(section), ExtractEstimatedTime(section), now)
  }

  /** `[build(x) for x in xs if keep(x)]`, defined on prefixes so that a loop over `xs` can
      track it. */
  function FilterMap<S, R>(keep: S -> bool, build: S -> R, xs: seq<S>): (r: seq<R>)
    ensures |r| <= |xs|
  {
    if xs == [] then []
    else
      var last := xs[|xs| - 1];
      FilterMap(keep, build, xs[..|xs| - 1]) + (if keep(last) then [build(last)] else [])
  }

  /** `y` is built from some kept element of `xs`. */
  ghost predicate BuiltFromKept<S, R>(keep: S -> bool, build: S -> R, xs: seq<S>, y: R) {
    exists k :: 0 <= k < |xs| && keep(xs[k]) && y == build(xs[k])
  }

  /** Every result of `FilterMap` is built from a kept element. */
  lemma {:induction false} FilterMapSound<S, R>(keep: S -> bool, build: S -> R, xs: seq<S>)
    ensures forall j :: 0 <= j < |FilterMap(keep, build, xs)| ==>
      BuiltFromKept(keep, build, xs, FilterMap(keep, build, xs)[j])
  {
    if xs != [] {
      var init := xs[..|xs| - 1];
      FilterMapSound(keep, build, init);
      var r0 := FilterMap(keep, build, init);
      var r := FilterMap(keep, build, xs);
      forall j | 0 <= j < |r|
        ensures BuiltFromKept(keep, build, xs, r[j])
      {
        if j < |r0| {
          assert BuiltFromKept(keep, build, init, r0[j]);
          var k :| 0 <= k < |init| && keep(init[k]) && r0[j] == build(init[k]);
          assert init[k] == xs[k];
        } else {
          var last := |xs| - 1;
          assert keep(xs[last]) && r[j] == build(xs[last]);
        }
      }
    }
  }

  /** Every kept element gives a result of `FilterMap`. */
  lemma {:induction false} FilterMapComplete<S, R>(keep: S -> bool, build: S -> R, xs: seq<S>)
    ensures forall k :: 0 <= k < |xs| && keep(xs[k]) ==> build(xs[k]) in FilterMap(keep, build, xs)
  {
    if xs != [] {
      var init := xs[..|xs| - 1];
      FilterMapComplete(keep, build, init);
      forall k | 0 <= k < |xs| && keep(xs[k])
        ensures build(xs[k]) in FilterMap(keep, build, xs)
      {
        if k < |init| {
          assert init[k] == xs[k];
          assert build(init[k]) in FilterMap(keep, build, init);
        }
      }
    }
  }

  /** The records of the relevant sections, in section order. */
  function Candidates(street: string, sections: seq<string>, now: string): (r: seq<Interruption>)
    ensures |r| <= |sections|
  {
    FilterMap(s => IsRelevant(street, s), s => RecordOf(street, s, now), sections)
  }

  /** Every record is built from a relevant section and carries the configured street (not its
      lower-cased form). */
  lemma CandidatesSound(street: string, sections: seq<string>, now: string)
    ensures forall j :: 0 <= j < |Candidates(street, sections, now)| ==>
      Candidates(street, sections, now)[j].street == street
      && exists k :: 0 <= k < |sections| && IsRelevant(street, sections[k])
                     && Candidates(street, sections, now)[j] == RecordOf(street, sections[k], now)
  {
    var keep := s => IsRelevant(street, s);
    var build := s => RecordOf(street, s, now);
    var r := FilterMap(keep, build, sections);
    FilterMapSound(keep, build, sections);
    forall j | 0 <= j < |r|
      ensures r[j].street == street
      ensures exists k :: 0 <= k < |sections| && IsRelevant(street, sections[k]) && r[j] == RecordOf(street, sections[k], now)
    {
      assert BuiltFromKept(keep, build, sections, r[j]);
      var k :| 0 <= k < |sections| && keep(sections[k]) && r[j] == build(sections[k]);
      assert IsRelevant(street, sections[k]) && r[j] == RecordOf(street, sections[k], now);
    }
  }

  /** Every relevant section gives a record. */
  lemma CandidatesComplete(street: string, sections: seq<string>, now: string)
    ensures forall k :: 0 <= k < |sections| && IsRelevant(street, sections[k]) ==>
      RecordOf(street, sections[k], now) in Candidates(street, sections, now)
  {
    var keep := s => IsRelevant(street, s);
    var build := s => RecordOf(street, s, now);
    var r := FilterMap(keep, build, sections);
    FilterMapComplete(keep, build, sections);
    forall k | 0 <= k < |sections| && IsRelevant(street, sections[k])
      ensures RecordOf(street, sections[k], now) in r
    {
      assert keep(sections[k]);
      assert build(sections[k]) in r;
    }
  }

  /** One more section adds its record exactly when it is relevant. */
  lemma CandidatesStep(street: string, sections: seq<string>, n: nat, now: string)
    requires n < |sections|
    ensures Candidates(street, sections[..n + 1], now) == Candidates(street, sections[..n], now)
      + (if IsRelevant(street, sections[n]) then [RecordOf(street, sections[n], now)] else [])
  {
    assert sections[..n + 1][..n] == sections[..n];
  }

  /** `_parse_interruption_data`: split the page, keep the relevant sections, build one record
      per kept section; `totalFound` is the number of records. */
  method ParseInterruptionData(street: string, html: string, now: string) returns (data: InterruptionData)
    ensures data.interruptions == Candidates(street, Split(BlockTag, html), now)
    ensures data.totalFound == |data.interruptions| <= |Split(BlockTag, html)|
  {
    var streetLower := Lower(street);
    var sections := Split(BlockTag, html);
    var interruptions: seq<Interruption> := [];
    for n := 0 to |sections|
      invariant interruptions == Candidates(street, sections[..n], now)
    {
      var section := sections[n];
      var sectionLower := Lower(section);
      if Contains(sectionLower, streetLower) {
        var isInterruption := ContainsAny(sectionLower, InterruptionKeywords);
        if isInterruption {
          interruptions := interruptions + [RecordOf(street, section, now)];
        }
      }
      CandidatesStep(street, sections, n, now);
    }
    assert sections[..|sections|] == sections;
    data := InterruptionData(interruptions, |interruptions|);
  }

  // ---------------------------------------------------------------- alert derivation

  /** A value of the `extra_state_attributes` dictionary; `Missing` is Python's `None`. */
  datatype AttrValue = Str(s: string) | Num(n: nat) | Missing

  /** The services the hot-water sensor and the heating sensor react to. */
  const HotWaterServices: set<Service> := {HotWater, ThermalService}
  const HeatingServices: set<Service> := {Heating, ThermalService}

  /** `[x for x in xs if keep(x)]`: the kept elements, in order; it is empty exactly when
      nothing is kept. */
  function Filter<T>(keep: T -> bool, xs: seq<T>): (r: seq<T>)
    ensures |r| <= |xs|
    ensures r != [] <==> exists k :: 0 <= k < |xs| && keep(xs[k])
  {
    if xs == [] then []
    else
      var rest := Filter(keep, xs[1..]);
      assert forall k :: 0 <= k < |xs| - 1 ==> xs[1..][k] == xs[k + 1];
      (if keep(xs[0]) then [xs[0]] else []) + rest
  }

  /** A non-empty filter result starts with the first kept element. */
  lemma {:induction false} FilterFirst<T>(keep: T -> bool, xs: seq<T>)
    requires Filter(keep, xs) != []
    ensures exists k :: 0 <= k < |xs| && xs[k] == Filter(keep, xs)[0] && keep(xs[k])
                        && forall j :: 0 <= j < k ==> !keep(xs[j])
  {
    if keep(xs[0]) {
      assert xs[0] == Filter(keep, xs)[0];
    } else {
      var rest := Filter(keep, xs[1..]);
      assert Filter(keep, xs) == rest;
      FilterFirst(keep, xs[1..]);
      var k :| 0 <= k < |xs| - 1 && xs[1..][k] == rest[0] && keep(xs[1..][k])
               && forall j :: 0 <= j < k ==> !keep(xs[1..][j]);
      assert forall j :: 1 <= j < k + 1 ==> xs[j] == xs[1..][j - 1];
      assert xs[k + 1] == rest[0] && keep(xs[k + 1]);
    }
  }

  /** Filtering keeps every copy of a kept element and drops every copy of the others. */
  lemma {:induction false} FilterMultiset<T(!new)>(keep: T -> bool, xs: seq<T>)
    ensures forall x :: multiset(Filter(keep, xs))[x] == if keep(x) then multiset(xs)[x] else 0
  {
    if xs != [] {
      var rest := Filter(keep, xs[1..]);
      FilterMultiset(keep, xs[1..]);
      assert xs == [xs[0]] + xs[1..];
      assert multiset(xs) == multiset{xs[0]} + multiset(xs[1..]);
      if keep(xs[0]) {
        assert Filter(keep, xs) == [xs[0]] + rest;
        assert multiset(Filter(keep, xs)) == multiset{xs[0]} + multiset(rest);
      } else {
        assert Filter(keep, xs) == rest;
      }
    }
  }

  /** `[i for i in interruptions if i['serviciu'] in services]`. */
  function Affecting(recs: seq<Interruption>, services: set<Service>): (r: seq<Interruption>)
    ensures |r| <= |recs|
  {
    Filter((x: Interruption) => x.service in services, recs)
  }

  /** The records affecting the services, each as often as in the list; there is one exactly
      when some record affects them, and the first is the earliest such record. */
  lemma AffectingSpec(recs: seq<Interruption>, services: set<Service>)
    ensures forall x :: multiset(Affecting(recs, services))[x] == if x.service in services then multiset(recs)[x] else 0
    ensures Affecting(recs, services) != [] <==> exists k :: 0 <= k < |recs| && recs[k].service in services
    ensures Affecting(recs, services) != [] ==>
      exists k :: 0 <= k < |recs| && recs[k] == Affecting(recs, services)[0] && recs[k].service in services
                  && forall j :: 0 <= j < k ==> recs[j].service !in services
  {
    var keep := (x: Interruption) => x.service in services;
    var r := Filter(keep, recs);
    FilterMultiset(keep, recs);
    assert forall x :: keep(x) == (x.service in services);
    if r != [] {
      FilterFirst(keep, recs);
      var k :| 0 <= k < |recs| && recs[k] == r[0] && keep(recs[k]) && forall j :: 0 <= j < k ==> !keep(recs[j]);
      assert forall j :: 0 <= j < k ==> recs[j].service !in services;
    }
  }

  /** `ultima_verificare`: the time of the last successful update, or `None` before the first. */
  function LastCheck(lastUpdate: Option<string>): AttrValue {
    if lastUpdate.Some? then Str(lastUpdate.value) else Missing
  }

  /** The attributes of the hot-water and heating sensors, from the records that affect their
      services: the first one's fields and their number when there are any, otherwise only the
      time of the last check. */
  function ServiceAlertAttributes(affecting: seq<Interruption>, lastUpdate: Option<string>): (a: map<string, AttrValue>)
    ensures affecting != [] ==>
      a.Keys == {"cauza", "data_estimata", "ora_estimata", "numar_alerta", "ultima_detectare"}
      && a["cauza"] == Str(affecting[0].cause) && a["data_estimata"] == Str(affecting[0].estimatedDate)
      && a["ora_estimata"] == Str(affecting[0].estimatedTime) && a["numar_alerta"] == Num(|affecting|)
      && a["ultima_detectare"] == Str(affecting[0].detectedAt)
    ensures affecting == [] ==> a == map["ultima_verificare" := LastCheck(lastUpdate)]
  {
    if affecting != [] then
      var latest := affecting[0];
      map["cauza" := Str(latest.cause), "data_estimata" := Str(latest.estimatedDate),
          "ora_estimata" := Str(latest.estimatedTime), "numar_alerta" := Num(|affecting|),
          "ultima_detectare" := Str(latest.detectedAt)]
    else
      map["ultima_verificare" := LastCheck(lastUpdate)]
  }

  /** The attributes of the general sensor: the first record's fields and the number of records
      when there are any, otherwise a zero count and the time of the last check. */
  function GeneralAlertAttributes(recs: seq<Interruption>, lastUpdate: Option<string>): (a: map<string, AttrValue>)
    ensures recs != [] ==>
      a.Keys == {"serviciu_afectat", "cauza", "data_estimata", "ora_estimata", "total_intreruperi", "ultima_detectare"}
      && a["serviciu_afectat"] == Str(ServiceName(recs[0].service)) && a["cauza"] == Str(recs[0].cause)
      && a["data_estimata"] == Str(recs[0].estimatedDate) && a["ora_estimata"] == Str(recs[0].estimatedTime)
      && a["total_intreruperi"] == Num(|recs|) && a["ultima_detectare"] == Str(recs[0].detectedAt)
    ensures recs == [] ==> a == map["total_intreruperi" := Num(0), "ultima_verificare" := LastCheck(lastUpdate)]
  {
    if recs != [] then
      var latest := recs[0];
      map["serviciu_afectat" := Str(ServiceName(latest.service)), "cauza" := Str(latest.cause),
          "data_estimata" := Str(latest.estimatedDate), "ora_estimata" := Str(latest.estimatedTime),
          "total_intreruperi" := Num(|recs|), "ultima_detectare" := Str(latest.detectedAt)]
    else
      map["total_intreruperi" := Num(0), "ultima_verificare" := LastCheck(lastUpdate)]
  }

  /** `total_intreruperi` is the number of records whether the general alert is on or off. */
  lemma GeneralTotalIsCount(recs: seq<Interruption>, lastUpdate: Option<string>)
    ensures "total_intreruperi" in GeneralAlertAttributes(recs, lastUpdate)
    ensures GeneralAlertAttributes(recs, lastUpdate)["total_intreruperi"] == Num(|recs|)
  {
  }

  /** `TermoAlertApaCaldaSensor`: on while some record affects hot water (a hot-water or an
      unspecified thermal interruption). */
  class HotWaterAlertSensor {
    const street: string
    var interruptionData: InterruptionData
    var lastUpdate: Option<string>
    var isOn: bool
    var attributes: Option<map<string, AttrValue>>
    var icon: string

    constructor (street: string)
      ensures this.street == street && interruptionData == InterruptionData([], 0) && lastUpdate == None
      ensures !isOn && attributes == None && icon == "mdi:water-alert"
    {
      this.street := street;
      interruptionData := InterruptionData([], 0);
      lastUpdate := None;
      isOn := false;
      attributes := None;
      icon := "mdi:water-alert";
    }

    /** `_update_binary_state`. */
    method UpdateBinaryState()
      modifies this`isOn, this`attributes, this`icon
      ensures isOn <==> exists k :: 0 <= k < |interruptionData.interruptions|
                                    && interruptionData.interruptions[k].service in HotWaterServices
      ensures attributes == Some(ServiceAlertAttributes(Affecting(interruptionData.interruptions, HotWaterServices), lastUpdate))
      ensures icon == if isOn then "mdi:water-alert" else "mdi:water-check"
    {
      var affecting := Affecting(interruptionData.interruptions, HotWaterServices);
      isOn := |affecting| > 0;
      attributes := Some(ServiceAlertAttributes(affecting, lastUpdate));
      icon := if isOn then "mdi:water-alert" else "mdi:water-check";
    }

    /** The successful branch of `async_update`: parse the fetched page, update the state, then
        record the poll time; the state is therefore derived with the previous poll time. The
        records are stamped with `detectedAt`, the poll with `polledAt`. */
    method Refresh(html: string, detectedAt: string, polledAt: string)
      modifies this`interruptionData, this`isOn, this`attributes, this`icon, this`lastUpdate
      ensures interruptionData.interruptions == Candidates(street, Split(BlockTag, html), detectedAt)
      ensures interruptionData.totalFound == |interruptionData.interruptions|
      ensures attributes == Some(ServiceAlertAttributes(Affecting(interruptionData.interruptions, HotWaterServices), old(lastUpdate)))
      ensures isOn <==> Affecting(interruptionData.interruptions, HotWaterServices) != []
      ensures icon == if isOn then "mdi:water-alert" else "mdi:water-check"
      ensures lastUpdate == Some(polledAt)
    {
      interruptionData := ParseInterruptionData(street, html, detectedAt);
      UpdateBinaryState();
      lastUpdate := Some(polledAt);
    }
  }

  /** `TermoAlertCalduraSensor`: on while some record affects heating (a heating or an
      unspecified thermal interruption). */
  class HeatingAlertSensor {
    const street: string
    var interruptionData: InterruptionData
    var lastUpdate: Option<string>
    var isOn: bool
    var attributes: Option<map<string, AttrValue>>
    var icon: string

    constructor (street: string)
      ensures this.street == street && interruptionData == InterruptionData([], 0) && lastUpdate == None
      ensures !isOn && attributes == None && icon == "mdi:radiator-alert"
    {
      this.street := street;
      interruptionData := InterruptionData([], 0);
      lastUpdate := None;
      isOn := false;
      attributes := None;
      icon := "mdi:radiator-alert";
    }

    /** `_update_binary_state`. */
    method UpdateBinaryState()
      modifies this`isOn, this`attributes, this`icon
      ensures isOn <==> exists k :: 0 <= k < |interruptionData.interruptions|
                                    && interruptionData.interruptions[k].service in HeatingServices
      ensures attributes == Some(ServiceAlertAttributes(Affecting(interruptionData.interruptions, HeatingServices), lastUpdate))
      ensures icon == if isOn then "mdi:radiator-alert" else "mdi:radiator"
    {
      var affecting := Affecting(interruptionData.interruptions, HeatingServices);
      isOn := |affecting| > 0;
      attributes := Some(ServiceAlertAttributes(affecting, lastUpdate));
      icon := if isOn then "mdi:radiator-alert" else "mdi:radiator";
    }

    /** The successful branch of `async_update`. */
    method Refresh(html: string, detectedAt: string, polledAt: string)
      modifies this`interruptionData, this`isOn, this`attributes, this`icon, this`lastUpdate
      ensures interruptionData.interruptions == Candidates(street, Split(BlockTag, html), detectedAt)
      ensures interruptionData.totalFound == |interruptionData.interruptions|
      ensures attributes == Some(ServiceAlertAttributes(Affecting(interruptionData.interruptions, HeatingServices), old(lastUpdate)))
      ensures isOn <==> Affecting(interruptionData.interruptions, HeatingServices) != []
      ensures icon == if isOn then "mdi:radiator-alert" else "mdi:radiator"
      ensures lastUpdate == Some(polledAt)
    {
      interruptionData := ParseInterruptionData(street, html, detectedAt);
      UpdateBinaryState();
      lastUpdate := Some(polledAt);
    }
  }

  /** `TermoAlertGeneralSensor`: on while there is any record at all. */
  class GeneralAlertSensor {
    const street: string
    var interruptionData: InterruptionData
    var lastUpdate: Option<string>
    var isOn: bool
    var attributes: Option<map<string, AttrValue>>
    var icon: string

    constructor (street: string)
      ensures this.street == street && interruptionData == InterruptionData([], 0) && lastUpdate == None
      ensures !isOn && attributes == None && icon == "mdi:alert-circle"
    {
      this.street := street;
      interruptionData := InterruptionData([], 0);
      lastUpdate := None;
      isOn := false;
      attributes := None;
      icon := "mdi:alert-circle";
    }

    /** `_update_binary_state`. */
    method UpdateBinaryState()
      modifies this`isOn, this`attributes, this`icon
      ensures isOn <==> interruptionData.interruptions != []
      ensures attributes == Some(GeneralAlertAttributes(interruptionData.interruptions, lastUpdate))
      ensures attributes.value["total_intreruperi"] == Num(|interruptionData.interruptions|)
      ensures icon == if isOn then "mdi:alert-circle-outline" else "mdi:check-circle-outline"
    {
      var interruptions := interruptionData.interruptions;
      isOn := |interruptions| > 0;
      attributes := Some(GeneralAlertAttributes(interruptions, lastUpdate));
      icon := if isOn then "mdi:alert-circle-outline" else "mdi:check-circle-outline";
    }

    /** The successful branch of `async_update`. */
    method Refresh(html: string, detectedAt: string, polledAt: string)
      modifies this`interruptionData, this`isOn, this`attributes, this`icon, this`lastUpdate
      ensures interruptionData.interruptions == Candidates(street, Split(BlockTag, html), detectedAt)
      ensures interruptionData.totalFound == |interruptionData.interruptions|
      ensures attributes == Some(GeneralAlertAttributes(interruptionData.interruptions, old(lastUpdate)))
      ensures isOn <==> interruptionData.interruptions != []
      ensures icon == if isOn then "mdi:alert-circle-outline" else "mdi:check-circle-outline"
      ensures lastUpdate == Some(polledAt)
    {
      interruptionData := ParseInterruptionData(street, html, detectedAt);
      UpdateBinaryState();
      lastUpdate := Some(polledAt);
    }
  }
}
