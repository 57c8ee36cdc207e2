/**
 * School settings: the school's name and city, and the two per-school risk
 * thresholds. An update merges the thresholds it is given with the stored
 * ones, validates the merged pair, and only then writes: the school row when
 * a name or city is given, the settings row when a threshold is given.
 */
module Settings {
  import opened Common

  datatype School = School(name: string, city: string, kind: string)

  /** A SchoolSettings row; both columns are nullable. */
  datatype Thresholds = Thresholds(riskGreenMax: Option<int>, riskYellowMax: Option<int>)

  const NoThresholds := Thresholds(None, None)

  /** The request body: every field may be left out; a threshold may also be sent as `null`. */
  datatype SettingsUpdate = SettingsUpdate(name: Patch<string>, city: Patch<string>,
                                           riskGreenMax: Patch<int>, riskYellowMax: Patch<int>)

  datatype SettingsView = SettingsView(schoolId: nat, name: string, city: string, kind: string, settings: Thresholds)

  const BothMustBeSet := "Both riskGreenMax and riskYellowMax must be set"
  const GreenBelowYellow := "riskGreenMax must be less than riskYellowMax"
  const YellowBelowHundred := "riskYellowMax must be less than 100"
  const NonNegative := "risk thresholds must be non-negative"

  /** `riskGreenMax !== undefined || riskYellowMax !== undefined`: a `null` also counts as touching the thresholds. */
  predicate UpdatingRisk(dto: SettingsUpdate)
  {
    !dto.riskGreenMax.Undefined? || !dto.riskYellowMax.Undefined?
  }

  /** `dto.x ?? current.x` for both thresholds. */
  function MergeThresholds(dto: SettingsUpdate, current: Thresholds): (next: Thresholds)
    ensures dto.riskGreenMax.Value? ==> next.riskGreenMax == Some(dto.riskGreenMax.value)
    ensures !dto.riskGreenMax.Value? ==> next.riskGreenMax == current.riskGreenMax
    ensures dto.riskYellowMax.Value? ==> next.riskYellowMax == Some(dto.riskYellowMax.value)
    ensures !dto.riskYellowMax.Value? ==> next.riskYellowMax == current.riskYellowMax
  {
    Thresholds(CoalesceOption(dto.riskGreenMax, current.riskGreenMax),
               CoalesceOption(dto.riskYellowMax, current.riskYellowMax))
  }

  predicate ValidPair(t: Thresholds)
  {
    t.riskGreenMax.Some? && t.riskYellowMax.Some? && 0 <= t.riskGreenMax.value < t.riskYellowMax.value < 100
  }

  /** The four checks, in the order the code makes them; None when all pass. */
  function CheckThresholds(next: Thresholds): (r: Option<Error>)
    ensures r.None? <==> ValidPair(next)
    ensures (next.riskGreenMax.None? || next.riskYellowMax.None?) <==> r == Some(BadRequest(BothMustBeSet))
    ensures r == Some(BadRequest(GreenBelowYellow))
            <==> next.riskGreenMax.Some? && next.riskYellowMax.Some? && next.riskGreenMax.value >= next.riskYellowMax.value
    ensures r == Some(BadRequest(YellowBelowHundred))
            <==> next.riskGreenMax.Some? && next.riskYellowMax.Some?
                 && next.riskGreenMax.value < next.riskYellowMax.value && next.riskYellowMax.value >= 100
    ensures r == Some(BadRequest(NonNegative))
            <==> next.riskGreenMax.Some? && next.riskYellowMax.Some?
                 && next.riskGreenMax.value < next.riskYellowMax.value < 100 && next.riskGreenMax.value < 0
  {
    if next.riskGreenMax.None? || next.riskYellowMax.None? then Some(BadRequest(BothMustBeSet))
    else
      var green := next.riskGreenMax.value;
      var yellow := next.riskYellowMax.value;
      if green >= yellow then Some(BadRequest(GreenBelowYellow))
      else if yellow >= 100 then Some(BadRequest(YellowBelowHundred))
      else if green < 0 || yellow < 0 then Some(BadRequest(NonNegative))
      else None
  }

  /** The error the update stops with, if any, once the school is known to exist. */
  function UpdateError(dto: SettingsUpdate, current: Thresholds): (r: Option<Error>)
    ensures !UpdatingRisk(dto) ==> r.None?
    ensures UpdatingRisk(dto) ==> (r.None? <==> ValidPair(MergeThresholds(dto, current)))
  {
    if UpdatingRisk(dto) then CheckThresholds(MergeThresholds(dto, current)) else None
  }

  class SettingsService {
    var schools: map<nat, School>
    var settings: map<nat, Thresholds>

    constructor (schools: map<nat, School>, settings: map<nat, Thresholds>)
      ensures this.schools == schools && this.settings == settings
    {
      this.schools := schools;
      this.settings := settings;
    }

    /** The stored thresholds, `null` for both when the school has no settings row. */
    function StoredThresholds(schoolId: nat): (t: Thresholds)
      reads this
      ensures schoolId !in settings ==> t == NoThresholds
      ensures schoolId in settings ==> t == settings[schoolId]
    {
      if schoolId in settings then settings[schoolId] else NoThresholds
    }

    function GetSchoolSettings(schoolId: nat): (r: Result<SettingsView>)
      reads this
      ensures schoolId !in schools <==> r == Err(NotFound("School not found"))
      ensures schoolId in schools ==>
        && r.Ok? && r.value.schoolId == schoolId
        && r.value.name == schools[schoolId].name && r.value.city == schools[schoolId].city
        && r.value.kind == schools[schoolId].kind
        && r.value.settings == StoredThresholds(schoolId)
    {
      if schoolId !in schools then Err(NotFound("School not found"))
      else
        var school := schools[schoolId];
        Ok(SettingsView(schoolId, school.name, school.city, school.kind, StoredThresholds(schoolId)))
    }

    method UpdateSchoolSettings(schoolId: nat, dto: SettingsUpdate) returns (r: Result<SettingsView>)
      modifies this
      ensures schoolId !in old(schools) ==>
        r == Err(NotFound("School not found")) && schools == old(schools) && settings == old(settings)
      ensures schoolId in old(schools) && UpdateError(dto, old(StoredThresholds(schoolId))).Some? ==>
        && r == Err(UpdateError(dto, old(StoredThresholds(schoolId))).value)
        && schools == old(schools) && settings == old(settings)
      ensures schoolId in old(schools) && UpdateError(dto, old(StoredThresholds(schoolId))).None? ==>
        var school := old(schools[schoolId]);
        && schools == (if !dto.name.Undefined? || !dto.city.Undefined?
                       then old(schools)[schoolId := School(Coalesce(dto.name, school.name), Coalesce(dto.city, school.city), school.kind)]
                       else old(schools))
        && settings == (if UpdatingRisk(dto)
                        then old(settings)[schoolId := MergeThresholds(dto, old(StoredThresholds(schoolId)))]
                        else old(settings))
        && r == GetSchoolSettings(schoolId)
      ensures r.Ok? && UpdatingRisk(dto) ==> ValidPair(settings[schoolId])
      ensures !UpdatingRisk(dto) ==> settings == old(settings)
    {
      if schoolId !in schools {
        return Err(NotFound("School not found"));
      }
      var school := schools[schoolId];

      var updatingRisk := !dto.riskGreenMax.Undefined? || !dto.riskYellowMax.Undefined?;
      var current := StoredThresholds(schoolId);
      var nextGreen := CoalesceOption(dto.riskGreenMax, current.riskGreenMax);
      var nextYellow := CoalesceOption(dto.riskYellowMax, current.riskYellowMax);

      if updatingRisk {
        if nextGreen.None? || nextYellow.None? {
          return Err(BadRequest(BothMustBeSet));
        }
        if nextGreen.value >= nextYellow.value {
          return Err(BadRequest(GreenBelowYellow));
        }
        if nextYellow.value >= 100 {
          return Err(BadRequest(YellowBelowHundred));
        }
        if nextGreen.value < 0 || nextYellow.value < 0 {
          return Err(BadRequest(NonNegative));
        }
      }

      if !dto.name.Undefined? || !dto.city.Undefined? {
        schools := schools[schoolId := School(Coalesce(dto.name, school.name), Coalesce(dto.city, school.city), school.kind)];
      }

      if updatingRisk {
        settings := settings[schoolId := Thresholds(nextGreen, nextYellow)];
      }

      r := GetSchoolSettings(schoolId);
    }
  }

  /** A threshold left out keeps the stored one; sending only one threshold is validated against the other stored one. */
  lemma SingleThresholdMergesWithStored(green: int, yellow: int, newGreen: int)
    ensures var next := MergeThresholds(SettingsUpdate(Undefined, Undefined, Value(newGreen), Undefined),
                                        Thresholds(Some(green), Some(yellow)));
            next == Thresholds(Some(newGreen), Some(yellow))
            && (ValidPair(next) <==> 0 <= newGreen < yellow < 100)
  {
  }

  /** A green threshold above the stored yellow one is refused with the ordering message (stored 30/60, sent 70/60). */
  lemma GreenAboveYellowRefused()
    ensures UpdateError(SettingsUpdate(Undefined, Undefined, Value(70), Value(60)), Thresholds(Some(30), Some(60)))
            == Some(BadRequest(GreenBelowYellow))
  {
  }

  /** Sending `null` for a threshold of a school without settings is refused: both must end up set. */
  lemma NullThresholdWithoutStoredRefused()
    ensures UpdateError(SettingsUpdate(Undefined, Undefined, Null, Value(50)), NoThresholds)
            == Some(BadRequest(BothMustBeSet))
  {
  }
}
