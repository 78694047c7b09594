/** Planetary time (`FPlanetTime`): year and day length, the day of the year and the time
    of day, held by a single shared instance, and the season of a point in the year. */
module PlanetTime {
  import opened Common

  const Spring: string := "Spring"
  const Summer: string := "Summer"
  const Autumn: string := "Autumn"
  const Winter: string := "Winter"

  /** The position of a season in the year. */
  function SeasonRank(season: string): int
  {
    if season == Spring then 0 else if season == Summer then 1 else if season == Autumn then 2 else 3
  }

  class PlanetTime {
    var yearLength: real
    var dayLengthHours: real
    var dayLengthMinutes: real
    var dayLengthSeconds: real
    var dayOfYear: int
    var timeOfDay: real

    /** The day length in seconds agrees with the hours and minutes. */
    ghost predicate Valid()
      reads this
    {
      dayLengthSeconds == dayLengthHours * 3600.0 + dayLengthMinutes * 60.0
    }

    /** The default constructor: a 365-day year of 24-hour days, at the start of day 1. */
    constructor Default()
      ensures yearLength == 365.0 && dayLengthHours == 24.0 && dayLengthMinutes == 0.0
      ensures dayLengthSeconds == 86400.0 && dayOfYear == 1 && timeOfDay == 0.0
      ensures Valid()
    {
      yearLength := 365.0;
      dayLengthHours := 24.0;
      dayLengthMinutes := 0.0;
      dayLengthSeconds := 86400.0;
      dayOfYear := 1;
      timeOfDay := 0.0;
    }

    /** The constructor from the five settings; the time of day is stored unclamped. */
    constructor (yearLengthDays: real, hours: real, minutes: real, day: int, time: real)
      ensures yearLength == yearLengthDays && dayLengthHours == hours && dayLengthMinutes == minutes
      ensures dayOfYear == day && timeOfDay == time
      ensures Valid()
    {
      yearLength := yearLengthDays;
      dayLengthHours := hours;
      dayLengthMinutes := minutes;
      dayLengthSeconds := (hours * 3600.0) + (minutes * 60.0);
      dayOfYear := day;
      timeOfDay := time;
    }

    function GetYearLength(): real
      reads this
    {
      yearLength
    }

    function GetDayLengthHours(): real
      reads this
    {
      dayLengthHours
    }

    function GetDayLengthMinutes(): real
      reads this
    {
      dayLengthMinutes
    }

    /** The stored day length in seconds, which agrees with the hours and minutes on
        every valid instance, as the constructors and setters leave it. */
    function GetDayLengthSeconds(): (seconds: real)
      reads this
      ensures Valid() ==> seconds == dayLengthHours * 3600.0 + dayLengthMinutes * 60.0
    {
      dayLengthSeconds
    }

    function GetDayOfYear(): int
      reads this
    {
      dayOfYear
    }

    function GetTimeOfDay(): real
      reads this
    {
      timeOfDay
    }

    /** `SetYearLength` stores one day more than it is given. */
    method SetYearLength(newYearLengthDays: real)
      modifies this
      ensures yearLength == newYearLengthDays + 1.0
      ensures dayLengthHours == old(dayLengthHours) && dayLengthMinutes == old(dayLengthMinutes)
      ensures dayLengthSeconds == old(dayLengthSeconds) && dayOfYear == old(dayOfYear) && timeOfDay == old(timeOfDay)
      ensures old(Valid()) ==> Valid()
    {
      yearLength := newYearLengthDays + 1.0;
    }

    /** `SetDayLengthHours` recomputes the day length in seconds, whatever it was before. */
    method SetDayLengthHours(newDayLengthHours: real)
      modifies this
      ensures dayLengthHours == newDayLengthHours && Valid()
      ensures yearLength == old(yearLength) && dayLengthMinutes == old(dayLengthMinutes)
      ensures dayOfYear == old(dayOfYear) && timeOfDay == old(timeOfDay)
    {
      dayLengthHours := newDayLengthHours;
      dayLengthSeconds := (newDayLengthHours * 3600.0) + (dayLengthMinutes * 60.0);
    }

    /** `SetDayLengthMinutes` likewise. */
    method SetDayLengthMinutes(newDayLengthMinutes: real)
      modifies this
      ensures dayLengthMinutes == newDayLengthMinutes && Valid()
      ensures yearLength == old(yearLength) && dayLengthHours == old(dayLengthHours)
      ensures dayOfYear == old(dayOfYear) && timeOfDay == old(timeOfDay)
    {
      dayLengthMinutes := newDayLengthMinutes;
      dayLengthSeconds := (dayLengthHours * 3600.0) + (newDayLengthMinutes * 60.0);
    }

    /** `SetDayOfYear` changes the day and nothing else. */
    method SetDayOfYear(newDayOfYear: int)
      modifies this
      ensures dayOfYear == newDayOfYear
      ensures yearLength == old(yearLength) && dayLengthHours == old(dayLengthHours)
      ensures dayLengthMinutes == old(dayLengthMinutes) && dayLengthSeconds == old(dayLengthSeconds)
      ensures timeOfDay == old(timeOfDay)
    {
      dayOfYear := newDayOfYear;
    }

    /** `SetTimeOfDay` keeps the time of day within [0, 1]. */
    method SetTimeOfDay(newTimeOfDay: real)
      modifies this
      ensures timeOfDay == Clamp(newTimeOfDay, 0.0, 1.0) && 0.0 <= timeOfDay <= 1.0
      ensures 0.0 <= newTimeOfDay <= 1.0 ==> timeOfDay == newTimeOfDay
      ensures yearLength == old(yearLength) && dayLengthHours == old(dayLengthHours)
      ensures dayLengthMinutes == old(dayLengthMinutes) && dayLengthSeconds == old(dayLengthSeconds)
      ensures dayOfYear == old(dayOfYear)
    {
      timeOfDay := Clamp(newTimeOfDay, 0.0, 1.0);
    }

    /** `GetSeason`: quarters of the year from Spring to Winter; it reads no field. */
    static function GetSeason(timeOfYear: real): (r: string)
      ensures r in {Spring, Summer, Autumn, Winter}
      ensures SeasonRank(r) == if timeOfYear < 0.25 then 0 else if timeOfYear < 0.5 then 1
                               else if timeOfYear < 0.75 then 2 else 3
    {
      if timeOfYear < 0.25 then Spring
      else if timeOfYear < 0.50 then Summer
      else if timeOfYear < 0.75 then Autumn
      else Winter
    }
  }

  /** Later in the year never means an earlier season. */
  lemma SeasonIsMonotone(a: real, b: real)
    requires a <= b
    ensures SeasonRank(PlanetTime.GetSeason(a)) <= SeasonRank(PlanetTime.GetSeason(b))
  {
  }

  /** The static `Instance` and its initialisation. */
  class PlanetTimeSingleton {
    var instance: PlanetTime?

    /** The instance starts out null. */
    constructor()
      ensures instance == null
    {
      instance := null;
    }

    /** `Initialize` creates the instance from its arguments the first time and does
        nothing on later calls. */
    method Initialize(yearLengthDays: real, hours: real, minutes: real, day: int, time: real)
      modifies this
      ensures old(instance) == null ==>
        instance != null && fresh(instance) && instance.Valid() &&
        instance.yearLength == yearLengthDays && instance.dayLengthHours == hours &&
        instance.dayLengthMinutes == minutes && instance.dayOfYear == day && instance.timeOfDay == time
      ensures old(instance) != null ==> instance == old(instance) && unchanged(instance)
    {
      if instance == null {
        instance := new PlanetTime(yearLengthDays, hours, minutes, day, time);
      }
    }

    /** `GetInstance`, which dereferences the instance and so needs it set. */
    method GetInstance() returns (t: PlanetTime)
      requires instance != null
      ensures t == instance
    {
      t := instance;
    }
  }
}
