/** The value classes `Workout`, `Running` and `Cycling` (script.js:6-63):
    derived metrics, the description text, the id taken from the clock, and
    the plain record a workout is saved as. */
module Workouts {
  import opened Values
  import opened Text

  /** The `type` class field of the two subclasses. */
  datatype Kind = Running | Cycling

  function TypeName(k: Kind): (name: string)
    ensures |name| == 7
  {
    match k
    case Running => "running"
    case Cycling => "cycling"
  }

  lemma TypeNamesDiffer()
    ensures TypeName(Running) != TypeName(Cycling)
  {
    assert TypeName(Running)[0] != TypeName(Cycling)[0];
  }

  /** The kind a stored `type` string selects: the reload builds a `Running`
      for "running" and a `Cycling` for anything else (script.js:585-597). */
  function KindOf(name: string): (k: Kind)
    ensures name == TypeName(k) || (k == Cycling && name != "running")
  {
    if name == "running" then Running else Cycling
  }

  /** A `[lat, lng]` pair. */
  datatype Coords = Coords(lat: real, lng: real)

  /** A workout as a plain object: every own property of a `Running` or
      `Cycling` instance except the map `marker`. `workoutType` is the `type`
      property. A property the instance never received is `None`. */
  datatype Record = Record(
    workoutType: string,
    id: string,
    date: Date,
    clicks: nat,
    coords: Coords,
    distance: Num,
    duration: Num,
    cadence: Option<Num>,
    elevationGain: Option<Num>,
    pace: Option<Num>,
    speed: Option<Num>,
    description: string)

  /** `calcPace` (script.js:41-45): minutes per kilometre. */
  function Pace(distance: Num, duration: Num): Num {
    Div(duration, distance)
  }

  /** For positive finite measurements the pace is positive and pace times
      distance is the duration; a zero distance gives no finite pace. */
  lemma PaceLaw(distance: Num, duration: Num)
    ensures var pace := Pace(distance, duration);
            && (distance.Finite? && duration.Finite? && distance.value > 0.0 && duration.value > 0.0 ==>
                  pace.Finite? && pace.value > 0.0 && pace.value * distance.value == duration.value)
            && (distance.Finite? && distance.value == 0.0 ==> !pace.Finite?)
  {
    DivLaw(duration, distance);
    if distance.Finite? && duration.Finite? && distance.value > 0.0 && duration.value > 0.0 {
      var pace := Pace(distance, duration);
      assert pace.value * distance.value == duration.value;
    }
  }

  /** `calcSpeed` (script.js:58-62): kilometres per hour. */
  function Speed(distance: Num, duration: Num): Num {
    Div(distance, Div(duration, Finite(60.0)))
  }

  /** For positive finite measurements the speed is positive and speed times
      duration is sixty times the distance; a zero duration gives no finite
      speed. */
  lemma SpeedLaw(distance: Num, duration: Num)
    ensures var speed := Speed(distance, duration);
            && (distance.Finite? && duration.Finite? && distance.value > 0.0 && duration.value > 0.0 ==>
                  speed.Finite? && speed.value > 0.0 && speed.value * duration.value == 60.0 * distance.value)
            && (duration.Finite? && duration.value == 0.0 ==> !speed.Finite?)
  {
    var hours := Div(duration, Finite(60.0));
    var speed := Div(distance, hours);
    DivLaw(duration, Finite(60.0));
    DivLaw(distance, hours);
    if distance.Finite? && duration.Finite? && distance.value > 0.0 && duration.value > 0.0 {
      assert hours.value * 60.0 == duration.value;
      assert hours.value > 0.0;
      calc {
        speed.value * duration.value;
        speed.value * (hours.value * 60.0);
        (speed.value * hours.value) * 60.0;
        60.0 * distance.value;
      }
    }
  }

  /** `(Date.now() + '').slice(-10)` (script.js:8): the last ten decimal digits
      of the clock reading in milliseconds. */
  function IdFromClock(now: nat): string {
    SliceLast(NatToString(now), 10)
  }

  /** The id is one to ten decimal digits spelling the reading modulo ten
      billion: the reading itself below ten billion, and exactly ten digits
      from then on (every reading after April 1970). */
  lemma IdFromClockDigits(now: nat)
    ensures var id := IdFromClock(now);
            && 0 < |id| <= 10 && AllDigits(id)
            && DigitsValue(id) == now % Pow10(10)
            && (now < Pow10(10) ==> id == NatToString(now))
            && (now >= Pow10(10) ==> |id| == 10)
  {
    if now < Pow10(10) {
      ShortIdIsReading(now);
      ModUnique(now, Pow10(10), 0, now);
    } else {
      LongIdIsSuffix(now);
    }
  }

  lemma ShortIdIsReading(now: nat)
    requires now < Pow10(10)
    ensures IdFromClock(now) == NatToString(now) && DigitsValue(IdFromClock(now)) == now
  {
    DecimalLength(now, 10);
    DigitsRoundTrip(now);
  }

  lemma LongIdIsSuffix(now: nat)
    requires now >= Pow10(10)
    ensures var id := IdFromClock(now);
            |id| == 10 && AllDigits(id) && DigitsValue(id) == now % Pow10(10)
  {
    var s := NatToString(now);
    LongRendering(now, 10);
    assert IdFromClock(now) == s[|s| - 10..];
    SuffixValue(s, 10);
    DigitsRoundTrip(now);
  }

  /** Two readings that agree modulo ten billion, such as two readings ten
      billion milliseconds apart, give the same id. */
  lemma IdsRepeat(a: nat, b: nat)
    requires a >= Pow10(10) && b >= Pow10(10) && a % Pow10(10) == b % Pow10(10)
    ensures IdFromClock(a) == IdFromClock(b)
  {
    IdFromClockDigits(a);
    IdFromClockDigits(b);
    DigitsInjective(IdFromClock(a), IdFromClock(b));
  }

  /** `_setDescription` (script.js:17-24): the type name with its first letter
      upper-cased, " on ", the month name and the day of the month. */
  function Description(k: Kind, date: Date): string {
    Capitalize(TypeName(k)) + " on " + MonthName(date.month) + " " + NatToString(date.day)
  }

  /** The description is "Running on " or "Cycling on " followed by the
      month name, a space and the day of the month. */
  lemma DescriptionParts(k: Kind, date: Date)
    ensures var text := Description(k, date);
            && |text| > 11
            && text[..11] == (match k case Running => "Running on " case Cycling => "Cycling on ")
            && text[11..] == MonthName(date.month) + " " + NatToString(date.day)
  {
    var head := Capitalize(TypeName(k)) + " on ";
    var text := Description(k, date);
    assert text == head + (MonthName(date.month) + " " + NatToString(date.day));
  }

  /** Reads back the kind and the date from a description, or None when the
      text is not one that Description produces. */
  function ParseDescription(text: string): Option<(Kind, Date)> {
    if |text| < 11 then None
    else
      var kind := if text[..11] == "Running on " then Some(Running)
                  else if text[..11] == "Cycling on " then Some(Cycling)
                  else None;
      if kind.None? then None
      else
        var rest := text[11..];
        var m := FindMonth(rest, 0);
        if m == 12 then None
        else
          var digits := rest[|MonthName(m)| + 1..];
          if |digits| == 0 || !AllDigits(digits) then None
          else
            var day := DigitsValue(digits);
            if 1 <= day <= 31 then Some((kind.value, Date(m, day))) else None
  }

  /** The first month from index `from` whose name and a space start `s`, or
      12 when there is none. */
  function FindMonth(s: string, from: int): (m: int)
    requires 0 <= from <= 12
    ensures from <= m <= 12
    ensures m < 12 ==> MonthName(m) + " " <= s
    decreases 12 - from
  {
    if from == 12 then 12
    else if MonthName(from) + " " <= s then from
    else FindMonth(s, from + 1)
  }

  lemma {:induction false} FindMonthOf(m: Month, tail: string, from: int)
    requires 0 <= from <= m
    ensures FindMonth(MonthName(m) + " " + tail, from) == m
    decreases m - from
  {
    var s := MonthName(m) + " " + tail;
    assert MonthName(m) + " " <= s;
    if from < m {
      if MonthName(from) + " " <= s {
        assert s == MonthName(m) + (" " + tail);
        MonthNamesDistinguishable(from, m, " " + tail);
      }
      FindMonthOf(m, tail, from + 1);
    }
  }

  /** The description determines the workout's kind, month and day. */
  lemma DescriptionRoundTrip(k: Kind, date: Date)
    ensures ParseDescription(Description(k, date)) == Some((k, date))
  {
    var text := Description(k, date);
    DescriptionParts(k, date);
    var name, digits := MonthName(date.month), NatToString(date.day);
    var rest := name + " " + digits;
    assert text[11..] == rest;
    assert "Running on " != "Cycling on " by {
      assert "Running on "[0] != "Cycling on "[0];
    }
    FindMonthOf(date.month, digits, 0);
    assert rest[|name| + 1..] == digits;
    DigitsRoundTrip(date.day);
  }

  /** The record a freshly constructed `Running` or `Cycling` instance holds
      (script.js:6-15, 31-39, 48-56): a clock-derived id, zero clicks, the
      given measurements, the extra field of its kind, the recomputed metric
      and description. */
  function NewRecord(k: Kind, now: nat, date: Date, coords: Coords,
                     distance: Num, duration: Num, extra: Option<Num>): Record
  {
    match k
    case Running =>
      Record(TypeName(k), IdFromClock(now), date, 0, coords, distance, duration,
             extra, None, Some(Pace(distance, duration)), None, Description(k, date))
    case Cycling =>
      Record(TypeName(k), IdFromClock(now), date, 0, coords, distance, duration,
             None, extra, None, Some(Speed(distance, duration)), Description(k, date))
  }

  /** A record whose type is one of the two kinds and whose pace or speed and
      description agree with its measurements and date: what the constructors
      produce. */
  predicate Consistent(r: Record) {
    || (&& r.workoutType == "running"
        && r.elevationGain.None? && r.speed.None?
        && r.pace == Some(Pace(r.distance, r.duration))
        && r.description == Description(Running, r.date))
    || (&& r.workoutType == "cycling"
        && r.cadence.None? && r.pace.None?
        && r.speed == Some(Speed(r.distance, r.duration))
        && r.description == Description(Cycling, r.date))
  }

  lemma NewRecordConsistent(k: Kind, now: nat, date: Date, coords: Coords,
                            distance: Num, duration: Num, extra: Option<Num>)
    ensures var r := NewRecord(k, now, date, coords, distance, duration, extra);
            && Consistent(r)
            && r.workoutType == TypeName(k) && r.id == IdFromClock(now) && r.date == date
            && r.clicks == 0 && r.coords == coords && r.distance == distance && r.duration == duration
            && (if k == Running then r.cadence == extra else r.elevationGain == extra)
  {
  }

  /** A workout instance. `Running` and `Cycling` are its two constructors;
      `kind` is the subclass. The fields that the source never reassigns
      after construction are constants. */
  class Workout {
    const kind: Kind
    const id: string
    const date: Date
    const coords: Coords
    var distance: Num
    var duration: Num
    var cadence: Option<Num>
    var elevationGain: Option<Num>
    var pace: Option<Num>
    var speed: Option<Num>
    var description: string
    var clicks: nat

    /** The instance as a plain record: every field, in the form saved. */
    function Snapshot(): (r: Record)
      reads this
      ensures r.id == id && r.workoutType == TypeName(kind)
    {
      Record(TypeName(kind), id, date, clicks, coords, distance, duration,
             cadence, elevationGain, pace, speed, description)
    }

    /** Every instance carries the description of its kind and date, and the
        metric of its own kind only. */
    ghost predicate Valid()
      reads this
    {
      && description == Description(kind, date)
      && (kind == Kind.Running ==> pace.Some? && speed.None?)
      && (kind == Kind.Cycling ==> speed.Some? && pace.None?)
    }

    /** `new Running(coords, distance, duration, cadence)` with the clock
        reading `now` and the current date. */
    constructor Running(now: nat, date: Date, coords: Coords, distance: Num, duration: Num, cadence: Option<Num>)
      ensures Valid()
      ensures Snapshot() == NewRecord(Kind.Running, now, date, coords, distance, duration, cadence)
    {
      this.kind := Kind.Running;
      this.id := IdFromClock(now);
      this.date := date;
      this.coords := coords;
      this.distance := distance;
      this.duration := duration;
      this.cadence := cadence;
      this.elevationGain := None;
      this.pace := None;
      this.speed := None;
      this.description := "";
      this.clicks := 0;
      new;
      var _ := CalcPace();
      SetDescription();
    }

    /** `new Cycling(coords, distance, duration, elevationGain)` with the
        clock reading `now` and the current date. */
    constructor Cycling(now: nat, date: Date, coords: Coords, distance: Num, duration: Num, elevationGain: Option<Num>)
      ensures Valid()
      ensures Snapshot() == NewRecord(Kind.Cycling, now, date, coords, distance, duration, elevationGain)
    {
      this.kind := Kind.Cycling;
      this.id := IdFromClock(now);
      this.date := date;
      this.coords := coords;
      this.distance := distance;
      this.duration := duration;
      this.cadence := None;
      this.elevationGain := elevationGain;
      this.pace := None;
      this.speed := None;
      this.description := "";
      this.clicks := 0;
      new;
      var _ := CalcSpeed();
      SetDescription();
    }

    /** `calcPace`: stores and returns the pace of the current measurements. */
    method CalcPace() returns (p: Num)
      modifies this`pace
      ensures pace == Some(p) && p == Pace(distance, duration)
    {
      p := Div(duration, distance);
      pace := Some(p);
    }

    /** `calcSpeed`: stores and returns the speed of the current measurements. */
    method CalcSpeed() returns (s: Num)
      modifies this`speed
      ensures speed == Some(s) && s == Speed(distance, duration)
    {
      s := Div(distance, Div(duration, Finite(60.0)));
      speed := Some(s);
    }

    /** `_setDescription`: recomputes the description from the type and date. */
    method SetDescription()
      modifies this`description
      ensures description == Description(kind, date)
    {
      var months := Months;
      description := Capitalize(TypeName(kind)) + " on " + months[date.month] + " " + NatToString(date.day);
    }

    /** `click`: counts one more click. */
    method Click()
      modifies this`clicks
      ensures clicks == old(clicks) + 1
    {
      clicks := clicks + 1;
    }
  }
}
