/** What each operation of the `App` controller does to the list of workouts,
    stated on the saved form of that list (a sequence of records): the input
    checks, creation, delete by id, the two kinds of edit, and reload from
    storage. The class in module Controller is proved to follow these
    functions; the lemmas here state what they guarantee. */
module Store {
  import opened Values
  import opened Text
  import opened Workouts

  /** The values the workout form holds when it is submitted: the selected
      type and `+input.value` of each numeric field. */
  datatype FormInput = FormInput(kind: Kind, distance: Num, duration: Num, cadence: Num, elevation: Num)

  /** The running check (script.js:183-186). */
  predicate AcceptsRunning(distance: Num, duration: Num, cadence: Num) {
    AllFinite([distance, duration, cadence]) && AllPositive([distance, duration, cadence])
  }

  /** The cycling check (script.js:195-198): elevation must be finite only. */
  predicate AcceptsCycling(distance: Num, duration: Num, elevation: Num) {
    AllFinite([distance, duration, elevation]) && AllPositive([distance, duration])
  }

  predicate Accepts(input: FormInput) {
    match input.kind
    case Running => AcceptsRunning(input.distance, input.duration, input.cadence)
    case Cycling => AcceptsCycling(input.distance, input.duration, input.elevation)
  }

  lemma RunningValidation(distance: Num, duration: Num, cadence: Num)
    ensures AcceptsRunning(distance, duration, cadence) <==>
              && distance.Finite? && duration.Finite? && cadence.Finite?
              && distance.value > 0.0 && duration.value > 0.0 && cadence.value > 0.0
  {
    Every3(distance, duration, cadence);
  }

  lemma CyclingValidation(distance: Num, duration: Num, elevation: Num)
    ensures AcceptsCycling(distance, duration, elevation) <==>
              && distance.Finite? && duration.Finite? && elevation.Finite?
              && distance.value > 0.0 && duration.value > 0.0
  {
    Every3(distance, duration, elevation);
    var ys := [distance, duration];
    assert ys[1..] == [duration] && ys[1..][1..] == [];
    assert AllPositive(ys) == (GreaterThanZero(distance) && AllPositive([duration]));
    assert AllPositive([duration]) == (GreaterThanZero(duration) && AllPositive([]));
  }

  /** `every` over three inputs is the conjunction of the three tests. */
  lemma Every3(a: Num, b: Num, c: Num)
    ensures AllFinite([a, b, c]) == (a.Finite? && b.Finite? && c.Finite?)
    ensures AllPositive([a, b, c]) == (GreaterThanZero(a) && GreaterThanZero(b) && GreaterThanZero(c))
  {
    var xs := [a, b, c];
    assert xs[1..] == [b, c] && [b, c][1..] == [c] && [c][1..] == [];
    assert AllFinite(xs) == (a.Finite? && AllFinite([b, c]));
    assert AllFinite([b, c]) == (b.Finite? && AllFinite([c]));
    assert AllFinite([c]) == (c.Finite? && AllFinite([]));
    assert AllPositive(xs) == (GreaterThanZero(a) && AllPositive([b, c]));
    assert AllPositive([b, c]) == (GreaterThanZero(b) && AllPositive([c]));
    assert AllPositive([c]) == (GreaterThanZero(c) && AllPositive([]));
  }

  /** The workout a submitted form creates at `coords`, with the clock reading
      `now` and the date `date`, or None when the input is rejected
      (script.js:179-201 and 295-317). */
  function Created(input: FormInput, coords: Coords, now: nat, date: Date): Option<Record> {
    if !Accepts(input) then None
    else match input.kind
      case Running => Some(NewRecord(Running, now, date, coords, input.distance, input.duration, Some(input.cadence)))
      case Cycling => Some(NewRecord(Cycling, now, date, coords, input.distance, input.duration, Some(input.elevation)))
  }

  /** A created workout has positive measurements, the metric of its kind
      derived from them, the given position, a clock-derived id and no
      clicks. */
  lemma CreatedWorkout(input: FormInput, coords: Coords, now: nat, date: Date)
    ensures Created(input, coords, now, date).Some? <==> Accepts(input)
    ensures Created(input, coords, now, date).Some? ==>
              var r := Created(input, coords, now, date).value;
              && Consistent(r)
              && r.workoutType == TypeName(input.kind) && r.coords == coords
              && r.id == IdFromClock(now) && r.date == date && r.clicks == 0
              && r.distance == input.distance && r.duration == input.duration
              && r.distance.Finite? && r.duration.Finite? && r.distance.value > 0.0 && r.duration.value > 0.0
              && (input.kind == Running ==>
                    && r.cadence == Some(input.cadence)
                    && r.pace.Some? && r.pace.value.Finite? && r.pace.value.value > 0.0
                    && r.pace.value.value * r.distance.value == r.duration.value)
              && (input.kind == Cycling ==>
                    && r.elevationGain == Some(input.elevation)
                    && r.speed.Some? && r.speed.value.Finite? && r.speed.value.value > 0.0
                    && r.speed.value.value * r.duration.value == 60.0 * r.distance.value)
  {
    RunningValidation(input.distance, input.duration, input.cadence);
    CyclingValidation(input.distance, input.duration, input.elevation);
    var extra := if input.kind == Running then Some(input.cadence) else Some(input.elevation);
    NewRecordConsistent(input.kind, now, date, coords, input.distance, input.duration, extra);
  }

  /** The fields of a created workout that do not depend on its metric. */
  lemma CreatedShape(input: FormInput, coords: Coords, now: nat, date: Date)
    ensures Created(input, coords, now, date).Some? <==> Accepts(input)
    ensures Created(input, coords, now, date).Some? ==>
              var r := Created(input, coords, now, date).value;
              r.workoutType == TypeName(input.kind) && r.coords == coords && r.id == IdFromClock(now)
  {
  }

  /** The new list and whether `_setLocalStorage` ran. */
  datatype Outcome = Outcome(records: seq<Record>, saved: bool)

  function RecordIds(rs: seq<Record>): (ids: seq<string>)
    ensures |ids| == |rs| && forall k :: 0 <= k < |rs| ==> ids[k] == rs[k].id
  {
    seq(|rs|, k requires 0 <= k < |rs| => rs[k].id)
  }

  /** `findIndex(work => work.id === id)`: the first position holding `id`,
      or -1. Ids are not unique, so this is the first match. */
  function FirstIndex(ids: seq<string>, id: string): (i: int)
    ensures -1 <= i < |ids|
    ensures i >= 0 ==> ids[i] == id
    ensures forall k :: 0 <= k < |ids| && (i < 0 || k < i) ==> ids[k] != id
  {
    if |ids| == 0 then -1
    else if ids[0] == id then 0
    else
      var j := FirstIndex(ids[1..], id);
      if j < 0 then -1 else j + 1
  }

  /** `_newWorkout` (script.js:165-217): a rejected form changes nothing and
      is not saved; an accepted one is appended and the list saved. */
  function AfterNew(rs: seq<Record>, input: FormInput, coords: Coords, now: nat, date: Date): Outcome {
    match Created(input, coords, now, date)
    case None => Outcome(rs, false)
    case Some(r) => Outcome(rs + [r], true)
  }

  lemma NewWorkoutAppends(rs: seq<Record>, input: FormInput, coords: Coords, now: nat, date: Date)
    ensures var o := AfterNew(rs, input, coords, now, date);
            && (o.saved <==> Accepts(input))
            && (!o.saved ==> o.records == rs)
            && (o.saved ==>
                  && |o.records| == |rs| + 1
                  && o.records[..|rs|] == rs
                  && Created(input, coords, now, date) == Some(o.records[|rs|])
                  && o.records[|rs|].coords == coords
                  && o.records[|rs|].workoutType == TypeName(input.kind))
  {
    CreatedWorkout(input, coords, now, date);
    var o := AfterNew(rs, input, coords, now, date);
    if o.saved {
      assert o.records[..|rs|] == rs;
    }
  }

  /** `_deleteWorkout` (script.js:623-643): splices out the first workout with
      the id and saves; an unknown id changes nothing. */
  function AfterDelete(rs: seq<Record>, id: string): Outcome {
    var i := FirstIndex(RecordIds(rs), id);
    if i < 0 then Outcome(rs, false) else Outcome(rs[..i] + rs[i + 1..], true)
  }

  /** `out` is `rs` without its element i, the first with the id: the ones
      before it in place, the ones after it one place forward. */
  predicate RemovedFirst(rs: seq<Record>, id: string, i: int, out: seq<Record>) {
    && 0 <= i < |rs|
    && |out| == |rs| - 1
    && rs[i].id == id
    && (forall k :: 0 <= k < i ==> rs[k].id != id && out[k] == rs[k])
    && (forall k :: i <= k < |out| ==> out[k] == rs[k + 1])
    && multiset(out) + multiset{rs[i]} == multiset(rs)
  }

  lemma DeleteRemovesFirstMatch(rs: seq<Record>, id: string)
    ensures var o := AfterDelete(rs, id);
            && (o.saved <==> exists k :: 0 <= k < |rs| && rs[k].id == id)
            && (!o.saved ==> o.records == rs)
            && (o.saved ==> exists i :: RemovedFirst(rs, id, i, o.records))
  {
    var o := AfterDelete(rs, id);
    var ids := RecordIds(rs);
    var i := FirstIndex(ids, id);
    if i >= 0 {
      assert o.records == rs[..i] + rs[i + 1..];
      RemoveAt(rs, i);
      assert rs[i].id == ids[i] == id;
      assert forall k :: 0 <= k < i ==> rs[k].id != id by {
        forall k | 0 <= k < i ensures rs[k].id != id {
          assert ids[k] == rs[k].id;
        }
      }
      assert RemovedFirst(rs, id, i, o.records);
    } else {
      forall k | 0 <= k < |rs| ensures rs[k].id != id {
        assert ids[k] == rs[k].id;
      }
    }
  }

  /** Removing the element at index i keeps the others, in order. */
  lemma RemoveAt<T>(s: seq<T>, i: int)
    requires 0 <= i < |s|
    ensures var t := s[..i] + s[i + 1..];
            && |t| == |s| - 1
            && (forall k :: 0 <= k < i ==> t[k] == s[k])
            && (forall k :: i <= k < |t| ==> t[k] == s[k + 1])
            && multiset(t) + multiset{s[i]} == multiset(s)
  {
    assert s == s[..i] + [s[i]] + s[i + 1..];
    assert multiset(s) == multiset(s[..i]) + multiset{s[i]} + multiset(s[i + 1..]);
  }

  /** With two workouts sharing an id, delete removes the earlier one and
      keeps the later one, one place further forward. */
  lemma DeleteKeepsLaterDuplicate(rs: seq<Record>, a: int, b: int)
    requires 0 <= a < b < |rs| && rs[a].id == rs[b].id
    ensures var o := AfterDelete(rs, rs[b].id);
            o.saved && |o.records| == |rs| - 1 && o.records[b - 1] == rs[b]
  {
    var ids := RecordIds(rs);
    var i := FirstIndex(ids, rs[b].id);
    assert ids[a] == rs[b].id;
    assert 0 <= i <= a;
  }

  /** The position `_updateWorkout` edits (`find`, script.js:225): the first
      workout with the form's id, or -1 when the form carries no id or no
      workout has it. */
  function Target(rs: seq<Record>, formId: Option<string>): (i: int)
    ensures -1 <= i < |rs|
    ensures i >= 0 ==> formId.Some? && rs[i].id == formId.value
    ensures i >= 0 ==> forall k :: 0 <= k < i ==> rs[k].id != formId.value
    ensures formId.Some? && i < 0 ==> forall k :: 0 <= k < |rs| ==> rs[k].id != formId.value
  {
    if formId.None? then -1
    else
      var ids := RecordIds(rs);
      var i := FirstIndex(ids, formId.value);
      assert forall k :: 0 <= k < |rs| ==> ids[k] == rs[k].id;
      i
  }

  /** The field writes of script.js:230-239, made whatever the workout's own
      type: distance and duration, then cadence when the form says running
      and elevation gain when it says cycling. Pace and speed are not
      recomputed. The description is recomputed at script.js:242 from the
      unchanged type and date, so it keeps its value. */
  function Edited(r: Record, input: FormInput): Record {
    r.(distance := input.distance,
       duration := input.duration,
       cadence := if input.kind == Running then Some(input.cadence) else r.cadence,
       elevationGain := if input.kind == Cycling then Some(input.elevation) else r.elevationGain,
       description := Description(KindOf(r.workoutType), r.date))
  }

  /** Whether `_renderWorkoutAtIndex(newWorkout, index)` gets past
      script.js:499-507 when `left` workout elements are on the page: index 0
      appends to the list, any other index reads `workoutElements[index]`,
      which is `undefined`, and so throws, unless index < left. */
  predicate RenderableAt(index: int, left: int) {
    index == 0 || index < left
  }

  /** `_updateWorkout` (script.js:219-333) for the form's id `formId`. The
      page is described by `listed`, whether the workout's element is on it
      (script.js:253), and `shown`, how many workout elements it holds.
      A missing workout changes nothing. Otherwise the workout is edited in
      place. If it is listed and the form selects the other type, it is
      spliced out and its element removed (script.js:279, 284). Then:
      - input failing that type's check ends with an alert;
      - an index the page no longer has an element for throws at
        script.js:506;
      - otherwise a new workout at the old position replaces it.
      In the first two cases nothing is put back and nothing is saved. */
  function AfterUpdate(rs: seq<Record>, formId: Option<string>, input: FormInput,
                       listed: bool, shown: nat, now: nat, date: Date): Outcome
  {
    var i := Target(rs, formId);
    if i < 0 then Outcome(rs, false)
    else if !listed || rs[i].workoutType == TypeName(input.kind) then
      Outcome(rs[i := Edited(rs[i], input)], true)
    else match Created(input, rs[i].coords, now, date)
      case None => Outcome(rs[..i] + rs[i + 1..], false)
      case Some(r) =>
        if RenderableAt(i, shown - 1) then Outcome(rs[..i] + [r] + rs[i + 1..], true)
        else Outcome(rs[..i] + rs[i + 1..], false)
  }

  /** `_updateWorkout` ends with an exception rather than a return: the
      type-changing path with accepted input and no element at the index. */
  predicate UpdateThrows(rs: seq<Record>, formId: Option<string>, input: FormInput,
                         listed: bool, shown: nat)
  {
    var i := Target(rs, formId);
    && i >= 0 && listed && rs[i].workoutType != TypeName(input.kind)
    && Accepts(input) && !RenderableAt(i, shown - 1)
  }

  /** The update throws exactly when a new workout is created for a listed
      workout switched to the other type and the page cannot render it. */
  lemma ThrowsAfterCreation(rs: seq<Record>, formId: Option<string>, input: FormInput,
                            listed: bool, shown: nat, now: nat, date: Date)
    requires Target(rs, formId) >= 0
    ensures var i := Target(rs, formId);
            UpdateThrows(rs, formId, input, listed, shown) <==>
              && listed && rs[i].workoutType != TypeName(input.kind)
              && Created(input, rs[i].coords, now, date).Some? && !RenderableAt(i, shown - 1)
  {
    CreatedShape(input, rs[Target(rs, formId)].coords, now, date);
  }

  /** The update as the source performs it: first the edit in place, then,
      for a listed workout switched to the other type, the splice out of the
      edited workout and, when the input passes and the page can render it,
      the splice in of the new one. */
  lemma UpdateInSteps(rs: seq<Record>, formId: Option<string>, input: FormInput,
                      listed: bool, shown: nat, now: nat, date: Date)
    requires Target(rs, formId) >= 0
    ensures var i := Target(rs, formId);
            var e := rs[i := Edited(rs[i], input)];
            var c := Created(input, e[i].coords, now, date);
            AfterUpdate(rs, formId, input, listed, shown, now, date) ==
              if !listed || rs[i].workoutType == TypeName(input.kind) then Outcome(e, true)
              else if c.Some? && RenderableAt(i, shown - 1) then Outcome(e[..i] + [c.value] + e[i + 1..], true)
              else Outcome(e[..i] + e[i + 1..], false)
  {
    var i := Target(rs, formId);
    var e := rs[i := Edited(rs[i], input)];
    assert e[..i] == rs[..i] && e[i + 1..] == rs[i + 1..];
  }

  lemma UpdateOfMissingWorkout(rs: seq<Record>, formId: Option<string>, input: FormInput,
                               listed: bool, shown: nat, now: nat, date: Date)
    requires formId.None? || forall k :: 0 <= k < |rs| ==> rs[k].id != formId.value
    ensures AfterUpdate(rs, formId, input, listed, shown, now, date) == Outcome(rs, false)
    ensures !UpdateThrows(rs, formId, input, listed, shown)
  {
  }

  /** An edit that keeps the type overwrites the measured fields of the first
      workout with the id, without any check, and leaves everything else in
      the list, and every other field of that workout, as it was. */
  lemma SameTypeEdit(rs: seq<Record>, formId: Option<string>, input: FormInput,
                     listed: bool, shown: nat, now: nat, date: Date)
    requires Target(rs, formId) >= 0
    requires !listed || rs[Target(rs, formId)].workoutType == TypeName(input.kind)
    ensures var o := AfterUpdate(rs, formId, input, listed, shown, now, date);
            var i := Target(rs, formId);
            && o.saved && |o.records| == |rs| && !UpdateThrows(rs, formId, input, listed, shown)
            && (forall k :: 0 <= k < i ==> rs[k].id != formId.value)
            && (forall k :: 0 <= k < |rs| && k != i ==> o.records[k] == rs[k])
            && o.records[i].id == rs[i].id == formId.value
            && o.records[i].workoutType == rs[i].workoutType
            && o.records[i].coords == rs[i].coords
            && o.records[i].date == rs[i].date
            && o.records[i].clicks == rs[i].clicks
            && o.records[i].description == Description(KindOf(rs[i].workoutType), rs[i].date)
            && (Consistent(rs[i]) ==> o.records[i].description == rs[i].description)
            && o.records[i].pace == rs[i].pace
            && o.records[i].speed == rs[i].speed
            && o.records[i].distance == input.distance
            && o.records[i].duration == input.duration
            && o.records[i].cadence == (if input.kind == Running then Some(input.cadence) else rs[i].cadence)
            && o.records[i].elevationGain == (if input.kind == Cycling then Some(input.elevation) else rs[i].elevationGain)
  {
  }

  /** Because the pace is not recomputed, changing the distance of a running
      workout leaves a record whose pace no longer matches it. */
  lemma SameTypeEditLeavesPaceStale(r: Record, input: FormInput)
    requires Consistent(r) && r.workoutType == "running"
    requires r.distance.Finite? && r.duration.Finite? && r.distance.value > 0.0 && r.duration.value > 0.0
    requires input.kind == Running && input.duration == r.duration
    requires input.distance.Finite? && input.distance.value > 0.0 && input.distance != r.distance
    ensures !Consistent(Edited(r, input))
  {
    var e := Edited(r, input);
    var p, q := Pace(r.distance, r.duration), Pace(input.distance, r.duration);
    assert p.value * r.distance.value == r.duration.value;
    assert q.value * input.distance.value == r.duration.value;
    assert e.pace == Some(p) && p != q;
  }

  /** An edit of a listed workout to the other type. With input that passes
      the new type's check and an index the page can render at, a new workout
      of that type takes the same position and keeps the old position on the
      map. Otherwise the old workout is gone, the rest keep their order, and
      nothing is saved; with passing input that is the exception. */
  lemma TypeChangingEdit(rs: seq<Record>, formId: Option<string>, input: FormInput,
                         shown: nat, now: nat, date: Date)
    requires Target(rs, formId) >= 0
    requires rs[Target(rs, formId)].workoutType != TypeName(input.kind)
    ensures var o := AfterUpdate(rs, formId, input, true, shown, now, date);
            var i := Target(rs, formId);
            && (o.saved <==> Accepts(input) && RenderableAt(i, shown - 1))
            && (UpdateThrows(rs, formId, input, true, shown) <==> Accepts(input) && !RenderableAt(i, shown - 1))
            && (forall k :: 0 <= k < i ==> o.records[k] == rs[k] && rs[k].id != formId.value)
            && (o.saved ==>
                  && |o.records| == |rs|
                  && (forall k :: i < k < |rs| ==> o.records[k] == rs[k])
                  && Created(input, rs[i].coords, now, date) == Some(o.records[i])
                  && o.records[i].workoutType == TypeName(input.kind)
                  && o.records[i].coords == rs[i].coords
                  && o.records[i].id == IdFromClock(now))
            && (!o.saved ==>
                  && |o.records| == |rs| - 1
                  && (forall k :: i <= k < |o.records| ==> o.records[k] == rs[k + 1]))
  {
    CreatedShape(input, rs[Target(rs, formId)].coords, now, date);
  }

  /** With every workout on the page, changing the type of the last of two or
      more workouts, with input that passes, throws: the workout is removed
      and neither the new one nor the save follows. */
  lemma TypeChangeOfLastWorkoutThrows(rs: seq<Record>, formId: Option<string>, input: FormInput,
                                      now: nat, date: Date)
    requires |rs| >= 2 && Target(rs, formId) == |rs| - 1
    requires rs[|rs| - 1].workoutType != TypeName(input.kind) && Accepts(input)
    ensures UpdateThrows(rs, formId, input, true, |rs|)
    ensures AfterUpdate(rs, formId, input, true, |rs|, now, date) == Outcome(rs[..|rs| - 1], false)
  {
    CreatedShape(input, rs[|rs| - 1].coords, now, date);
    assert rs[|rs|..] == [];
  }

  /** One clock reading per workout rebuilt on reload. */
  datatype Stamp = Stamp(now: nat, date: Date)

  /** One step of the reload loop (script.js:585-598): a record typed
      'running' becomes a Running workout, any other record a Cycling one,
      built from its position, measurements and the field of that kind. */
  function Revive(item: Record, stamp: Stamp): Record {
    var kind := KindOf(item.workoutType);
    var extra := if item.workoutType == "running" then item.cadence else item.elevationGain;
    NewRecord(kind, stamp.now, stamp.date, item.coords, item.distance, item.duration, extra)
  }

  /** A rebuilt workout is a "running" one exactly when the stored type is
      "running", carries the stored coordinates, measurements and the extra
      field of its kind, recomputes its metric and description, and takes a
      new id and date from the clock with no clicks. */
  lemma ReviveRebuilds(item: Record, stamp: Stamp)
    ensures var r := Revive(item, stamp);
            && (item.workoutType == "running" ==>
                  r.workoutType == "running" && r.cadence == item.cadence && r.elevationGain.None?)
            && (item.workoutType != "running" ==>
                  r.workoutType == "cycling" && r.elevationGain == item.elevationGain && r.cadence.None?)
            && r.coords == item.coords && r.distance == item.distance && r.duration == item.duration
            && Consistent(r)
            && r.id == IdFromClock(stamp.now) && r.date == stamp.date && r.clicks == 0
  {
    var kind := KindOf(item.workoutType);
    var extra := if item.workoutType == "running" then item.cadence else item.elevationGain;
    NewRecordConsistent(kind, stamp.now, stamp.date, item.coords, item.distance, item.duration, extra);
  }

  /** The whole reload loop: one rebuilt workout per saved record, in order. */
  function Reloaded(data: seq<Record>, stamps: seq<Stamp>): (rs: seq<Record>)
    requires |stamps| == |data|
    ensures |rs| == |data|
    ensures forall k :: 0 <= k < |data| ==> rs[k] == Revive(data[k], stamps[k])
  {
    seq(|data|, k requires 0 <= k < |data| => Revive(data[k], stamps[k]))
  }

  /** Reloading one more stored record appends its rebuilt workout. */
  lemma ReloadedStep(data: seq<Record>, stamps: seq<Stamp>, i: nat)
    requires |stamps| == |data| && i < |data|
    ensures Reloaded(data[..i + 1], stamps[..i + 1]) == Reloaded(data[..i], stamps[..i]) + [Revive(data[i], stamps[i])]
  {
  }

  /** `_getLocalStorage` (script.js:579-599): no stored item gives no workouts. */
  function Load(stored: Option<seq<Record>>, stamps: seq<Stamp>): seq<Record>
    requires stored.Some? ==> |stamps| == |stored.value|
  {
    if stored.None? then [] else Reloaded(stored.value, stamps)
  }

  /** `r` with the parts a reload does not carry over replaced: a new id and
      date from the clock, no clicks, and the description of the new date. */
  function Restamped(r: Record, stamp: Stamp): Record {
    var kind := KindOf(r.workoutType);
    r.(id := IdFromClock(stamp.now), date := stamp.date, clicks := 0,
       description := Description(kind, stamp.date))
  }

  /** Saving then reloading a list of consistent workouts gives back every
      workout in the same order with the same type, position, measurements,
      extra field and metric; only the id, date, clicks and (through the
      date) the description are new. */
  lemma SaveReloadRoundTrip(rs: seq<Record>, stamps: seq<Stamp>)
    requires |stamps| == |rs|
    requires forall k :: 0 <= k < |rs| ==> Consistent(rs[k])
    ensures var back := Reloaded(rs, stamps);
            && |back| == |rs|
            && (forall k :: 0 <= k < |rs| ==> back[k] == Restamped(rs[k], stamps[k]))
            && (forall k :: 0 <= k < |rs| && stamps[k].date == rs[k].date ==>
                  back[k].description == rs[k].description)
  {
    var back := Reloaded(rs, stamps);
    forall k | 0 <= k < |rs|
      ensures back[k] == Restamped(rs[k], stamps[k])
    {
      var r := rs[k];
      ReviveRebuilds(r, stamps[k]);
      assert back[k] == Revive(r, stamps[k]);
    }
  }
}
