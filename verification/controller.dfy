/** The `App` controller's list bookkeeping (script.js:78-644) without the map,
    the page and the browser storage API: the `#workouts` array of workout
    instances, the `editing` flag, the id the edit form carries, and the
    item saved under the key 'workouts'. Every method is proved to change the
    list as the matching function of module Store says. */
module Controller {
  import opened Values
  import opened Workouts
  import opened Store

  /** `workouts.map(({ marker, ...rest }) => rest)` (script.js:571-574): each
      instance as the record it is saved as. */
  function Snapshots(ws: seq<Workout>): (rs: seq<Record>)
    reads ws
    ensures |rs| == |ws| && forall k :: 0 <= k < |ws| ==> rs[k] == ws[k].Snapshot()
  {
    seq(|ws|, k requires 0 <= k < |ws| reads ws => ws[k].Snapshot())
  }

  lemma SnapshotsAppend(ws: seq<Workout>, w: Workout)
    ensures Snapshots(ws + [w]) == Snapshots(ws) + [w.Snapshot()]
  {
  }

  lemma SnapshotsRemove(ws: seq<Workout>, i: nat)
    requires i < |ws|
    ensures Snapshots(ws[..i] + ws[i + 1..]) == Snapshots(ws)[..i] + Snapshots(ws)[i + 1..]
  {
  }

  lemma SnapshotsReplace(ws: seq<Workout>, i: nat, w: Workout)
    requires i < |ws|
    ensures Snapshots(ws[..i] + [w] + ws[i + 1..]) == Snapshots(ws)[..i] + [w.Snapshot()] + Snapshots(ws)[i + 1..]
  {
  }

  /** One more rebuilt workout pushed extends the reloaded records by its
      record. */
  lemma ReloadOneMore(ws: seq<Workout>, w: Workout, before: seq<Record>,
                      data: seq<Record>, stamps: seq<Stamp>, i: nat)
    requires |stamps| == |data| && i < |data|
    requires Snapshots(ws) == before + Reloaded(data[..i], stamps[..i])
    requires w.Snapshot() == Revive(data[i], stamps[i])
    ensures Snapshots(ws + [w]) == before + Reloaded(data[..i + 1], stamps[..i + 1])
  {
    SnapshotsAppend(ws, w);
    ReloadedStep(data, stamps, i);
  }

  /** No instance occurs twice in the list. */
  ghost predicate Distinct(ws: seq<Workout>) {
    forall i, j :: 0 <= i < j < |ws| ==> ws[i] != ws[j]
  }

  lemma DistinctAppend(ws: seq<Workout>, w: Workout)
    requires Distinct(ws) && w !in ws
    ensures Distinct(ws + [w])
  {
  }

  lemma DistinctRemove(ws: seq<Workout>, i: nat)
    requires Distinct(ws) && i < |ws|
    ensures Distinct(ws[..i] + ws[i + 1..])
  {
  }

  lemma DistinctReplace(ws: seq<Workout>, i: nat, w: Workout)
    requires Distinct(ws) && i < |ws| && w !in ws
    ensures Distinct(ws[..i] + [w] + ws[i + 1..])
  {
  }

  /** The check-then-construct step shared by `_newWorkout` (script.js:180-201)
      and the type-changing edit (script.js:296-317): null when the form is
      rejected, otherwise a new instance of the selected type. */
  method CreateFromForm(input: FormInput, coords: Coords, now: nat, date: Date) returns (w: Workout?)
    ensures Created(input, coords, now, date).None? ==> w == null
    ensures Created(input, coords, now, date).Some? ==>
              w != null && fresh(w) && w.Valid() && w.Snapshot() == Created(input, coords, now, date).value
  {
    if input.kind == Kind.Running {
      if !AcceptsRunning(input.distance, input.duration, input.cadence) {
        return null;
      }
      w := new Workout.Running(now, date, coords, input.distance, input.duration, Some(input.cadence));
    } else {
      if !AcceptsCycling(input.distance, input.duration, input.elevation) {
        return null;
      }
      w := new Workout.Cycling(now, date, coords, input.distance, input.duration, Some(input.elevation));
    }
  }

  /** The body of the `forEach` in `_getLocalStorage` (script.js:584-597): a
      `Running` for a stored "running" record and a `Cycling` for any other. */
  method Rebuild(item: Record, stamp: Stamp) returns (w: Workout)
    ensures fresh(w) && w.Valid() && w.Snapshot() == Revive(item, stamp)
  {
    if item.workoutType == "running" {
      w := new Workout.Running(stamp.now, stamp.date, item.coords, item.distance, item.duration, item.cadence);
    } else {
      w := new Workout.Cycling(stamp.now, stamp.date, item.coords, item.distance, item.duration, item.elevationGain);
    }
  }

  class App {
    /** `#workouts`. */
    var workouts: seq<Workout>
    /** The module-level `editing` flag (script.js:78). */
    var editing: bool
    /** `form.dataset.id`: the id of the workout last opened for editing. */
    var formId: Option<string>
    /** `localStorage.getItem('workouts')`, as records. */
    var storage: Option<seq<Record>>

    /** The list never holds one instance twice, so editing one element in
        place leaves every other element as it was. */
    ghost predicate Valid()
      reads this
    {
      Distinct(workouts)
    }

    /** The list as `_setLocalStorage` saves it. */
    function Records(): seq<Record>
      reads this, workouts
    {
      Snapshots(workouts)
    }

    /** `new App()` (script.js:86-108) on a page whose storage holds `stored`;
        `stamps` are the clock readings the reload takes. */
    constructor(stored: Option<seq<Record>>, stamps: seq<Stamp>)
      requires stored.Some? ==> |stamps| == |stored.value|
      ensures Valid()
      ensures Records() == Load(stored, stamps)
      ensures storage == stored && !editing && formId.None?
    {
      workouts := [];
      editing := false;
      formId := None;
      storage := stored;
      new;
      GetLocalStorage(stamps);
    }

    /** `_getLocalStorage` (script.js:579-604): pushes one rebuilt instance per
        stored record. */
    method GetLocalStorage(stamps: seq<Stamp>)
      requires Valid()
      requires storage.Some? ==> |stamps| == |storage.value|
      modifies this`workouts
      ensures Valid()
      ensures Records() == old(Records()) + Load(storage, stamps)
    {
      if storage.None? {
        return;
      }
      var data := storage.value;
      ghost var before := Records();
      var i := 0;
      while i < |data|
        invariant 0 <= i <= |data|
        invariant Valid()
        invariant Records() == before + Reloaded(data[..i], stamps[..i])
      {
        var w := Rebuild(data[i], stamps[i]);
        DistinctAppend(workouts, w);
        ReloadOneMore(workouts, w, before, data, stamps, i);
        workouts := workouts + [w];
        i := i + 1;
      }
      assert data[..i] == data && stamps[..i] == stamps;
    }

    /** `_setLocalStorage` (script.js:570-577). */
    method SetLocalStorage()
      modifies this`storage
      ensures storage == Some(Records())
    {
      storage := Some(Snapshots(workouts));
    }

    /** `_newWorkout` (script.js:165-217) with the form's values and the map
        position last clicked. */
    method NewWorkout(input: FormInput, clicked: Coords, now: nat, date: Date)
      requires Valid()
      modifies this`workouts, this`storage
      ensures Valid()
      ensures var o := AfterNew(old(Records()), input, clicked, now, date);
              Records() == o.records && storage == (if o.saved then Some(o.records) else old(storage))
      ensures Accepts(input) ==>
                && |workouts| == |old(workouts)| + 1
                && workouts[..|old(workouts)|] == old(workouts)
                && fresh(workouts[|old(workouts)|])
      ensures !Accepts(input) ==> workouts == old(workouts)
    {
      CreatedWorkout(input, clicked, now, date);
      var w := CreateFromForm(input, clicked, now, date);
      if w == null {
        return;
      }
      DistinctAppend(workouts, w);
      SnapshotsAppend(workouts, w);
      workouts := workouts + [w];
      SetLocalStorage();
    }

    /** `_deleteWorkout` (script.js:623-643) for the id of the clicked button. */
    method DeleteWorkout(id: string)
      requires Valid()
      modifies this`workouts, this`storage
      ensures Valid()
      ensures var o := AfterDelete(old(Records()), id);
              Records() == o.records && storage == (if o.saved then Some(o.records) else old(storage))
    {
      var i := FirstIndex(RecordIds(Records()), id);
      if i == -1 {
        return;
      }
      DistinctRemove(workouts, i);
      SnapshotsRemove(workouts, i);
      workouts := workouts[..i] + workouts[i + 1..];
      SetLocalStorage();
    }

    /** `_updateWorkout` (script.js:219-333) with the form's values; `listed`
        says whether the workout's element is on the page and `shown` how
        many workout elements the page holds. The workout is changed in
        place; only a listed workout switched to the other type is replaced
        by a new instance, at the same position. `threw` reports the
        exception of script.js:506. */
    method UpdateWorkout(input: FormInput, listed: bool, shown: nat, now: nat, date: Date) returns (threw: bool)
      requires Valid()
      modifies this`workouts, this`storage, workouts
      ensures Valid()
      ensures var o := AfterUpdate(old(Records()), old(formId), input, listed, shown, now, date);
              Records() == o.records && storage == (if o.saved then Some(o.records) else old(storage))
      ensures threw == UpdateThrows(old(Records()), old(formId), input, listed, shown)
      ensures var i := Target(old(Records()), old(formId));
              i < 0 || !listed || old(Records())[i].workoutType == TypeName(input.kind) ==> workouts == old(workouts)
    {
      ghost var before, st, ws := Records(), storage, workouts;
      ghost var o := AfterUpdate(before, formId, input, listed, shown, now, date);
      threw := false;
      var i := if formId.Some? then FirstIndex(RecordIds(Records()), formId.value) else -1;
      assert i == Target(before, formId);
      if i < 0 {
        assert o == Outcome(before, false);
        return;
      }
      UpdateInSteps(before, formId, input, listed, shown, now, date);
      ThrowsAfterCreation(before, formId, input, listed, shown, now, date);
      TypeNamesDiffer();
      assert before[i].workoutType == TypeName(input.kind) <==> workouts[i].kind == input.kind;
      ApplyForm(i, input);
      if listed && workouts[i].kind != input.kind {
        var saved;
        saved, threw := ReplaceAt(i, input, shown, now, date);
        if !saved {
          assert Records() == o.records && !o.saved && storage == st;
          return;
        }
      } else {
        assert workouts == ws;
      }
      assert Records() == o.records && o.saved;
      SetLocalStorage();
      assert storage == Some(o.records);
    }

    /** The in-place part of `_updateWorkout` (script.js:230-242): the form's
        measurements and the extra field of the selected type are written into
        the i-th workout, and its description is recomputed. The instance keeps
        its kind, so it keeps the metric of that kind and a matching
        description. */
    method ApplyForm(i: nat, input: FormInput)
      requires Valid() && i < |workouts|
      modifies workouts[i]
      ensures Records() == old(Records())[i := Edited(old(Records())[i], input)]
      ensures old(workouts[i].Valid()) ==> workouts[i].Valid()
    {
      ghost var before := Records();
      var w := workouts[i];
      w.distance := input.distance;
      w.duration := input.duration;
      if input.kind == Kind.Running {
        w.cadence := Some(input.cadence);
      }
      if input.kind == Kind.Cycling {
        w.elevationGain := Some(input.elevation);
      }
      w.SetDescription();
      assert w.Snapshot() == Edited(before[i], input);
    }

    /** The type-changing part of `_updateWorkout` (script.js:272-324): the
        i-th workout is spliced out and its element leaves the page, so
        `shown - 1` elements remain. When the form passes the check of its
        type and the page can render at index i, a new workout at the old
        position on the map is spliced in at the same index. `saved` is false
        when the check failed (an alert) or the rendering threw (`threw`). */
    method ReplaceAt(i: nat, input: FormInput, shown: nat, now: nat, date: Date) returns (saved: bool, threw: bool)
      requires Valid() && i < |workouts|
      modifies this`workouts
      ensures Valid()
      ensures var rs, c := old(Records()), Created(input, old(Records())[i].coords, now, date);
              && saved == (c.Some? && RenderableAt(i, shown - 1))
              && threw == (c.Some? && !RenderableAt(i, shown - 1))
              && Records() == if saved then rs[..i] + [c.value] + rs[i + 1..] else rs[..i] + rs[i + 1..]
    {
      var ws := workouts;
      var coords := ws[i].coords;
      DistinctRemove(ws, i);
      SnapshotsRemove(ws, i);
      workouts := ws[..i] + ws[i + 1..];
      var replacement := CreateFromForm(input, coords, now, date);
      if replacement == null {
        return false, false;
      }
      if !RenderableAt(i, shown - 1) {
        return false, true;
      }
      // Splicing the new workout in at i puts back what the removal shifted.
      DistinctReplace(ws, i, replacement);
      SnapshotsReplace(ws, i, replacement);
      workouts := ws[..i] + [replacement] + ws[i + 1..];
      return true, false;
    }

    /** The form's submit handler (script.js:94-102): an update while
        `editing` is set, which clears it unless the update threw, and a new
        workout otherwise. */
    method Submit(input: FormInput, clicked: Coords, listed: bool, shown: nat, now: nat, date: Date)
      requires Valid()
      modifies this`workouts, this`storage, this`editing, workouts
      ensures Valid()
      ensures formId == old(formId)
      ensures editing == (old(editing) && UpdateThrows(old(Records()), old(formId), input, listed, shown))
      ensures old(editing) ==>
                var o := AfterUpdate(old(Records()), old(formId), input, listed, shown, now, date);
                Records() == o.records && storage == (if o.saved then Some(o.records) else old(storage))
      ensures !old(editing) ==>
                var o := AfterNew(old(Records()), input, clicked, now, date);
                Records() == o.records && storage == (if o.saved then Some(o.records) else old(storage))
    {
      ghost var before, st := Records(), storage;
      if editing {
        ghost var o := AfterUpdate(before, formId, input, listed, shown, now, date);
        ghost var fails := UpdateThrows(before, formId, input, listed, shown);
        var threw := UpdateWorkout(input, listed, shown, now, date);
        assert threw == fails;
        assert Records() == o.records && storage == (if o.saved then Some(o.records) else st);
        if !threw {
          editing := false;
        }
      } else {
        ghost var o := AfterNew(before, input, clicked, now, date);
        NewWorkout(input, clicked, now, date);
        assert Records() == o.records && storage == (if o.saved then Some(o.records) else st);
      }
    }

    /** The list bookkeeping of `_editWorkout` (script.js:525-557): sets
        `editing` and, when the workout exists, puts its id on the form. For
        an unknown id the source stops with an error after setting the flag. */
    method BeginEdit(id: string) returns (found: bool)
      modifies this`editing, this`formId
      ensures editing
      ensures found <==> exists k :: 0 <= k < |workouts| && workouts[k].id == id
      ensures formId == if found then Some(id) else old(formId)
    {
      editing := true;
      var ids := RecordIds(Records());
      found := FirstIndex(ids, id) >= 0;
      if found {
        formId := Some(id);
      } else {
        forall k | 0 <= k < |workouts| ensures workouts[k].id != id {
          assert ids[k] == workouts[k].id;
        }
      }
    }

    /** `reset` (script.js:618-621): removes the stored item; the page reload
        that follows builds a new App from the empty storage. */
    method Reset()
      modifies this`storage
      ensures storage.None?
    {
      storage := None;
    }
  }
}
