# Workout tracker list model

A model, in Dafny, of the core of a browser workout tracker written in
JavaScript (`script.js`). A user records runs and bike rides at a map position.
The model covers the `Workout` / `Running` / `Cycling` classes:
- their derived pace and speed;
- their description text;
- their clock-derived id;
- the plain object they are saved as.

It also covers the list bookkeeping of the `App` controller:
- creating a workout from the form;
- editing a workout in place;
- replacing a workout when an edit changes its type;
- deleting by id;
- saving the list under the storage key `workouts`, and rebuilding it on load;
- routing a form submit on the `editing` flag.

Modules:

- `Values`: JavaScript numbers (finite, NaN, the infinities), the `/` operator,
  `validInputs` / `allPositive`, and calendar dates.
- `Text`: decimal rendering of naturals, `slice(-k)`, the month table, and
  upper-casing a first letter.
- `Workouts`: the record a workout is saved as, pace and speed, the id, the
  description, and the `Workout` class. The class has the two constructors
  `Running` and `Cycling`, plus `calcPace`, `calcSpeed`, `_setDescription` and
  `click`.
- `Store`: what each controller operation does to the saved list of records.
  These are specification functions (`AfterNew`, `AfterDelete`, `AfterUpdate`,
  `Load`), with lemmas stating what they guarantee.
- `Controller`: the `App` class. It holds the array of workout instances
  (`#workouts`), the `editing` flag, the id the edit form carries and the
  stored item. Every method is proved to leave the saved form of the list, and
  the stored item, as the matching `Store` function says. Each method also
  keeps the invariant that no instance appears twice in the list.

Behaviour of the code that the model states explicitly:

- Ids are the last ten decimal digits of the millisecond clock. They are not
  unique, and every lookup by id (`find`, `findIndex`) takes the first match.
- An edit that keeps the type writes the new distance and duration without
  any check, and does not recompute pace or speed. Elsewhere pace and speed
  are always computed from distance and duration, and saved workouts have
  positive measurements, but this path keeps neither rule.
  `SameTypeEditLeavesPaceStale` shows the stale pace.
- An edit that changes the type of a listed workout first removes it. If the
  new input fails the check, the method returns before anything is put back
  and before saving. The workout is then gone from the list but still in
  storage.
- With input that passes, the new workout is rendered at the old index
  before it is spliced back in. `_renderWorkoutAtIndex` appends for index 0.
  For any other index it reads the workout element at that index
  (script.js:499-506), and the list now has one element fewer. When the
  edited workout is the last of two or more, that element does not exist and
  the call throws. The splice-in, the save and the clearing of `editing`
  (script.js:98) are then skipped. `TypeChangeOfLastWorkoutThrows` states
  this case.
- The cycling check requires only distance and duration to be positive. The
  elevation only has to be finite.
- A reload builds a `Running` for a stored type `running` and a `Cycling` for
  any other type. Each rebuilt workout gets a new id, a new date and zero
  clicks.

The clock reading and the date are parameters (`now`, `date`, or one `Stamp`
per reloaded workout). So are:
- the map position the user clicked;
- the form's values, as numbers;
- whether the edited workout's list element is on the page (`listed`);
- how many workout elements the page holds when an edit starts (`shown`).
  When every workout is rendered, as after a reload, this is the length of
  the list.

## Model

| member | source | states |
|---|---|---|
| Values.AllFinite | script.js:166-167 | `validInputs`: every input is a finite number |
| Values.AllPositive | script.js:168 | `allPositive`: every input is greater than zero, an infinity included |
| Values.Div | script.js:43 | JavaScript `/` on finite values, NaN and the infinities; NaN in gives NaN out |
| Values.DivLaw | script.js:43 | Finite over non-zero finite is the real quotient (quotient times divisor is the dividend); finite over zero is never finite |
| Text.NatToString | script.js:21-23 | the decimal rendering of a natural below 10^21 (all the source renders) is a non-empty string of digits, one digit long exactly for values below ten |
| Text.DigitsRoundTrip | script.js:21-23 | reading the rendered digits back gives the number: rendering is injective |
| Text.DecimalLength | script.js:8 | for k ≥ 1, a number below 10^k renders in at most k digits |
| Text.LongRendering | script.js:8 | a number of at least 10^k renders in more than k digits |
| Text.SuffixValue | script.js:8 | the last k digits of a digit string spell its value modulo 10^k |
| Text.DigitsInjective | script.js:8 | two digit strings of one length and one value are the same string |
| Text.SliceLast | script.js:8 | `slice(-k)` keeps the whole string when k is 0 (the argument -0 counts as 0) or the string is at most k long, otherwise exactly its last k characters |
| Text.MonthName | script.js:19-22 | the `months` table entry for a month index, at least three letters long |
| Text.MonthAbbreviation | script.js:19 | the first three letters of each month name identify that month |
| Text.MonthNamesDistinguishable | script.js:19 | a month name followed by a space can only be a prefix of a string that starts with the same month name |
| Text.UpperCase | script.js:21 | `toUpperCase` on the ASCII first letter of a type name: a lower-case ASCII letter becomes its capital, any other ASCII character is kept |
| Text.Capitalize | script.js:21 | same length, the first letter upper-cased, the rest unchanged |
| Workouts.TypeNamesDiffer | script.js:32-49 | the `type` strings of the two subclasses differ |
| Workouts.KindOf | script.js:585-597 | the stored `type` string "running" selects Running; every other string selects Cycling |
| Workouts.Pace | script.js:41-45 | `duration / distance`, minutes per kilometre |
| Workouts.Speed | script.js:58-62 | `distance / (duration / 60)`, kilometres per hour |
| Workouts.PaceLaw | script.js:41-45 | for positive finite distance and duration the pace is positive and pace times distance is the duration; a zero distance gives no finite pace |
| Workouts.SpeedLaw | script.js:58-62 | for positive finite measurements the speed is positive and speed times duration is sixty times the distance; a zero duration gives no finite speed |
| Workouts.IdFromClock | script.js:8 | the last ten characters of the decimal rendering of the clock reading |
| Workouts.IdFromClockDigits | script.js:8 | the id is one to ten decimal digits spelling the reading modulo ten billion: the whole rendering below ten billion, exactly ten digits from then on |
| Workouts.ShortIdIsReading | script.js:8 | below ten billion the id is the whole decimal rendering of the reading |
| Workouts.LongIdIsSuffix | script.js:8 | from ten billion on (every reading after April 1970) the id is ten digits spelling the reading modulo ten billion |
| Workouts.IdsRepeat | script.js:8 | from ten billion on (every reading after April 1970), two readings that agree modulo ten billion, such as two ten billion milliseconds apart, give the same id |
| Workouts.Description | script.js:17-24 | the type name with its first letter upper-cased, " on ", the month name, a space and the day of the month |
| Workouts.DescriptionParts | script.js:17-24 | the description is "Running on " or "Cycling on " followed by the month name, a space and the day |
| Workouts.FindMonth | script.js:19 | the month found, if any, is one whose name and a space start the text |
| Workouts.FindMonthOf | script.js:19-23 | searching a text that starts with a month name and a space finds exactly that month |
| Workouts.DescriptionRoundTrip | script.js:17-24 | parsing a description gives back the workout's kind, month and day, so the description determines them |
| Workouts.NewRecord | script.js:6-56 | the own properties of a new `Running` or `Cycling`: clock id and date, zero clicks, position, measurements, the extra field of its kind, its pace or speed and its description |
| Workouts.NewRecordConsistent | script.js:6-56 | a freshly constructed workout has its kind's type string, a clock id, zero clicks, the given position and measurements, the extra field of its kind only, the metric recomputed from its measurements, and the description of its kind and date |
| Workouts.Workout.Snapshot | script.js:572 | the saved object carries the instance's id and the type string of its subclass |
| Workouts.Workout.Running | script.js:31-39 | `new Running` holds exactly the record of a fresh running workout, with its pace and description set |
| Workouts.Workout.Cycling | script.js:48-56 | `new Cycling` holds exactly the record of a fresh cycling workout, with its speed and description set |
| Workouts.Workout.CalcPace | script.js:41-45 | stores and returns the pace of the current distance and duration |
| Workouts.Workout.CalcSpeed | script.js:58-62 | stores and returns the speed of the current distance and duration |
| Workouts.Workout.SetDescription | script.js:17-24 | the description becomes the one of the instance's kind and date |
| Workouts.Workout.Click | script.js:26-28 | the click count grows by one |
| Store.AcceptsRunning | script.js:183-186 | the running check: distance, duration and cadence pass `validInputs` and `allPositive` |
| Store.AcceptsCycling | script.js:195-198 | the cycling check: all three pass `validInputs`, only distance and duration pass `allPositive` |
| Store.Every3 | script.js:166-168 | `every` over three inputs is the conjunction of the three tests |
| Store.RunningValidation | script.js:183-186 | running input passes exactly when distance, duration and cadence are all finite and positive |
| Store.CyclingValidation | script.js:195-198 | cycling input passes exactly when all three are finite and distance and duration are positive; the elevation may be zero or negative |
| Store.Created | script.js:179-201 | the workout a submitted form creates at a position, or none when the check of the selected type fails |
| Store.CreatedWorkout | script.js:179-201 | a workout is created exactly when the input passes its type's check. It then has positive finite measurements, the form's extra field, the clicked position, a clock id, no clicks, and a positive pace (pace times distance is the duration) or speed (speed times duration is sixty times the distance) |
| Store.CreatedShape | script.js:179-201 | a workout is created exactly when the input passes its check, with the selected type, the given position and a clock id |
| Store.RecordIds | script.js:625-627 | the ids of the list, position by position |
| Store.FirstIndex | script.js:625-627 | `findIndex`: -1 when no element has the id, otherwise a position holding the id with none before it |
| Store.AfterNew | script.js:165-217 | `_newWorkout` on the saved list: a rejected form changes nothing and is not saved; an accepted one is pushed and the list saved |
| Store.NewWorkoutAppends | script.js:165-217 | the list is saved exactly when the input is accepted; a rejected input leaves it unchanged; an accepted one keeps the old list as a prefix and appends one workout of the selected type at the clicked position |
| Store.AfterDelete | script.js:623-643 | `_deleteWorkout` on the saved list: an unknown id changes nothing; otherwise the first match is spliced out and the list saved |
| Store.DeleteRemovesFirstMatch | script.js:623-643 | the list is saved exactly when some workout has the id; otherwise it is unchanged; otherwise the first workout with the id is removed, the earlier ones stay in place, the later ones move forward by one, and the multiset of workouts loses exactly that one |
| Store.RemoveAt | script.js:632 | splicing out position i keeps every other element in order and removes exactly that element from the multiset |
| Store.DeleteKeepsLaterDuplicate | script.js:625-632 | with two workouts sharing an id, delete removes the earlier one and keeps the later one |
| Store.Target | script.js:222-227 | the edited position holds the form's id and no earlier workout has it (`find`); when there is none, the form carries no id or no workout has it |
| Store.Edited | script.js:230-242 | the field writes of an edit: distance, duration and the extra field the form selects; the description recomputed from the unchanged type and date |
| Store.RenderableAt | script.js:499-507 | rendering at an index succeeds for index 0 and for an index below the number of workout elements left |
| Store.AfterUpdate | script.js:219-333 | `_updateWorkout` on the saved list: nothing for a missing workout; the edit in place, saved; for a listed workout switched to the other type, the splice out, then the splice in and the save only when the input passes and the page can render at that index |
| Store.UpdateThrows | script.js:499-507 | the update ends in an exception: a listed workout switched to the other type, input that passes, and no element at the index |
| Store.ThrowsAfterCreation | script.js:296-321 | the update throws exactly when a new workout is created and the page cannot render it at the index |
| Store.UpdateInSteps | script.js:229-324 | the update equals the in-place edit followed, for a listed workout given the other type, by the splice out and, when the input passes and the page can render it, the splice in at the same index |
| Store.UpdateOfMissingWorkout | script.js:225-227 | without an id on the form, or with an id no workout has, the update changes nothing, saves nothing and does not throw |
| Store.SameTypeEdit | script.js:229-242 | an edit that keeps the type, or of an unlisted workout, always saves; only the target changes; it takes the form's distance and duration and the extra field the form selects, and keeps its id, type, position, date, clicks, pace and speed; its description is that of its type and date, unchanged for a consistent workout |
| Store.SameTypeEditLeavesPaceStale | script.js:229-242 | editing the distance of a consistent running workout leaves a record whose pace no longer matches its measurements |
| Store.TypeChangingEdit | script.js:272-324 | a listed workout given the other type is saved exactly when the input passes the new type's check and the page can render at its index; it throws exactly when the input passes and the page cannot. When saved, the workout is replaced at the same index by the newly created one at the old position, with a new id. Otherwise it is dropped and the later ones move forward. The workouts before it keep their place and none of them has the id |
| Store.TypeChangeOfLastWorkoutThrows | script.js:272-332 | with every workout on the page, switching the last of two or more workouts to the other type with input that passes throws: the list loses that workout and is not saved |
| Store.Revive | script.js:584-598 | one step of the reload: a `Running` for a stored type "running", a `Cycling` for any other, from the stored position, measurements and extra field |
| Store.ReviveRebuilds | script.js:584-598 | a reloaded record becomes a running workout exactly when its type is "running"; it keeps position, measurements and the extra field of its kind, gets a consistent metric and description, and a new id, date and zero clicks |
| Store.Reloaded | script.js:584-599 | the reload rebuilds one workout per stored record, in order |
| Store.ReloadedStep | script.js:584-599 | reloading one more record appends its rebuilt workout |
| Store.Load | script.js:579-599 | no stored item gives no workouts; otherwise the reload of every stored record |
| Store.SaveReloadRoundTrip | script.js:570-599 | saving and reloading consistent workouts gives back each one in order with only id, date, clicks and (through the date) description renewed; with the same date the description is also kept |
| Controller.Snapshots | script.js:571-574 | the saved list has one record per instance, in order, each the instance's own fields without the marker |
| Controller.CreateFromForm | script.js:179-201 | null exactly when the input is rejected; otherwise a new valid instance whose record is the created workout |
| Controller.Rebuild | script.js:584-598 | a new valid instance whose record is the reloaded workout |
| Controller.App.constructor | script.js:86-108 | a new app holds exactly the workouts reloaded from storage, with the editing flag cleared |
| Controller.App.GetLocalStorage | script.js:579-599 | appends the reloaded stored records to the list, in order; with nothing stored it appends nothing |
| Controller.App.SetLocalStorage | script.js:570-577 | the stored item becomes the saved form of the current list |
| Controller.App.NewWorkout | script.js:165-217 | the list and storage change as `AfterNew` says (so as `NewWorkoutAppends` states); an accepted input appends one new instance after the unchanged old ones |
| Controller.App.DeleteWorkout | script.js:623-643 | the list and storage change as `AfterDelete` says (so as `DeleteRemovesFirstMatch` states) |
| Controller.App.UpdateWorkout | script.js:219-333 | the list and storage change as `AfterUpdate` says (so as `SameTypeEdit`, `TypeChangingEdit` and `UpdateOfMissingWorkout` state), and it reports a throw exactly when `UpdateThrows` holds; when there is no target, the workout is not listed or the type is kept, the list holds the same instances, the target changed in place |
| Controller.App.ApplyForm | script.js:229-242 | only the target's record changes, and it becomes the edited record; a valid instance stays valid (description of its kind and date, metric of its kind only) |
| Controller.App.ReplaceAt | script.js:272-324 | the target is spliced out; the created workout is spliced in at the same index exactly when the input passes and the page can render at the index; a throw is reported exactly when the input passes and it cannot |
| Controller.App.Submit | script.js:94-102 | with `editing` set, submit is the update and clears the flag unless the update threw; otherwise it is the creation |
| Controller.App.BeginEdit | script.js:525-557 | sets `editing`; the form gets the id exactly when some workout has it, and keeps its old id otherwise |
| Controller.App.Reset | script.js:618-621 | the stored item is removed |

## Left out

- The page and the map are not modelled as state. That covers Leaflet,
  geolocation, markers, popups, `_moveToPopup`, the HTML of list entries,
  `_hideForm`, `_toggleElevationField` and alerts. Two page facts change
  what happens to the list, and both are parameters of the update:
  - `listed`: whether the workout's element is on the page (script.js:253);
  - `shown`: how many workout elements the page holds, which decides whether
    `_renderWorkoutAtIndex` throws (script.js:506).
- Store.AfterDelete: assumes the map has loaded. Without it (geolocation
  refused), `this.#map.removeLayer` throws at script.js:639, after the splice
  and before the save, so the list loses the workout but storage is not
  updated.
- Controller.App.DeleteWorkout: assumes the map has loaded, as for
  `AfterDelete`. It states the change to the saved records, not which
  instance objects remain.
- Store.AfterUpdate: assumes the map has loaded. Without it, a type-changing
  edit of a listed workout throws at script.js:282, right after the splice
  out, whatever the input.
- Store.TypeChangingEdit: assumes the map has loaded, as for `AfterUpdate`.
- Controller.App.UpdateWorkout: assumes the map has loaded, as for
  `AfterUpdate`.
- Controller.App.ReplaceAt: assumes the map has loaded, as for `AfterUpdate`.
- Controller.App.Submit: assumes the map has loaded; without it, a type
  change that throws at script.js:282 also leaves `editing` set.
- Serialization: storage holds the records as values. JSON turns NaN and the
  infinities into `null` and dates into strings. That is not modelled, so a
  non-finite number saved by an unchecked edit reloads unchanged here.
- Text.NatToString: renders every natural in plain digits. JavaScript
  switches to exponential notation ("1e+21") from 10^21 on. The source only
  renders clock readings and days of the month, which stay far below that.
- Text.UpperCase: non-ASCII letters are kept as they are. JavaScript
  upper-cases them too ('é' gives 'É', 'ß' gives "SS"). The source only
  upper-cases the first letters of "running" and "cycling".
- Numbers: finite values are mathematical reals. Rounding, signed zero and
  `toFixed` are not modelled.
- The clock, the current date, the clicked map position and the form's values
  are parameters, not reads of `Date.now()`, `new Date()`, `#mapEvent` or the
  DOM inputs.
- The form's type selector has only the two options, so a type other than
  `running` or `cycling` cannot come from the form. The source's path that
  would push `undefined` for one is not modelled.
- `_updateWorkout` looks the workout up twice (`find`, then `findIndex`).
  Both give the first match, so the model looks it up once.
- A type-changing edit destructures `{ lat, lng }` from the old coordinates
  (script.js:293). Those are an array, so both are `undefined`, and the new
  workout is constructed at `[undefined, undefined]`. The old coordinates
  are assigned to it afterwards (script.js:319, 322, 336). The model passes
  the old coordinates to the constructor, which has the same net effect.
- Controller.App.BeginEdit: for an unknown id the source throws after setting
  `editing`. The model returns `found == false` with the same state instead.
- Controller.App.Reset: the page reload after the item is removed is not part
  of the method. It corresponds to constructing a new `App` on empty storage.
- Workouts.Workout.Valid is proved for every instance built, but it is not
  part of the list invariant `Controller.App.Valid`, which states only that
  no instance occurs twice.
- Workouts.Workout.Snapshot: the `marker` property is not a field of the model.
