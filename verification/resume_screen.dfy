/** The crop-cycle logic of the summary screen: which crop is current and since when (from the
    `crop_cycle_prefs` store, the API, or a fallback), the day of the cycle computed from the
    clock, the day the user looks at, and the scroller position. The clock is a parameter. */
module ResumeScreen {
  import opened Wrappers
  import opened HydroApi

  const MillisPerDay: int := 86_400_000
  /** `remote_id` as the prefs store returns it when the key is missing. */
  const MissingId: int := -1
  const FallbackId: int := 1

  /** The crops of `Crop.kt`, each with its cycle length in days. */
  datatype Crop = Acelga | Albahaca | Espinaca | Lechuga | Mostaza | Rucula {
    function TotalDays(): (r: int)
      ensures r >= 26
    {
      match this
      case Acelga => 28
      case Albahaca => 30
      case Espinaca => 32
      case Lechuga => 45
      case Mostaza => 26
      case Rucula => 30
    }
  }

  /** `cropForRemoteId`: the server's ids 1..6, and lettuce for every other id. */
  function CropForRemoteId(id: int): (r: Crop)
    ensures !(1 <= id <= 6) ==> r == Lechuga
  {
    match id
    case 1 => Lechuga
    case 2 => Espinaca
    case 3 => Rucula
    case 4 => Acelga
    case 5 => Albahaca
    case 6 => Mostaza
    case _ => Lechuga
  }

  /** The server id of each crop, an independent statement of the table above. */
  function RemoteIdOf(c: Crop): (r: int)
    ensures 1 <= r <= 6
  {
    match c
    case Lechuga => 1
    case Espinaca => 2
    case Rucula => 3
    case Acelga => 4
    case Albahaca => 5
    case Mostaza => 6
  }

  /** The table is a bijection between the ids 1..6 and the six crops. */
  lemma CropTableBijective(c: Crop, id: int)
    ensures CropForRemoteId(RemoteIdOf(c)) == c
    ensures 1 <= id <= 6 ==> RemoteIdOf(CropForRemoteId(id)) == id
  {
  }

  function Clamp(x: int, lo: int, hi: int): (r: int)
    requires lo <= hi
    ensures lo <= r <= hi
    ensures lo <= x <= hi ==> r == x
    ensures x < lo ==> r == lo
    ensures x > hi ==> r == hi
  {
    if x < lo then lo else if x > hi then hi else x
  }

  /** `autoDay`: the day of the cycle at clock `now`, counting the start day as day 1, and kept
      within the cycle; day 1 when the start is unknown or the cycle has no length. */
  function AutoDay(start: Option<int>, now: int, totalDays: int): (r: int)
    ensures start.None? || totalDays <= 0 ==> r == 1
    ensures 1 <= r
    ensures totalDays > 0 ==> r <= totalDays
  {
    if start.None? || totalDays <= 0 then 1
    else
      var diff := if now - start.value < 0 then 0 else now - start.value;
      Clamp(diff / MillisPerDay + 1, 1, totalDays)
  }

  /** The day is the number of whole days elapsed since the start plus one: day `d` covers the
      `d`-th span of 86 400 000 ms; a start in the future is day 1, and after the cycle ends the
      day stays at its last. */
  lemma AutoDayMeaning(start: int, now: int, totalDays: int, d: int)
    requires totalDays > 0
    requires 1 <= d <= totalDays
    requires (d - 1) * MillisPerDay <= now - start < d * MillisPerDay
    ensures AutoDay(Some(start), now, totalDays) == d
  {
  }

  lemma AutoDayEdges(start: int, now: int, totalDays: int)
    requires totalDays > 0
    ensures now <= start ==> AutoDay(Some(start), now, totalDays) == 1
    ensures now - start >= totalDays * MillisPerDay ==> AutoDay(Some(start), now, totalDays) == totalDays
  {
  }

  /** As the clock advances, the day never goes back. */
  lemma AutoDayMonotonic(start: Option<int>, now1: int, now2: int, totalDays: int)
    requires now1 <= now2
    ensures AutoDay(start, now1, totalDays) <= AutoDay(start, now2, totalDays)
  {
  }

  /** The viewed day when the computed day changes, as the code is written: `remember(autoDay)`
      recreates the state at every change, so the view jumps to the new computed day and the
      raise-only effect that follows never fires. */
  function FollowAutoDayAsWritten(current: int, oldAuto: int, newAuto: int): (r: int)
    ensures newAuto != oldAuto ==> r == newAuto
    ensures newAuto == oldAuto ==> r == current
  {
    var reset := if newAuto != oldAuto then newAuto else current;
    if newAuto != oldAuto && newAuto > reset then newAuto else reset
  }

  /** A day picked ahead of the computed one is thrown back when the computed day advances. */
  lemma FollowAutoDayAsWrittenLowers()
    ensures FollowAutoDayAsWritten(10, 3, 4) == 4 < 10
  {
  }

  /** The viewed day when the computed day changes, as the effect intends: only ever raised to
      the computed day, never lowered. */
  function RaiseToAutoDay(current: int, newAuto: int): (r: int)
    ensures r >= current && r >= newAuto
    ensures r == current || r == newAuto
  {
    if newAuto > current then newAuto else current
  }

  /** A day picked by the user, kept within the cycle. */
  function SelectDay(day: int, totalDays: int): (r: int)
    requires totalDays >= 1
    ensures 1 <= r <= totalDays
    ensures 1 <= day <= totalDays ==> r == day
    ensures day < 1 ==> r == 1
    ensures day > totalDays ==> r == totalDays
  {
    Clamp(day, 1, totalDays)
  }

  /** The viewed day: the computed day and the user's pick. */
  datatype DayView = DayView(autoDay: int, currentDay: int)

  /** The clock ticks (or the start changes): the view follows the new computed day upwards. */
  function Tick(v: DayView, start: Option<int>, now: int, totalDays: int): (r: DayView)
    ensures r.autoDay == AutoDay(start, now, totalDays)
    ensures r.currentDay >= v.currentDay && r.currentDay >= r.autoDay
    ensures r.currentDay == v.currentDay || r.currentDay == r.autoDay
  {
    var a := AutoDay(start, now, totalDays);
    DayView(a, RaiseToAutoDay(v.currentDay, a))
  }

  /** While the cycle's start and length are fixed, the view stays within the cycle and at or
      after the computed day as the clock advances. */
  lemma TickKeepsViewInCycle(v: DayView, start: int, now: int, totalDays: int)
    requires totalDays > 0
    requires 1 <= v.currentDay <= totalDays
    ensures 1 <= Tick(v, Some(start), now, totalDays).currentDay <= totalDays
  {
  }

  /** `DaysScroller`: nothing is drawn for an empty cycle; otherwise the index of the selected
      day's chip, kept within the row of chips. */
  function ScrollerTarget(totalDays: int, selectedDay: int): (r: Option<int>)
    ensures r.None? <==> totalDays <= 0
    ensures r.Some? ==> 0 <= r.value < totalDays
    ensures r.Some? && 1 <= selectedDay <= totalDays ==> r.value + 1 == selectedDay
    ensures r.Some? && selectedDay < 1 ==> r.value == 0
    ensures r.Some? && selectedDay > totalDays ==> r.value == totalDays - 1
  {
    if totalDays <= 0 then None else Some(Clamp(selectedDay - 1, 0, totalDays - 1))
  }

  /** The `crop_cycle_prefs` store: `remote_id` and `start_epoch`, `None` when absent. */
  datatype CropPrefs = CropPrefs(remoteId: Option<int>, startEpoch: Option<int>)

  /** What the screen settles on: the store afterwards, the start of the cycle and the crop. */
  datatype Selection = Selection(prefs: CropPrefs, startEpoch: int, crop: Crop, totalDays: int)

  /** The saved crop id; the value -1 reads as absent. */
  function SavedId(p: CropPrefs): (r: Option<int>)
    ensures r.Some? ==> r.value != MissingId && p.remoteId == Some(r.value)
  {
    if p.remoteId.GetOr(MissingId) != MissingId then Some(p.remoteId.value) else None
  }

  /** The saved start; only a positive epoch counts. */
  function SavedStart(p: CropPrefs): (r: Option<int>)
    ensures r.Some? ==> r.value > 0 && p.startEpoch == Some(r.value)
  {
    if p.startEpoch.GetOr(-1) > 0 then Some(p.startEpoch.value) else None
  }

  /** The launch effect: the saved id wins over the id of the server's current crop; with an id,
      the start is written (with the id) only when none is saved; with no id at all, lettuce
      (id 1) is saved with the start set to now. */
  function ChooseCrop(prefs: CropPrefs, actual: Option<ApiHortaliza>, now: int): (r: Selection)
    ensures r.totalDays == r.crop.TotalDays()
    ensures SavedId(prefs).Some? ==> r.crop == CropForRemoteId(SavedId(prefs).value)
    ensures SavedId(prefs).None? && actual.Some? ==> r.crop == CropForRemoteId(actual.value.id)
    ensures SavedId(prefs).None? && actual.None? ==>
      r.crop == Lechuga && r.prefs == CropPrefs(Some(FallbackId), Some(now)) && r.startEpoch == now
    ensures (SavedId(prefs).Some? || actual.Some?) && SavedStart(prefs).Some? ==>
      r.prefs == prefs && r.startEpoch == SavedStart(prefs).value
    ensures (SavedId(prefs).Some? || actual.Some?) && SavedStart(prefs).None? ==>
      r.startEpoch == now &&
      r.prefs == CropPrefs(if SavedId(prefs).Some? then SavedId(prefs) else Some(actual.value.id), Some(now))
  {
    var chosen := SavedId(prefs).OrElse(if actual.Some? then Some(actual.value.id) else None);
    match chosen
    case Some(id) =>
      var crop := CropForRemoteId(id);
      (match SavedStart(prefs)
       case Some(start) => Selection(prefs, start, crop, crop.TotalDays())
       case None => Selection(CropPrefs(Some(id), Some(now)), now, crop, crop.TotalDays()))
    case None =>
      var crop := CropForRemoteId(FallbackId);
      Selection(CropPrefs(Some(FallbackId), Some(now)), now, crop, crop.TotalDays())
  }

  /** The store holds a start only together with a crop id. */
  predicate Consistent(p: CropPrefs) {
    SavedStart(p).Some? ==> SavedId(p).Some?
  }

  /** Once a launch has settled the crop and its start, later launches keep both, whatever the
      server answers and whatever the clock says: a saved start is never overwritten. */
  lemma RelaunchKeepsCycle(prefs: CropPrefs, actual1: Option<ApiHortaliza>, now1: int,
                           actual2: Option<ApiHortaliza>, now2: int)
    requires Consistent(prefs)
    requires now1 > 0
    requires SavedId(prefs).None? && actual1.Some? ==> actual1.value.id != MissingId
    ensures var first := ChooseCrop(prefs, actual1, now1);
      var second := ChooseCrop(first.prefs, actual2, now2);
      && Consistent(first.prefs)
      && second.startEpoch == first.startEpoch
      && second.crop == first.crop
      && second.prefs == first.prefs
  {
  }
}
