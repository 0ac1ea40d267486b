/** The service's two timers: one keeps the cache of log data ahead of its expiry, the other
  postpones the saving of the configuration. Times are integers in milliseconds, fractions exact. */
module TempsController {
  import opened Common

  const MINUTE: nat := 60_000

  // ----- the cache: when it expires, when the timer renews it -----

  /** The period of the cache timer: 0.005 of the life expectancy, at least ten seconds. */
  function CacheTimerInterval(life: nat): (ms: nat)
    ensures ms >= 10_000 && ms * 1_000 >= life * 1_000 * 5
    ensures ms == 10_000 || ms * 1_000 == life * 1_000 * 5
  {
    if life * 5 > 10_000 then life * 5 else 10_000
  }

  function ExpiryMinutes(life: nat): nat {
    life / 60
  }

  /** The whole minutes in 0.95 of the expiry time. */
  function RenewalMinutes(life: nat): nat {
    (life / 60) * 95 / 100
  }

  predicate Aged(stamp: nat, life: nat, now: nat) {
    now / MINUTE >= stamp + ExpiryMinutes(life)
  }

  /** `isCacheExpired`, where `rotated` is the minute in which the log file was created. */
  predicate Expired(stamp: nat, life: nat, now: nat, rotated: nat) {
    stamp < rotated || Aged(stamp, life, now)
  }

  /** `isCacheNeedingUpdate`. */
  predicate NeedsUpdate(stamp: nat, life: nat, now: nat, rotated: nat) {
    stamp < rotated || now / MINUTE >= stamp + RenewalMinutes(life)
  }

  /** The minute of the last update, the time of the next tick, and the present. */
  datatype CacheState = CacheState(stamp: nat, nextTick: nat, now: nat)

  datatype CacheEvent = Tick(rotated: nat) | Request(at: nat, rotated: nat)

  /** The service starts with an update and arms the timer. */
  function Started(life: nat, start: nat): CacheState {
    CacheState(start / MINUTE, start + CacheTimerInterval(life), start)
  }

  /** Time does not run backwards, and no request overtakes a tick that is due. */
  predicate OnTime(s: CacheState, e: CacheEvent) {
    e.Request? ==> s.now <= e.at <= s.nextTick
  }

  /** A tick renews the cache if needed, a request that finds it expired does so as well. */
  function AfterEvent(life: nat, s: CacheState, e: CacheEvent): CacheState {
    match e
    case Tick(rotated) =>
      var now := s.nextTick;
      CacheState(if NeedsUpdate(s.stamp, life, now, rotated) then now / MINUTE else s.stamp,
                 now + CacheTimerInterval(life), now)
    case Request(now, rotated) =>
      CacheState(if Expired(s.stamp, life, now, rotated) then now / MINUTE else s.stamp, s.nextTick, now)
  }

  /** How old the data must be to be renewed: in whole minutes, all of the life expectancy for a
    request, and 95 percent of it for a tick. */
  predicate OldEnough(e: CacheEvent, life: nat, age: int) {
    if e.Tick? then 100 * (age + 1) > 95 * (life / 60) else 60 * (age + 1) > life
  }

  /** What an event may do to the cache, which holds the data of minute `stamp`: they are renewed exactly
    if the log file is newer or they are old enough. So once the event is over they are no older than
    the log file, if that was not created in the future, and a request is answered from data that were
    renewed just now or have not reached the life expectancy. */
  ghost predicate RenewsForAReason(life: nat, s: CacheState, e: CacheEvent, r: CacheState) {
    var present := r.now / MINUTE;
    && r.now == (if e.Tick? then s.nextTick else e.at)
    && (s.stamp < e.rotated || OldEnough(e, life, present - s.stamp) ==> r.stamp == present)
    && (r.stamp != s.stamp ==> s.stamp < e.rotated || OldEnough(e, life, present - s.stamp))
    && (e.rotated <= present ==> e.rotated <= r.stamp)
    && (e.Request? ==> r.stamp == present || (present - r.stamp) * 60 < life)
  }

  lemma EventRenews(life: nat, s: CacheState, e: CacheEvent)
    ensures RenewsForAReason(life, s, e, AfterEvent(life, s, e))
  {
    var present := AfterEvent(life, s, e).now / MINUTE;
    var minutes := life / 60;
    assert 60 * minutes <= life < 60 * (minutes + 1);
    if e.Tick? {
      var renewal := RenewalMinutes(life);
      assert 100 * renewal <= 95 * minutes < 100 * (renewal + 1);
    }
  }

  /** Every event of a run renews the cache for a reason. */
  ghost predicate AlwaysCurrent(life: nat, s: CacheState, events: seq<CacheEvent>)
    decreases |events|
  {
    events == [] ||
    (&& RenewsForAReason(life, s, events[0], AfterEvent(life, s, events[0]))
     && AlwaysCurrent(life, AfterEvent(life, s, events[0]), events[1..]))
  }

  /** In every run, rotations of the log at any time included. */
  lemma {:induction false} RunStaysCurrent(life: nat, s: CacheState, events: seq<CacheEvent>)
    ensures AlwaysCurrent(life, s, events)
    decreases |events|
  {
    if events != [] {
      EventRenews(life, s, events[0]);
      RunStaysCurrent(life, AfterEvent(life, s, events[0]), events[1..]);
    }
  }

  predicate Timely(life: nat, s: CacheState, events: seq<CacheEvent>)
    decreases |events|
  {
    events == [] || (OnTime(s, events[0]) && Timely(life, AfterEvent(life, s, events[0]), events[1..]))
  }

  /** Some request in a run finds the cache expired by its age. */
  predicate FindsAged(life: nat, s: CacheState, events: seq<CacheEvent>)
    decreases |events|
  {
    events != [] &&
    (|| (events[0].Request? && Aged(s.stamp, life, events[0].at))
     || FindsAged(life, AfterEvent(life, s, events[0]), events[1..]))
  }

  /** The last tick left the cache in no need of an update. */
  predicate Ahead(life: nat, s: CacheState) {
    var last := s.nextTick - CacheTimerInterval(life);
    0 <= last <= s.now <= s.nextTick && s.stamp <= s.now / MINUTE && last / MINUTE < s.stamp + RenewalMinutes(life)
  }

  /** From two minutes on, renewal is due at least a minute after an update, and the window before
    the expiry is at least one timer period long. */
  lemma WindowHoldsATick(life: nat)
    requires life >= 120
    ensures RenewalMinutes(life) >= 1
    ensures CacheTimerInterval(life) <= (ExpiryMinutes(life) - RenewalMinutes(life)) * MINUTE
  {
    var m := life / 60;
    var u := m * 95 / 100;
    assert m >= 2 && life < 60 * (m + 1);
    assert 100 * u <= 95 * m < 100 * (u + 1);
    assert 100 * (m - u) >= 5 * m;
    assert m - u >= 1;
  }

  lemma EventKeepsAhead(life: nat, s: CacheState, e: CacheEvent)
    requires life >= 120 && Ahead(life, s) && OnTime(s, e)
    ensures Ahead(life, AfterEvent(life, s, e))
    ensures e.Request? ==> !Aged(s.stamp, life, e.at)
  {
    WindowHoldsATick(life);
    var last := s.nextTick - CacheTimerInterval(life);
    if e.Request? {
      assert last < (s.stamp + RenewalMinutes(life)) * MINUTE;
      assert e.at < (s.stamp + ExpiryMinutes(life)) * MINUTE;
    }
  }

  lemma {:induction false} NeverAged(life: nat, s: CacheState, events: seq<CacheEvent>)
    requires life >= 120 && Ahead(life, s) && Timely(life, s, events)
    ensures !FindsAged(life, s, events)
    decreases |events|
  {
    if events != [] {
      EventKeepsAhead(life, s, events[0]);
      NeverAged(life, AfterEvent(life, s, events[0]), events[1..]);
    }
  }

  /** In a run that starts at `start`, no request finds the cache too old. */
  predicate NeverFindsAged(life: nat, start: nat, events: seq<CacheEvent>) {
    Timely(life, Started(life, start), events) ==> !FindsAged(life, Started(life, start), events)
  }

  /** Whatever log rotations happen, no request of any run finds the cache too old, if and only if the
    life expectancy is at least two minutes. */
  lemma CacheStaysAhead(life: nat)
    ensures life >= 120 <==> forall start: nat, events :: NeverFindsAged(life, start, events)
  {
    if life >= 120 {
      WindowHoldsATick(life);
      forall start: nat, events
        ensures NeverFindsAged(life, start, events)
      {
        if Timely(life, Started(life, start), events) {
          NeverAged(life, Started(life, start), events);
        }
      }
    } else {
      TooShortALife(life);
      assert !NeverFindsAged(life, 59_999, [Request(60_000, 0)]);
    }
  }

  /** Started at the end of a minute, the cache expires a millisecond later, long before any tick. */
  lemma TooShortALife(life: nat)
    requires life < 120
    ensures var s := Started(life, 59_999);
      Timely(life, s, [Request(60_000, 0)]) && FindsAged(life, s, [Request(60_000, 0)])
  {
    var events := [Request(60_000, 0)];
    var s := Started(life, 59_999);
    assert events[1..] == [];
    assert life / 60 <= 1;
    assert s.stamp == 0 && 60_000 / MINUTE == 1;
    assert Timely(life, AfterEvent(life, s, events[0]), events[1..]);
  }

  // ----- the configuration: saved at once or a little later -----

  const MAX_DELAY: nat := 5_000

  /** Memory, disk, the time of the last save, the due times of the save timers, and the present;
    with the time of the latest change and how many changes and saves there were. */
  datatype SaveState = SaveState(
    config: int, disk: int, lastSave: nat, timers: multiset<nat>, now: nat,
    lastChange: nat, changes: nat, saves: nat)

  datatype SaveEvent = Change(at: nat, value: int) | Fire(due: nat)

  function Saved(s: SaveState, now: nat): SaveState {
    s.(disk := s.config, lastSave := now, saves := s.saves + 1)
  }

  /** `setSaveConfigTimer` waits at least a second. */
  function SaveDelay(ms: int): nat {
    if ms > 1_000 then ms else 1_000
  }

  /** `saveCurrentConfig` after a change: postponed if the last save is less than five seconds ago. */
  function SaveOrPostpone(s: SaveState, now: nat): SaveState
    requires s.lastSave <= now
  {
    var elapsed := now - s.lastSave;
    if elapsed < MAX_DELAY then s.(timers := s.timers + multiset{now + SaveDelay(MAX_DELAY - elapsed)})
    else Saved(s, now)
  }

  predicate MayHappen(s: SaveState, e: SaveEvent) {
    && s.lastSave <= s.now
    && match e
       case Change(at, _) => s.now <= at && forall due :: due in s.timers ==> at <= due
       case Fire(due) => s.now <= due && due in s.timers && forall other :: other in s.timers ==> due <= other
  }

  function AfterSaveEvent(s: SaveState, e: SaveEvent): SaveState
    requires MayHappen(s, e)
  {
    match e
    case Change(at, value) =>
      SaveOrPostpone(s.(config := value, now := at, lastChange := at, changes := s.changes + 1), at)
    case Fire(due) => Saved(s.(now := due, timers := s.timers - multiset{due}), due)
  }

  /** Memory and disk agree, or a timer is armed that is due at most five seconds after the latest
    change; and every change so far was saved once or has a timer of its own. */
  ghost predicate NoUpdateLost(s: SaveState) {
    && s.lastSave <= s.now && s.lastChange <= s.now
    && (forall due :: due in s.timers ==> s.now <= due)
    && (s.disk == s.config || exists due :: due in s.timers && due <= s.lastChange + MAX_DELAY)
    && s.saves + |s.timers| == s.changes
  }

  lemma SaveEventKeeps(s: SaveState, e: SaveEvent)
    requires NoUpdateLost(s) && MayHappen(s, e)
    ensures NoUpdateLost(AfterSaveEvent(s, e))
  {
    if e.Change? && e.at - s.lastSave < MAX_DELAY {
      var due := e.at + SaveDelay(MAX_DELAY - (e.at - s.lastSave));
      assert due in AfterSaveEvent(s, e).timers;
    }
  }

  /** A change is saved at once only five seconds after the last save. Else its timer is due as soon as
    both that distance from the last save and a second from the change have passed. */
  lemma SavesAreApart(s: SaveState, e: SaveEvent)
    requires MayHappen(s, e)
    ensures var r := AfterSaveEvent(s, e);
      && (e.Change? && r.saves > s.saves ==>
            && r.saves == s.saves + 1 && r.lastSave == e.at >= s.lastSave + 5_000
            && r.disk == e.value && r.timers == s.timers)
      && (e.Change? && r.saves <= s.saves ==>
            && r.disk == s.disk && r.lastSave == s.lastSave > e.at - 5_000
            && exists due: nat :: r.timers == s.timers + multiset{due} &&
                 due >= s.lastSave + 5_000 && due >= e.at + 1_000 && (due == s.lastSave + 5_000 || due == e.at + 1_000))
      && (e.Fire? ==> r.saves == s.saves + 1 && r.lastSave == e.due && r.disk == s.config)
  {
    if e.Change? && e.at - s.lastSave < MAX_DELAY {
      var due := e.at + SaveDelay(MAX_DELAY - (e.at - s.lastSave));
      assert AfterSaveEvent(s, e).timers == s.timers + multiset{due};
    }
  }

  /** But timers do not look at the distance: two changes at one moment, soon after a save, get timers
    that are due at one moment, and each of them saves. */
  lemma TwoTimersAtOnce(s: SaveState, at: nat, first: int, second: int)
    requires MayHappen(s, Change(at, first)) && at - s.lastSave < 5_000
    ensures var s1 := AfterSaveEvent(s, Change(at, first));
      MayHappen(s1, Change(at, second)) && exists due: nat :: AfterSaveEvent(s1, Change(at, second)).timers[due] >= 2
  {
    var due := at + SaveDelay(MAX_DELAY - (at - s.lastSave));
    var s1 := AfterSaveEvent(s, Change(at, first));
    assert s1.timers[due] >= 1;
    assert AfterSaveEvent(s1, Change(at, second)).timers[due] >= 2;
  }

  lemma SavesInOneMoment(s: SaveState, due: nat)
    requires MayHappen(s, Fire(due)) && s.timers[due] >= 2
    ensures var s1 := AfterSaveEvent(s, Fire(due));
      && MayHappen(s1, Fire(due)) && s1.lastSave == due
      && var s2 := AfterSaveEvent(s1, Fire(due));
      s2.lastSave == due && s2.saves == s.saves + 2
  {
    assert AfterSaveEvent(s, Fire(due)).timers[due] >= 1;
  }

  predicate SavesInOrder(s: SaveState, events: seq<SaveEvent>)
    decreases |events|
  {
    events == [] || (MayHappen(s, events[0]) && SavesInOrder(AfterSaveEvent(s, events[0]), events[1..]))
  }

  function AfterSaveEvents(s: SaveState, events: seq<SaveEvent>): SaveState
    requires SavesInOrder(s, events)
    decreases |events|
  {
    if events == [] then s else AfterSaveEvents(AfterSaveEvent(s, events[0]), events[1..])
  }

  /** The value set last, or `initial` if none was. */
  function LastSet(initial: int, events: seq<SaveEvent>): int
    decreases |events|
  {
    if events == [] then initial
    else LastSet(if events[0].Change? then events[0].value else initial, events[1..])
  }

  lemma {:induction false} SaveRunKeeps(s: SaveState, events: seq<SaveEvent>)
    requires NoUpdateLost(s) && SavesInOrder(s, events)
    ensures var r := AfterSaveEvents(s, events);
      NoUpdateLost(r) && r.config == LastSet(s.config, events)
    decreases |events|
  {
    if events != [] {
      SaveEventKeeps(s, events[0]);
      SaveRunKeeps(AfterSaveEvent(s, events[0]), events[1..]);
    }
  }

  /** After any run that starts with memory and disk equal: once all timers have fired, or more than five
    seconds after the latest change, the value on disk is the last one set; and by then there was
    exactly one save for every change. */
  lemma LastValueIsSaved(start: nat, value: int, events: seq<SaveEvent>)
    requires SavesInOrder(SaveState(value, value, start, multiset{}, start, start, 0, 0), events)
    ensures var r := AfterSaveEvents(SaveState(value, value, start, multiset{}, start, start, 0, 0), events);
      && (r.timers == multiset{} || r.now > r.lastChange + MAX_DELAY ==> r.disk == LastSet(value, events))
      && (r.timers == multiset{} ==> r.saves == r.changes)
  {
    SaveRunKeeps(SaveState(value, value, start, multiset{}, start, start, 0, 0), events);
  }

  // ----- the controller -----

  const LONG_MODULUS := 0x1_0000_0000_0000_0000

  /** The conversion of a 64-bit unsigned value to `int`. */
  function ToInt(x: nat): int {
    (x + 0x8000_0000) % 0x1_0000_0000 - 0x8000_0000
  }

  class TempsCtrl {
    var creationEpochMinutes: nat
    var mCacheLifeExpectancySeconds: nat
    var cacheTimerInterval: nat
    var mConfig: int
    var lastConfigSave: nat
    /** The configuration file, and the due times of the timers armed to save it. */
    var savedConfig: int
    var saveTimers: multiset<nat>
    /** What a run records besides: the latest moment seen, the latest change, and two counts. */
    ghost var now: nat
    ghost var lastChange: nat
    ghost var changes: nat
    ghost var saves: nat

    ghost function Saving(): SaveState
      reads this
    {
      SaveState(mConfig, savedConfig, lastConfigSave, saveTimers, now, lastChange, changes, saves)
    }

    /** The constructor, once the configuration is loaded from disk. */
    constructor (loaded: int, start: nat)
      requires INT_MIN <= loaded <= INT_MAX
      ensures Saving() == SaveState(loaded, loaded, start, multiset{}, start, start, 0, 0) && NoUpdateLost(Saving())
      ensures mCacheLifeExpectancySeconds == loaded % LONG_MODULUS
      ensures CacheState(creationEpochMinutes, start + cacheTimerInterval, start) ==
        Started(mCacheLifeExpectancySeconds, start)
    {
      mConfig, savedConfig, saveTimers, lastConfigSave := loaded, loaded, multiset{}, start;
      mCacheLifeExpectancySeconds := loaded % LONG_MODULUS;
      creationEpochMinutes, cacheTimerInterval := 0, 0;
      now, lastChange, changes, saves := start, start, 0, 0;
      new;
      UpdateCache(start);
      SetCacheTimer();
    }

    method SetCacheTimer()
      modifies this`cacheTimerInterval
      ensures cacheTimerInterval == CacheTimerInterval(mCacheLifeExpectancySeconds)
    {
      var scaled := mCacheLifeExpectancySeconds * 5;
      cacheTimerInterval := if scaled > 10_000 then scaled else 10_000;
    }

    method UpdateCache(time: nat)
      modifies this`creationEpochMinutes
      ensures creationEpochMinutes == time / MINUTE
    {
      creationEpochMinutes := time / MINUTE;
    }

    method IsCacheExpired(time: nat, logCreated: nat) returns (r: bool)
      ensures r <==>
        creationEpochMinutes < logCreated || time / MINUTE >= creationEpochMinutes + mCacheLifeExpectancySeconds / 60
    {
      var currentEpoch := time / MINUTE;
      if creationEpochMinutes < logCreated {
        return true;
      }
      return currentEpoch >= creationEpochMinutes + mCacheLifeExpectancySeconds / 60;
    }

    method IsCacheNeedingUpdate(time: nat, logCreated: nat) returns (r: bool)
      ensures r <==>
        || creationEpochMinutes < logCreated
        || 100 * (time / MINUTE - creationEpochMinutes + 1) > 95 * (mCacheLifeExpectancySeconds / 60)
    {
      var currentEpoch := time / MINUTE;
      if creationEpochMinutes < logCreated {
        return true;
      }
      var cacheUpdateTimeMinutes := (mCacheLifeExpectancySeconds / 60) * 95 / 100;
      return currentEpoch >= creationEpochMinutes + cacheUpdateTimeMinutes;
    }

    /** The cache timer fires at the time of its next tick. */
    method OnCacheTimer(logCreated: nat, ghost s: CacheState, time: nat)
      requires s.stamp == creationEpochMinutes && s.nextTick == time
      requires cacheTimerInterval == CacheTimerInterval(mCacheLifeExpectancySeconds)
      modifies this`creationEpochMinutes
      ensures CacheState(creationEpochMinutes, time + cacheTimerInterval, time) ==
        AfterEvent(mCacheLifeExpectancySeconds, s, Tick(logCreated))
      ensures logCreated <= time / MINUTE ==> logCreated <= creationEpochMinutes
    {
      var needed := IsCacheNeedingUpdate(time, logCreated);
      if needed {
        UpdateCache(time);
      }
    }

    /** A request for all data. */
    method HandleAllTempsRequest(time: nat, logCreated: nat, ghost s: CacheState)
      requires s.stamp == creationEpochMinutes
      modifies this`creationEpochMinutes
      ensures CacheState(creationEpochMinutes, s.nextTick, time) ==
        AfterEvent(mCacheLifeExpectancySeconds, s, Request(time, logCreated))
      ensures logCreated <= time / MINUTE ==> logCreated <= creationEpochMinutes
    {
      var expired := IsCacheExpired(time, logCreated);
      if expired {
        UpdateCache(time);
      }
    }

    method SetSaveConfigTimer(ms: int, time: nat)
      modifies this`saveTimers
      ensures saveTimers == old(saveTimers) + multiset{time + SaveDelay(ms)}
    {
      var timeout := if ms > 1_000 then ms else 1_000;
      saveTimers := saveTimers + multiset{time + timeout};
    }

    method SaveCurrentConfig(checkDelay: bool, time: nat)
      requires lastConfigSave <= time
      modifies this`savedConfig, this`lastConfigSave, this`saveTimers, this`saves
      ensures Saving() == if checkDelay then SaveOrPostpone(old(Saving()), time) else Saved(old(Saving()), time)
    {
      hide SaveDelay;
      var duration := time - lastConfigSave;
      if checkDelay {
        if duration < MAX_DELAY {
          SetSaveConfigTimer(MAX_DELAY - duration, time);
        } else {
          lastConfigSave := time;
          savedConfig := mConfig;
          saves := saves + 1;
        }
      } else {
        lastConfigSave := time;
        savedConfig := mConfig;
        saves := saves + 1;
      }
    }

    /** A change of the life expectancy, which is what the configuration consists of. */
    method SetCacheLifeExpectancy(seconds: int, time: nat)
      requires INT_MIN <= seconds <= INT_MAX
      requires NoUpdateLost(Saving()) && MayHappen(Saving(), Change(time, seconds))
      modifies this
      ensures Saving() == AfterSaveEvent(old(Saving()), Change(time, seconds)) && NoUpdateLost(Saving())
      ensures mCacheLifeExpectancySeconds == seconds % LONG_MODULUS
      ensures cacheTimerInterval == CacheTimerInterval(mCacheLifeExpectancySeconds)
      ensures creationEpochMinutes == old(creationEpochMinutes)
    {
      hide ToInt, CacheTimerInterval, NoUpdateLost, SaveOrPostpone;
      SaveEventKeeps(Saving(), Change(time, seconds));
      ConversionRestores(seconds);
      mCacheLifeExpectancySeconds := seconds % LONG_MODULUS;
      mConfig := ToInt(mCacheLifeExpectancySeconds);
      now, lastChange, changes := time, time, changes + 1;
      SaveCurrentConfig(true, time);
      SetCacheTimer();
    }

    /** A save timer fires when it is due. */
    method OnSaveTimer(due: nat)
      requires NoUpdateLost(Saving()) && MayHappen(Saving(), Fire(due))
      modifies this
      ensures Saving() == AfterSaveEvent(old(Saving()), Fire(due)) && NoUpdateLost(Saving())
      ensures creationEpochMinutes == old(creationEpochMinutes)
      ensures mCacheLifeExpectancySeconds == old(mCacheLifeExpectancySeconds)
      ensures cacheTimerInterval == old(cacheTimerInterval)
    {
      SaveEventKeeps(Saving(), Fire(due));
      saveTimers := saveTimers - multiset{due};
      now := due;
      SaveCurrentConfig(false, due);
    }
  }

  /** Storing an `int` as an unsigned 64-bit value and converting it back changes nothing. */
  lemma ConversionRestores(seconds: int)
    requires INT_MIN <= seconds <= INT_MAX
    ensures ToInt(seconds % LONG_MODULUS) == seconds
  {
    assert seconds % LONG_MODULUS == if seconds >= 0 then seconds else seconds + LONG_MODULUS;
  }
}
