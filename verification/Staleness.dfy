/** Concurrent get_or_set calls as a timed state machine: how old an answer can
    be, and that the bound cannot be improved. */
module Staleness {
  import opened Flights
  import opened Cache

  /** A call between two awaits: before the load, and after it. */
  datatype Call =
    | Free
    | Missed(key: string, ttl: nat)
    | Loaded(key: string, ttl: nat, value: string, loadedAt: int)

  /** The database at one instant. */
  datatype Instant = Instant(now: int, db: map<string, string>)

  /** When the value of a cached key was loaded and stored, and for how long. */
  datatype Origin = Origin(loadedAt: int, setAt: int, ttl: nat)

  /** An answer given at `at`: from the cache if `hit`, else freshly loaded. */
  datatype Given = Given(key: string, value: Option<string>, at: int, origin: Origin, hit: bool)

  /** `past` is the history of all instants so far, the present one last. */
  datatype State = State(
    now: int,
    db: map<string, string>,
    store: map<string, Stored>,
    origins: map<string, Origin>,
    calls: map<nat, Call>,
    hits: nat,
    misses: nat,
    lookups: nat,
    answers: seq<Given>,
    past: seq<Instant>)

  datatype Step =
    | Tick(ms: nat)
    | Change(key: string, value: Option<string>)
    | Evict(key: string)
    | Get(c: nat, key: string, ttl: nat, ok: bool)
    | Load(c: nat, ok: bool)
    | Set(c: nat, ok: bool, applied: bool)

  function CallOf(s: State, c: nat): Call {
    if c in s.calls then s.calls[c] else Free
  }

  function OriginOf(s: State, key: string): Origin {
    if key in s.origins then s.origins[key] else Origin(0, 0, 0)
  }

  predicate Enabled(s: State, step: Step) {
    match step
    case Get(c, key, ttl, ok) => CallOf(s, c).Free? && ttl > 0
    case Load(c, ok) => CallOf(s, c).Missed?
    case Set(c, ok, applied) => CallOf(s, c).Loaded? && (ok ==> applied)
    case _ => true
  }

  function Held(db: map<string, string>, key: string): Option<string> {
    if key in db then Some(db[key]) else None
  }

  /** The step itself; `Next` adds the instant it leads to. */
  function Effect(s: State, step: Step): State
    requires Enabled(s, step)
  {
    match step
    case Tick(ms) => s.(now := s.now + ms)
    case Change(key, value) => s.(db := if value.Some? then s.db[key := value.value] else s.db - {key})
    case Evict(key) => s.(store := s.store - {key}, origins := s.origins - {key})
    case Get(c, key, ttl, ok) =>
      if !ok then s
      else
        var cached := Lookup(s.store, key, s.now);
        if cached.Some? then
          s.(hits := s.hits + 1, lookups := s.lookups + 1,
             answers := s.answers + [Given(key, cached, s.now, OriginOf(s, key), true)])
        else s.(misses := s.misses + 1, lookups := s.lookups + 1, calls := s.calls[c := Missed(key, ttl)])
    case Load(c, ok) =>
      var call := s.calls[c];
      var value := Held(s.db, call.key);
      if !ok then s.(calls := s.calls[c := Free])
      else if value.None? then
        s.(calls := s.calls[c := Free], answers := s.answers + [Given(call.key, None, s.now, Origin(s.now, s.now, call.ttl), false)])
      else s.(calls := s.calls[c := Loaded(call.key, call.ttl, value.value, s.now)])
    case Set(c, ok, applied) =>
      var call := s.calls[c];
      var origin := Origin(call.loadedAt, s.now, call.ttl);
      var t := if applied then s.(store := Put(s.store, call.key, call.value, s.now, call.ttl),
                                  origins := s.origins[call.key := origin]) else s;
      t.(calls := t.calls[c := Free],
         answers := if ok then t.answers + [Given(call.key, Some(call.value), s.now, origin, false)] else t.answers)
  }

  function Next(s: State, step: Step): State
    requires Enabled(s, step)
  {
    var t := Effect(s, step);
    t.(past := t.past + [Instant(t.now, t.db)])
  }

  ghost predicate Init(s: State) {
    && s.store == map[] && s.origins == map[] && s.calls == map[] && s.answers == []
    && s.hits == 0 && s.misses == 0 && s.lookups == 0 && s.past == [Instant(s.now, s.db)]
  }

  ghost predicate Possible(s: State, steps: seq<Step>)
    decreases |steps|, 0
  {
    steps == [] || (Possible(s, steps[..|steps| - 1]) && Enabled(After(s, steps[..|steps| - 1]), steps[|steps| - 1]))
  }

  ghost function After(s: State, steps: seq<Step>): State
    requires Possible(s, steps)
    decreases |steps|, 1
  {
    if steps == [] then s else Next(After(s, steps[..|steps| - 1]), steps[|steps| - 1])
  }

  // ---- what every run keeps ----

  /** The database held this at some instant of time `at`. */
  ghost predicate WasHeld(s: State, key: string, value: Option<string>, at: int) {
    exists i :: 0 <= i < |s.past| && s.past[i].now == at && Held(s.past[i].db, key) == value
  }

  ghost predicate EntryOk(s: State, key: string) {
    && key in s.store && key in s.origins && WasHeld(s, key, Some(s.store[key].value), s.origins[key].loadedAt)
    && s.origins[key].loadedAt <= s.origins[key].setAt <= s.now
    && s.store[key].expires == s.origins[key].setAt + s.origins[key].ttl
  }

  /** The answer is of an instant less than its entry's TTL plus the time between
      that entry's load and its storing ago. */
  ghost predicate AnswerOk(s: State, g: Given) {
    && WasHeld(s, g.key, g.value, g.origin.loadedAt)
    && g.origin.loadedAt <= g.origin.setAt <= g.at
    && g.at - g.origin.loadedAt < g.origin.ttl + (g.origin.setAt - g.origin.loadedAt)
    && (!g.hit ==> g.at == g.origin.setAt)
  }

  ghost predicate CallOk(s: State, call: Call) {
    match call
    case Free => true
    case Missed(key, ttl) => ttl > 0
    case Loaded(key, ttl, value, loadedAt) => ttl > 0 && loadedAt <= s.now && WasHeld(s, key, Some(value), loadedAt)
  }

  ghost predicate Fresh(s: State) {
    && (s.past != [] && s.past[|s.past| - 1] == Instant(s.now, s.db))
    && (forall key :: key in s.store ==> key in s.origins && EntryOk(s, key))
    && (forall c :: c in s.calls ==> CallOk(s, s.calls[c]))
    && (forall i :: 0 <= i < |s.answers| ==> AnswerOk(s, s.answers[i]))
    && s.hits + s.misses == s.lookups
  }

  ghost predicate SameEntry(s: State, t: State, key: string) {
    && EntryOk(s, key) && key in t.store && key in t.origins
    && t.store[key] == s.store[key] && t.origins[key] == s.origins[key]
  }

  /** Nothing in the store, the calls or the answers gets worse with time. */
  lemma StillOk(s: State, t: State)
    requires Fresh(s) && s.past <= t.past && s.now <= t.now
    ensures forall key :: SameEntry(s, t, key) ==> EntryOk(t, key)
    ensures forall c :: c in s.calls ==> CallOk(t, s.calls[c])
    ensures forall i :: 0 <= i < |s.answers| ==> AnswerOk(t, s.answers[i])
  {
  }

  lemma EntriesKept(s: State, step: Step)
    requires Fresh(s) && Enabled(s, step)
    ensures forall key :: key in Next(s, step).store ==> key in Next(s, step).origins && EntryOk(Next(s, step), key)
  {
    hide WasHeld, EntryOk, AnswerOk, CallOk, Lookup, Held;
    var t := Next(s, step);
    StillOk(s, t);
    if step.Set? {
      SetOk(s, t, step.c);
    }
    forall key | key in t.store ensures key in t.origins && EntryOk(t, key) {
      if !(step.Set? && step.applied && key == s.calls[step.c].key) {
        assert SameEntry(s, t, key);
      }
    }
  }

  lemma CallsKept(s: State, step: Step)
    requires Fresh(s) && Enabled(s, step)
    ensures forall c :: c in Next(s, step).calls ==> CallOk(Next(s, step), Next(s, step).calls[c])
  {
    hide WasHeld, EntryOk, AnswerOk, CallOk, Lookup, Held;
    var t := Next(s, step);
    StillOk(s, t);
    match step
    case Get(c, key, ttl, ok) => MissOk(t, key, ttl);
    case Load(c, ok) => LoadOk(s, t, c);
    case Set(c, ok, applied) => SetOk(s, t, c);
    case _ =>
  }

  lemma AnswersKept(s: State, step: Step)
    requires Fresh(s) && Enabled(s, step)
    ensures forall i :: 0 <= i < |Next(s, step).answers| ==> AnswerOk(Next(s, step), Next(s, step).answers[i])
  {
    hide WasHeld, EntryOk, AnswerOk, CallOk, Lookup, Held;
    var t := Next(s, step);
    StillOk(s, t);
    match step
    case Get(c, key, ttl, ok) => HitOk(s, t, key);
    case Load(c, ok) => LoadOk(s, t, c);
    case Set(c, ok, applied) => SetOk(s, t, c);
    case _ =>
  }

  lemma FreshKept(s: State, step: Step)
    requires Fresh(s) && Enabled(s, step)
    ensures Fresh(Next(s, step))
  {
    hide EntryOk, AnswerOk, CallOk;
    EntriesKept(s, step);
    CallsKept(s, step);
    AnswersKept(s, step);
  }

  lemma MissOk(t: State, key: string, ttl: nat)
    requires ttl > 0
    ensures CallOk(t, Missed(key, ttl)) && CallOk(t, Free)
  {
  }

  lemma HitOk(s: State, t: State, key: string)
    requires Fresh(s) && s.past <= t.past && s.now == t.now
    ensures Lookup(s.store, key, s.now).Some? ==>
              AnswerOk(t, Given(key, Lookup(s.store, key, s.now), s.now, OriginOf(s, key), true))
  {
  }

  lemma LoadOk(s: State, t: State, c: nat)
    requires Fresh(s) && s.past <= t.past && s.now == t.now && CallOf(s, c).Missed?
    ensures var call, value := s.calls[c], Held(s.db, s.calls[c].key);
      && CallOk(t, Free)
      && (value.None? ==> AnswerOk(t, Given(call.key, None, s.now, Origin(s.now, s.now, call.ttl), false)))
      && (value.Some? ==> CallOk(t, Loaded(call.key, call.ttl, value.value, s.now)))
  {
  }

  lemma SetOk(s: State, t: State, c: nat)
    requires Fresh(s) && s.past <= t.past && s.now == t.now && CallOf(s, c).Loaded?
    ensures var call := s.calls[c];
      var origin := Origin(call.loadedAt, s.now, call.ttl);
      && CallOk(t, Free)
      && AnswerOk(t, Given(call.key, Some(call.value), s.now, origin, false))
      && (t.store == Put(s.store, call.key, call.value, s.now, call.ttl) && t.origins == s.origins[call.key := origin] ==>
            EntryOk(t, call.key))
  {
  }

  lemma {:induction false} RunFresh(s: State, steps: seq<Step>)
    requires Init(s) && Possible(s, steps)
    ensures Fresh(After(s, steps))
    decreases |steps|
  {
    hide Next, Enabled, Fresh;
    if steps == [] {
      InitFresh(s);
    } else {
      RunFresh(s, steps[..|steps| - 1]);
      FreshKept(After(s, steps[..|steps| - 1]), steps[|steps| - 1]);
    }
  }

  lemma InitFresh(s: State)
    requires Init(s)
    ensures Fresh(s)
  {
  }

  /** Bounded staleness: in every interleaving of calls, database writes, expiry,
      eviction and invalidation, an answer is what the database held at an instant
      less than the TTL plus that entry's load-to-set gap before it was given; and
      hits and misses add up to the lookups. */
  lemma {:induction false} AnswersAreRecent(s: State, steps: seq<Step>, i: nat)
    requires Init(s) && Possible(s, steps) && i < |After(s, steps).answers|
    ensures var t := After(s, steps);
      var g := t.answers[i];
      exists j :: 0 <= j < |t.past| && Held(t.past[j].db, g.key) == g.value
                  && t.past[j].now <= g.at
                  && g.at - t.past[j].now < g.origin.ttl + (g.origin.setAt - g.origin.loadedAt)
    ensures After(s, steps).hits + After(s, steps).misses == After(s, steps).lookups
  {
    hide Possible, After, Init;
    RunFresh(s, steps);
    var t := After(s, steps);
    assert AnswerOk(t, t.answers[i]);
  }

  // ---- the bound cannot be improved ----

  lemma {:induction false} OneMore(s: State, steps: seq<Step>, step: Step)
    requires Possible(s, steps) && Enabled(After(s, steps), step)
    ensures Possible(s, steps + [step]) && After(s, steps + [step]) == Next(After(s, steps), step)
  {
    hide Next, Enabled;
    assert (steps + [step])[..|steps|] == steps;
  }

  lemma {:induction false} NoSteps(s: State)
    ensures Possible(s, []) && After(s, []) == s
  {
  }

  ghost predicate Reaches(s: State, t: State) {
    exists steps :: Possible(s, steps) && After(s, steps) == t
  }

  lemma ReachesItself(s: State)
    ensures Reaches(s, s)
  {
    NoSteps(s);
  }

  lemma ReachesNext(s: State, t: State, step: Step)
    requires Reaches(s, t) && Enabled(t, step)
    ensures Reaches(s, Next(t, step))
  {
    hide Next, Enabled, Possible, After;
    var steps :| Possible(s, steps) && After(s, steps) == t;
    OneMore(s, steps, step);
  }

  const KEY := "flights:1"

  /** The database held `a` at no instant later than `until`. */
  ghost predicate HeldUntil(t: State, a: string, until: int) {
    forall j :: 0 <= j < |t.past| && Held(t.past[j].db, KEY) == Some(a) ==> t.past[j].now <= until
  }

  /** The database holds `value`, the store this entry, and the first call stands
      there; no second call has begun. */
  ghost predicate Stage(t: State, now: int, value: string, entry: Option<(string, Origin)>, call: Call) {
    && t.now == now && Held(t.db, KEY) == Some(value) && CallOf(t, 0) == call && CallOf(t, 1) == Free
    && (entry.None? ==> KEY !in t.store)
    && (entry.Some? ==> KEY in t.store && KEY in t.origins && t.origins[KEY] == entry.value.1
                        && t.store[KEY] == Stored(entry.value.0, entry.value.1.setAt + entry.value.1.ttl))
  }

  /** The instant just added. */
  lemma HeldNext(t: State, step: Step, a: string, until: int)
    requires Enabled(t, step) && HeldUntil(t, a, until)
    requires Held(Next(t, step).db, KEY) == Some(a) ==> Next(t, step).now <= until
    ensures HeldUntil(Next(t, step), a, until)
  {
    hide Held, Lookup, Put;
    var u := Next(t, step);
    forall j | 0 <= j < |u.past| && Held(u.past[j].db, KEY) == Some(a) ensures u.past[j].now <= until {
      if j < |t.past| {
        assert u.past[j] == t.past[j];
      }
    }
  }

  /** For any TTL and any time a load may take to be stored, some run answers a
      value from the cache as old as the bound allows: the database dropped it right
      after it was loaded and never held it since, and the key was even invalidated
      then. */
  lemma BoundIsTight(s: State, ttl: nat, gap: nat, a: string, b: string) returns (t: State)
    requires Init(s) && ttl > 0 && a != b
    ensures Reaches(s, t) && |t.answers| > 0
    ensures var g := t.answers[|t.answers| - 1];
      && g.hit && g.key == KEY && g.value == Some(a) && g.origin.ttl == ttl && g.origin.setAt - g.origin.loadedAt == gap
      && HeldUntil(t, a, g.at - (ttl + gap - 1)) && Held(t.db, KEY) == Some(b)
  {
    hide Next, Reaches, Stage, HeldUntil, Init;
    var l := s.now;
    var o := Origin(l, l + gap, ttl);
    t := StageLoaded(s, ttl, a);
    t := StageChange(s, t, l, a, b, ttl);
    t := StageTick(s, t, l, b, None, Loaded(KEY, ttl, a, l), gap, a, l);
    t := StageSet(s, t, l + gap, a, b, ttl, l);
    t := StageTick(s, t, l + gap, b, Some((a, o)), Free, ttl - 1, a, l);
    t := StageHit(s, t, l + gap + ttl - 1, a, b, o, l);
  }

  lemma StageLoaded(s: State, ttl: nat, a: string) returns (t: State)
    requires Init(s) && ttl > 0
    ensures Reaches(s, t) && Stage(t, s.now, a, None, Loaded(KEY, ttl, a, s.now)) && HeldUntil(t, a, s.now)
  {
    hide Reaches, HeldUntil;
    ReachesItself(s);
    FirstInstant(s, a);
    var s1 := Next(s, Change(KEY, Some(a)));
    assert Stage(s1, s.now, a, None, Free);
    ReachesNext(s, s, Change(KEY, Some(a)));
    HeldNext(s, Change(KEY, Some(a)), a, s.now);
    var s2 := StageGet(s, s1, s.now, a, ttl);
    t := StageLoad(s, s2, s.now, a, ttl);
  }

  lemma FirstInstant(s: State, a: string)
    requires Init(s)
    ensures HeldUntil(s, a, s.now)
  {
  }

  lemma StageGet(s: State, t: State, now: int, a: string, ttl: nat) returns (u: State)
    requires Reaches(s, t) && Stage(t, now, a, None, Free) && HeldUntil(t, a, now) && ttl > 0
    ensures Reaches(s, u) && Stage(u, now, a, None, Missed(KEY, ttl)) && HeldUntil(u, a, now)
  {
    hide Reaches, HeldUntil;
    ReachesNext(s, t, Get(0, KEY, ttl, true));
    HeldNext(t, Get(0, KEY, ttl, true), a, now);
    u := Next(t, Get(0, KEY, ttl, true));
  }

  lemma StageLoad(s: State, t: State, now: int, a: string, ttl: nat) returns (u: State)
    requires Reaches(s, t) && Stage(t, now, a, None, Missed(KEY, ttl)) && HeldUntil(t, a, now)
    ensures Reaches(s, u) && Stage(u, now, a, None, Loaded(KEY, ttl, a, now)) && HeldUntil(u, a, now)
  {
    hide Reaches, HeldUntil;
    ReachesNext(s, t, Load(0, true));
    HeldNext(t, Load(0, true), a, now);
    u := Next(t, Load(0, true));
  }

  /** The database changes and the key is invalidated, while the call holds what
      it loaded. */
  lemma StageChange(s: State, t: State, now: int, a: string, b: string, ttl: nat) returns (u: State)
    requires Reaches(s, t) && Stage(t, now, a, None, Loaded(KEY, ttl, a, now)) && HeldUntil(t, a, now)
    ensures Reaches(s, u) && Stage(u, now, b, None, Loaded(KEY, ttl, a, now)) && HeldUntil(u, a, now)
  {
    hide Reaches, HeldUntil;
    ReachesNext(s, t, Change(KEY, Some(b)));
    HeldNext(t, Change(KEY, Some(b)), a, now);
    var v := Next(t, Change(KEY, Some(b)));
    assert Stage(v, now, b, None, Loaded(KEY, ttl, a, now));
    ReachesNext(s, v, Evict(KEY));
    HeldNext(v, Evict(KEY), a, now);
    u := Next(v, Evict(KEY));
  }

  lemma StageTick(s: State, t: State, now: int, value: string, entry: Option<(string, Origin)>, call: Call, ms: nat,
                  a: string, until: int)
    returns (u: State)
    requires Reaches(s, t) && Stage(t, now, value, entry, call) && HeldUntil(t, a, until) && a != value
    ensures Reaches(s, u) && Stage(u, now + ms, value, entry, call) && HeldUntil(u, a, until)
  {
    hide Reaches, HeldUntil;
    ReachesNext(s, t, Tick(ms));
    HeldNext(t, Tick(ms), a, until);
    u := Next(t, Tick(ms));
  }

  lemma StageSet(s: State, t: State, now: int, a: string, b: string, ttl: nat, loadedAt: int) returns (u: State)
    requires Reaches(s, t) && Stage(t, now, b, None, Loaded(KEY, ttl, a, loadedAt)) && HeldUntil(t, a, loadedAt) && a != b
    ensures Reaches(s, u) && Stage(u, now, b, Some((a, Origin(loadedAt, now, ttl))), Free) && HeldUntil(u, a, loadedAt)
  {
    hide Reaches, HeldUntil;
    ReachesNext(s, t, Set(0, true, true));
    HeldNext(t, Set(0, true, true), a, loadedAt);
    u := Next(t, Set(0, true, true));
  }

  lemma StageHit(s: State, t: State, now: int, a: string, b: string, o: Origin, until: int) returns (u: State)
    requires Reaches(s, t) && Stage(t, now, b, Some((a, o)), Free) && now < o.setAt + o.ttl && HeldUntil(t, a, until) && a != b
    ensures Reaches(s, u) && HeldUntil(u, a, until) && |u.answers| > 0
    ensures u.answers[|u.answers| - 1] == Given(KEY, Some(a), now, o, true) && Held(u.db, KEY) == Some(b)
  {
    hide Reaches, HeldUntil;
    ReachesNext(s, t, Get(1, KEY, 1, true));
    HeldNext(t, Get(1, KEY, 1, true), a, until);
    u := Next(t, Get(1, KEY, 1, true));
  }

  // ---- when the TTL alone is the bound ----

  /** The database held the answer less than the TTL before it was given. */
  ghost predicate Young(t: State, g: Given) {
    exists j :: 0 <= j < |t.past| && Held(t.past[j].db, g.key) == g.value
                && t.past[j].now <= g.at && g.at - t.past[j].now < g.origin.ttl
  }

  /** Some run from an initial state leads to `t`. */
  ghost predicate Reachable(t: State) {
    exists s :: Init(s) && Reaches(s, t)
  }

  /** In every reachable state, every answer from an entry that took `gap` from
      load to set is young. */
  ghost predicate AllYoung(gap: nat) {
    forall t: State, i: nat ::
      Reachable(t) && i < |t.answers| && t.answers[i].origin.setAt - t.answers[i].origin.loadedAt == gap ==>
      Young(t, t.answers[i])
  }

  /** The TTL alone bounds the age of all answers exactly for entries that are
      stored at the instant they are loaded. */
  lemma TtlAloneIffNoGap(gap: nat)
    ensures AllYoung(gap) <==> gap == 0
  {
    hide Possible, After, Init, Next;
    if gap == 0 {
      forall t: State, i: nat | Reachable(t) && i < |t.answers| && t.answers[i].origin.setAt - t.answers[i].origin.loadedAt == gap
        ensures Young(t, t.answers[i])
      {
        var s :| Init(s) && Reaches(s, t);
        var steps :| Possible(s, steps) && After(s, steps) == t;
        AnswersAreRecent(s, steps, i);
      }
    } else {
      SomeAreOld(gap);
    }
  }

  lemma SomeAreOld(gap: nat)
    requires gap > 0
    ensures !AllYoung(gap)
  {
    hide Possible, After, Next, Reaches;
    var s := State(0, map[], map[], map[], map[], 0, 0, 0, [], [Instant(0, map[])]);
    var t := BoundIsTight(s, 1, gap, "a", "b");
    assert Init(s) && Reachable(t);
    var g := t.answers[|t.answers| - 1];
    assert !Young(t, g);
  }

  // ---- the code's calls are runs ----

  predicate Acts(step: Step, c: nat) {
    match step
    case Get(d, _, _, _) => d == c
    case Load(d, _) => d == c
    case Set(d, _, _) => d == c
    case _ => false
  }

  /** What other calls, the database, the clock and the store do while call `c`
      waits: the steps of `gap` that are not its own, as far as they can happen. */
  function Meanwhile(s: State, c: nat, gap: seq<Step>): (t: State)
    ensures CallOf(t, c) == CallOf(s, c)
    decreases |gap|
  {
    hide Next, Enabled;
    if gap == [] then s
    else
      OthersKeepCall(s, c, gap[0]);
      Meanwhile(if Enabled(s, gap[0]) && !Acts(gap[0], c) then Next(s, gap[0]) else s, c, gap[1..])
  }

  /** Any run of others can happen in a gap, step by step. */
  lemma {:induction false} MeanwhileIsAnyRun(s: State, c: nat, gap: seq<Step>)
    requires Possible(s, gap)
    requires forall i :: 0 <= i < |gap| ==> gap[i].Tick? || gap[i].Change? || gap[i].Evict? || gap[i].c != c
    ensures Meanwhile(s, c, gap) == After(s, gap)
    decreases |gap|
  {
    hide Next, Enabled;
    if gap != [] {
      MeanwhileIsAnyRun(s, c, gap[..|gap| - 1]);
      MeanwhileLast(s, c, gap);
    }
  }

  lemma {:induction false} MeanwhileLast(s: State, c: nat, gap: seq<Step>)
    requires gap != []
    ensures var t, step := Meanwhile(s, c, gap[..|gap| - 1]), gap[|gap| - 1];
      Meanwhile(s, c, gap) == if Enabled(t, step) && !Acts(step, c) then Next(t, step) else t
    decreases |gap|
  {
    hide Next, Enabled, Acts;
    if |gap| > 1 {
      MeanwhileLast(if Enabled(s, gap[0]) && !Acts(gap[0], c) then Next(s, gap[0]) else s, c, gap[1..]);
      assert gap[1..][..|gap| - 2] == gap[..|gap| - 1][1..];
    }
  }

  lemma OthersKeepCall(s: State, c: nat, step: Step)
    ensures Enabled(s, step) && !Acts(step, c) ==> CallOf(Next(s, step), c) == CallOf(s, c)
  {
    hide Lookup, Put, Held;
  }

  lemma {:induction false} MeanwhileReaches(r: State, s: State, c: nat, gap: seq<Step>)
    requires Reaches(r, s)
    ensures Reaches(r, Meanwhile(s, c, gap))
    decreases |gap|
  {
    hide Next, Enabled, Reaches;
    if gap != [] {
      if Enabled(s, gap[0]) && !Acts(gap[0], c) {
        ReachesNext(r, s, gap[0]);
      }
      MeanwhileReaches(r, if Enabled(s, gap[0]) && !Acts(gap[0], c) then Next(s, gap[0]) else s, c, gap[1..]);
    }
  }

  /** The state before the load of a call that misses. */
  function BeforeLoad(s: State, c: nat, key: string, ttl: nat, gap: seq<Step>): State
    requires CallOf(s, c).Free? && ttl > 0
  {
    Meanwhile(Next(s, Get(c, key, ttl, true)), c, gap)
  }

  /** What a timing says of the other calls is what happened in the two gaps, before
      and after the load. */
  ghost predicate Fits(s: State, c: nat, key: string, ttl: nat, gap: seq<Step>, rest: seq<Step>, t: Timing)
    requires CallOf(s, c).Free? && ttl > 0
  {
    && t.getAt == s.now && (t.stored ==> t.setApplied)
    && (Misses(s.store, key, t) ==>
          var u := BeforeLoad(s, c, key, ttl, gap);
          && CallOf(u, c).Missed?
          && (t.loaded.Ok? ==> t.loaded.value == Held(u.db, key))
          && var v := Next(u, Load(c, t.loaded.Ok?));
             var w := if t.loaded.Ok? && t.loaded.value.Some? then Meanwhile(v, c, rest) else v;
             && t.setAt == w.now && t.between == w.store
             && s.hits + t.otherHits == w.hits && s.misses + 1 + t.otherMisses == w.misses)
  }

  /** The state after one call of the code, told by what it answers, what it leaves
      in the store and what was counted. */
  ghost predicate Called(s: State, key: string, ttl: nat, t: Timing, u: State) {
    && u.store == StoreAfter(s.store, key, ttl, t)
    && u.hits == s.hits + (if t.got && Lookup(s.store, key, t.getAt).Some? then 1 else 0)
                 + (if Misses(s.store, key, t) then t.otherHits else 0)
    && u.misses == s.misses + (if Misses(s.store, key, t) then 1 + t.otherMisses else 0)
    && (Answer(s.store, key, t).Ok? ==>
          u.answers != [] && u.answers[|u.answers| - 1].key == key && u.answers[|u.answers| - 1].value == Answer(s.store, key, t).value)
  }

  lemma CallGets(s: State, c: nat, key: string, ttl: nat, t: Timing)
    requires CallOf(s, c).Free? && ttl > 0 && s.now == t.getAt
    ensures var u := Next(s, Get(c, key, ttl, t.got));
      if Misses(s.store, key, t) then CallOf(u, c) == Missed(key, ttl) && u.hits == s.hits && u.misses == s.misses + 1
      else Called(s, key, ttl, t, u)
  {
    hide Held;
  }

  lemma CallLoads(u: State, c: nat, key: string, ttl: nat, ok: bool)
    requires CallOf(u, c) == Missed(key, ttl)
    ensures var v := Next(u, Load(c, ok));
      && v.store == u.store && v.hits == u.hits && v.misses == u.misses
      && (if ok && Held(u.db, key).Some? then CallOf(v, c) == Loaded(key, ttl, Held(u.db, key).value, u.now)
          else ok ==> v.answers != [] && v.answers[|v.answers| - 1].key == key && v.answers[|v.answers| - 1].value == None)
  {
    hide Held;
  }

  lemma CallSets(w: State, c: nat, key: string, ttl: nat, value: string, loadedAt: int, ok: bool, applied: bool)
    requires CallOf(w, c) == Loaded(key, ttl, value, loadedAt) && (ok ==> applied)
    ensures var u := Next(w, Set(c, ok, applied));
      && u.store == (if applied then Put(w.store, key, value, w.now, ttl) else w.store)
      && u.hits == w.hits && u.misses == w.misses
      && (ok ==> u.answers != [] && u.answers[|u.answers| - 1].key == key && u.answers[|u.answers| - 1].value == Some(value))
  {
  }

  /** One get_or_set, as the code is proved to do it with anything going on between
      its awaits, is a run of this machine. */
  lemma CallIsRun(s: State, c: nat, key: string, ttl: nat, gap: seq<Step>, rest: seq<Step>, t: Timing) returns (u: State)
    requires CallOf(s, c).Free? && ttl > 0 && Fits(s, c, key, ttl, gap, rest, t)
    ensures Reaches(s, u) && Called(s, key, ttl, t, u)
  {
    hide Reaches, Held, Next, Lookup, Put, Meanwhile;
    var get, load := Get(c, key, ttl, t.got), Load(c, t.loaded.Ok?);
    ReachesItself(s);
    ReachesNext(s, s, get);
    CallGets(s, c, key, ttl, t);
    u := Next(s, get);
    if Misses(s.store, key, t) {
      MeanwhileReaches(s, u, c, gap);
      var v := BeforeLoad(s, c, key, ttl, gap);
      ReachesNext(s, v, load);
      CallLoads(v, c, key, ttl, t.loaded.Ok?);
      u := Next(v, load);
      if t.loaded.Ok? && t.loaded.value.Some? {
        var w := Meanwhile(u, c, rest);
        MeanwhileReaches(s, u, c, rest);
        ReachesNext(s, w, Set(c, t.stored, t.setApplied));
        CallSets(w, c, key, ttl, t.loaded.value.value, v.now, t.stored, t.setApplied);
        u := Next(w, Set(c, t.stored, t.setApplied));
      }
    }
  }
}
