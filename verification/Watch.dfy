/** WATCH: the version counters, and what comparing them at EXEC proves. */
module Watch {
  import opened Prelude
  import opened Resp
  import opened Keyspaces
  import opened Versioning
  import StringStore
  import SetStore
  import opened Requests
  import opened Commands
  import opened Conduct
  import HashStore
  import ZSetStore
  import Durability
  import opened Spelling

  /** The shared server: its keys and their versions. */
  datatype Server = Server(ks: Keyspace, versions: Versions)

  ghost function Serve(c: Call, sv: Server, floats: Floats): Server {
    var s := Dispatch(c.args, sv.ks, floats, c.ms);
    Server(s.ks, ApplyAll(sv.versions, s.effects))
  }

  ghost function ServeAll(calls: seq<Call>, sv: Server, floats: Floats): Server
    decreases |calls|
  {
    if calls == [] then sv else ServeAll(calls[1..], Serve(calls[0], sv, floats), floats)
  }

  /** A version never falls, and stays put only if the contents of the key do. */
  ghost predicate StepSafe(sv: Server, sv': Server, k: string) {
    && Version(sv'.versions, k) >= Version(sv.versions, k)
    && (Version(sv'.versions, k) == Version(sv.versions, k) ==> Contents(At(sv'.ks, k)) == Contents(At(sv.ks, k)))
  }

  /** The destination of a STORE command. */
  function Destination(q: Request): string
    requires (q.OnSet? && q.m.SStore?) || (q.OnZSet? && q.z.ZStore?)
  {
    if q.OnSet? then q.m.dst else q.z.dst
  }

  /** The ways a command goes behind the back of WATCH: a flush of a store that is not empty or has versions,
      an HDEL that takes the last fields of a hash, and a STORE with an empty result onto a key that holds
      something. */
  ghost predicate Bypasses(q: Request, sv: Server, now: Instant) {
    || (q.OnKey? && q.k.Flush? && (sv.ks != EMPTY || exists k :: Version(sv.versions, k) > 0))
    || (HDelEmpties(q, sv.ks) && !Lapsed(At(sv.ks, q.h.key), now))
    || (StoresNothing(q, sv.ks, now) && !NoInputs(q) && At(sv.ks, Destination(q)) != NOTHING)
  }

  /** ZINTERSTORE without keys returns at once; no command decodes to it. */
  predicate NoInputs(q: Request) {
    q.OnZSet? && q.z.ZStore? && q.z.inter && q.z.keys == []
  }

  ghost predicate Open(c: Call, sv: Server, floats: Floats) {
    c.args != [] && OpOf(c.args[0]).Some? ==>
      var d := Decode(OpOf(c.args[0]).value, c.args, floats, c.ms * MILLISECOND);
      d.Some? ==> !Bypasses(d.value, sv, c.ms * MILLISECOND)
  }

  /** Open commands on a clock that does not go backwards. */
  ghost predicate OpenRun(calls: seq<Call>, sv: Server, floats: Floats, ms: int)
    decreases |calls|
  {
    calls != [] ==>
      && ms <= calls[0].ms && Open(calls[0], sv, floats)
      && OpenRun(calls[1..], Serve(calls[0], sv, floats), floats, calls[0].ms)
  }

  lemma ReportsSafe(sv: Server, s: Step<Value>, k: string)
    requires Reports(sv.ks, s)
    ensures StepSafe(sv, Server(s.ks, ApplyAll(sv.versions, s.effects)), k)
  {
    hide At, Contents;
    VersionsCount(sv.versions, s.effects, k);
    BumpsPositive(s.effects, k);
  }

  /** A request, on keys and versions. */
  ghost function Perform(q: Request, sv: Server, fmt: FormatScore, now: Instant): Server {
    var s := Do(q, sv.ks, fmt, now);
    Server(s.ks, ApplyAll(sv.versions, s.effects))
  }

  lemma IdleSafe(sv: Server, k: string)
    ensures StepSafe(sv, Server(sv.ks, ApplyAll(sv.versions, [])), k)
    ensures sv.ks == EMPTY && (forall o :: Version(sv.versions, o) == 0) ==>
      StepSafe(sv, Server(EMPTY, ApplyAll(sv.versions, [ForgetAll])), k)
  {
    assert [ForgetAll][1..] == [];
    assert ApplyAll(map[], []) == map[];
  }

  /** Requests that look stealthy but find nothing to do. */
  lemma StealthyIdle(q: Request, sv: Server, fmt: FormatScore, now: Instant)
    requires Stealthy(q, sv.ks, now) && !Bypasses(q, sv, now)
    ensures var s := Do(q, sv.ks, fmt, now);
      s.ks == sv.ks && (s.effects == [] || (s.effects == [ForgetAll] && q.OnKey?))
  {
    if q.OnHash? {
      HDelIdle(q.h, sv.ks, now);
    } else if !q.OnKey? && !NoInputs(q) {
      StoreIdle(q, sv.ks, fmt, now);
    }
    hide SetStore.Combined, ZSetStore.Combined, HashStore.Empties, At, Run;
  }

  lemma HDelIdle(q: HashRequest, ks: Keyspace, now: Instant)
    requires q.HDel? && Lapsed(At(ks, q.key), now)
    ensures OnHashDo(q, ks, now).ks == ks && OnHashDo(q, ks, now).effects == []
  {
  }

  lemma StoreIdle(q: Request, ks: Keyspace, fmt: FormatScore, now: Instant)
    requires StoresNothing(q, ks, now) && !NoInputs(q) && At(ks, Destination(q)) == NOTHING
    ensures Do(q, ks, fmt, now).ks == ks && Do(q, ks, fmt, now).effects == []
  {
    hide SetStore.Combined, ZSetStore.Combined, SetStore.Operands, ZSetStore.Operands;
  }

  lemma RequestSafe(q: Request, sv: Server, fmt: FormatScore, now: Instant, k: string)
    requires Sane(sv.ks, now) && Sound(q) && !Bypasses(q, sv, now)
    ensures StepSafe(sv, Perform(q, sv, fmt, now), k)
  {
    hide Do, Sane, Reports, Stealthy, StepSafe;
    if Stealthy(q, sv.ks, now) {
      StealthyIdle(q, sv, fmt, now);
      FlushedIsIdle(q, sv, fmt, now);
      IdleSafe(sv, k);
    } else {
      RequestConduct(q, sv.ks, fmt, now);
      ReportsSafe(sv, Do(q, sv.ks, fmt, now), k);
    }
  }

  lemma FlushedIsIdle(q: Request, sv: Server, fmt: FormatScore, now: Instant)
    requires !Bypasses(q, sv, now)
    ensures var s := Do(q, sv.ks, fmt, now);
      q.OnKey? && s.effects == [ForgetAll] && Stealthy(q, sv.ks, now) ==>
        sv.ks == EMPTY && forall o :: Version(sv.versions, o) == 0
  {
    hide HDelEmpties, StoresNothing, OnKeyDo;
    NotOtherwise(q, sv.ks, now);
  }

  // And only those.

  lemma SomethingShows(s: Slot, now: Instant)
    requires ValidSlot(s, now) && s != NOTHING
    ensures Contents(s) != Contents(NOTHING)
  {
  }

  lemma FlushUnsafe(sv: Server, fmt: FormatScore, now: Instant)
    requires Sane(sv.ks, now) && (sv.ks != EMPTY || exists k :: Version(sv.versions, k) > 0)
    ensures exists k :: !StepSafe(sv, Perform(OnKey(Flush), sv, fmt, now), k)
  {
    var sv' := Perform(OnKey(Flush), sv, fmt, now);
    assert [ForgetAll][1..] == [];
    assert ApplyAll(map[], []) == map[];
    assert sv' == Server(EMPTY, map[]);
    if k :| Version(sv.versions, k) > 0 {
      assert !StepSafe(sv, sv', k);
    } else {
      var k :| k in sv.ks;
      assert ValidSlot(At(sv.ks, k), now);
      SomethingShows(At(sv.ks, k), now);
      assert !StepSafe(sv, sv', k);
    }
  }

  lemma HDelUnsafe(q: HashRequest, sv: Server, fmt: FormatScore, now: Instant)
    requires HDelEmpties(OnHash(q), sv.ks) && !Lapsed(At(sv.ks, q.key), now)
    ensures !StepSafe(sv, Perform(OnHash(q), sv, fmt, now), q.key)
  {
    var k := q.key;
    EmptiedHash(q, sv.ks, now);
    hide OnHashDo, At, HashStore.Empties, Lapsed;
    assert [Forget(k)][1..] == [];
    assert ApplyAll(sv.versions, [Forget(k)]) == ApplyAll(sv.versions - {k}, []);
  }

  lemma EmptiedHash(q: HashRequest, ks: Keyspace, now: Instant)
    requires HDelEmpties(OnHash(q), ks) && !Lapsed(At(ks, q.key), now)
    ensures var s := OnHashDo(q, ks, now);
      s.effects == [Forget(q.key)] && At(s.ks, q.key).hash.None? && At(ks, q.key).hash.Some?
  {
    hide At;
  }

  lemma StoreUnsafe(q: Request, sv: Server, fmt: FormatScore, now: Instant)
    requires Sane(sv.ks, now) && StoresNothing(q, sv.ks, now) && !NoInputs(q) && At(sv.ks, Destination(q)) != NOTHING
    ensures !StepSafe(sv, Perform(q, sv, fmt, now), Destination(q))
  {
    var k := Destination(q);
    assert ValidSlot(At(sv.ks, k), now);
    SomethingShows(At(sv.ks, k), now);
    StoredNothing(q, sv.ks, fmt, now);
    hide Do;
  }

  lemma StoredNothing(q: Request, ks: Keyspace, fmt: FormatScore, now: Instant)
    requires StoresNothing(q, ks, now) && !NoInputs(q)
    ensures Do(q, ks, fmt, now).effects == [] && At(Do(q, ks, fmt, now).ks, Destination(q)) == NOTHING
  {
    hide SetStore.Combined, ZSetStore.Combined, SetStore.Operands, ZSetStore.Operands, At;
  }

  lemma RequestSafeIff(q: Request, sv: Server, fmt: FormatScore, now: Instant)
    requires Sane(sv.ks, now) && Sound(q)
    ensures (forall k :: StepSafe(sv, Perform(q, sv, fmt, now), k)) <==> !Bypasses(q, sv, now)
  {
    hide Perform, StepSafe, Sane, StoresNothing, HDelEmpties, NoInputs;
    if !Bypasses(q, sv, now) {
      forall k ensures StepSafe(sv, Perform(q, sv, fmt, now), k) { RequestSafe(q, sv, fmt, now, k); }
    } else if q.OnKey? {
      NotOtherwise(q, sv.ks, now);
      FlushUnsafe(sv, fmt, now);
    } else if q.OnHash? {
      NotOtherwise(q, sv.ks, now);
      HDelUnsafe(q.h, sv, fmt, now);
    } else {
      NotOtherwise(q, sv.ks, now);
      StoreUnsafe(q, sv, fmt, now);
    }
  }

  lemma NotOtherwise(q: Request, ks: Keyspace, now: Instant)
    ensures HDelEmpties(q, ks) ==> q.OnHash?
    ensures StoresNothing(q, ks, now) ==> q.OnSet? || q.OnZSet?
  {
    hide HashStore.Empties, SetStore.Combined, ZSetStore.Combined;
  }

  /** Exactly the open commands keep what WATCH relies on: for every key, its version never falls and stays
      put only if its contents do. */
  lemma StepSafeIff(c: Call, sv: Server, floats: Floats)
    requires Sane(sv.ks, c.ms * MILLISECOND)
    ensures (forall k :: StepSafe(sv, Serve(c, sv, floats), k)) <==> Open(c, sv, floats)
  {
    hide Do, Decode, OpOf, Sane, Bypasses, StepSafe;
    if c.args != [] && OpOf(c.args[0]).Some? &&
      Decode(OpOf(c.args[0]).value, c.args, floats, c.ms * MILLISECOND).Some? {
      var op := OpOf(c.args[0]).value;
      var q := Decode(op, c.args, floats, c.ms * MILLISECOND).value;
      Durability.DecodedIsSound(op, c.args, floats, c.ms * MILLISECOND);
      RequestSafeIff(q, sv, floats.format, c.ms * MILLISECOND);
      assert Serve(c, sv, floats) == Perform(q, sv, floats.format, c.ms * MILLISECOND);
    } else {
      forall k ensures StepSafe(sv, Serve(c, sv, floats), k) { IdleSafe(sv, k); }
    }
  }

  lemma OpenStep(c: Call, sv: Server, floats: Floats, k: string)
    requires Sane(sv.ks, c.ms * MILLISECOND) && Open(c, sv, floats)
    ensures StepSafe(sv, Serve(c, sv, floats), k)
  {
    hide Open, Serve, StepSafe, Sane;
    StepSafeIff(c, sv, floats);
  }

  /** Over every interleaving of open commands: versions never fall, and an unchanged version means
      unchanged contents. */
  lemma {:induction false} OpenRunSafe(calls: seq<Call>, sv: Server, floats: Floats, ms: int, k: string)
    requires Sane(sv.ks, ms * MILLISECOND) && OpenRun(calls, sv, floats, ms)
    ensures StepSafe(sv, ServeAll(calls, sv, floats), k)
    decreases |calls|
  {
    hide Open, Serve, Sane, At, Contents;
    if calls != [] {
      var c := calls[0];
      TimePasses(sv.ks, ms * MILLISECOND, c.ms * MILLISECOND);
      OpenStep(c, sv, floats, k);
      ServeSane(c, sv, floats);
      OpenRunSafe(calls[1..], Serve(c, sv, floats), floats, c.ms, k);
    }
  }

  lemma ServeSane(c: Call, sv: Server, floats: Floats)
    requires Sane(sv.ks, c.ms * MILLISECOND)
    ensures Sane(Serve(c, sv, floats).ks, c.ms * MILLISECOND)
  {
    Durability.DispatchConduct(c.args, sv.ks, floats, c.ms);
    hide Dispatch, Sane;
  }

  // The background sweep.

  /** A sweep forgets the versions of the keys it touches. */
  function Swept(sv: Server, now: Instant): Server {
    Server(StringStore.Sweep(sv.ks, now),
           map k | k in sv.versions && StringStore.Swept(At(sv.ks, k), now) == At(sv.ks, k) :: sv.versions[k])
  }

  lemma SweptShows(s: Slot, now: Instant)
    requires ValidSlot(s, now) && StringStore.Swept(s, now) != s
    ensures Contents(StringStore.Swept(s, now)) != Contents(s)
  {
  }

  /** A sweep keeps what WATCH relies on if and only if it finds nothing to remove. */
  lemma SweepSafeIff(sv: Server, now: Instant)
    requires Sane(sv.ks, now)
    ensures (forall k :: StepSafe(sv, Swept(sv, now), k)) <==> StringStore.Sweep(sv.ks, now) == sv.ks
  {
    hide StringStore.Swept, Contents, At;
    if StringStore.Sweep(sv.ks, now) == sv.ks {
      forall k ensures StepSafe(sv, Swept(sv, now), k) {
        assert StringStore.Swept(At(sv.ks, k), now) == At(sv.ks, k);
      }
    } else {
      var k := SweptKey(sv.ks, now);
      SweptShows(At(sv.ks, k), now);
      assert !StepSafe(sv, Swept(sv, now), k);
    }
  }

  lemma SweptKey(ks: Keyspace, now: Instant) returns (k: string)
    requires Sane(ks, now) && StringStore.Sweep(ks, now) != ks
    ensures StringStore.Swept(At(ks, k), now) != At(ks, k) && ValidSlot(At(ks, k), now)
  {
    hide StringStore.Swept;
    if forall k :: StringStore.Swept(At(ks, k), now) == At(ks, k) {
      SameEverywhere(StringStore.Sweep(ks, now), ks);
    }
    k :| StringStore.Swept(At(ks, k), now) != At(ks, k);
  }

  // One connection among the others.

  /** What a connection watches: the saved versions, and the contents the keys had when they were
      saved. */
  datatype Watched = Watched(versions: Versions, contents: map<string, Slot>)

  const UNWATCHED: Watched := Watched(map[], map[])

  /** WATCH; a key watched again gets its current version. */
  function Save(w: Watched, sv: Server, k: string): Watched {
    Watched(w.versions[k := Version(sv.versions, k)], w.contents[k := Contents(At(sv.ks, k))])
  }

  function SaveAll(w: Watched, sv: Server, keys: seq<string>): Watched
    decreases |keys|
  {
    if keys == [] then w else SaveAll(Save(w, sv, keys[0]), sv, keys[1..])
  }

  /** WATCH saves the version and the contents that every key named has now, and keeps what was saved of others. */
  lemma {:induction false} SaveAllMeans(w: Watched, sv: Server, keys: seq<string>, k: string)
    ensures var w' := SaveAll(w, sv, keys);
      if k in keys then
        && k in w'.versions && w'.versions[k] == (if k in sv.versions then sv.versions[k] else 0)
        && k in w'.contents && w'.contents[k] == Contents(At(sv.ks, k))
      else
        && (k in w'.versions <==> k in w.versions) && (k in w.versions ==> w'.versions[k] == w.versions[k])
        && (k in w'.contents <==> k in w.contents) && (k in w.contents ==> w'.contents[k] == w.contents[k])
    decreases |keys|
  {
    hide At, Contents;
    if keys != [] {
      SaveAllMeans(Save(w, sv, keys[0]), sv, keys[1..], k);
      assert k in keys <==> k == keys[0] || k in keys[1..];
    }
  }

  /** `watchDirty`. */
  ghost predicate Dirty(w: Watched, sv: Server) {
    exists k :: k in w.versions && Version(sv.versions, k) != w.versions[k]
  }

  /** The saved versions are not ahead, and one that is still current vouches for the contents. */
  ghost predicate Vouches(w: Watched, sv: Server) {
    && w.versions.Keys == w.contents.Keys
    && forall k :: k in w.versions ==>
         && w.versions[k] <= Version(sv.versions, k)
         && (w.versions[k] == Version(sv.versions, k) ==> Contents(At(sv.ks, k)) == w.contents[k])
  }

  lemma {:induction false} SaveVouches(w: Watched, sv: Server, keys: seq<string>)
    requires Vouches(w, sv)
    ensures Vouches(SaveAll(w, sv, keys), sv)
    decreases |keys|
  {
    hide At, Contents, Version;
    if keys != [] {
      assert Vouches(Save(w, sv, keys[0]), sv);
      SaveVouches(Save(w, sv, keys[0]), sv, keys[1..]);
    }
  }

  lemma ServeVouches(w: Watched, c: Call, sv: Server, floats: Floats)
    requires Vouches(w, sv) && Sane(sv.ks, c.ms * MILLISECOND) && Open(c, sv, floats)
    ensures Vouches(w, Serve(c, sv, floats))
  {
    hide At, Contents, Version, Serve, Sane, Open;
    forall k | k in w.versions
      ensures var now := Version(Serve(c, sv, floats).versions, k);
        && w.versions[k] <= now
        && (w.versions[k] == now ==> Contents(At(Serve(c, sv, floats).ks, k)) == w.contents[k])
    {
      OpenStep(c, sv, floats, k);
    }
  }

  lemma SweepVouches(w: Watched, sv: Server, now: Instant)
    requires Vouches(w, sv) && Sane(sv.ks, now) && StringStore.Sweep(sv.ks, now) == sv.ks
    ensures Vouches(w, Swept(sv, now))
  {
    SweepSafeIff(sv, now);
    hide At, Contents, Version, Sane, Swept;
  }

  /** What can happen while a connection watches: its own WATCH and UNWATCH (also the end of a
      transaction), commands of any client, and sweeps. */
  datatype Event = Watches(keys: seq<string>) | Unwatches | Serves(call: Call) | Sweeps(ms: int)

  datatype Session = Session(sv: Server, watched: Watched)

  ghost function Next(e: Event, s: Session, floats: Floats): Session {
    match e
    case Watches(keys) => s.(watched := SaveAll(s.watched, s.sv, keys))
    case Unwatches => s.(watched := UNWATCHED)
    case Serves(c) => s.(sv := Serve(c, s.sv, floats))
    case Sweeps(ms) => s.(sv := Swept(s.sv, ms * MILLISECOND))
  }

  /** The time of an event, if it has one. */
  function TimeOf(e: Event, ms: int): int {
    match e case Serves(c) => c.ms case Sweeps(t) => t case _ => ms
  }

  ghost function After(events: seq<Event>, s: Session, floats: Floats): Session
    decreases |events|
  {
    if events == [] then s else After(events[1..], Next(events[0], s, floats), floats)
  }

  /** Open commands and sweeps with nothing to do, on a clock that does not go backwards. */
  ghost predicate OpenEvents(events: seq<Event>, s: Session, floats: Floats, ms: int)
    decreases |events|
  {
    events != [] ==>
      var e := events[0];
      && ms <= TimeOf(e, ms)
      && (e.Serves? ==> Open(e.call, s.sv, floats))
      && (e.Sweeps? ==> StringStore.Sweep(s.sv.ks, e.ms * MILLISECOND) == s.sv.ks)
      && OpenEvents(events[1..], Next(e, s, floats), floats, TimeOf(e, ms))
  }

  lemma EventVouches(e: Event, s: Session, floats: Floats, ms: int)
    requires Vouches(s.watched, s.sv) && Sane(s.sv.ks, ms * MILLISECOND) && ms <= TimeOf(e, ms)
    requires e.Serves? ==> Open(e.call, s.sv, floats)
    requires e.Sweeps? ==> StringStore.Sweep(s.sv.ks, e.ms * MILLISECOND) == s.sv.ks
    ensures var t := Next(e, s, floats); Vouches(t.watched, t.sv) && Sane(t.sv.ks, TimeOf(e, ms) * MILLISECOND)
  {
    hide At, Contents, Version, Serve, Sane, Open, Vouches;
    TimePasses(s.sv.ks, ms * MILLISECOND, TimeOf(e, ms) * MILLISECOND);
    match e
    case Watches(keys) => SaveVouches(s.watched, s.sv, keys);
    case Unwatches => NothingVouches(s.sv);
    case Serves(c) =>
      ServeVouches(s.watched, c, s.sv, floats);
      ServeSane(c, s.sv, floats);
    case Sweeps(t) => SweepVouches(s.watched, s.sv, t * MILLISECOND);
  }

  lemma NothingVouches(sv: Server)
    ensures Vouches(UNWATCHED, sv)
  {
  }

  /** WATCH safety: in every interleaving of open commands and idle sweeps with the WATCHes of a connection, if
      the check at EXEC passes then every watched key has the contents it had at its latest WATCH. */
  lemma {:induction false} PassedCheckMeansUnchanged(events: seq<Event>, s: Session, floats: Floats, ms: int)
    requires Vouches(s.watched, s.sv) && Sane(s.sv.ks, ms * MILLISECOND) && OpenEvents(events, s, floats, ms)
    ensures var t := After(events, s, floats);
      Vouches(t.watched, t.sv) && (!Dirty(t.watched, t.sv) ==> Unchanged(t.watched, t.sv))
    decreases |events|
  {
    hide At, Contents, Version, Serve, Sane, Open, Next;
    if events != [] {
      var e := events[0];
      EventVouches(e, s, floats, ms);
      PassedCheckMeansUnchanged(events[1..], Next(e, s, floats), floats, TimeOf(e, ms));
    }
  }

  /** Every watched key has the contents it had when it was watched. */
  ghost predicate Unchanged(w: Watched, sv: Server) {
    forall k :: k in w.contents ==> Contents(At(sv.ks, k)) == w.contents[k]
  }

  /** Nothing in the slot has expired or come back in between. */
  predicate SameLife(a: Slot, t: Instant, b: Slot, u: Instant) {
    && (a.entry.Some? ==> (Alive(a, t) <==> Alive(b, u)))
    && (Collected(a) ==> (Lapsed(a, t) <==> Lapsed(b, u)))
  }

  lemma VisibleIff(a: Slot, t: Instant, b: Slot, u: Instant)
    requires Contents(a) == Contents(b)
    ensures StringStore.Visible(a, t) == StringStore.Visible(b, u) <==> SameLife(a, t, b, u)
  {
  }

  /** The versions do not know deadlines. A passed check means that reads see what they saw at the latest WATCH if
      and only if no deadline of the key has come, or been put off, in between. */
  lemma PassedCheckSameValueIff(events: seq<Event>, s: Session, floats: Floats, ms: int, k: string, t: Instant,
      u: Instant)
    requires Vouches(s.watched, s.sv) && Sane(s.sv.ks, ms * MILLISECOND) && OpenEvents(events, s, floats, ms)
    requires var w := After(events, s, floats).watched; k in w.contents && w.contents[k] == Contents(At(s.sv.ks, k))
    requires !Dirty(After(events, s, floats).watched, After(events, s, floats).sv)
    ensures var a, b := At(s.sv.ks, k), At(After(events, s, floats).sv.ks, k);
      StringStore.Visible(a, t) == StringStore.Visible(b, u) <==> SameLife(a, t, b, u)
  {
    hide At, Contents, Vouches, Sane, OpenEvents, Dirty, StringStore.Visible, SameLife;
    PassedCheckMeansUnchanged(events, s, floats, ms);
    VisibleIff(At(s.sv.ks, k), t, At(After(events, s, floats).sv.ks, k), u);
  }

  // Why the other commands, and sweeps that remove something, are excluded: after each of these runs the check
  // passes, and the watched key has changed.

  const NEW_SESSION: Session := Session(Server(EMPTY, map[]), UNWATCHED)

  ghost predicate Fooled(s: Session) {
    !Dirty(s.watched, s.sv) && !Unchanged(s.watched, s.sv)
  }

  /** A step that sets a string, bumping its version. */
  lemma SetServed(k: string, v: string, sv: Server, floats: Floats, ms: int)
    ensures var sv' := Serve(Call(["SET", k, v], ms), sv, floats);
      && At(sv'.ks, k) == StringStore.Text(v, None) && sv'.versions == sv.versions[k := Version(sv.versions, k) + 1]
      && forall o :: o != k ==> At(sv'.ks, o) == At(sv.ks, o)
  {
    SetDispatch(k, v, sv.ks, floats, ms);
    hide Dispatch, At, Version;
    assert [Bump(k)][1..] == [];
    assert ApplyAll(sv.versions, [Bump(k)]) == ApplyAll(Apply(sv.versions, Bump(k)), []);
  }

  lemma HSetServed(k: string, f: string, v: string, sv: Server, floats: Floats, ms: int)
    ensures var sv' := Serve(Call(["HSET", k, f, v], ms), sv, floats);
      && At(sv'.ks, k) == HashStore.HSet(At(sv.ks, k), map[f := v]).slot
      && sv'.versions == sv.versions[k := Version(sv.versions, k) + 1]
  {
    HSetDispatch(k, f, v, sv.ks, floats, ms);
    hide Dispatch, At, Version, HashStore.HSet;
    assert [Bump(k)][1..] == [];
    assert ApplyAll(sv.versions, [Bump(k)]) == ApplyAll(Apply(sv.versions, Bump(k)), []);
  }

  /** The session after a first command, a WATCH of one key, and two more events. */
  lemma FourEvents(a: Event, k: string, b: Event, c: Event, floats: Floats)
    ensures var s := Next(a, NEW_SESSION, floats);
      var w := s.(watched := Save(s.watched, s.sv, k));
      After([a, Watches([k]), b, c], NEW_SESSION, floats) == Next(c, Next(b, w, floats), floats)
      && After([a, Watches([k]), b], NEW_SESSION, floats) == Next(b, w, floats)
  {
    hide Next, Save;
    var s := Next(a, NEW_SESSION, floats);
    WatchesOne(s, k, floats);
    var es := [a, Watches([k]), b, c];
    assert es[1..] == [Watches([k]), b, c] && es[1..][1..] == [b, c] && [b, c][1..] == [c] && [c][1..] == [];
    var fs := [a, Watches([k]), b];
    assert fs[1..] == [Watches([k]), b] && fs[1..][1..] == [b] && [b][1..] == [];
    var w := Next(Watches([k]), s, floats);
    assert After(es, NEW_SESSION, floats) == After(es[1..], s, floats) == After([b, c], w, floats);
    assert After([b, c], w, floats) == After([c], Next(b, w, floats), floats);
    assert After([c], Next(b, w, floats), floats) == After([], Next(c, Next(b, w, floats), floats), floats);
    assert After([b], w, floats) == After([], Next(b, w, floats), floats);
  }

  lemma WatchesOne(s: Session, k: string, floats: Floats)
    ensures Next(Watches([k]), s, floats) == s.(watched := Save(s.watched, s.sv, k))
  {
    hide Save;
    assert [k][1..] == [];
    assert SaveAll(s.watched, s.sv, [k]) == SaveAll(Save(s.watched, s.sv, k), s.sv, []);
  }

  /** SET k a, WATCH k, FLUSHALL, SET k b. */
  lemma FlushFoolsWatch(k: string, a: string, b: string, floats: Floats, ms: int)
    requires a != b
    ensures Fooled(After([Serves(Call(["SET", k, a], ms)), Watches([k]), Serves(Call(["FLUSHALL"], ms)),
                          Serves(Call(["SET", k, b], ms))], NEW_SESSION, floats))
  {
    hide Serve, At;
    FourEvents(Serves(Call(["SET", k, a], ms)), k, Serves(Call(["FLUSHALL"], ms)),
      Serves(Call(["SET", k, b], ms)), floats);
    hide After;
    var sv1 := Serve(Call(["SET", k, a], ms), NEW_SESSION.sv, floats);
    SetServed(k, a, NEW_SESSION.sv, floats, ms);
    var sv2 := Serve(Call(["FLUSHALL"], ms), sv1, floats);
    FlushServed(sv1, floats, ms);
    SetServed(k, b, sv2, floats, ms);
  }

  lemma FlushServed(sv: Server, floats: Floats, ms: int)
    ensures Serve(Call(["FLUSHALL"], ms), sv, floats) == Server(EMPTY, map[])
  {
    FlushAllDispatch(sv.ks, floats, ms);
    hide Dispatch;
    assert [ForgetAll][1..] == [];
    assert ApplyAll(sv.versions, [ForgetAll]) == ApplyAll(map[], []);
  }

  /** HSET k f a, WATCH k, HDEL k f, HSET k f b. */
  lemma HDelFoolsWatch(k: string, f: string, a: string, b: string, floats: Floats, ms: int)
    requires a != b
    ensures Fooled(After([Serves(Call(["HSET", k, f, a], ms)), Watches([k]), Serves(Call(["HDEL", k, f], ms)),
                          Serves(Call(["HSET", k, f, b], ms))], NEW_SESSION, floats))
  {
    hide Serve, At;
    FourEvents(Serves(Call(["HSET", k, f, a], ms)), k, Serves(Call(["HDEL", k, f], ms)),
      Serves(Call(["HSET", k, f, b], ms)), floats);
    hide After;
    var sv1 := Serve(Call(["HSET", k, f, a], ms), NEW_SESSION.sv, floats);
    HSetServed(k, f, a, NEW_SESSION.sv, floats, ms);
    EmptyAt(k);
    OneFieldHash(f, a);
    OneFieldHash(f, b);
    hide HashStore.HSet;
    var sv2 := Serve(Call(["HDEL", k, f], ms), sv1, floats);
    HDelServed(k, f, a, sv1, floats, ms);
    HSetServed(k, f, b, sv2, floats, ms);
    assert map[f := a][f] != map[f := b][f];
  }

  lemma EmptyAt(k: string)
    ensures At(EMPTY, k) == NOTHING
  {
  }

  lemma OneFieldHash(f: string, v: string)
    ensures HashStore.HSet(NOTHING, map[f := v]).slot == NOTHING.(hash := Some(map[f := v]))
  {
    var merged := HashStore.Fields(NOTHING) + map[f := v];
    assert merged == map[f := v];
    assert HashStore.HSet(NOTHING, map[f := v]).slot == NOTHING.(hash := Some(merged));
  }

  lemma HDelServed(k: string, f: string, v: string, sv: Server, floats: Floats, ms: int)
    requires At(sv.ks, k) == NOTHING.(hash := Some(map[f := v]))
    ensures var sv' := Serve(Call(["HDEL", k, f], ms), sv, floats);
      At(sv'.ks, k) == NOTHING && sv'.versions == sv.versions - {k}
  {
    hide Dispatch, At, HashStore.HDel;
    HDelDispatch(k, f, sv.ks, floats, ms);
    LastField(f, v, ms * MILLISECOND);
    assert [Forget(k)][1..] == [];
    assert ApplyAll(sv.versions, [Forget(k)]) == ApplyAll(sv.versions - {k}, []);
  }

  lemma LastField(f: string, v: string, now: Instant)
    ensures var o := HashStore.HDel(NOTHING.(hash := Some(map[f := v])), {f}, now);
      o.slot == NOTHING && o.note == Forgotten
  {
    assert map[f := v] - {f} == map[];
  }

  /** SET d v, WATCH d, SINTERSTORE d x. */
  lemma StoreFoolsWatch(d: string, v: string, x: string, floats: Floats, ms: int)
    requires d != x
    ensures Fooled(After([Serves(Call(["SET", d, v], ms)), Watches([d]), Serves(Call(["SINTERSTORE", d, x], ms))],
      NEW_SESSION, floats))
  {
    hide Serve, At;
    FourEvents(Serves(Call(["SET", d, v], ms)), d, Serves(Call(["SINTERSTORE", d, x], ms)), Unwatches, floats);
    hide After;
    var sv1 := Serve(Call(["SET", d, v], ms), NEW_SESSION.sv, floats);
    SetServed(d, v, NEW_SESSION.sv, floats, ms);
    EmptyAt(x);
    StoreServed(d, x, sv1, floats, ms);
  }

  lemma StoreServed(d: string, x: string, sv: Server, floats: Floats, ms: int)
    requires At(sv.ks, x) == NOTHING
    ensures var sv' := Serve(Call(["SINTERSTORE", d, x], ms), sv, floats);
      At(sv'.ks, d) == NOTHING && sv'.versions == sv.versions
  {
    SInterStoreDispatch(d, x, sv.ks, floats, ms);
    hide Dispatch, At;
  }

  /** SETEX k 10 a, WATCH k, a sweep eleven seconds later, SET k b. */
  lemma SweepFoolsWatch(k: string, a: string, b: string, floats: Floats, ms: int)
    requires a != b
    ensures Fooled(After([Serves(Call(["SETEX", k, "10", a], ms)), Watches([k]), Sweeps(ms + 11_000),
                          Serves(Call(["SET", k, b], ms + 11_000))], NEW_SESSION, floats))
  {
    hide Serve, At;
    FourEvents(Serves(Call(["SETEX", k, "10", a], ms)), k, Sweeps(ms + 11_000),
      Serves(Call(["SET", k, b], ms + 11_000)), floats);
    hide After;
    var sv1 := Serve(Call(["SETEX", k, "10", a], ms), NEW_SESSION.sv, floats);
    SetEXServed(k, a, NEW_SESSION.sv, floats, ms);
    var sv2 := Swept(sv1, (ms + 11_000) * MILLISECOND);
    SetServed(k, b, sv2, floats, ms + 11_000);
  }

  /** SETEX k 10 a, WATCH k, and eleven seconds without a sweep: the check passes, and GET answers differently. */
  lemma DeadlineFoolsWatch(k: string, a: string, floats: Floats, ms: int)
    ensures var s := After([Serves(Call(["SETEX", k, "10", a], ms)), Watches([k])], NEW_SESSION, floats);
      && k in s.watched.versions && !Dirty(s.watched, s.sv)
      && Get(s.sv.ks, k, ms * MILLISECOND) == Some(a) && Get(s.sv.ks, k, (ms + 11_000) * MILLISECOND) == None
  {
    hide Serve, At, Contents, Version;
    var e := Serves(Call(["SETEX", k, "10", a], ms));
    var s := Next(e, NEW_SESSION, floats);
    SetEXServed(k, a, NEW_SESSION.sv, floats, ms);
    WatchesOne(s, k, floats);
    assert [e, Watches([k])][1..] == [Watches([k])] && [Watches([k])][1..] == [];
    assert After([Watches([k])], s, floats) == After([], Next(Watches([k]), s, floats), floats);
  }

  lemma SetEXServed(k: string, v: string, sv: Server, floats: Floats, ms: int)
    ensures var sv' := Serve(Call(["SETEX", k, "10", v], ms), sv, floats);
      && At(sv'.ks, k) == StringStore.Text(v, Some(ms * MILLISECOND + 10 * SECOND))
      && sv'.versions == sv.versions[k := Version(sv.versions, k) + 1]
  {
    SetEXDispatch(k, v, sv.ks, floats, ms);
    hide Dispatch, At, Version;
    assert [Bump(k)][1..] == [];
    assert ApplyAll(sv.versions, [Bump(k)]) == ApplyAll(Apply(sv.versions, Bump(k)), []);
  }
}
