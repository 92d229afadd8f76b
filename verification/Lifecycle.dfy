/** A server's life and its restart, with the mutable store, router and log: what the run theorems say of
    the objects. */
module Lifecycle {
  import opened Prelude
  import opened Keyspaces
  import StringStore
  import opened Commands
  import opened Replay
  import opened ReplayTheorems
  import opened Deadlines
  import opened Durability
  import Mirroring
  import LateRestart
  import Crashes
  import opened Storage
  import opened Persistence
  import opened Routing

  /** What happens to a running server: commands of its clients, and ticks of the cleanup timer. */
  datatype Action = Serve(args: seq<string>, ms: int) | Tick(ms: int)

  /** Modelled commands on a clock that starts at `ms`, never goes backwards and stays before the restart. */
  predicate Timed(actions: seq<Action>, ms: int, r: Instant)
    decreases |actions|
  {
    actions != [] ==>
      var t := actions[0].ms;
      && ms <= t && Clock(t) && t * MILLISECOND <= r && (actions[0].Serve? ==> !Unmodelled(actions[0].args))
      && Timed(actions[1..], t, r)
  }

  method Act(router: Router, a: Action, ghost was: Keyspace) returns (ghost e: Event)
    requires router.store.State() == was && (a.Serve? ==> !Unmodelled(a.args))
    modifies router.store, router.aof
    ensures e.ms == a.ms && router.store.State() == Next(e, was, router.floats)
    ensures router.aof.bytes == old(router.aof.bytes) + LogBytes(Logged(e))
    ensures e.Command? ==> Served(e, was, router.floats)
  {
    hide MemoryStore.State, Commands.Dispatch, StringStore.Sweep, LogBytes, Logs, Unmodelled;
    match a {
      case Serve(args, ms) =>
        var reply, recs := router.Dispatch(args, ms);
        e := Command(args, ms, recs);
      case Tick(ms) =>
        router.store.DeleteExpired(ms * MILLISECOND);
        NothingLogged(router.aof.bytes);
        e := SweepAt(ms);
    }
  }

  lemma NothingLogged(bytes: string)
    ensures bytes + LogBytes([]) == bytes
  {
  }

  /** A life: the store ends where the run ends, and the file holds the bytes of its records. */
  method LiveThrough(router: Router, actions: seq<Action>, ms: int, r: Instant) returns (ghost run: seq<Event>)
    requires Timed(actions, ms, r)
    modifies router.store, router.aof
    ensures IsRun(run, old(router.store.State()), router.floats, ms, r)
    ensures router.store.State() == Live(run, old(router.store.State()), router.floats)
    ensures router.aof.bytes == old(router.aof.bytes) + LogBytes(LogOf(run))
    decreases |actions|
  {
    hide MemoryStore.State, Commands.Dispatch, LogBytes, Next, Served, Unmodelled;
    ghost var was, bytes := router.store.State(), router.aof.bytes;
    run := [];
    NothingLogged(bytes);
    if actions != [] {
      ghost var e := Act(router, actions[0], was);
      ghost var rest := LiveThrough(router, actions[1..], actions[0].ms, r);
      run := [e] + rest;
      assert run[0] == e && run[1..] == rest;
      LogBytesConcat(Logged(e), LogOf(rest));
      assert (bytes + LogBytes(Logged(e))) + LogBytes(LogOf(rest)) ==
        bytes + (LogBytes(Logged(e)) + LogBytes(LogOf(rest)));
    }
  }

  /** A new process replays the file into a new store. */
  method Restart(bytes: string, floats: Floats, r: Instant) returns (store: MemoryStore, error: Option<ReplayError>)
    ensures fresh(store)
    ensures var o := ReplayBytes(bytes, EMPTY, floats, r); store.State() == o.ks && error == o.error
  {
    hide MemoryStore.State, ReplayBytes;
    store := new MemoryStore();
    var n;
    n, error := ReplayFile(Some(bytes), store, floats, r);
  }

  /** The durability theorem of the objects: start an empty server, let it live, restart it from its file.
      If what the run logged stayed in the replayable fragment and its deadlines are still to come, the new
      store is the old one. If every command was harmless, or none builds on what it overwrites, every read
      after the restart answers as the old server would have, whatever deadlines have passed. */
  method LifeAndRestart(floats: Floats, actions: seq<Action>, r: Instant)
    returns (before: MemoryStore, after: MemoryStore, error: Option<ReplayError>, ghost run: seq<Event>)
    requires Timed(actions, 0, r)
    ensures IsRun(run, EMPTY, floats, 0, r) && before.State() == Live(run, EMPTY, floats)
    ensures AllRecords(LogOf(run)) && FaithfulRun(run, EMPTY, floats, r) ==>
      error.None? && after.State() == before.State()
    ensures AllRecords(LogOf(run)) && LateRestart.HarmlessRun(run, EMPTY, floats, r) ==>
      error.None? && Mirroring.ReadsAgree(before.State(), after.State(), r)
    ensures AllRecords(LogOf(run)) && LateRestart.BlindRun(run, floats) ==>
      error.None? && Mirroring.ReadsAgree(before.State(), after.State(), r)
  {
    hide MemoryStore.State, ReplayBytes, IsRun, Live, FaithfulRun, LogOf, LogBytes, Timed, AllRecords,
         LateRestart.HarmlessRun, LateRestart.BlindRun, Mirroring.ReadsAgree, Mirroring.Mirrors;
    before := new MemoryStore();
    var aof := new AOF();
    var router := new Router(before, aof, floats);
    run := LiveThrough(router, actions, 0, r);
    assert [] + LogBytes(LogOf(run)) == LogBytes(LogOf(run));
    after, error := Restart(aof.bytes, floats, r);
    if AllRecords(LogOf(run)) {
      if FaithfulRun(run, EMPTY, floats, r) {
        RestartRestores(run, floats, r);
      }
      if LateRestart.HarmlessRun(run, EMPTY, floats, r) {
        LateRestart.ReadsSurvive(run, floats, r);
      }
      if LateRestart.BlindRun(run, floats) {
        LateRestart.BlindReadsSurvive(run, floats, r);
      }
    }
  }

  /** The same with a crash that leaves only the first `n` bytes of the file: the new store is the old one
      as it was after the commands whose records are wholly in the file, or that store with the first of the
      two records of the next command applied. */
  method LifeAndCrash(floats: Floats, actions: seq<Action>, n: nat, r: Instant)
    returns (after: MemoryStore, ghost run: seq<Event>, ghost j: nat, ghost i: nat)
    requires Timed(actions, 0, r)
    ensures IsRun(run, EMPTY, floats, 0, r)
    ensures AllRecords(LogOf(run)) && FaithfulRun(run, EMPTY, floats, r) ==>
      && j <= |run| && |LogOf(run[..j])| + i == Whole(LogOf(run), Min(n, |LogBytes(LogOf(run))|))
      && i <= 1 && (i == 1 ==> j < |run| && run[j].Command? && Crashes.InTwo(run[j].args) && i < |Logged(run[j])|)
      && var mid := Live(run[..j], EMPTY, floats);
      after.State() == if i == 0 then mid else Crashes.HalfDone(run[j].args, mid, run[j].ms)
  {
    hide MemoryStore.State, ReplayBytes, IsRun, Live, FaithfulRun, LogOf, LogBytes, Timed, AllRecords, Whole,
         Crashes.InTwo, Crashes.HalfDone;
    var before := new MemoryStore();
    var aof := new AOF();
    var router := new Router(before, aof, floats);
    run := LiveThrough(router, actions, 0, r);
    assert [] + LogBytes(LogOf(run)) == LogBytes(LogOf(run));
    var m := Min(n, |aof.bytes|);
    var error;
    after, error := Restart(aof.bytes[..m], floats, r);
    j, i := 0, 0;
    if AllRecords(LogOf(run)) && FaithfulRun(run, EMPTY, floats, r) {
      j, i := Crashes.CrashRestores(run, m, floats, r);
    }
  }
}
