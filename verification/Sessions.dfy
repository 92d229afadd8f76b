/** One connection's transactions: MULTI, EXEC, DISCARD, WATCH and UNWATCH. */
module Sessions {
  import opened Prelude
  import opened Decimal
  import opened Resp
  import opened RespCodec
  import opened Keyspaces
  import opened Versioning
  import opened Requests
  import opened Commands
  import opened Storage
  import opened Routing
  import opened Watch
  import PubSub

  lemma {:induction false} SerializeAppend(vs: seq<Value>, v: Value)
    ensures SerializeAll(vs + [v]) == SerializeAll(vs) + Serialize(v)
    decreases |vs|
  {
    hide Serialize;
    if vs == [] {
      assert vs + [v] == [v] && [v][1..] == [];
      assert SerializeAll([v]) == Serialize(v) + SerializeAll([]);
    } else {
      assert (vs + [v])[1..] == vs[1..] + [v];
      SerializeAppend(vs[1..], v);
    }
  }

  class Handler {
    const router: Router
    const subscriptions: PubSub.Connection
    var inMulti: bool
    var txQueue: seq<seq<string>>
    var txErrors: nat
    var watchedKeys: Versions

    /** The contents of the watched keys when their versions were saved. */
    ghost var contents: map<string, Slot>

    constructor (router: Router, subscriptions: PubSub.Connection)
      ensures this.router == router && this.subscriptions == subscriptions && Valid() && !inMulti &&
        Watching() == UNWATCHED
    {
      this.router, this.subscriptions := router, subscriptions;
      inMulti, txQueue, txErrors, watchedKeys, contents := false, [], 0, map[], map[];
    }

    /** In every reachable state no error is counted, and nothing is queued outside MULTI. */
    ghost predicate Valid()
      reads this
    {
      txErrors == 0 && (!inMulti ==> txQueue == [])
    }

    ghost function Watching(): Watched
      reads this
    {
      Watched(watchedKeys, contents)
    }

    ghost function Now(): Server
      reads router, router.store
    {
      Server(router.store.State(), router.store.keyVersion)
    }

    method HandleMulti() returns (r: Value)
      requires Valid()
      modifies this
      ensures Valid() && inMulti && Watching() == old(Watching())
      ensures r == if old(inMulti) then ERR else OK
      ensures txQueue == if old(inMulti) then old(txQueue) else []
    {
      if inMulti { return ERR; }
      inMulti, txQueue, txErrors := true, [], 0;
      return OK;
    }

    /** A command between MULTI and EXEC. */
    method Enqueue(args: seq<string>) returns (r: Value)
      requires Valid() && inMulti
      modifies this
      ensures Valid() && inMulti && txQueue == old(txQueue) + [args] && Watching() == old(Watching())
      ensures r == Simple("QUEUED")
    {
      txQueue := txQueue + [args];
      return Simple("QUEUED");
    }

    method EndTransaction()
      modifies this
      ensures Valid() && !inMulti && Watching() == UNWATCHED
    {
      inMulti, txQueue, txErrors, watchedKeys, contents := false, [], 0, map[], map[];
    }

    method HandleDiscard() returns (r: Value)
      requires Valid()
      modifies this
      ensures Valid() && !inMulti
      ensures r == if old(inMulti) then OK else ERR
      ensures Watching() == if old(inMulti) then UNWATCHED else old(Watching())
    {
      if !inMulti { return ERR; }
      EndTransaction();
      return OK;
    }

    method HandleUnwatch() returns (r: Value)
      requires Valid()
      modifies this
      ensures Valid() && inMulti == old(inMulti) && txQueue == old(txQueue) && Watching() == UNWATCHED && r == OK
    {
      watchedKeys, contents := map[], map[];
      return OK;
    }

    method HandleWatch(keys: seq<string>) returns (r: Value)
      requires Valid()
      modifies this
      ensures Valid() && inMulti == old(inMulti) && txQueue == old(txQueue)
      ensures r == if old(inMulti) || keys == [] then ERR else OK
      ensures Watching() == if old(inMulti) then old(Watching()) else SaveAll(old(Watching()), Now(), keys)
    {
      if inMulti || |keys| == 0 { return ERR; }
      ghost var w, sv := Watching(), Now();
      assert keys[0..] == keys;
      for i := 0 to |keys|
        invariant inMulti == old(inMulti) && txQueue == old(txQueue) && txErrors == 0
        invariant SaveAll(w, sv, keys) == SaveAll(Watching(), sv, keys[i..])
      {
        hide Contents, At;
        assert keys[i..][0] == keys[i] && keys[i..][1..] == keys[i + 1..];
        var n := router.KeyVersion(keys[i]);
        watchedKeys, contents := watchedKeys[keys[i] := n], contents[keys[i] := Contents(At(sv.ks, keys[i]))];
      }
      return OK;
    }

    method WatchDirty() returns (dirty: bool)
      ensures dirty == Dirty(Watching(), Now())
    {
      var todo := watchedKeys.Keys;
      while todo != {}
        invariant todo <= watchedKeys.Keys
        invariant forall k :: k in watchedKeys && k !in todo ==> Version(router.store.keyVersion, k) == watchedKeys[k]
      {
        var k :| k in todo;
        var n := router.KeyVersion(k);
        if n != watchedKeys[k] { return true; }
        todo := todo - {k};
      }
      return false;
    }

    /** One queued command. */
    method ExecuteOne(args: seq<string>, ms: int) returns (text: string, ghost v: Value)
      modifies router.store, router.aof
      ensures Now() == Serve(Call(args, ms), old(Now()), router.floats)
      ensures v == Commands.Dispatch(args, old(Now()).ks, router.floats, ms).result && text == Serialize(v)
    {
      hide MemoryStore.State, Commands.Dispatch, Serialize;
      var r, recs := router.Dispatch(args, ms);
      text := SerializeValue(r);
      v := r;
    }

    /** The queued commands one after another, and their serialized replies. `states` are the servers they find,
        and the one the last of them leaves. */
    method Execute(clock: seq<int>) returns (results: seq<string>, ghost vs: seq<Value>, ghost states: seq<Server>)
      requires |clock| == |txQueue|
      modifies router.store, router.aof
      ensures |states| == |txQueue| + 1 && states[0] == old(Now()) && states[|txQueue|] == Now()
      ensures |results| == |vs| == |txQueue|
      ensures forall i :: 0 <= i < |txQueue| ==>
        && states[i + 1] == Serve(Call(txQueue[i], clock[i]), states[i], router.floats)
        && vs[i] == Commands.Dispatch(txQueue[i], states[i].ks, router.floats, clock[i]).result
        && results[i] == Serialize(vs[i])
    {
      hide MemoryStore.State, Commands.Dispatch, Serialize, Serve, Now;
      results, vs, states := [], [], [Now()];
      for i := 0 to |txQueue|
        invariant |states| == i + 1 && states[0] == old(Now()) && states[i] == Now() && |results| == |vs| == i
        invariant forall j :: 0 <= j < i ==>
          && states[j + 1] == Serve(Call(txQueue[j], clock[j]), states[j], router.floats)
          && vs[j] == Commands.Dispatch(txQueue[j], states[j].ks, router.floats, clock[j]).result
          && results[j] == Serialize(vs[j])
      {
        ghost var v;
        var text;
        text, v := ExecuteOne(txQueue[i], clock[i]);
        results, vs, states := results + [text], vs + [v], states + [Now()];
      }
    }

    /** EXEC. When the check passes, the reply is the array of the replies to the queued commands, the i-th of
        them to the i-th command on the server its predecessors left, the first on the server the check saw. */
    method HandleExec(clock: seq<int>) returns (reply: string, ghost vs: seq<Value>, ghost states: seq<Server>)
      requires Valid() && |clock| == |txQueue| <= MAX_INT64
      modifies this, router.store, router.aof
      ensures Valid() && !inMulti
      ensures Watching() == if old(inMulti) then UNWATCHED else old(Watching())
      ensures !old(inMulti) ==> reply == Serialize(ERR) && Now() == old(Now())
      ensures old(inMulti) && Dirty(old(Watching()), old(Now())) ==>
        reply == Serialize(NullArray) && Now() == old(Now())
      ensures old(inMulti) && !Dirty(old(Watching()), old(Now())) ==>
        && |vs| == |old(txQueue)| && |states| == |vs| + 1 && reply == Serialize(Array(vs))
        && states[0] == old(Now()) && states[|vs|] == Now()
        && forall i :: 0 <= i < |vs| ==>
             && states[i + 1] == Serve(Call(old(txQueue)[i], clock[i]), states[i], router.floats)
             && vs[i] == Commands.Dispatch(old(txQueue)[i], states[i].ks, router.floats, clock[i]).result
    {
      hide MemoryStore.State, Dirty, Serve, Commands.Dispatch, Serialize;
      vs, states := [], [];
      if !inMulti {
        reply := SerializeValue(ERR);
        return;
      }
      if txErrors > 0 { assert false; } // nothing ever counts an error, so EXECABORT is never sent
      var dirty := WatchDirty();
      if dirty {
        reply := SerializeValue(NullArray);
        EndTransaction();
        return;
      }
      var results;
      results, vs, states := Execute(clock);
      reply := Wrap(results, vs);
      EndTransaction();
    }

    /** The hand-built array. */
    static method Wrap(results: seq<string>, ghost vs: seq<Value>) returns (reply: string)
      requires |vs| == |results| <= MAX_INT64
      requires forall i :: 0 <= i < |results| ==> results[i] == Serialize(vs[i])
      ensures reply == Serialize(Array(vs))
    {
      var count := Itoa(|results|);
      var body := [];
      for i := 0 to |results|
        invariant body == SerializeAll(vs[..i])
      {
        hide Serialize;
        assert vs[..i + 1] == vs[..i] + [vs[i]];
        SerializeAppend(vs[..i], vs[i]);
        body := body + results[i];
      }
      assert vs[..|vs|] == vs;
      reply := "*" + count + CRLF + body;
      assert reply == "*" + (count + CRLF + body);
    }

    /** The `switch` of the serve loop, for all but the four commands that manage subscriptions. A connection
        that has subscribed may still use transactions; everything else is refused, even inside MULTI. */
    method Receive(args: seq<string>, clock: seq<int>, ms: int)
      returns (reply: string, ghost vs: seq<Value>, ghost states: seq<Server>)
      requires Valid() && args != [] && |clock| == |txQueue| <= MAX_INT64
      requires Upper(args[0]) !in {"SUBSCRIBE", "UNSUBSCRIBE", "PSUBSCRIBE", "PUNSUBSCRIBE"}
      modifies this, router.store, router.aof
      ensures Valid()
      ensures Upper(args[0]) == "MULTI" ==>
        inMulti && Now() == old(Now()) && reply == Serialize(if old(inMulti) then ERR else OK)
      ensures Upper(args[0]) == "DISCARD" ==>
        !inMulti && Now() == old(Now()) && reply == Serialize(if old(inMulti) then OK else ERR)
      ensures Upper(args[0]) == "UNWATCH" ==>
        inMulti == old(inMulti) && txQueue == old(txQueue) && Watching() == UNWATCHED && Now() == old(Now())
      ensures Upper(args[0]) == "WATCH" ==>
        && inMulti == old(inMulti) && txQueue == old(txQueue) && Now() == old(Now())
        && Watching() == if old(inMulti) then old(Watching()) else SaveAll(old(Watching()), Now(), args[1..])
      ensures Upper(args[0]) == "EXEC" && old(inMulti) && Dirty(old(Watching()), old(Now())) ==>
        !inMulti && Now() == old(Now()) && reply == Serialize(NullArray)
      ensures Upper(args[0]) == "EXEC" && old(inMulti) && !Dirty(old(Watching()), old(Now())) ==>
        && !inMulti && |vs| == |old(txQueue)| && |states| == |vs| + 1 && reply == Serialize(Array(vs))
        && states[0] == old(Now()) && states[|vs|] == Now()
        && forall i :: 0 <= i < |vs| ==>
             && states[i + 1] == Serve(Call(old(txQueue)[i], clock[i]), states[i], router.floats)
             && vs[i] == Commands.Dispatch(old(txQueue)[i], states[i].ks, router.floats, clock[i]).result
      ensures Upper(args[0]) !in {"MULTI", "EXEC", "DISCARD", "WATCH", "UNWATCH"} ==>
        inMulti == old(inMulti) && Watching() == old(Watching())
      ensures subscriptions.sub != null && Upper(args[0]) !in {"MULTI", "EXEC", "DISCARD", "WATCH", "UNWATCH"} ==>
        txQueue == old(txQueue) && Now() == old(Now()) && reply == Serialize(ERR)
      ensures subscriptions.sub == null && old(inMulti)
              && Upper(args[0]) !in {"MULTI", "EXEC", "DISCARD", "WATCH", "UNWATCH"} ==>
        txQueue == old(txQueue) + [args] && Now() == old(Now()) && reply == Serialize(Simple("QUEUED"))
      ensures subscriptions.sub == null && !old(inMulti)
              && Upper(args[0]) !in {"MULTI", "EXEC", "DISCARD", "WATCH", "UNWATCH"} ==>
        && txQueue == [] && Now() == Serve(Call(args, ms), old(Now()), router.floats)
        && reply == Serialize(Commands.Dispatch(args, old(Now()).ks, router.floats, ms).result)
    {
      hide MemoryStore.State, Commands.Dispatch, Serialize, Upper, SaveAll, Dirty;
      vs, states := [], [];
      var name := Upper(args[0]);
      var r;
      if name == "MULTI" { r := HandleMulti(); }
      else if name == "EXEC" { reply, vs, states := HandleExec(clock); return; }
      else if name == "DISCARD" { r := HandleDiscard(); }
      else if name == "WATCH" { r := HandleWatch(args[1..]); }
      else if name == "UNWATCH" { r := HandleUnwatch(); }
      else if subscriptions.sub != null { r := ERR; }
      else if inMulti { r := Enqueue(args); }
      else {
        ghost var recs;
        r, recs := router.Dispatch(args, ms);
      }
      reply := SerializeValue(r);
    }
  }
}
