/** The broker's two maps from a name (a channel or a pattern) to its subscribers. */
module Registries {
  type Registry<T> = map<string, set<T>>

  function Listening<T>(reg: Registry<T>, k: string): set<T> {
    if k in reg then reg[k] else {}
  }

  /** The names a subscriber is registered under. */
  function Holding<T>(reg: Registry<T>, s: T): set<string> {
    set k | k in reg && s in reg[k]
  }

  /** No name is kept without subscribers. */
  ghost predicate Tidy<T>(reg: Registry<T>) {
    forall k :: k in reg ==> reg[k] != {}
  }

  function Register<T>(reg: Registry<T>, k: string, s: T): Registry<T> {
    reg[k := Listening(reg, k) + {s}]
  }

  /** `removeFromMap`. */
  function Unregister<T>(reg: Registry<T>, k: string, s: T): Registry<T> {
    if k !in reg then reg
    else if reg[k] - {s} == {} then reg - {k}
    else reg[k := reg[k] - {s}]
  }

  /** `removeSubFromAllChannels`. */
  function UnregisterAll<T>(reg: Registry<T>, s: T): Registry<T> {
    map k | k in reg && (s !in reg[k] || reg[k] - {s} != {}) :: reg[k] - {s}
  }

  lemma RegisterHolds<T>(reg: Registry<T>, k: string, s: T, o: T)
    requires Tidy(reg)
    ensures Tidy(Register(reg, k, s))
    ensures Holding(Register(reg, k, s), o) == Holding(reg, o) + if o == s then {k} else {}
  {
  }

  lemma UnregisterHolds<T>(reg: Registry<T>, k: string, s: T, o: T)
    requires Tidy(reg)
    ensures Tidy(Unregister(reg, k, s))
    ensures Holding(Unregister(reg, k, s), o) == Holding(reg, o) - if o == s then {k} else {}
  {
    if k in reg {
      assert o in reg[k] ==> o == s || o in reg[k] - {s};
    }
  }

  lemma UnregisterAllHolds<T>(reg: Registry<T>, s: T, o: T)
    requires Tidy(reg)
    ensures Tidy(UnregisterAll(reg, s))
    ensures Holding(UnregisterAll(reg, s), o) == if o == s then {} else Holding(reg, o)
  {
    forall k | k in Holding(reg, o) && o != s ensures k in Holding(UnregisterAll(reg, s), o) {
      assert o in reg[k] - {s};
    }
  }

  /** Whom a message on a channel goes to: every subscriber of the channel, and every subscriber of a
      matching pattern, once for each such pattern. */
  function Matched<T>(patterns: Registry<T>, matches: (string, string) -> bool, channel: string): set<(string, T)> {
    set p, s | p in patterns && matches(p, channel) && s in patterns[p] :: (p, s)
  }
}
