/** The order of sorted-set members: score first, then the member's bytes. */
module ZOrder {
  import opened Prelude

  datatype ZMember = ZMember(score: real, member: string)

  /** Go's `<` on strings. */
  predicate LexLess(a: string, b: string) {
    b != [] && (a == [] || a[0] < b[0] || (a[0] == b[0] && LexLess(a[1..], b[1..])))
  }

  /** The order of a dictionary: where two strings first differ, the one with the smaller character comes first,
      or the one that ends there. */
  lemma {:induction false} LexMeans(a: string, b: string, i: nat)
    requires i <= |a| && i <= |b| && a[..i] == b[..i] && a != b
    requires i == |a| || i == |b| || a[i] != b[i]
    ensures LexLess(a, b) <==> i < |b| && (i == |a| || a[i] < b[i])
    decreases i
  {
    if i > 0 {
      assert a[0] == a[..i][0] == b[..i][0] == b[0];
      assert a[1..][..i - 1] == a[..i][1..] && b[1..][..i - 1] == b[..i][1..];
      assert a == [a[0]] + a[1..] && b == [b[0]] + b[1..];
      LexMeans(a[1..], b[1..], i - 1);
    }
  }

  lemma {:induction false} LexTotal(a: string, b: string)
    ensures !(LexLess(a, b) && LexLess(b, a))
    ensures LexLess(a, b) || LexLess(b, a) <==> a != b
  {
    if a != [] && b != [] {
      LexTotal(a[1..], b[1..]);
      assert a == [a[0]] + a[1..] && b == [b[0]] + b[1..];
    }
  }

  lemma {:induction false} LexTransitive(a: string, b: string, c: string)
    requires LexLess(a, b) && LexLess(b, c)
    ensures LexLess(a, c)
  {
    if a != [] && a[0] == b[0] == c[0] {
      LexTransitive(a[1..], b[1..], c[1..]);
    }
  }

  /** The comparison function given to the sort. */
  predicate Below(a: ZMember, b: ZMember) {
    a.score < b.score || (a.score == b.score && LexLess(a.member, b.member))
  }

  lemma BelowTotal(a: ZMember, b: ZMember)
    ensures !(Below(a, b) && Below(b, a))
    ensures Below(a, b) || Below(b, a) <==> a != b
  {
    LexTotal(a.member, b.member);
  }

  lemma BelowTransitive(a: ZMember, b: ZMember, c: ZMember)
    requires Below(a, b) && Below(b, c)
    ensures Below(a, c)
  {
    if a.score == b.score == c.score {
      LexTransitive(a.member, b.member, c.member);
    }
  }

  predicate Ascending(s: seq<ZMember>) {
    forall i, j :: 0 <= i < j < |s| ==> Below(s[i], s[j])
  }

  function Item(z: map<string, real>, m: string): ZMember
    requires m in z
  {
    ZMember(z[m], m)
  }

  /** The pairs of a sorted set. */
  function Items(z: map<string, real>): set<ZMember> {
    set m | m in z :: Item(z, m)
  }

  /** The first member: one below all others. */
  ghost predicate IsLeast(z: map<string, real>, m: string) {
    m in z && forall o :: o in z && o != m ==> Below(Item(z, m), Item(z, o))
  }

  lemma {:induction false} LeastExists(z: map<string, real>) returns (m: string)
    requires z != map[]
    ensures IsLeast(z, m)
  {
    hide Below;
    var x :| x in z;
    var rest := z - {x};
    assert forall o :: o in rest ==> o in z && Item(rest, o) == Item(z, o);
    if rest == map[] {
      assert forall o :: o in z ==> o == x;
      return x;
    }
    assert |rest| < |z| by { assert rest.Keys < z.Keys; }
    var y := LeastExists(rest);
    BelowTotal(Item(z, x), Item(z, y));
    if Below(Item(z, y), Item(z, x)) {
      assert forall o :: o in z && o != x ==> o in rest;
      return y;
    }
    forall o | o in z && o != x ensures Below(Item(z, x), Item(z, o)) {
      assert o in rest;
      if o != y { BelowTransitive(Item(z, x), Item(z, y), Item(z, o)); }
    }
    return x;
  }

  ghost function Least(z: map<string, real>): (m: string)
    requires z != map[]
    ensures IsLeast(z, m)
  {
    assert exists m :: IsLeast(z, m) by { var m := LeastExists(z); }
    var m :| IsLeast(z, m);
    m
  }

  /** `sortedMembers`: all members in ascending order. */
  ghost function SortedMembers(z: map<string, real>): seq<ZMember> {
    if z == map[] then []
    else
      var m := Least(z);
      [Item(z, m)] + SortedMembers(z - {m})
  }

  lemma ItemsWithout(z: map<string, real>, m: string)
    requires m in z
    ensures Items(z) == Items(z - {m}) + {Item(z, m)}
    ensures |z| == |z - {m}| + 1
  {
    var rest := z - {m};
    assert z.Keys == rest.Keys + {m};
    assert forall o :: o in rest ==> Item(rest, o) == Item(z, o);
    forall x | x in Items(z) ensures x in Items(rest) + {Item(z, m)} {
      assert x.member in z && x == Item(z, x.member);
      assert x.member != m ==> x.member in rest;
    }
  }

  lemma {:induction false} SortedMembersFacts(z: map<string, real>)
    ensures Ascending(SortedMembers(z))
    ensures Elements(SortedMembers(z)) == Items(z)
    ensures |SortedMembers(z)| == |z|
  {
    if z != map[] {
      hide Below, Items;
      var m := Least(z);
      var tail := SortedMembers(z - {m});
      SortedMembersFacts(z - {m});
      ItemsWithout(z, m);
      forall j | 0 <= j < |tail| ensures Below(Item(z, m), tail[j]) {
        assert tail[j] in Elements(tail);
        ItemIn(z - {m}, tail[j]);
      }
      assert Elements([Item(z, m)] + tail) == {Item(z, m)} + Elements(tail);
    }
  }

  lemma ItemIn(z: map<string, real>, x: ZMember)
    ensures x in Items(z) <==> x.member in z && z[x.member] == x.score
  {
    if x.member in z && z[x.member] == x.score { assert x == Item(z, x.member); }
  }

  /** It is the only ascending arrangement of those members. */
  lemma {:induction false} AscendingIsUnique(s: seq<ZMember>, t: seq<ZMember>)
    requires Ascending(s) && Ascending(t) && Elements(s) == Elements(t)
    ensures s == t
  {
    assert s == [] <==> t == [] by {
      assert s != [] ==> s[0] in Elements(t);
      assert t != [] ==> t[0] in Elements(s);
    }
    if s != [] {
      AscendingHeads(s, t);
      AscendingTails(s, t);
      AscendingIsUnique(s[1..], t[1..]);
      assert s == [s[0]] + s[1..] && t == [t[0]] + t[1..];
    }
  }

  lemma AscendingHeads(s: seq<ZMember>, t: seq<ZMember>)
    requires Ascending(s) && Ascending(t) && Elements(s) == Elements(t) && s != [] && t != []
    ensures s[0] == t[0]
  {
    hide Below;
    assert s[0] in Elements(t) && t[0] in Elements(s);
    BelowTotal(s[0], t[0]);
  }

  lemma AscendingTails(s: seq<ZMember>, t: seq<ZMember>)
    requires Ascending(s) && Ascending(t) && Elements(s) == Elements(t) && s != [] && t != []
    requires s[0] == t[0]
    ensures Elements(s[1..]) == Elements(t[1..])
  {
    TailElements(s);
    TailElements(t);
  }

  lemma TailElements(s: seq<ZMember>)
    requires Ascending(s) && s != []
    ensures Elements(s[1..]) == Elements(s) - {s[0]}
  {
    hide Below;
    forall j | 0 < j < |s| ensures s[j] != s[0] { BelowTotal(s[0], s[j]); }
    assert s == [s[0]] + s[1..];
  }

  /** Any arrangement a sort could return equals `SortedMembers`. */
  lemma SortedMembersUnique(s: seq<ZMember>, z: map<string, real>)
    requires Ascending(s) && Elements(s) == Items(z)
    ensures s == SortedMembers(z)
  {
    SortedMembersFacts(z);
    AscendingIsUnique(s, SortedMembers(z));
  }
}
