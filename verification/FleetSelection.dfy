/** The deletion order is total on distinct names, so the first k servers in it are one definite set. */
module FleetSelection {
  import opened Common
  import opened Sorting
  import opened FleetModel

  lemma {:induction false} StringLessTransitive(a: string, b: string, c: string)
    requires StringLess(a, b) && StringLess(b, c)
    ensures StringLess(a, c)
  {
    if a != "" && a[0] == b[0] == c[0] {
      StringLessTransitive(a[1..], b[1..], c[1..]);
    }
  }

  lemma {:induction false} StringLessTrichotomy(a: string, b: string)
    ensures !StringLess(a, a)
    ensures a != b ==> StringLess(a, b) || StringLess(b, a)
    ensures !(StringLess(a, b) && StringLess(b, a))
  {
    if a != "" {
      StringLessTrichotomy(a[1..], if b != "" then b[1..] else "");
      assert b != "" && a[0] == b[0] && a != b ==> a[1..] != b[1..] by {
        if b != "" && a[0] == b[0] && a[1..] == b[1..] {
          assert a == [a[0]] + a[1..] == b;
        }
      }
    }
  }

  /** a comes first: after a common prefix it has the smaller character, or ends. */
  ghost predicate NameFirst(a: string, b: string) {
    exists k :: NameFirstAt(a, b, k)
  }

  ghost predicate NameFirstAt(a: string, b: string, k: int) {
    0 <= k <= |a| && k < |b| && a[..k] == b[..k] && (k == |a| || a[k] < b[k])
  }

  lemma {:induction false} StringLessMeans(a: string, b: string)
    ensures StringLess(a, b) <==> NameFirst(a, b)
  {
    if a != "" && b != "" && a[0] == b[0] {
      var s, t := a[1..], b[1..];
      StringLessMeans(s, t);
      if NameFirst(s, t) {
        var k :| NameFirstAt(s, t, k);
        assert a[..k + 1] == [a[0]] + s[..k] && b[..k + 1] == [b[0]] + t[..k];
        assert NameFirstAt(a, b, k + 1);
      }
      if NameFirst(a, b) {
        var k :| NameFirstAt(a, b, k);
        assert k > 0;
        assert s[..k - 1] == a[..k][1..] && t[..k - 1] == b[..k][1..];
        assert NameFirstAt(s, t, k - 1);
      }
    } else if b != "" && (a == "" || a[0] < b[0]) {
      assert NameFirstAt(a, b, 0);
    } else {
      assert forall k :: NameFirstAt(a, b, k) && k > 0 ==> a[0] == a[..k][0] == b[..k][0] == b[0];
    }
  }

  /** Who is deleted first: fewer players; with as many, the older; and if they are as old, by name. */
  ghost predicate DeletedFirst(a: GameServer, b: GameServer) {
    || a.players < b.players
    || (a.players == b.players && a.created < b.created)
    || (a.players == b.players && a.created == b.created && NameFirst(a.name, b.name))
  }

  lemma BeforeMeans(a: GameServer, b: GameServer)
    ensures Before(a, b) <==> DeletedFirst(a, b)
  {
    StringLessMeans(a.name, b.name);
  }

  lemma BeforeTransitive(a: GameServer, b: GameServer, c: GameServer)
    requires Before(a, b) && Before(b, c)
    ensures Before(a, c)
  {
    if StringLess(a.name, b.name) && StringLess(b.name, c.name) {
      StringLessTransitive(a.name, b.name, c.name);
    }
  }

  lemma BeforeTrichotomy(a: GameServer, b: GameServer)
    ensures !Before(a, a)
    ensures a.name != b.name ==> Before(a, b) || Before(b, a)
    ensures !(Before(a, b) && Before(b, a))
  {
    StringLessTrichotomy(a.name, b.name);
    StringLessTrichotomy(b.name, a.name);
  }

  lemma BeforeIsStrictWeak()
    ensures StrictWeakOrder(Before)
  {
    forall x { BeforeTrichotomy(x, x); }
    forall x, y, z | Before(x, y) && Before(y, z) ensures Before(x, z) { BeforeTransitive(x, y, z); }
    forall x, y, z | !Before(x, y) && !Before(y, z) ensures !Before(x, z) {
      if Before(x, z) {
        BeforeTrichotomy(x, y);
        BeforeTrichotomy(y, z);
        BeforeTrichotomy(x, z);
        if Before(z, y) {
          BeforeTransitive(x, z, y);
        } else if Before(y, x) {
          BeforeTransitive(y, x, z);
        }
      }
    }
  }

  lemma EarlierIsStrictWeak()
    ensures StrictWeakOrder(Earlier)
  {
  }

  /** There is at most one set of the first k names. */
  lemma SelectionUnique(st: Store, names: set<string>, k: nat, a: set<string>, b: set<string>)
    requires names <= st.Keys
    requires IsSelection(st, names, k, a) && IsSelection(st, names, k, b)
    ensures a == b
  {
    if a != b {
      if a <= b { SubsetCardinality(a, b); }
      if b <= a { SubsetCardinality(b, a); }
      var v :| v in a && v !in b;
      var w :| w in b && w !in a;
      assert Before(st[v], st[w]) && Before(st[w], st[v]);
      BeforeTrichotomy(st[v], st[w]);
    }
  }

  /** Only the order-relevant fields matter: agreeing stores select alike. */
  lemma SelectionFrame(st: Store, st': Store, names: set<string>, k: nat, chosen: set<string>)
    requires names <= st.Keys && names <= st'.Keys
    requires forall n :: n in names ==>
      st[n].players == st'[n].players && st[n].created == st'[n].created && st[n].name == st'[n].name
    requires IsSelection(st, names, k, chosen)
    ensures IsSelection(st', names, k, chosen)
  {
  }

  /**
   Losing part of a selection and nothing else: the rest of it is exactly the selection that the
   smaller listing needs.  This is why re-selecting among half-deleted servers is harmless.
   */
  lemma SelectionShrinks(st: Store, names: set<string>, chosen: set<string>, left: set<string>)
    requires names <= st.Keys
    requires IsSelection(st, names, |chosen|, chosen)
    requires left <= names && names - chosen <= left
    ensures IsSelection(st, left, |chosen * left|, chosen * left)
    ensures |chosen * left| + |names - chosen| == |left|
  {
    assert left == (chosen * left) + (names - chosen);
  }

  lemma SameHead(s: seq<GameServer>, t: seq<GameServer>)
    requires Ordered(s, Before) && Ordered(t, Before)
    requires s != [] && t != [] && s[0] in t && t[0] in s
    requires DistinctNames(s)
    ensures s[0] == t[0]
  {
    var i :| 0 <= i < |s| && s[i] == t[0];
    var j :| 0 <= j < |t| && t[j] == s[0];
    BeforeTrichotomy(s[0], s[i]);
  }

  lemma TailOfDistinct(s: seq<GameServer>, x: GameServer)
    requires s != [] && DistinctNames(s)
    ensures x in s[1..] <==> x in s && x != s[0]
  {
    if x in s && x != s[0] {
      var i :| 0 <= i < |s| && s[i] == x;
      assert s[1..][i - 1] == x;
    }
  }

  lemma TailStaysSorted(s: seq<GameServer>)
    requires s != [] && DistinctNames(s) && Ordered(s, Before)
    ensures DistinctNames(s[1..]) && Ordered(s[1..], Before)
  {
  }

  ghost predicate SameServers(s: seq<GameServer>, t: seq<GameServer>) {
    |s| == |t| && forall x :: x in s <==> x in t
  }

  /** Two sorted arrangements of the same uniquely named servers are the same list. */
  lemma {:induction false} SortedUnique(s: seq<GameServer>, t: seq<GameServer>)
    requires Ordered(s, Before) && Ordered(t, Before)
    requires DistinctNames(s) && DistinctNames(t)
    requires SameServers(s, t)
    ensures s == t
  {
    if s != [] {
      assert s[0] in s && t[0] in t;
      SameHead(s, t);
      forall x ensures x in s[1..] <==> x in t[1..] {
        TailOfDistinct(s, x);
        TailOfDistinct(t, x);
      }
      TailStaysSorted(s);
      TailStaysSorted(t);
      SortedUnique(s[1..], t[1..]);
      assert s == [s[0]] + s[1..] && t == [t[0]] + t[1..];
    }
  }

  function NamesOf(items: seq<GameServer>): set<string> {
    set i | 0 <= i < |items| :: items[i].name
  }

  ghost predicate DistinctNames(items: seq<GameServer>) {
    forall i, j :: 0 <= i < j < |items| ==> items[i].name != items[j].name
  }

  lemma NamesCardinality(items: seq<GameServer>)
    requires DistinctNames(items)
    ensures |NamesOf(items)| == |items|
  {
    var names := seq(|items|, i requires 0 <= i < |items| => items[i].name);
    DistinctCardinality(names);
    assert NamesOf(items) == set n | n in names by {
      forall n ensures n in NamesOf(items) <==> n in names {
        if n in NamesOf(items) {
          var i :| 0 <= i < |items| && items[i].name == n;
          assert names[i] == n;
        }
      }
    }
  }

  lemma PrefixNames(s: seq<GameServer>, k: nat)
    requires k <= |s|
    ensures NamesOf(s[..k]) <= NamesOf(s)
  {
    forall v | v in NamesOf(s[..k]) ensures v in NamesOf(s) {
      var i :| 0 <= i < k && s[..k][i].name == v;
      assert s[i].name == v;
    }
  }

  lemma SortedGoBefore(sorted: seq<GameServer>)
    requires DistinctNames(sorted) && Ordered(sorted, Before)
    ensures forall i, j :: 0 <= i < j < |sorted| ==> Before(sorted[i], sorted[j])
  {
    forall i, j | 0 <= i < j < |sorted| ensures Before(sorted[i], sorted[j]) {
      BeforeTrichotomy(sorted[i], sorted[j]);
    }
  }

  /** Sorting a listing puts, for every k, the first k names into its first k places. */
  lemma SortedPrefixIsSelection(st: Store, sorted: seq<GameServer>, k: nat)
    requires DistinctNames(sorted) && Ordered(sorted, Before)
    requires forall i :: 0 <= i < |sorted| ==> sorted[i].name in st && st[sorted[i].name] == sorted[i]
    requires k <= |sorted|
    ensures IsSelection(st, NamesOf(sorted), k, NamesOf(sorted[..k]))
  {
    var names, chosen := NamesOf(sorted), NamesOf(sorted[..k]);
    SortedGoBefore(sorted);
    NamesCardinality(sorted[..k]);
    PrefixNames(sorted, k);
    assert forall j :: 0 <= j < k ==> sorted[..k][j].name in chosen;
    forall v, w | v in chosen && w in names - chosen ensures Before(st[v], st[w]) {
      var i :| 0 <= i < k && sorted[..k][i].name == v;
      var j :| 0 <= j < |sorted| && sorted[j].name == w;
      assert sorted[i].name == v;
    }
  }
}
