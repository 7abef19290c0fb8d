/** Storing and loading an API key's namespace list, and what that does to its access decisions. */
module ApiKeys {
  import opened Common
  import opened Namespaces

  /** The two places a stored key keeps its namespaces: the JSON metadata and a field of their own. */
  datatype Secret = Secret(metadata: seq<string>, namespaces: Option<string>)

  method ToSecret(ns: seq<string>) returns (s: Secret)
    ensures s == Stored(ns)
    ensures s.metadata == ns && s.namespaces == if ns == [] then None else Some(Join(ns))
  {
    s := Secret(ns, None);
    if |ns| > 0 {
      s := s.(namespaces := Some(Join(ns)));
    }
  }

  function Stored(ns: seq<string>): Secret {
    Secret(ns, if ns == [] then None else Some(Join(ns)))
  }

  /** The field, if it holds anything, goes before the metadata. */
  method FromSecret(s: Secret) returns (ns: seq<string>)
    ensures ns == Loaded(s)
    ensures s.namespaces == None || s.namespaces == Some("") ==> ns == s.metadata
    ensures s.namespaces != None && s.namespaces != Some("") ==> AllClean(ns) && ns == Parse(s.namespaces.value)
  {
    ns := s.metadata;
    if s.namespaces.Some? && |s.namespaces.value| > 0 {
      ns := ParseNamespaces(s.namespaces.value);
      ParsedAreClean(s.namespaces.value);
    }
  }

  function Loaded(s: Secret): seq<string> {
    if s.namespaces.Some? && s.namespaces.value != "" then Parse(s.namespaces.value) else s.metadata
  }

  function StoreAndLoad(ns: seq<string>): seq<string> {
    Loaded(Stored(ns))
  }

  // ------------------------------------------------------------------ the list

  /** The empty list and the single empty pattern print as nothing, and the metadata keeps them. */
  predicate PrintsAsNothing(ns: seq<string>) {
    ns == [] || ns == [""]
  }

  lemma LoadsWhatParses(ns: seq<string>)
    ensures StoreAndLoad(ns) == if PrintsAsNothing(ns) then ns else Parse(Join(ns))
  {
    assert Join(ns) == "" <==> PrintsAsNothing(ns);
  }

  /** A key keeps its list over storing and loading exactly when the list is clean (or is the single empty pattern). */
  lemma KeyKeepsList(ns: seq<string>)
    ensures StoreAndLoad(ns) == ns <==> AllClean(ns) || ns == [""]
  {
    LoadsWhatParses(ns);
    ParseJoin(ns);
  }

  /** What was loaded once is stored and loaded faithfully ever after. */
  lemma LoadedListIsStable(ns: seq<string>)
    ensures StoreAndLoad(StoreAndLoad(ns)) == StoreAndLoad(ns)
  {
    LoadsWhatParses(ns);
    ParsedAreClean(Join(ns));
    KeyKeepsList(StoreAndLoad(ns));
  }

  // ------------------------------------------------------------- blank lists

  /** Nothing but spaces and commas. */
  predicate Blank(p: string) {
    forall i :: 0 <= i < |p| ==> IsSpace(p[i]) || p[i] == ','
  }

  predicate AllSpace(s: string) {
    forall i :: 0 <= i < |s| ==> IsSpace(s[i])
  }

  lemma {:induction false} LeftOfSpaces(s: string)
    ensures TrimLeft(s) == "" <==> AllSpace(s)
  {
    if s != "" && IsSpace(s[0]) {
      LeftOfSpaces(s[1..]);
      assert AllSpace(s) <==> AllSpace(s[1..]) by {
        assert forall i :: 1 <= i < |s| ==> s[i] == s[1..][i - 1];
      }
    }
  }

  /** Trimming leaves nothing exactly of spaces. */
  lemma TrimsToNothing(s: string)
    ensures TrimSpace(s) == "" <==> AllSpace(s)
  {
    LeftOfSpaces(s);
    var l := TrimLeft(s);
    if l != "" {
      StartsSolid(l);
    }
  }

  /** What starts with a solid character keeps it. */
  lemma {:induction false} StartsSolid(l: string)
    requires l != "" && !IsSpace(l[0])
    ensures TrimRight(l) != ""
  {
    if IsSpace(l[|l| - 1]) {
      StartsSolid(l[..|l| - 1]);
    }
  }

  ghost predicate OnlySpaces(parts: seq<string>) {
    forall i :: 0 <= i < |parts| ==> AllSpace(parts[i])
  }

  lemma ConsSpace(c: char, t: string)
    ensures AllSpace([c] + t) <==> IsSpace(c) && AllSpace(t)
    ensures Blank([c] + t) <==> (IsSpace(c) || c == ',') && Blank(t)
  {
    var s := [c] + t;
    assert s[0] == c && forall i :: 0 <= i < |t| ==> s[i + 1] == t[i];
    assert forall i :: 1 <= i < |s| ==> s[i] == t[i - 1];
  }

  lemma {:induction false} SplitOfBlank(s: string)
    ensures OnlySpaces(Split(s)) <==> Blank(s)
  {
    if s != "" {
      var c, t := s[0], s[1..];
      var more := Split(t);
      assert s == [c] + t && more == [more[0]] + more[1..];
      SplitOfBlank(t);
      SplitCons(c, t);
      ConsSpace(c, t);
      if c == ',' {
        OnlySpacesAcross([""], more);
      } else {
        ConsSpace(c, more[0]);
        OnlySpacesAcross([[c] + more[0]], more[1..]);
        OnlySpacesAcross([more[0]], more[1..]);
        assert OnlySpaces([[c] + more[0]]) <==> AllSpace([c] + more[0]) by { OnlyOne([c] + more[0]); }
        assert OnlySpaces([more[0]]) <==> AllSpace(more[0]) by { OnlyOne(more[0]); }
      }
    }
  }

  lemma OnlyOne(part: string)
    ensures OnlySpaces([part]) <==> AllSpace(part)
  {
    assert [part][0] == part;
  }

  lemma OnlySpacesAcross(a: seq<string>, b: seq<string>)
    ensures OnlySpaces(a + b) <==> OnlySpaces(a) && OnlySpaces(b)
  {
    assert forall i :: 0 <= i < |b| ==> (a + b)[|a| + i] == b[i];
    assert forall i :: 0 <= i < |a| ==> (a + b)[i] == a[i];
  }

  lemma {:induction false} NothingLeft(parts: seq<string>)
    ensures NonEmpty(parts) == [] <==> forall i :: 0 <= i < |parts| ==> parts[i] == ""
  {
    if parts != [] {
      var k := |parts| - 1;
      NothingLeft(parts[..k]);
      assert forall i :: 0 <= i < k ==> parts[..k][i] == parts[i];
    }
  }

  /** A string parses to nothing exactly when it is blank. */
  lemma ParsesToNothing(s: string)
    ensures Parse(s) == [] <==> Blank(s)
  {
    var parts := Split(s);
    NothingLeft(TrimEach(parts));
    forall i | 0 <= i < |parts| ensures TrimEach(parts)[i] == "" <==> AllSpace(parts[i]) {
      TrimsToNothing(parts[i]);
    }
    SplitOfBlank(s);
  }

  predicate AllBlank(ns: seq<string>) {
    forall i :: 0 <= i < |ns| ==> Blank(ns[i])
  }

  lemma {:induction false} FlattenIsEmpty(lists: seq<seq<string>>)
    ensures Flatten(lists) == [] <==> forall i :: 0 <= i < |lists| ==> lists[i] == []
  {
    if lists != [] {
      FlattenIsEmpty(lists[1..]);
      assert forall i :: 1 <= i < |lists| ==> lists[i] == lists[1..][i - 1];
    }
  }

  lemma NoPieces(ns: seq<string>)
    ensures Pieces(ns) == [] <==> AllBlank(ns)
  {
    FlattenIsEmpty(ParseEach(ns));
    forall i | 0 <= i < |ns| ensures ParseEach(ns)[i] == [] <==> Blank(ns[i]) {
      ParsesToNothing(ns[i]);
    }
  }

  /** A restricted key loads as an unrestricted one exactly when its patterns are all blank, the single empty one aside. */
  lemma LoadsUnrestrictedIff(ns: seq<string>)
    requires ns != []
    ensures StoreAndLoad(ns) == [] <==> AllBlank(ns) && ns != [""]
  {
    LoadsWhatParses(ns);
    ParseJoinIsPieces(ns);
    NoPieces(ns);
  }

  // -------------------------------------------------------------- decisions

  /** A name a namespace can have: not empty, without spaces and commas. */
  predicate NamespaceName(n: string) {
    n != "" && forall i :: 0 <= i < |n| ==> !IsSpace(n[i]) && n[i] != ','
  }

  /** A pattern that stands for some namespace's name is clean. */
  lemma UsedPatternIsClean(p: string, n: string)
    requires NamespaceName(n) && Denotes(p, n)
    ensures Clean(p)
  {
    var k := |p| - 1;
    if k >= 0 && p[k] == '*' {
      assert forall i :: 0 <= i < k ==> p[i] == p[..k][i] == n[..k][i] == n[i];
    }
  }

  lemma {:induction false} FlattenHas(lists: seq<seq<string>>, i: nat, q: string)
    requires i < |lists| && q in lists[i]
    ensures q in Flatten(lists)
  {
    if i > 0 {
      FlattenHas(lists[1..], i - 1, q);
    }
  }

  /** A clean pattern is its own piece. */
  lemma CleanIsItsPiece(p: string)
    requires Clean(p)
    ensures Parse(p) == [p]
  {
    CleanIsParsed([p]);
    assert Join([p]) == p;
  }

  /** Some pattern of the list stands for the name. */
  ghost predicate Matches(ps: seq<string>, n: string) {
    exists i :: 0 <= i < |ps| && Denotes(ps[i], n)
  }

  /** Loading loses no namespace that was allowed. */
  lemma LoadingNeverNarrows(key: seq<string>, n: string)
    requires NamespaceName(n) && Allows(key, n)
    ensures Allows(StoreAndLoad(key), n)
  {
    LoadsWhatParses(key);
    if !PrintsAsNothing(key) {
      ParseJoinIsPieces(key);
      var i :| 0 <= i < |key| && Denotes(key[i], n);
      UsedPatternIsClean(key[i], n);
      CleanIsItsPiece(key[i]);
      FlattenHas(ParseEach(key), i, key[i]);
      var q := Pieces(key);
      var j :| 0 <= j < |q| && q[j] == key[i];
      assert Denotes(q[j], n);
    }
  }

  /** The name is gained by printing and parsing: all patterns are blank, or some piece of one stands for it. */
  ghost predicate Gained(key: seq<string>, n: string) {
    !PrintsAsNothing(key) && (AllBlank(key) || Matches(Pieces(key), n))
  }

  /** What a loaded key allows: exactly what is allowed by the pieces, and everything if there are none. */
  lemma LoadedDecision(key: seq<string>, n: string)
    ensures Allows(StoreAndLoad(key), n) <==> (if PrintsAsNothing(key) then Allows(key, n) else Gained(key, n))
  {
    LoadsWhatParses(key);
    if !PrintsAsNothing(key) {
      ParseJoinIsPieces(key);
      NoPieces(key);
    }
  }

  /**
   Any key, any namespace: storing and loading keeps the decision if and only if the namespace was
   allowed before, or is not gained from blank patterns or from the pieces of one.
   */
  lemma KeyKeepsDecisionIff(key: seq<string>, n: string)
    requires NamespaceName(n)
    ensures (Allows(StoreAndLoad(key), n) <==> Allows(key, n)) <==> Allows(key, n) || !Gained(key, n)
  {
    LoadedDecision(key, n);
    if Allows(key, n) {
      LoadingNeverNarrows(key, n);
    }
  }

  /** A clean key allows after loading exactly what it allowed before. */
  lemma CleanKeyKeepsDecisions(key: seq<string>, ns: string)
    requires AllClean(key)
    ensures Allows(StoreAndLoad(key), ns) <==> Allows(key, ns)
  {
    KeyKeepsList(key);
  }

  /** A key of blank patterns allows no namespace when it is made and every one when it is loaded. */
  lemma BlankKeyTurnsUnrestricted(key: seq<string>, n: string)
    requires AllBlank(key) && !PrintsAsNothing(key) && NamespaceName(n)
    ensures !Allows(key, n) && Allows(StoreAndLoad(key), n)
  {
    LoadsUnrestrictedIff(key);
    forall i | 0 <= i < |key| ensures !Denotes(key[i], n) {
      if Denotes(key[i], n) {
        UsedPatternIsClean(key[i], n);
      }
    }
  }

  /** For example, the key whose one pattern is a space. */
  lemma SpaceKeyTurnsUnrestricted(key: seq<string>, n: string)
    requires key == [" "] && n == "kube-system"
    ensures !Allows(key, n) && StoreAndLoad(key) == []
  {
    assert NamespaceName(n) && AllBlank(key);
    LoadsUnrestrictedIff(key);
    BlankKeyTurnsUnrestricted(key, n);
  }
}
