/** Namespace patterns of API keys: matching, and the comma-separated form. */
module Namespaces {
  import opened Common

  // ----------------------------------------------------------------- matching

  /** What a pattern stands for: a final star for any continuation, otherwise itself. */
  ghost predicate Denotes(pattern: string, ns: string) {
    var k := |pattern| - 1;
    if k >= 0 && pattern[k] == '*' then k <= |ns| && ns[..k] == pattern[..k] else ns == pattern
  }

  function MatchNamespacePattern(pattern: string, ns: string): (r: bool)
    ensures r <==> Denotes(pattern, ns)
  {
    if pattern == "*" then true
    else if pattern != "" && pattern[|pattern| - 1] == '*' then pattern[..|pattern| - 1] <= ns
    else pattern == ns
  }

  method MatchAnyNamespace(patterns: seq<string>, ns: string) returns (r: bool)
    ensures r <==> exists i :: 0 <= i < |patterns| && Denotes(patterns[i], ns)
  {
    for i := 0 to |patterns|
      invariant forall j :: 0 <= j < i ==> !Denotes(patterns[j], ns)
    {
      if MatchNamespacePattern(patterns[i], ns) {
        return true;
      }
    }
    return false;
  }

  /** The empty list stands for every namespace. */
  ghost predicate Allows(patterns: seq<string>, ns: string) {
    patterns == [] || exists i :: 0 <= i < |patterns| && Denotes(patterns[i], ns)
  }

  method AllowsNamespace(patterns: seq<string>, ns: string) returns (r: bool)
    ensures r == Allows(patterns, ns)
  {
    if |patterns| == 0 {
      return true;
    }
    r := MatchAnyNamespace(patterns, ns);
  }

  // ------------------------------------------------------------------ strings

  /** unicode.IsSpace. */
  predicate IsSpace(c: char) {
    || '\t' <= c <= '\r' || c == ' ' || c == '\U{85}' || c == '\U{A0}' || c == '\U{1680}' || '\U{2000}' <= c <= '\U{200A}'
    || c == '\U{2028}' || c == '\U{2029}' || c == '\U{202F}' || c == '\U{205F}' || c == '\U{3000}'
  }

  function TrimLeft(s: string): (r: string)
    ensures r == "" || !IsSpace(r[0])
    ensures |r| <= |s| && r == s[|s| - |r|..]
    ensures forall i :: 0 <= i < |s| - |r| ==> IsSpace(s[i])
  {
    if s != "" && IsSpace(s[0]) then TrimLeft(s[1..]) else s
  }

  function TrimRight(s: string): (r: string)
    ensures r == "" || !IsSpace(r[|r| - 1])
    ensures r <= s
    ensures forall i :: |r| <= i < |s| ==> IsSpace(s[i])
  {
    if s != "" && IsSpace(s[|s| - 1]) then TrimRight(s[..|s| - 1]) else s
  }

  function TrimSpace(s: string): string {
    TrimRight(TrimLeft(s))
  }

  /** A character in front of a split string: a comma opens a new part, any other joins the first. */
  function Consed(c: char, parts: seq<string>): (r: seq<string>)
    requires parts != []
    ensures r != []
  {
    if c == ',' then [""] + parts else [[c] + parts[0]] + parts[1..]
  }

  /** strings.Split(s, ","): always at least one part. */
  function Split(s: string): (parts: seq<string>)
    ensures parts != []
  {
    if s == "" then [""] else Consed(s[0], Split(s[1..]))
  }

  /** strings.Join(parts, ","). */
  function Join(parts: seq<string>): string {
    if parts == [] then ""
    else if |parts| == 1 then parts[0]
    else parts[0] + "," + Join(parts[1..])
  }

  function TrimEach(parts: seq<string>): (r: seq<string>)
    ensures |r| == |parts| && forall i :: 0 <= i < |r| ==> r[i] == TrimSpace(parts[i])
  {
    seq(|parts|, i requires 0 <= i < |parts| => TrimSpace(parts[i]))
  }

  /** The parts that are not empty, in order. */
  function NonEmpty(parts: seq<string>): (r: seq<string>)
    ensures forall p :: p in r <==> p in parts && p != ""
  {
    if parts == [] then []
    else
      var k := |parts| - 1;
      NonEmpty(parts[..k]) + if parts[k] != "" then [parts[k]] else []
  }

  function Parse(s: string): seq<string> {
    NonEmpty(TrimEach(Split(s)))
  }

  method ParseNamespaces(s: string) returns (out: seq<string>)
    ensures out == Parse(s)
  {
    out := KeepTrimmed(Split(s));
  }

  /** The loop over the parts. */
  method KeepTrimmed(parts: seq<string>) returns (out: seq<string>)
    ensures out == NonEmpty(TrimEach(parts))
  {
    ghost var trimmed := TrimEach(parts);
    out := [];
    for i := 0 to |parts|
      invariant out == NonEmpty(trimmed[..i])
    {
      assert trimmed[..i + 1][..i] == trimmed[..i];
      var part := TrimSpace(parts[i]);
      if part != "" {
        out := out + [part];
      }
    }
    assert trimmed[..|parts|] == trimmed;
  }

  /** The white space of Unicode, by code point. */
  lemma SpacesAre(c: char)
    ensures IsSpace(c) <==>
      var x := c as int;
      9 <= x <= 13 || x in {0x20, 0x85, 0xA0, 0x1680, 0x2028, 0x2029, 0x202F, 0x205F, 0x3000} || 0x2000 <= x <= 0x200A
  {
  }

  // ---------------------------------------------------------------- round trip

  /** A pattern that the comma-separated form can carry: not empty, no space at either end, no comma. */
  predicate Clean(p: string) {
    p != "" && !IsSpace(p[0]) && !IsSpace(p[|p| - 1]) && ',' !in p
  }

  predicate AllClean(ps: seq<string>) {
    forall i :: 0 <= i < |ps| ==> Clean(ps[i])
  }

  lemma PartHasNoComma(s: string, i: nat, j: nat)
    requires i <= j <= |s| && ',' !in s
    ensures ',' !in s[i..j]
  {
  }

  lemma PrefixIsClean(l: string, r: string)
    requires ',' !in l && (l == "" || !IsSpace(l[0]))
    requires r <= l && (r == "" || !IsSpace(r[|r| - 1]))
    ensures r == "" || Clean(r)
  {
    PartHasNoComma(l, 0, |r|);
    assert r == l[0..|r|];
  }

  lemma TrimmedIsClean(s: string)
    requires ',' !in s
    ensures TrimSpace(s) == "" || Clean(TrimSpace(s))
  {
    var l := TrimLeft(s);
    PartHasNoComma(s, |s| - |l|, |s|);
    PrefixIsClean(l, TrimRight(l));
  }

  lemma CleanIsTrimmed(s: string)
    requires Clean(s)
    ensures TrimSpace(s) == s
  {
    assert TrimLeft(s) == s;
  }

  lemma {:induction false} NothingToDrop(ps: seq<string>)
    requires forall i :: 0 <= i < |ps| ==> ps[i] != ""
    ensures NonEmpty(ps) == ps
  {
    if ps != [] {
      NothingToDrop(ps[..|ps| - 1]);
    }
  }

  lemma NothingToTrim(ps: seq<string>)
    requires AllClean(ps)
    ensures TrimEach(ps) == ps
  {
    forall i | 0 <= i < |ps| ensures TrimSpace(ps[i]) == ps[i] {
      CleanIsTrimmed(ps[i]);
    }
  }

  /** Splitting goes character by character. */
  lemma SplitCons(c: char, t: string)
    ensures Split([c] + t) == Consed(c, Split(t))
  {
    assert ([c] + t)[1..] == t;
  }

  lemma ConsedAcross(c: char, x: seq<string>, y: seq<string>)
    requires x != []
    ensures Consed(c, x + y) == Consed(c, x) + y
  {
    assert (x + y)[0] == x[0] && (x + y)[1..] == x[1..] + y;
  }

  lemma {:induction false} PartsHaveNoComma(s: string)
    ensures forall i :: 0 <= i < |Split(s)| ==> ',' !in Split(s)[i]
  {
    if s != "" {
      PartsHaveNoComma(s[1..]);
    }
  }

  /** A comma between two strings splits them, and each goes on splitting on its own. */
  lemma {:induction false} SplitAcross(a: string, b: string)
    ensures Split(a + "," + b) == Split(a) + Split(b)
  {
    if a == "" {
      SplitCons(',', b);
      assert a + "," + b == [','] + b;
    } else {
      var t := a[1..];
      SplitAcross(t, b);
      ConsedAcross(a[0], Split(t), Split(b));
      SplitCons(a[0], t);
      SplitCons(a[0], t + "," + b);
      assert [a[0]] + t == a && [a[0]] + (t + "," + b) == a + "," + b;
    }
  }

  lemma {:induction false} JoinConsed(c: char, parts: seq<string>)
    requires parts != []
    ensures Join(Consed(c, parts)) == [c] + Join(parts)
  {
    if c != ',' && |parts| == 1 {
      assert Consed(c, parts) == [[c] + parts[0]];
    } else if c != ',' {
      assert Consed(c, parts)[1..] == parts[1..];
    } else {
      assert Consed(c, parts)[1..] == parts;
    }
  }

  /** Joining undoes splitting, on any string. */
  lemma {:induction false} JoinSplit(s: string)
    ensures Join(Split(s)) == s
  {
    if s != "" {
      JoinSplit(s[1..]);
      JoinConsed(s[0], Split(s[1..]));
    }
  }

  lemma {:induction false} SplitPart(part: string)
    requires ',' !in part
    ensures Split(part) == [part]
  {
    if part != "" {
      SplitPart(part[1..]);
      assert [part[0]] + part[1..] == part;
    }
  }

  lemma {:induction false} SplitJoin(parts: seq<string>)
    requires parts != [] && forall i :: 0 <= i < |parts| ==> ',' !in parts[i]
    ensures Split(Join(parts)) == parts
  {
    SplitPart(parts[0]);
    if |parts| > 1 {
      SplitJoin(parts[1..]);
      SplitAcross(parts[0], Join(parts[1..]));
    }
  }

  lemma {:induction false} NonEmptyAcross(a: seq<string>, b: seq<string>)
    ensures NonEmpty(a + b) == NonEmpty(a) + NonEmpty(b)
  {
    if b == [] {
      assert a + b == a;
    } else {
      var k := |b| - 1;
      NonEmptyAcross(a, b[..k]);
      assert (a + b)[..|a| + k] == a + b[..k];
    }
  }

  lemma TrimAcross(a: seq<string>, b: seq<string>)
    ensures TrimEach(a + b) == TrimEach(a) + TrimEach(b)
  {
  }

  lemma ParseAcross(a: string, b: string)
    ensures Parse(a + "," + b) == Parse(a) + Parse(b)
  {
    SplitAcross(a, b);
    TrimAcross(Split(a), Split(b));
    NonEmptyAcross(TrimEach(Split(a)), TrimEach(Split(b)));
  }

  function Flatten(lists: seq<seq<string>>): seq<string> {
    if lists == [] then [] else lists[0] + Flatten(lists[1..])
  }

  function ParseEach(ps: seq<string>): (r: seq<seq<string>>)
    ensures |r| == |ps| && forall i :: 0 <= i < |r| ==> r[i] == Parse(ps[i])
  {
    seq(|ps|, i requires 0 <= i < |ps| => Parse(ps[i]))
  }

  /** The patterns the elements of a list stand for once they have been written out and read back. */
  function Pieces(ps: seq<string>): seq<string> {
    Flatten(ParseEach(ps))
  }

  lemma PiecesCons(ps: seq<string>)
    requires ps != []
    ensures Pieces(ps) == Parse(ps[0]) + Pieces(ps[1..])
  {
    assert ParseEach(ps)[1..] == ParseEach(ps[1..]);
  }

  lemma NothingParsesToNothing(s: string)
    requires s == ""
    ensures Parse(s) == []
  {
    assert Split(s) == [s] && TrimSpace(s) == s;
    assert TrimEach([s]) == [s] && [s][..0] == [];
  }

  lemma JoinCons(ps: seq<string>)
    requires |ps| > 1
    ensures Join(ps) == ps[0] + "," + Join(ps[1..])
  {
  }

  /** Any list, clean or not: printing and parsing gives the pieces of its elements. */
  lemma {:induction false} ParseJoinIsPieces(ps: seq<string>)
    ensures Parse(Join(ps)) == Pieces(ps)
  {
    if ps == [] {
      NothingParsesToNothing(Join(ps));
    } else {
      PiecesCons(ps);
      ParseJoinIsPieces(ps[1..]);
      if |ps| == 1 {
        NothingParsesToNothing(Join(ps[1..]));
        assert Pieces(ps[1..]) == [];
      } else {
        JoinCons(ps);
        ParseAcross(ps[0], Join(ps[1..]));
      }
    }
  }

  /** Whatever is parsed is a list of clean patterns. */
  lemma ParsedAreClean(s: string)
    ensures AllClean(Parse(s))
  {
    var parts := Split(s);
    var trimmed := TrimEach(parts);
    PartsHaveNoComma(s);
    forall p | p in NonEmpty(trimmed) ensures Clean(p) {
      var i :| 0 <= i < |trimmed| && trimmed[i] == p;
      TrimmedIsClean(parts[i]);
    }
  }

  lemma CleanIsParsed(ps: seq<string>)
    requires AllClean(ps)
    ensures Parse(Join(ps)) == ps
  {
    if ps == [] {
      NothingParsesToNothing(Join(ps));
    } else {
      SplitJoin(ps);
      NothingToTrim(ps);
      NothingToDrop(ps);
    }
  }

  /** Printing and parsing a list gives it back if and only if every pattern is clean. */
  lemma ParseJoin(ps: seq<string>)
    ensures Parse(Join(ps)) == ps <==> AllClean(ps)
  {
    ParsedAreClean(Join(ps));
    if AllClean(ps) {
      CleanIsParsed(ps);
    }
  }

  /** Parsing, printing and parsing again changes nothing more. */
  lemma ParseJoinParse(s: string)
    ensures Parse(Join(Parse(s))) == Parse(s)
  {
    ParsedAreClean(s);
    ParseJoin(Parse(s));
  }
}
