/**
 * The allow-list pattern compiler and matcher of the pure-module rule.
 *
 * A pattern `s1.s2. ... .sn` compiles to a list of constraints, one per
 * segment: "the attribute reached from the node along this path is a string
 * that fully matches this segment". A node matches when it satisfies every
 * constraint. The paths and the attribute look-up follow the query engine the
 * rule hands its selector to; the selector text itself is not modelled.
 */
module Patterns {
  import opened Wrappers
  import opened Estree

  // ---------------------------------------------------------------------------
  // Attribute paths over the syntax tree
  // ---------------------------------------------------------------------------

  /** One step of an attribute path: `object`, `meta`, `property`, `name`, `type`. */
  datatype Key = Object | Meta | Property | Name | Type

  /** What an attribute look-up yields: a node or a string. */
  datatype Value = NodeValue(expr: Expr) | StringValue(str: string)

  /** One attribute access; `None` is `undefined`. Strings have none of these attributes. */
  function Get(v: Value, k: Key): Option<Value> {
    match v
    case StringValue(_) => None
    case NodeValue(e) =>
      match k
      case Object => if e.MemberExpression? then Some(NodeValue(e.obj)) else None
      case Meta => if e.MetaProperty? then Some(NodeValue(e.meta)) else None
      case Property =>
        if e.MemberExpression? || e.MetaProperty? then Some(NodeValue(e.property)) else None
      case Name =>
        if e.Identifier? || e.PrivateIdentifier? then Some(StringValue(e.name)) else None
      case Type => Some(StringValue(ExprType(e)))
  }

  /** Follows a dotted attribute path, stopping at the first missing attribute. */
  function GetPath(v: Value, path: seq<Key>): (r: Option<Value>)
    ensures v.StringValue? && path != [] ==> r.None?
    ensures r.Some? && r.value.StringValue? ==>
              (path == [] && v.StringValue?) || (path != [] && (path[|path| - 1] == Name || path[|path| - 1] == Type))
    decreases |path|
  {
    if path == [] then Some(v)
    else
      match Get(v, path[0])
      case None => None
      case Some(w) => GetPath(w, path[1..])
  }

  /** A dotted path is followed one key at a time: a path splits into any prefix and the rest. */
  lemma {:induction false} GetPathAppend(v: Value, p: seq<Key>, q: seq<Key>)
    ensures GetPath(v, p + q) == match GetPath(v, p) case None => None case Some(w) => GetPath(w, q)
    decreases |p|
  {
    if p == [] {
      assert p + q == q;
    } else {
      assert (p + q)[0] == p[0];
      assert (p + q)[1..] == p[1..] + q;
      match Get(v, p[0])
      case None =>
      case Some(w) => GetPathAppend(w, p[1..], q);
    }
  }

  // ---------------------------------------------------------------------------
  // Segments and constraints
  // ---------------------------------------------------------------------------

  /** A compiled segment: `*` becomes "one or more characters", anything else must match exactly. */
  datatype Segment = Wildcard | Literal(text: string)

  /**
   * A segment inside `^...$`, with `*` rewritten to `.+`, read as intended: `*` is the
   * wildcard and every other segment, `$` included, is matched literally.
   */
  function SegmentOf(s: string): (r: Segment)
    ensures r.Wildcard? <==> s == "*"
    ensures s == "*" ==> forall w :: SegmentMatches(r, w) <==> IsName(w)
    ensures s != "*" ==> forall w :: SegmentMatches(r, w) <==> w == s
  {
    if s == "*" then Wildcard else Literal(s)
  }

  /** Full match of a string against a compiled segment (`.` does not match a line terminator). */
  predicate SegmentMatches(s: Segment, w: string) {
    match s
    case Wildcard => IsName(w)
    case Literal(t) => w == t
  }

  datatype Constraint = Constraint(path: seq<Key>, segment: Segment)

  /** The attribute at the constraint's path is a string that matches its segment. */
  predicate Satisfies(e: Expr, c: Constraint)
    ensures Satisfies(e, c) <==> exists w :: GetPath(NodeValue(e), c.path) == Some(StringValue(w)) && SegmentMatches(c.segment, w)
    ensures Satisfies(e, c) ==> c.path != [] && (c.path[|c.path| - 1] == Name || c.path[|c.path| - 1] == Type)
  {
    match GetPath(NodeValue(e), c.path)
    case Some(StringValue(w)) => SegmentMatches(c.segment, w)
    case _ => false
  }

  /** A compound selector matches when every one of its constraints does. */
  predicate Matches(m: seq<Constraint>, e: Expr)
    ensures Matches(m, e) <==> forall i :: 0 <= i < |m| ==> Satisfies(e, m[i])
    decreases |m|
  {
    m == [] || (Satisfies(e, m[0]) && Matches(m[1..], e))
  }

  /** The constraints of a compound selector are independent of one another and of their order. */
  lemma MatchesAppend(m1: seq<Constraint>, m2: seq<Constraint>, e: Expr)
    ensures Matches(m1 + m2, e) <==> Matches(m1, e) && Matches(m2, e)
    ensures Matches(m1 + m2, e) <==> Matches(m2 + m1, e)
  {
    MatchesAllMembers(m1, e);
    MatchesAllMembers(m2, e);
    MatchesAllMembers(m1 + m2, e);
    MatchesAllMembers(m2 + m1, e);
    assert forall c :: c in m1 + m2 <==> c in m1 || c in m2;
    assert forall c :: c in m2 + m1 <==> c in m1 || c in m2;
  }

  lemma MatchesAllMembers(m: seq<Constraint>, e: Expr)
    ensures Matches(m, e) <==> forall c :: c in m ==> Satisfies(e, c)
  {
    if Matches(m, e) {
      forall c | c in m ensures Satisfies(e, c) {
        var i :| 0 <= i < |m| && m[i] == c;
      }
    }
  }

  // ---------------------------------------------------------------------------
  // Splitting a pattern on `.`
  // ---------------------------------------------------------------------------

  /** `s.split(".")`: always at least one (possibly empty) segment, none containing a dot. */
  function Split(s: string): (r: seq<string>)
    ensures |r| >= 1
    ensures forall k :: 0 <= k < |r| ==> '.' !in r[k]
    decreases |s|
  {
    if s == [] then [""]
    else
      var rest := Split(s[1..]);
      if s[0] == '.' then [""] + rest
      else [[s[0]] + rest[0]] + rest[1..]
  }

  /** `segs.join(".")`. */
  function Join(segs: seq<string>): string
    requires |segs| >= 1
    decreases |segs|
  {
    if |segs| == 1 then segs[0] else segs[0] + "." + Join(segs[1..])
  }

  /** Splitting loses nothing: joining the segments gives the pattern back. */
  lemma {:induction false} JoinSplit(s: string)
    ensures Join(Split(s)) == s
    decreases |s|
  {
    if s != [] {
      var rest := Split(s[1..]);
      JoinSplit(s[1..]);
      if s[0] == '.' {
        assert Split(s) == [""] + rest;
        assert ([""] + rest)[1..] == rest;
      } else {
        var r := [[s[0]] + rest[0]] + rest[1..];
        assert Split(s) == r;
        if |rest| == 1 {
          assert Join(r) == [s[0]] + rest[0] == [s[0]] + Join(rest);
        } else {
          assert r[1..] == rest[1..];
          assert Join(r) == [s[0]] + rest[0] + "." + Join(rest[1..]) == [s[0]] + Join(rest);
        }
        assert s == [s[0]] + s[1..];
      }
    }
  }

  lemma {:induction false} SplitNoDot(a: string)
    requires '.' !in a
    ensures Split(a) == [a]
    decreases |a|
  {
    if a != [] {
      assert '.' !in a[1..] by {
        forall k | 0 <= k < |a[1..]| ensures a[1..][k] != '.' { assert a[1..][k] == a[k + 1]; }
      }
      SplitNoDot(a[1..]);
      assert a == [a[0]] + a[1..];
    }
  }

  lemma {:induction false} SplitCons(a: string, rest: string)
    requires '.' !in a
    ensures Split(a + "." + rest) == [a] + Split(rest)
    decreases |a|
  {
    if a == [] {
      assert a + "." + rest == "." + rest;
      assert ("." + rest)[1..] == rest;
    } else {
      var s := a + "." + rest;
      assert s[0] == a[0];
      assert s[1..] == a[1..] + "." + rest;
      assert '.' !in a[1..] by {
        forall k | 0 <= k < |a[1..]| ensures a[1..][k] != '.' { assert a[1..][k] == a[k + 1]; }
      }
      SplitCons(a[1..], rest);
      assert [a[0]] + a[1..] == a;
    }
  }

  /** Joining dot-free segments and splitting again gives the same segments. */
  lemma {:induction false} SplitJoin(segs: seq<string>)
    requires |segs| >= 1
    requires forall k :: 0 <= k < |segs| ==> '.' !in segs[k]
    ensures Split(Join(segs)) == segs
    decreases |segs|
  {
    if |segs| == 1 {
      SplitNoDot(segs[0]);
    } else {
      SplitJoin(segs[1..]);
      SplitCons(segs[0], Join(segs[1..]));
      assert [segs[0]] + segs[1..] == segs;
    }
  }

  lemma SplitTwo(a: string, b: string)
    requires '.' !in a && '.' !in b
    ensures Split(a + "." + b) == [a, b]
  {
    SplitNoDot(b);
    SplitCons(a, b);
  }

  lemma SplitThree(a: string, b: string, c: string)
    requires '.' !in a && '.' !in b && '.' !in c
    ensures Split(a + "." + (b + "." + c)) == [a, b, c]
  {
    SplitTwo(b, c);
    SplitCons(a, b + "." + c);
  }

  lemma SplitFour(p: string, a: string, b: string, c: string, d: string)
    requires '.' !in a && '.' !in b && '.' !in c && '.' !in d
    requires p == a + "." + b + "." + c + "." + d
    ensures Split(p) == [a, b, c, d]
  {
    assert p == a + "." + (b + "." + (c + "." + d));
    SplitThree(b, c, d);
    SplitCons(a, b + "." + (c + "." + d));
  }

  /** `filter.startsWith("import.")`. */
  predicate IsImportPattern(filter: string) {
    |filter| >= 7 && filter[..7] == "import."
  }

  /** A pattern starts with `import.` exactly when it has two or more segments and the first is `import`. */
  lemma ImportPrefixIsFirstSegment(filter: string)
    ensures IsImportPattern(filter) <==> |Split(filter)| >= 2 && Split(filter)[0] == "import"
  {
    if IsImportPattern(filter) {
      assert filter == "import" + "." + filter[7..];
      SplitCons("import", filter[7..]);
    }
    var segs := Split(filter);
    if |segs| >= 2 && segs[0] == "import" {
      JoinSplit(filter);
      assert filter == "import" + "." + Join(segs[1..]);
    }
  }

  /** `xs.reverse()` on a list of segments. */
  function Reversed(s: seq<string>): (r: seq<string>)
    ensures |r| == |s|
    ensures forall i :: 0 <= i < |s| ==> r[i] == s[|s| - 1 - i]
  {
    if s == [] then [] else Reversed(s[1..]) + [s[0]]
  }

  // ---------------------------------------------------------------------------
  // The compiled pattern
  // ---------------------------------------------------------------------------

  /**
   * The link pushed after the segment at reversed position `j` of an `n`-segment
   * pattern: `meta` for the step into the first segment of an `import.` pattern,
   * `object` otherwise.
   */
  function LinkAt(n: nat, isImport: bool, j: nat): Key {
    if isImport && j + 2 == n then Meta else Object
  }

  /** The links accumulated before the segment at reversed position `i`. */
  function AncestryAttributes(n: nat, isImport: bool, i: nat): (r: seq<Key>)
    ensures |r| == i
  {
    seq(i, j requires 0 <= j < i => LinkAt(n, isImport, j))
  }

  /** The attribute tested at the end of the path: the first segment tests `name` (or `type` for `*`), the others `property.name`. */
  function LeafKeys(segs: seq<string>, i: nat): seq<Key>
    requires i < |segs|
  {
    if i == |segs| - 1 then [if segs[0] == "*" then Type else Name] else [Property, Name]
  }

  /** The constraint for the segment at reversed position `i`, i.e. `segs[|segs| - 1 - i]`. */
  function ConstraintAt(segs: seq<string>, isImport: bool, i: nat): Constraint
    requires i < |segs|
  {
    Constraint(AncestryAttributes(|segs|, isImport, i) + LeafKeys(segs, i), SegmentOf(segs[|segs| - 1 - i]))
  }

  function CompileSegments(segs: seq<string>, isImport: bool): (m: seq<Constraint>)
    ensures |m| == |segs|
  {
    seq(|segs|, i requires 0 <= i < |segs| => ConstraintAt(segs, isImport, i))
  }

  /** The compiled form of one allow-list entry. */
  function Compile(filter: string): seq<Constraint> {
    CompileSegments(Split(filter), IsImportPattern(filter))
  }

  /**
   * `parsePattern`: walks the reversed segments, emitting one constraint per
   * segment and growing the path of `object`/`meta` links as it goes.
   */
  method ParsePattern(filter: string) returns (m: seq<Constraint>)
    ensures m == Compile(filter)
  {
    var ancestryAttributes: seq<Key> := [];
    m := [];
    var xs := Reversed(Split(filter));
    ghost var segs := Split(filter);
    for i := 0 to |xs|
      invariant ancestryAttributes == AncestryAttributes(|xs|, IsImportPattern(filter), i)
      invariant m == Compile(filter)[..i]
    {
      var name := xs[i];
      var leaf := if i == |xs| - 1 then [if name == "*" then Type else Name] else [Property, Name];
      assert leaf == LeafKeys(segs, i);
      m := m + [Constraint(ancestryAttributes + leaf, SegmentOf(name))];
      var isMetaProperty := IsImportPattern(filter) && i == |xs| - 2;
      ancestryAttributes := ancestryAttributes + [if isMetaProperty then Meta else Object];
    }
  }

  // ---------------------------------------------------------------------------
  // The reference meaning of a pattern: a walk down the member chain
  // ---------------------------------------------------------------------------

  function NameOf(e: Expr): Option<string> {
    if e.Identifier? || e.PrivateIdentifier? then Some(e.name) else None
  }

  function PropertyOf(e: Expr): Option<Expr> {
    if e.MemberExpression? || e.MetaProperty? then Some(e.property) else None
  }

  /** The next node down the chain: the `meta` of an `import.meta`, else the `object` of a member. */
  function LinkTarget(e: Expr, viaMeta: bool): Option<Expr> {
    if viaMeta then (if e.MetaProperty? then Some(e.meta) else None)
    else (if e.MemberExpression? then Some(e.obj) else None)
  }

  predicate NameMatches(s: string, e: Expr) {
    NameOf(e).Some? && SegmentMatches(SegmentOf(s), NameOf(e).value)
  }

  /**
   * `s1. ... .sn` matches `e` when `e`'s property is named `sn` and the next node
   * down matches `s1. ... .s(n-1)`; a single segment names the node itself, except
   * `*`, which accepts any node. The step into `import` goes through `meta`.
   */
  predicate ChainMatches(segs: seq<string>, e: Expr)
    requires |segs| >= 1
    decreases |segs|
  {
    var n := |segs|;
    if n == 1 then
      if segs[0] == "*" then SegmentMatches(Wildcard, ExprType(e)) else NameMatches(segs[0], e)
    else
      && PropertyOf(e).Some?
      && NameMatches(segs[n - 1], PropertyOf(e).value)
      && var next := LinkTarget(e, n == 2 && segs[0] == "import");
         next.Some? && ChainMatches(segs[..n - 1], next.value)
  }

  function ImportLink(segs: seq<string>): bool {
    |segs| >= 2 && segs[0] == "import"
  }

  /** Prefixing every path with one link moves the whole pattern one node down. */
  lemma SatisfiesThrough(e: Expr, k: Key, c: Constraint)
    requires k == Object || k == Meta
    ensures Satisfies(e, Constraint([k] + c.path, c.segment)) <==>
            (LinkTarget(e, k == Meta).Some? && Satisfies(LinkTarget(e, k == Meta).value, c))
  {
    assert ([k] + c.path)[0] == k;
    assert ([k] + c.path)[1..] == c.path;
  }

  /** The constraints after the first are the sub-pattern's, one link deeper. */
  lemma CompileStep(segs: seq<string>, i: nat)
    requires |segs| >= 2 && 1 <= i < |segs|
    ensures var n := |segs|;
            CompileSegments(segs, ImportLink(segs))[i] ==
            Constraint([LinkAt(n, ImportLink(segs), 0)] + CompileSegments(segs[..n - 1], ImportLink(segs[..n - 1]))[i - 1].path,
                       CompileSegments(segs[..n - 1], ImportLink(segs[..n - 1]))[i - 1].segment)
  {
    var n := |segs|;
    var sub := segs[..n - 1];
    var a := AncestryAttributes(n, ImportLink(segs), i);
    var b := AncestryAttributes(n - 1, ImportLink(sub), i - 1);
    assert a == [LinkAt(n, ImportLink(segs), 0)] + b by {
      forall j | 1 <= j < i ensures a[j] == b[j - 1] {
        assert a[j] == LinkAt(n, ImportLink(segs), j);
        assert b[j - 1] == LinkAt(n - 1, ImportLink(sub), j - 1);
      }
    }
    assert LeafKeys(segs, i) == LeafKeys(sub, i - 1);
    assert segs[n - 1 - i] == sub[n - 1 - 1 - (i - 1)];
  }

  /** A one-segment pattern tests the node's own `name`, or its `type` for `*`. */
  lemma MatchesSingle(segs: seq<string>, e: Expr)
    requires |segs| == 1
    ensures Matches(CompileSegments(segs, ImportLink(segs)), e) <==> ChainMatches(segs, e)
  {
    var m := CompileSegments(segs, ImportLink(segs));
    assert m[0] == Constraint(LeafKeys(segs, 0), SegmentOf(segs[0]));
    assert Matches(m, e) <==> Satisfies(e, m[0]);
    var k := if segs[0] == "*" then Type else Name;
    assert LeafKeys(segs, 0) == [k];
    assert GetPath(NodeValue(e), [k]) == Get(NodeValue(e), k) by {
      assert [k][1..] == [];
    }
    if segs[0] == "*" {
      assert Satisfies(e, m[0]) <==> SegmentMatches(Wildcard, ExprType(e));
    } else {
      assert Satisfies(e, m[0]) <==> NameMatches(segs[0], e);
    }
  }

  /** The constraint of the last segment tests `property.name`. */
  lemma MatchesFirstConstraint(segs: seq<string>, e: Expr)
    requires |segs| >= 2
    ensures var m := CompileSegments(segs, ImportLink(segs));
            Satisfies(e, m[0]) <==> PropertyOf(e).Some? && NameMatches(segs[|segs| - 1], PropertyOf(e).value)
  {
    var m := CompileSegments(segs, ImportLink(segs));
    assert m[0] == Constraint([Property, Name], SegmentOf(segs[|segs| - 1]));
  }

  /** A pattern of two or more segments matches when its last segment does and the sub-pattern matches one link down. */
  lemma MatchesStep(segs: seq<string>, e: Expr)
    requires |segs| >= 2
    ensures var n := |segs|;
            var m := CompileSegments(segs, ImportLink(segs));
            var m' := CompileSegments(segs[..n - 1], ImportLink(segs[..n - 1]));
            var next := LinkTarget(e, n == 2 && segs[0] == "import");
            Matches(m, e) <==> Satisfies(e, m[0]) && next.Some? && Matches(m', next.value)
  {
    var n := |segs|;
    var m := CompileSegments(segs, ImportLink(segs));
    var m' := CompileSegments(segs[..n - 1], ImportLink(segs[..n - 1]));
    var k := LinkAt(n, ImportLink(segs), 0);
    assert (k == Meta) == (n == 2 && segs[0] == "import");
    var next := LinkTarget(e, k == Meta);
    forall i | 1 <= i < n
      ensures Satisfies(e, m[i]) <==> next.Some? && Satisfies(next.value, m'[i - 1])
    {
      CompileStep(segs, i);
      SatisfiesThrough(e, k, m'[i - 1]);
    }
    if Matches(m, e) {
      assert Satisfies(e, m[1]);
      forall i | 0 <= i < |m'| ensures Satisfies(next.value, m'[i]) { assert Satisfies(e, m[i + 1]); }
    }
    if Satisfies(e, m[0]) && next.Some? && Matches(m', next.value) {
      forall i | 0 <= i < |m| ensures Satisfies(e, m[i]) {
        if i > 0 { assert Satisfies(next.value, m'[i - 1]); }
      }
    }
  }

  /** The compiled constraints and the chain walk agree on every expression. */
  lemma {:induction false} CompileSegmentsMatchChain(segs: seq<string>, e: Expr)
    requires |segs| >= 1
    ensures Matches(CompileSegments(segs, ImportLink(segs)), e) <==> ChainMatches(segs, e)
    decreases |segs|
  {
    var n := |segs|;
    if n == 1 {
      MatchesSingle(segs, e);
    } else {
      var m := CompileSegments(segs, ImportLink(segs));
      var m' := CompileSegments(segs[..n - 1], ImportLink(segs[..n - 1]));
      var next := LinkTarget(e, n == 2 && segs[0] == "import");
      var first := PropertyOf(e).Some? && NameMatches(segs[n - 1], PropertyOf(e).value);
      MatchesStep(segs, e);
      MatchesFirstConstraint(segs, e);
      assert Matches(m, e) <==> first && next.Some? && Matches(m', next.value);
      assert ChainMatches(segs, e) <==> first && next.Some? && ChainMatches(segs[..n - 1], next.value);
      if next.Some? {
        CompileSegmentsMatchChain(segs[..n - 1], next.value);
      }
    }
  }

  /** What `parsePattern` builds means exactly the chain walk of the pattern's segments. */
  lemma CompileMatchesChain(filter: string, e: Expr)
    ensures Matches(Compile(filter), e) <==> ChainMatches(Split(filter), e)
  {
    ImportPrefixIsFirstSegment(filter);
    CompileSegmentsMatchChain(Split(filter), e);
  }

  // ---------------------------------------------------------------------------
  // The allow-list
  // ---------------------------------------------------------------------------

  /** `patterns.some(p => matches(node, parsePattern(p)))`. */
  function AnyMatches(patterns: seq<string>, e: Expr): (r: bool)
    ensures r <==> exists i :: 0 <= i < |patterns| && Matches(Compile(patterns[i]), e)
    decreases |patterns|
  {
    if patterns == [] then false
    else Matches(Compile(patterns[0]), e) || AnyMatches(patterns[1..], e)
  }

  lemma AllCompileMatchChain(patterns: seq<string>, e: Expr)
    ensures forall i :: 0 <= i < |patterns| ==> (Matches(Compile(patterns[i]), e) <==> ChainMatches(Split(patterns[i]), e))
  {
    forall i | 0 <= i < |patterns| { CompileMatchesChain(patterns[i], e); }
  }

  /** `isPureFunction`: some allow-list entry matches the node; an absent list is empty. */
  function IsPureFunction(node: Expr, pureFunctions: Option<seq<string>>): (r: bool)
    ensures r <==> exists i :: 0 <= i < |pureFunctions.GetOr([])| && ChainMatches(Split(pureFunctions.GetOr([])[i]), node)
  {
    AllCompileMatchChain(pureFunctions.GetOr([]), node);
    AnyMatches(pureFunctions.GetOr([]), node)
  }

  // ---------------------------------------------------------------------------
  // Properties of the pattern language
  // ---------------------------------------------------------------------------

  /** A one-segment pattern other than `*` names an unqualified identifier, never a member such as `x.pure`. */
  lemma SingleSegmentNamesIdentifier(s: string, e: Expr)
    requires '.' !in s && s != "*"
    ensures IsPureFunction(e, Some([s])) <==> NameOf(e) == Some(s)
    ensures e.MemberExpression? ==> !IsPureFunction(e, Some([s]))
  {
    SplitNoDot(s);
  }

  /**
   * `computed` is never read: `obj[prop]` is matched exactly like `obj.prop`,
   * so `x.y` exempts `x[y]()` whatever the variable `y` holds.
   */
  lemma ComputedAccessMatchesLikeDotted(obj: Expr, prop: Expr, pureFunctions: Option<seq<string>>)
    ensures IsPureFunction(MemberExpression(obj, prop, true), pureFunctions)
        <==> IsPureFunction(MemberExpression(obj, prop, false), pureFunctions)
  {
    forall segs: seq<string> | |segs| >= 1
      ensures ChainMatches(segs, MemberExpression(obj, prop, true)) <==> ChainMatches(segs, MemberExpression(obj, prop, false))
    {
    }
  }

  /** No allow-list, or an empty one, exempts nothing. */
  lemma EmptyAllowListMatchesNothing(e: Expr)
    ensures !IsPureFunction(e, None) && !IsPureFunction(e, Some([]))
  {
  }

  /** Unless the pattern starts with `*`, a match fixes the depth of the member chain: each `*` stands for exactly one level. */
  lemma {:induction false} WildcardIsOneLevel(segs: seq<string>, e: Expr)
    requires |segs| >= 1 && segs[0] != "*"
    requires ChainMatches(segs, e)
    ensures ChainLength(e) == |segs| - 1
    decreases |segs|
  {
    var n := |segs|;
    if n > 1 {
      var next := LinkTarget(e, n == 2 && segs[0] == "import");
      WildcardIsOneLevel(segs[..n - 1], next.value);
    }
  }

  /** A pattern with an empty segment (`a..b`, `x.`, or the empty string) matches no parsed expression. */
  lemma {:induction false} EmptySegmentNeverMatches(segs: seq<string>, e: Expr, k: nat)
    requires |segs| >= 1 && k < |segs| && segs[k] == ""
    requires WellFormedExpr(e)
    ensures !ChainMatches(segs, e)
    decreases |segs|
  {
    var n := |segs|;
    if n > 1 && k < n - 1 {
      var next := LinkTarget(e, n == 2 && segs[0] == "import");
      if next.Some? {
        EmptySegmentNeverMatches(segs[..n - 1], next.value, k);
      }
    }
  }

  /** A malformed entry with an empty segment compiles without failing and exempts nothing. */
  lemma MalformedPatternMatchesNothing(filter: string, e: Expr, k: nat)
    requires k < |Split(filter)| && Split(filter)[k] == ""
    requires WellFormedExpr(e)
    ensures !Matches(Compile(filter), e)
  {
    CompileMatchesChain(filter, e);
    EmptySegmentNeverMatches(Split(filter), e, k);
  }

  /**
   * The pattern `*` tests only the node's `type`, so it accepts every parsed
   * callee. (`.` rejects line terminators, and no parsed name or type has one.)
   */
  lemma StarMatchesEveryExpression(e: Expr)
    requires WellFormedExpr(e)
    ensures IsPureFunction(e, Some(["*"]))
  {
    SplitNoDot("*");
    ExprTypeIsName(e);
    assert ChainMatches(["*"], e);
    SingleEntry(e, "*");
  }

  /** A one-entry allow-list exempts exactly what its pattern's chain walk accepts. */
  lemma SingleEntry(e: Expr, p: string)
    ensures IsPureFunction(e, Some([p])) <==> ChainMatches(Split(p), e)
  {
  }

  // The test table's allow-list cases. Lemmas about a long literal pattern or
  // expression take it as a parameter fixed by a `requires`: that keeps the
  // verifier from unfolding `Split` on the literal before the proof steps in.

  /** The tests' `pure`: `pure()` is exempt, `other()` is not. */
  lemma PureExample()
    ensures IsPureFunction(Identifier("pure"), Some(["pure"]))
    ensures !IsPureFunction(Identifier("other"), Some(["pure"]))
  {
    SingleSegmentNamesIdentifier("pure", Identifier("pure"));
    SingleSegmentNamesIdentifier("pure", Identifier("other"));
  }

  /** The tests' `*.pure` exempts `x.y.pure()`. */
  lemma StarDotPureExample(p: string, e: Expr)
    requires p == "*.pure"
    requires e == MemberExpression(MemberExpression(Identifier("x"), Identifier("y"), false), Identifier("pure"), false)
    ensures IsPureFunction(e, Some([p]))
  {
    assert p == "*" + "." + "pure";
    SplitTwo("*", "pure");
    assert ["*", "pure"][..1] == ["*"];
    assert IsName("pure") && IsName("MemberExpression");
    assert ChainMatches(Split(p), e);
    SingleEntry(e, p);
  }

  /** The tests' `x.*` exempts `x.f()` but neither `f.x()` nor `x.y.f()`. */
  lemma XDotStarExample()
    ensures IsPureFunction(MemberExpression(Identifier("x"), Identifier("f"), false), Some(["x.*"]))
    ensures !IsPureFunction(MemberExpression(Identifier("f"), Identifier("x"), false), Some(["x.*"]))
    ensures !IsPureFunction(MemberExpression(MemberExpression(Identifier("x"), Identifier("y"), false), Identifier("f"), false),
                            Some(["x.*"]))
  {
    var xf := MemberExpression(Identifier("x"), Identifier("f"), false);
    var fx := MemberExpression(Identifier("f"), Identifier("x"), false);
    var xyf := MemberExpression(MemberExpression(Identifier("x"), Identifier("y"), false), Identifier("f"), false);
    SplitNoDot("*");
    SplitCons("x", "*");
    assert "x.*" == "x" + "." + "*";
    var segs := Split("x.*");
    assert segs == ["x", "*"];
    assert segs[..1] == ["x"];
    assert IsName("f");
    assert ChainMatches(segs, xf);
    assert !ChainMatches(segs, fx);
    if ChainMatches(segs, xyf) { WildcardIsOneLevel(segs, xyf); }
    SingleEntry(xf, "x.*");
    SingleEntry(fx, "x.*");
    SingleEntry(xyf, "x.*");
  }

  lemma ImportMetaSplit(p: string)
    requires p == "import.meta.pure"
    ensures Split(p) == ["import", "meta", "pure"]
  {
    assert p == "import" + "." + ("meta" + "." + "pure");
    SplitThree("import", "meta", "pure");
  }

  lemma ImportMetaChain(segs: seq<string>, good: Expr, bad: Expr)
    requires segs == ["import", "meta", "pure"]
    requires good == MemberExpression(MetaProperty(Identifier("import"), Identifier("meta")), Identifier("pure"), false)
    requires bad == MemberExpression(MemberExpression(Identifier("import"), Identifier("meta"), false), Identifier("pure"), false)
    ensures ChainMatches(segs, good)
    ensures !ChainMatches(segs, bad)
  {
    assert segs[..2] == ["import", "meta"];
    assert segs[..2][..1] == ["import"];
    assert ChainMatches(segs[..2], good.obj);
    assert !ChainMatches(segs[..2], bad.obj);
  }

  /** `import.meta.pure` steps into `import` through `meta`, so the plain member chain `import.meta.pure` is not matched. */
  lemma ImportMetaExample(p: string, good: Expr, bad: Expr)
    requires p == "import.meta.pure"
    requires good == MemberExpression(MetaProperty(Identifier("import"), Identifier("meta")), Identifier("pure"), false)
    requires bad == MemberExpression(MemberExpression(Identifier("import"), Identifier("meta"), false), Identifier("pure"), false)
    ensures IsPureFunction(good, Some([p]))
    ensures !IsPureFunction(bad, Some([p]))
  {
    ImportMetaSplit(p);
    ImportMetaChain(Split(p), good, bad);
    SingleEntry(good, p);
    SingleEntry(bad, p);
  }

  lemma ObjImportMetaChain(segs: seq<string>, e: Expr)
    requires segs == ["obj", "import", "meta", "pure"]
    requires e == MemberExpression(MemberExpression(MemberExpression(Identifier("obj"), Identifier("import"), false),
                                                    Identifier("meta"), false), Identifier("pure"), false)
    ensures ChainMatches(segs, e)
  {
    assert segs[..3] == ["obj", "import", "meta"];
    assert segs[..3][..2] == ["obj", "import"];
    assert segs[..3][..2][..1] == ["obj"];
    assert ChainMatches(segs[..3][..2], e.obj.obj);
    assert ChainMatches(segs[..3], e.obj);
  }

  lemma ObjImportMetaSplit(p: string)
    requires p == "obj.import.meta.pure"
    ensures Split(p) == ["obj", "import", "meta", "pure"]
  {
    SplitFour(p, "obj", "import", "meta", "pure");
  }

  /** `obj.import.meta.pure` does not start with `import.`, so it walks `object` links only. */
  lemma ObjImportMetaExample(p: string, e: Expr)
    requires p == "obj.import.meta.pure"
    requires e == MemberExpression(MemberExpression(MemberExpression(Identifier("obj"), Identifier("import"), false),
                                                    Identifier("meta"), false), Identifier("pure"), false)
    ensures IsPureFunction(e, Some([p]))
  {
    ObjImportMetaSplit(p);
    ObjImportMetaChain(Split(p), e);
    SingleEntry(e, p);
  }

  // ---------------------------------------------------------------------------
  // `$` in a segment, as the source compiles it
  // ---------------------------------------------------------------------------

  predicate IsWordChar(c: char) {
    ('a' <= c <= 'z') || ('A' <= c <= 'Z') || ('0' <= c <= '9') || c == '_'
  }

  /** A segment the option schema admits: `*` or one or more of `[$\w]`. */
  predicate IsSchemaSegment(s: string) {
    s == "*" || (|s| > 0 && forall i :: 0 <= i < |s| ==> IsWordChar(s[i]) || s[i] == '$')
  }

  /**
   * The regular expression `^p$` for a literal `p` left unescaped: a word
   * character matches itself and every `$` is an end-of-input anchor.
   */
  function AnchoredLiteralMatches(p: string, w: string): bool
    decreases |p|
  {
    if p == [] then w == []
    else if p[0] == '$' then w == [] && AnchoredLiteralMatches(p[1..], w)
    else w != [] && w[0] == p[0] && AnchoredLiteralMatches(p[1..], w[1..])
  }

  lemma {:induction false} AnchoredLiteralWithoutDollar(p: string, w: string)
    requires '$' !in p
    ensures AnchoredLiteralMatches(p, w) <==> w == p
    decreases |p|
  {
    if p != [] {
      assert '$' !in p[1..] by {
        forall k | 0 <= k < |p[1..]| ensures p[1..][k] != '$' { assert p[1..][k] == p[k + 1]; }
      }
      if w != [] {
        AnchoredLiteralWithoutDollar(p[1..], w[1..]);
        assert w == [w[0]] + w[1..];
        assert p == [p[0]] + p[1..];
      }
    }
  }

  /** An anchored literal matches only the text before its first `$`, and only if all that follows is `$`. */
  lemma {:induction false} AnchoredLiteralDollarsTrail(p: string, w: string)
    requires AnchoredLiteralMatches(p, w)
    ensures |w| <= |p| && p[..|w|] == w && '$' !in w
    ensures forall j :: |w| <= j < |p| ==> p[j] == '$'
    decreases |p|
  {
    if p != [] {
      if p[0] == '$' {
        AnchoredLiteralDollarsTrail(p[1..], w);
      } else {
        AnchoredLiteralDollarsTrail(p[1..], w[1..]);
        assert w == [w[0]] + w[1..];
      }
    }
  }

  /** `^segment$` with `*` turned into `.+` and nothing else escaped (the source as written). */
  function AsWrittenSegmentMatches(segment: string, w: string): (r: bool)
    requires IsSchemaSegment(segment)
    ensures '$' !in segment ==> (r <==> SegmentMatches(SegmentOf(segment), w))
  {
    if segment == "*" then IsName(w)
    else
      if '$' !in segment then AnchoredLiteralWithoutDollar(segment, w); AnchoredLiteralMatches(segment, w)
      else AnchoredLiteralMatches(segment, w)
  }

  /** A trailing `$` in an anchored literal is one more end anchor, so it changes nothing. */
  lemma {:induction false} AnchoredLiteralTrailingDollar(p: string, w: string)
    ensures AnchoredLiteralMatches(p + "$", w) <==> AnchoredLiteralMatches(p, w)
    decreases |p|
  {
    if p == [] {
      assert p + "$" == "$";
      assert "$"[1..] == [];
    } else {
      assert (p + "$")[0] == p[0];
      assert (p + "$")[1..] == p[1..] + "$";
      if p[0] == '$' {
        AnchoredLiteralTrailingDollar(p[1..], w);
      } else if w != [] {
        AnchoredLiteralTrailingDollar(p[1..], w[1..]);
      }
    }
  }

  /**
   * As written, `$` is an end anchor, and the source diverges both ways from the
   * literal reading: a segment starting with `$` (such as jQuery's `$`) matches
   * no name at all, and `x$` matches `x` but not `x$`.
   */
  lemma DollarSegmentAsWritten(segment: string, w: string)
    requires IsSchemaSegment(segment) && segment != "*" && segment[0] == '$'
    requires IsName(w)
    ensures !AsWrittenSegmentMatches(segment, w)
    ensures !AsWrittenSegmentMatches("$", "$")
    ensures AsWrittenSegmentMatches("a$", "a") && !AsWrittenSegmentMatches("a$", "a$")
  {
    if AnchoredLiteralMatches(segment, w) {
      AnchoredLiteralDollarsTrail(segment, w);
    }
    TrailingDollarAsWritten("a", "a");
    TrailingDollarAsWritten("a", "a$");
  }

  /** As written, a schema segment `p$` with no other `$` matches exactly the name `p`, never `p$`. */
  lemma TrailingDollarAsWritten(p: string, w: string)
    requires IsSchemaSegment(p + "$") && '$' !in p
    ensures AsWrittenSegmentMatches(p + "$", w) <==> w == p
  {
    assert p + "$" != "*" by { assert (p + "$")[|p|] == '$'; }
    assert '$' in p + "$" by { assert (p + "$")[|p|] == '$'; }
    AnchoredLiteralTrailingDollar(p, w);
    AnchoredLiteralWithoutDollar(p, w);
  }

  /** With every literal segment matched exactly, `$` and `$.fn` name jQuery's `$()` and `$.fn()`. */
  lemma DollarPatternsMatch()
    ensures SegmentMatches(SegmentOf("$"), "$")
    ensures IsPureFunction(Identifier("$"), Some(["$"]))
    ensures IsPureFunction(MemberExpression(Identifier("$"), Identifier("fn"), false), Some(["$.fn"]))
  {
    SingleSegmentNamesIdentifier("$", Identifier("$"));
    var e := MemberExpression(Identifier("$"), Identifier("fn"), false);
    SplitNoDot("fn");
    SplitCons("$", "fn");
    assert "$.fn" == "$" + "." + "fn";
    assert Split("$.fn") == ["$", "fn"];
    assert ["$", "fn"][..1] == ["$"];
    assert ChainMatches(["$", "fn"], e);
    SingleEntry(e, "$.fn");
  }
}
