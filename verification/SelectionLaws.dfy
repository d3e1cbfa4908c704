/**
 * Which edge is taken, in terms of the graph's edges: labels compared up to case, surrounding space and
 * accelerator, suggested ids in their order, then weight and target.
 */
module SelectionLaws {
  import opened Prelude
  import opened Outcomes
  import opened Graphs
  import opened Conditions
  import opened EdgeSelection
  import opened ConditionMeaning

  // ---------------------------------------------------------------------------
  // When two labels agree
  // ---------------------------------------------------------------------------

  predicate SameLetter(c: char, d: char) {
    || c == d
    || ('A' <= c <= 'Z' && d as int == c as int + 32)
    || ('A' <= d <= 'Z' && c as int == d as int + 32)
  }

  predicate SameIgnoringCase(x: string, y: string) {
    |x| == |y| && forall i :: 0 <= i < |x| ==> SameLetter(x[i], y[i])
  }

  lemma SameLowered(x: string, y: string)
    ensures Lower(x) == Lower(y) <==> SameIgnoringCase(x, y)
  {
    var a, b := Lower(x), Lower(y);
    hide Lower;
    assert a == b <==> |a| == |b| && forall i :: 0 <= i < |a| ==> a[i] == b[i];
    forall i | 0 <= i < |x| && i < |y| ensures a[i] == b[i] <==> SameLetter(x[i], y[i]) { LetterLowered(x[i], y[i]); }
    hide SameLetter;
  }

  lemma LetterLowered(c: char, d: char)
    ensures LowerChar(c) == LowerChar(d) <==> SameLetter(c, d)
  {
  }

  /** Accelerators: "[Y] ", "Y) " and "Y - ". */
  predicate Bracketed(c: string) {
    |c| >= 3 && c[0] == '[' && c[1] != '\n' && c[2] == ']'
  }

  predicate Parenthesised(c: string) {
    |c| >= 2 && c[0] != '\n' && c[1] == ')'
  }

  predicate DashedAt(c: string, k: int) {
    1 <= k < |c| && c[0] != '\n' && c[k] == '-' && Blank(c[1..k])
  }

  /** `x` is what follows the first `k` characters and the blanks after them. */
  ghost predicate After(c: string, k: nat, x: string) {
    exists j :: k <= j <= |c| && Blank(c[k..j]) && x == c[j..] && (x == "" || !IsSpace(x[0]))
  }

  /** `x` is `c` without its accelerator. */
  ghost predicate Shorn(c: string, x: string) {
    if Bracketed(c) then After(c, 3, x)
    else if Parenthesised(c) then After(c, 2, x)
    else if exists k :: DashedAt(c, k) then exists k :: DashedAt(c, k) && After(c, k + 1, x)
    else x == c
  }

  /** `x` is what counts of the label `s`: no surrounding space, no accelerator. */
  ghost predicate Core(s: string, x: string) {
    exists p, c, q :: s == p + c + q && Blank(p) && Trim(c) && Blank(q) && Shorn(c, x)
  }

  ghost predicate SameLabel(a: string, b: string) {
    exists x, y :: Core(a, x) && Core(b, y) && SameIgnoringCase(x, y)
  }

  lemma {:induction false} LStripIs(s: string, j: nat)
    requires j <= |s| && Blank(s[..j]) && (j == |s| || !IsSpace(s[j]))
    ensures LStrip(s) == s[j..]
  {
    if j > 0 {
      assert s[0] == s[..j][0];
      assert s[1..][..j - 1] == s[..j][1..];
      LStripIs(s[1..], j - 1);
      assert s[1..][j - 1..] == s[j..];
    }
  }

  lemma {:induction false} LStripDrops(s: string)
    ensures Blank(s[..|s| - |LStrip(s)|])
  {
    if s != "" && IsSpace(s[0]) {
      LStripDrops(s[1..]);
      var n := |s| - |LStrip(s)|;
      forall i | 0 <= i < n ensures IsSpace(s[..n][i]) {
        if i > 0 { assert s[..n][i] == s[1..][..n - 1][i - 1]; }
      }
    }
  }

  lemma {:induction false} RStripDrops(s: string)
    ensures Blank(s[|RStrip(s)|..])
  {
    if s != "" && IsSpace(s[|s| - 1]) {
      var m := |s| - 1;
      RStripDrops(s[..m]);
      var n := |RStrip(s)|;
      forall i | 0 <= i < |s[n..]| ensures IsSpace(s[n..][i]) {
        if n + i < m { assert s[n..][i] == s[..m][n..][i]; }
      }
    }
  }

  /** Every text is a trimmed one between blanks. */
  lemma StripParts(s: string)
    ensures exists p, q :: s == p + Strip(s) + q && Blank(p) && Trim(Strip(s)) && Blank(q)
  {
    hide LStrip;
    hide RStrip;
    hide Blank;
    hide IsSpace;
    var l := LStrip(s);
    var r := RStrip(l);
    LStripDrops(s);
    RStripDrops(l);
    var p, q := s[..|s| - |l|], l[|r|..];
    assert l == r + q && s == p + r + q;
    if r != "" { assert r[0] == l[0]; }
  }

  lemma SpaceLowered(c: char)
    ensures IsSpace(LowerChar(c)) == IsSpace(c)
  {
  }

  lemma {:induction false} LowerSuffix(c: string, j: nat)
    requires j <= |c|
    ensures Lower(c)[j..] == Lower(c[j..])
  {
    if j > 0 {
      LowerSuffix(c[1..], j - 1);
      assert c[1..][j - 1..] == c[j..];
      assert Lower(c) == [LowerChar(c[0])] + Lower(c[1..]);
      assert Lower(c)[j..] == Lower(c[1..])[j - 1..];
    }
  }

  lemma BlankLowered(t: string, n: nat)
    requires n <= |t| && Blank(t[..n])
    ensures Blank(Lower(t)[..n])
  {
    hide Lower;
    hide LowerChar;
    hide IsSpace;
    var front := Lower(t)[..n];
    forall i | 0 <= i < |front| ensures IsSpace(front[i]) {
      SpaceLowered(t[i]);
      assert IsSpace(t[..n][i]);
    }
  }

  lemma LoweredAfter(t: string, n: nat)
    requires n <= |t| && Blank(t[..n]) && (n == |t| || !IsSpace(t[n]))
    ensures LStrip(Lower(t)) == Lower(t[n..])
  {
    hide Lower;
    hide LStrip;
    hide IsSpace;
    hide LowerChar;
    hide Blank;
    LowerSuffix(t, n);
    BlankLowered(t, n);
    if n < |t| { SpaceLowered(t[n]); }
    LStripIs(Lower(t), n);
  }

  lemma AfterIs(c: string, k: nat, x: string)
    requires k <= |c| && After(c, k, x)
    ensures LStrip(Lower(c)[k..]) == Lower(x)
  {
    hide Lower;
    hide LStrip;
    hide IsSpace;
    hide Blank;
    var j :| k <= j <= |c| && Blank(c[k..j]) && x == c[j..] && (x == "" || !IsSpace(x[0]));
    hide After;
    var t, n := c[k..], j - k;
    assert t[n..] == x && t[..n] == c[k..j];
    assert n < |t| ==> t[n] == x[0];
    LowerSuffix(c, k);
    LoweredAfter(t, n);
  }

  lemma AfterExists(c: string, k: nat)
    requires k <= |c|
    ensures exists x :: After(c, k, x)
  {
    var t := c[k..];
    var x := LStrip(t);
    LStripDrops(t);
    var j := |c| - |x|;
    assert c[k..j] == t[..|t| - |x|] && x == c[j..];
    assert After(c, k, x);
  }

  lemma ShornExists(c: string)
    ensures exists x :: Shorn(c, x)
  {
    hide After;
    if Bracketed(c) {
      AfterExists(c, 3);
      var x :| After(c, 3, x);
      assert Shorn(c, x);
    } else if Parenthesised(c) {
      AfterExists(c, 2);
      var x :| After(c, 2, x);
      assert Shorn(c, x);
    } else if k :| DashedAt(c, k) {
      AfterExists(c, k + 1);
      var x :| After(c, k + 1, x);
      assert Shorn(c, x);
    } else {
      assert Shorn(c, c);
    }
  }

  lemma CoreExists(s: string)
    ensures exists x :: Core(s, x)
  {
    hide Shorn;
    StripParts(s);
    var p, q :| s == p + Strip(s) + q && Blank(p) && Trim(Strip(s)) && Blank(q);
    ShornExists(Strip(s));
    var x :| Shorn(Strip(s), x);
    assert Core(s, x);
  }

  lemma ShapeLowered(c: string)
    ensures Bracketed(Lower(c)) == Bracketed(c) && Parenthesised(Lower(c)) == Parenthesised(c)
    ensures forall k :: DashedAt(Lower(c), k) == DashedAt(c, k)
  {
    var l := Lower(c);
    hide Lower;
    forall k ensures DashedAt(l, k) == DashedAt(c, k) {
      if 1 <= k < |c| {
        forall i | 0 <= i < k - 1 ensures IsSpace(l[1..k][i]) == IsSpace(c[1..k][i]) { assert l[i + 1] == LowerChar(c[i + 1]); }
      }
    }
  }

  /** The dash form, found by skipping blanks. */
  lemma DashIs(c: string, k: int)
    requires DashedAt(c, k)
    ensures SkipSpaces(c[1..]) == c[k..]
  {
    assert c[1..][..k - 1] == c[1..k];
    LStripIs(c[1..], k - 1);
    assert c[1..][k - 1..] == c[k..];
  }

  lemma DashFound(c: string)
    requires |c| >= 2 && c[0] != '\n' && SkipSpaces(c[1..]) != "" && SkipSpaces(c[1..])[0] == '-'
    ensures exists k :: DashedAt(c, k)
  {
    var t := c[1..];
    LStripDrops(t);
    var k := |c| - |LStrip(t)|;
    assert c[1..k] == t[..|t| - |LStrip(t)|];
    assert DashedAt(c, k);
  }

  lemma BracketAccelerator(l: string)
    requires Bracketed(l)
    ensures StripAccelerator(l) == LStrip(l[3..])
  {
    hide LStrip;
  }

  lemma ParenthesisAccelerator(l: string)
    requires !Bracketed(l) && Parenthesised(l)
    ensures StripAccelerator(l) == LStrip(l[2..])
  {
    hide LStrip;
  }

  lemma DashAccelerator(l: string, k: int)
    requires !Bracketed(l) && !Parenthesised(l) && DashedAt(l, k)
    ensures StripAccelerator(l) == LStrip(l[k + 1..])
  {
    DashIs(l, k);
    hide LStrip;
    assert l[k..][1..] == l[k + 1..];
  }

  lemma NoAccelerator(l: string)
    requires !Bracketed(l) && !Parenthesised(l) && forall k :: !DashedAt(l, k)
    ensures StripAccelerator(l) == l
  {
    hide LStrip;
    if |l| >= 2 && l[0] != '\n' && SkipSpaces(l[1..]) != "" && SkipSpaces(l[1..])[0] == '-' {
      DashFound(l);
    }
  }

  /** Removing the accelerator of a lowered text. */
  lemma ShornIs(c: string, x: string)
    requires Shorn(c, x)
    ensures StripAccelerator(Lower(c)) == Lower(x)
  {
    hide Lower;
    hide LStrip;
    hide StripAccelerator;
    hide After;
    ShapeLowered(c);
    var l := Lower(c);
    if Bracketed(c) {
      BracketAccelerator(l);
      AfterIs(c, 3, x);
    } else if Parenthesised(c) {
      ParenthesisAccelerator(l);
      AfterIs(c, 2, x);
    } else if exists k :: DashedAt(c, k) {
      var k :| DashedAt(c, k) && After(c, k + 1, x);
      assert DashedAt(l, k);
      DashAccelerator(l, k);
      AfterIs(c, k + 1, x);
    } else {
      NoAccelerator(l);
    }
  }

  lemma ShornIsTrim(c: string, x: string)
    requires Trim(c) && Shorn(c, x)
    ensures Trim(x)
  {
    if x != c {
      var k, j :| 0 <= k <= j <= |c| && Blank(c[k..j]) && x == c[j..] && (x == "" || !IsSpace(x[0]));
      if x != "" { assert x[|x| - 1] == c[|c| - 1]; }
    }
  }

  lemma LowerIsTrim(x: string)
    requires Trim(x)
    ensures Strip(Lower(x)) == Lower(x)
  {
    hide Lower;
    hide LowerChar;
    hide IsSpace;
    hide Strip;
    var l := Lower(x);
    if x != "" {
      SpaceLowered(x[0]);
      SpaceLowered(x[|x| - 1]);
    }
    assert Trim(l);
    StripPadded("", l, "");
    assert "" + l + "" == l;
  }

  /** What normalization makes of a label. */
  lemma CoreIs(s: string, x: string)
    requires Core(s, x)
    ensures NormalizeLabel(s) == Lower(x)
  {
    hide Shorn;
    hide StripAccelerator;
    hide Lower;
    var p, c, q :| s == p + c + q && Blank(p) && Trim(c) && Blank(q) && Shorn(c, x);
    StripPadded(p, c, q);
    hide Strip;
    ShornIs(c, x);
    ShornIsTrim(c, x);
    LowerIsTrim(x);
  }

  /** The engine takes two labels for the same exactly when they agree up to case, surrounding space and accelerator. */
  lemma LabelsAgreeExactly(a: string, b: string)
    ensures NormalizeLabel(a) == NormalizeLabel(b) <==> SameLabel(a, b)
  {
    hide NormalizeLabel;
    hide Core;
    hide Lower;
    CoreExists(a);
    CoreExists(b);
    var x, y :| Core(a, x) && Core(b, y);
    CoreIs(a, x);
    CoreIs(b, y);
    SameLowered(x, y);
    if SameLabel(a, b) {
      var v, w :| Core(a, v) && Core(b, w) && SameIgnoringCase(v, w);
      CoreIs(a, v);
      CoreIs(b, w);
      SameLowered(v, w);
    }
  }

  // ---------------------------------------------------------------------------
  // Numerals and the order of ids
  // ---------------------------------------------------------------------------

  predicate Digits(t: string) {
    forall i :: 0 <= i < |t| ==> '0' <= t[i] <= '9'
  }

  function ValueOf(t: string): nat
    requires Digits(t)
  {
    if t == "" then 0 else 10 * ValueOf(t[..|t| - 1]) + (t[|t| - 1] as int - '0' as int)
  }

  /** The usual decimal text of `n`: no leading zeros, a minus sign in front where it is negative. */
  predicate Numeral(t: string, n: int) {
    if n < 0 then t != "" && t[0] == '-' && Plainly(t[1..], -n) else Plainly(t, n)
  }

  predicate Plainly(t: string, n: nat) {
    t != "" && Digits(t) && (|t| > 1 ==> t[0] != '0') && ValueOf(t) == n
  }

  lemma {:induction false} PlainlyExactly(t: string, n: nat)
    ensures Plainly(t, n) <==> t == DecimalNat(n)
    decreases n
  {
    DecimalIsPlain(n);
    if Plainly(t, n) { PlainIsDecimal(t, n); }
    hide DecimalNat;
    hide Plainly;
  }

  lemma {:induction false} DecimalIsPlain(n: nat)
    ensures Plainly(DecimalNat(n), n) && (n > 0 ==> DecimalNat(n)[0] != '0')
  {
    var t := DecimalNat(n);
    if n < 10 {
      assert t == [Digit(n)] && t[..0] == "";
    } else {
      DecimalIsPlain(n / 10);
      var front := DecimalNat(n / 10);
      assert t == front + [Digit(n % 10)] && t[..|t| - 1] == front;
    }
  }

  lemma {:induction false} PlainIsDecimal(t: string, n: nat)
    requires Plainly(t, n)
    ensures t == DecimalNat(n)
  {
    var m := |t| - 1;
    var last := t[m] as int - '0' as int;
    assert t == t[..m] + [t[m]];
    if m == 0 {
      assert t[..m] == "";
    } else {
      NotZero(t[..m]);
      assert n == 10 * ValueOf(t[..m]) + last;
      assert n / 10 == ValueOf(t[..m]) && n % 10 == last;
      PlainIsDecimal(t[..m], n / 10);
    }
  }

  lemma {:induction false} NotZero(t: string)
    requires t != "" && Digits(t) && t[0] != '0'
    ensures ValueOf(t) > 0
  {
    if |t| > 1 { NotZero(t[..|t| - 1]); }
  }

  lemma NumeralExactly(t: string, n: int)
    ensures Numeral(t, n) <==> t == Decimal(n)
  {
    if n < 0 {
      if t != "" {
        PlainlyExactly(t[1..], -n);
        assert t == [t[0]] + t[1..];
      }
    } else {
      PlainlyExactly(t, n);
    }
    hide Plainly;
    hide DecimalNat;
  }

  /** Dictionary order: a beginning of it, or less at the first difference. */
  ghost predicate Before(a: string, b: string) {
    a <= b || exists k :: 0 <= k < |a| && k < |b| && a[..k] == b[..k] && a[k] < b[k]
  }

  lemma BeforeAfterSame(a: string, b: string)
    requires a != "" && b != "" && a[0] == b[0]
    ensures Before(a, b) <==> Before(a[1..], b[1..])
  {
    var x, y := a[1..], b[1..];
    assert a <= b <==> x <= y;
    if k :| 0 <= k < |x| && k < |y| && x[..k] == y[..k] && x[k] < y[k] {
      assert a[..k + 1] == [a[0]] + x[..k] && b[..k + 1] == [b[0]] + y[..k];
      assert a[k + 1] < b[k + 1];
    }
    if k :| 0 <= k < |a| && k < |b| && a[..k] == b[..k] && a[k] < b[k] {
      assert x[..k - 1] == a[..k][1..] && y[..k - 1] == b[..k][1..];
      assert x[k - 1] < y[k - 1];
    }
  }

  lemma BeforeAtFirst(a: string, b: string)
    requires a != "" && b != "" && a[0] != b[0]
    ensures Before(a, b) <==> a[0] < b[0]
  {
    if a[0] < b[0] { assert a[..0] == b[..0]; }
    forall k | 0 < k <= |a| && k <= |b| ensures a[..k] != b[..k] { assert a[..k][0] != b[..k][0]; }
  }

  lemma {:induction false} LexIsBefore(a: string, b: string)
    ensures LexLe(a, b) <==> Before(a, b)
  {
    if a != "" && b != "" {
      if a[0] == b[0] {
        LexIsBefore(a[1..], b[1..]);
        BeforeAfterSame(a, b);
      } else {
        BeforeAtFirst(a, b);
      }
      hide Before;
    }
  }

  // ---------------------------------------------------------------------------
  // The ladder, rung by rung
  // ---------------------------------------------------------------------------

  /** An edge that any outcome may take. */
  predicate Open(e: Edge, id: NodeId) {
    e.source == id && e.condition == ""
  }

  /** An edge whose condition holds. */
  predicate Met(e: Edge, id: NodeId, o: Outcome, ctx: Context) {
    e.source == id && e.condition != "" && Evaluate(e.condition, o, ctx)
  }

  predicate NoneMet(g: Graph, id: NodeId, o: Outcome, ctx: Context) {
    forall e :: e in g.edges ==> !Met(e, id, o, ctx)
  }

  ghost predicate Labelled(e: Edge, id: NodeId, wanted: string) {
    Open(e, id) && e.labelText != "" && SameLabel(e.labelText, wanted)
  }

  /** The outcome names no label, or none that an open edge carries. */
  ghost predicate NoneLabelled(g: Graph, id: NodeId, o: Outcome) {
    forall e, wanted :: e in g.edges && o.preferredLabel == Some(wanted) && wanted != "" ==> !Labelled(e, id, wanted)
  }

  predicate Leads(e: Edge, id: NodeId, t: NodeId) {
    Open(e, id) && e.target == t
  }

  /** A suggested entry that names `t`: as text, or as a number whose decimal text it is. */
  predicate Names(raw: RawId, t: NodeId) {
    match raw
    case StrId(text) => text == t
    case IntId(n) => Numeral(t, n)
    case OtherId => false
  }

  /** The entry names no target of an open edge. */
  ghost predicate LeadsNowhere(g: Graph, id: NodeId, raw: RawId) {
    forall e, t :: e in g.edges && Names(raw, t) ==> !Leads(e, id, t)
  }

  /** Greater weight, or the same and an earlier target. */
  ghost predicate Preferable(a: Edge, b: Edge) {
    a.weight > b.weight || (a.weight == b.weight && Before(a.target, b.target))
  }

  function Filter(edges: seq<Edge>, p: EdgeTest): seq<Edge> {
    if edges == [] then [] else (if p(edges[0]) then [edges[0]] else []) + Filter(edges[1..], p)
  }

  function OpenAt(id: NodeId): EdgeTest {
    (e: Edge) => Open(e, id)
  }

  function MetAt(id: NodeId, o: Outcome, ctx: Context): EdgeTest {
    (e: Edge) => Met(e, id, o, ctx)
  }

  lemma {:induction false} OpenEdges(edges: seq<Edge>, id: NodeId)
    ensures Unconditional(From(edges, id)) == Filter(edges, OpenAt(id))
  {
    if edges != [] {
      OpenEdges(edges[1..], id);
      if edges[0].source == id {
        assert From(edges, id)[1..] == From(edges[1..], id);
      }
    }
  }

  lemma {:induction false} MetEdges(edges: seq<Edge>, id: NodeId, o: Outcome, ctx: Context)
    ensures Matching(From(edges, id), Judge(o, ctx)) == Filter(edges, MetAt(id, o, ctx))
  {
    hide Evaluate;
    if edges != [] {
      MetEdges(edges[1..], id, o, ctx);
      if edges[0].source == id {
        assert From(edges, id)[1..] == From(edges[1..], id);
      }
    }
  }

  lemma {:induction false} FilterMembers(edges: seq<Edge>, p: EdgeTest, e: Edge)
    ensures e in Filter(edges, p) <==> e in edges && p(e)
  {
    if edges != [] {
      FilterMembers(edges[1..], p, e);
      assert e in edges <==> e == edges[0] || e in edges[1..];
    }
  }

  /** Where an edge goes when the list is filtered; what then stands before it stood before it. */
  lemma {:induction false} FilterKeeps(edges: seq<Edge>, p: EdgeTest, i: nat) returns (k: nat)
    requires i < |edges| && p(edges[i])
    ensures k < |Filter(edges, p)| && Filter(edges, p)[k] == edges[i]
    ensures forall j :: 0 <= j < k ==> Filter(edges, p)[j] in edges[..i] && p(Filter(edges, p)[j])
  {
    var rest := Filter(edges[1..], p);
    if i == 0 {
      k := 0;
    } else {
      k := FilterKeeps(edges[1..], p, i - 1);
      assert forall e :: e in edges[1..][..i - 1] ==> e in edges[..i] by {
        assert edges[..i] == [edges[0]] + edges[1..][..i - 1];
      }
      if p(edges[0]) {
        assert Filter(edges, p) == [edges[0]] + rest;
        k := k + 1;
      } else {
        assert Filter(edges, p) == rest;
      }
    }
  }

  lemma {:induction false} BestIsFirst(edges: seq<Edge>, k: nat)
    requires k < |edges| && forall e :: e in edges ==> Precedes(edges[k], e)
    requires forall j :: 0 <= j < k ==> !Precedes(edges[j], edges[k])
    ensures Best(edges) == edges[k]
    decreases |edges|
  {
    hide Precedes;
    hide StrictlyPrecedes;
    if |edges| > 1 {
      var rest := Best(edges[1..]);
      PrecedesTotal(edges[0], rest);
      if k > 0 {
        assert edges[1..][k - 1] == edges[k];
        assert !Precedes(edges[0], edges[k]);
        BestIsFirst(edges[1..], k - 1);
      } else {
        assert rest in edges;
      }
    }
  }

  lemma PreferableIs(a: Edge, b: Edge)
    ensures Preferable(a, b) <==> Precedes(a, b)
  {
    LexIsBefore(a.target, b.target);
  }

  /** The edge at `i` is the first of the best among those with `p`. */
  ghost predicate FirstBest(edges: seq<Edge>, p: EdgeTest, i: nat) {
    && i < |edges| && p(edges[i])
    && (forall e :: e in edges && p(e) ==> Preferable(edges[i], e))
    && (forall e :: e in edges[..i] && p(e) ==> !Preferable(e, edges[i]))
  }

  lemma BestOfFiltered(edges: seq<Edge>, p: EdgeTest, i: nat)
    requires FirstBest(edges, p, i)
    ensures Filter(edges, p) != [] && Best(Filter(edges, p)) == edges[i]
  {
    hide Preferable;
    hide Precedes;
    hide Best;
    var k := FilterKeeps(edges, p, i);
    var f := Filter(edges, p);
    hide Filter;
    forall e | e in f ensures Precedes(f[k], e) {
      FilterMembers(edges, p, e);
      PreferableIs(edges[i], e);
    }
    forall j | 0 <= j < k ensures !Precedes(f[j], f[k]) { PreferableIs(f[j], edges[i]); }
    BestIsFirst(f, k);
  }

  lemma NothingMet(g: Graph, id: NodeId, o: Outcome, ctx: Context)
    requires NoneMet(g, id, o, ctx)
    ensures Matching(Outgoing(g, id), Judge(o, ctx)) == []
  {
    hide Evaluate;
    var m := Matching(Outgoing(g, id), Judge(o, ctx));
    MetEdges(g.edges, id, o, ctx);
    if m != [] { FilterMembers(g.edges, MetAt(id, o, ctx), m[0]); }
  }

  /** Where some condition holds: the edge of greatest weight, then earliest target, then place, among those that do. */
  lemma ConditionDecides(g: Graph, id: NodeId, o: Outcome, ctx: Context, i: nat)
    requires FirstBest(g.edges, MetAt(id, o, ctx), i)
    ensures SelectEdge(g, id, o, ctx) == Some(g.edges[i])
  {
    hide Judge;
    hide LabelMatch;
    hide NormalizeLabel;
    hide MetAt;
    hide FirstBest;
    MetEdges(g.edges, id, o, ctx);
    BestOfFiltered(g.edges, MetAt(id, o, ctx), i);
    hide Best;
    hide Filter;
    hide Matching;
  }

  ghost predicate FirstLabelled(edges: seq<Edge>, id: NodeId, wanted: string, i: nat) {
    i < |edges| && Labelled(edges[i], id, wanted) && forall j :: 0 <= j < i ==> !Labelled(edges[j], id, wanted)
  }

  lemma {:induction false} LabelMatchIs(edges: seq<Edge>, id: NodeId, wanted: string, i: nat)
    requires FirstLabelled(edges, id, wanted, i)
    ensures LabelMatch(From(edges, id), NormalizeLabel(wanted)) == Some(edges[i])
    decreases |edges|
  {
    hide NormalizeLabel;
    hide SameLabel;
    LabelsAgreeExactly(edges[0].labelText, wanted);
    if i > 0 {
      assert !Labelled(edges[0], id, wanted);
      forall j | 0 <= j < i - 1 ensures !Labelled(edges[1..][j], id, wanted) { assert edges[1..][j] == edges[j + 1]; }
      LabelMatchIs(edges[1..], id, wanted, i - 1);
    }
    if edges[0].source == id { assert From(edges, id)[1..] == From(edges[1..], id); }
  }

  lemma {:induction false} NoLabelMatch(edges: seq<Edge>, id: NodeId, wanted: string)
    requires forall e :: e in edges ==> !Labelled(e, id, wanted)
    ensures LabelMatch(From(edges, id), NormalizeLabel(wanted)) == None
  {
    hide NormalizeLabel;
    hide SameLabel;
    if edges != [] {
      LabelsAgreeExactly(edges[0].labelText, wanted);
      assert !Labelled(edges[0], id, wanted);
      NoLabelMatch(edges[1..], id, wanted);
      if edges[0].source == id { assert From(edges, id)[1..] == From(edges[1..], id); }
    }
  }

  /** Where none holds and the outcome names a label: the first open edge that carries it. */
  lemma LabelDecides(g: Graph, id: NodeId, o: Outcome, ctx: Context, wanted: string, i: nat)
    requires NoneMet(g, id, o, ctx) && o.preferredLabel == Some(wanted) && wanted != ""
    requires FirstLabelled(g.edges, id, wanted, i)
    ensures SelectEdge(g, id, o, ctx) == Some(g.edges[i])
  {
    hide Judge;
    hide NormalizeLabel;
    hide FirstLabelled;
    hide NoneMet;
    NothingMet(g, id, o, ctx);
    LabelMatchIs(g.edges, id, wanted, i);
    hide LabelMatch;
    hide Matching;
  }

  ghost predicate FirstLeading(edges: seq<Edge>, id: NodeId, t: NodeId, i: nat) {
    i < |edges| && Leads(edges[i], id, t) && forall j :: 0 <= j < i ==> !Leads(edges[j], id, t)
  }

  lemma {:induction false} TargetMatchIs(edges: seq<Edge>, id: NodeId, t: NodeId, i: nat)
    requires FirstLeading(edges, id, t, i)
    ensures TargetMatch(From(edges, id), t) == Some(edges[i])
    decreases |edges|
  {
    if i > 0 {
      assert !Leads(edges[0], id, t);
      forall j | 0 <= j < i - 1 ensures !Leads(edges[1..][j], id, t) { assert edges[1..][j] == edges[j + 1]; }
      TargetMatchIs(edges[1..], id, t, i - 1);
    }
    if edges[0].source == id { assert From(edges, id)[1..] == From(edges[1..], id); }
  }

  lemma NamesExactly(raw: RawId, t: NodeId)
    ensures Names(raw, t) <==> CoerceSuggestedId(raw) == Some(t)
  {
    if raw.IntId? { NumeralExactly(t, raw.n); }
    hide Numeral;
    hide Decimal;
  }

  lemma NotLed(g: Graph, id: NodeId, raw: RawId, e: Edge, t: NodeId)
    requires LeadsNowhere(g, id, raw) && Names(raw, t) && e in g.edges
    ensures !Leads(e, id, t)
  {
  }

  lemma NoTargetMatch(g: Graph, id: NodeId, raw: RawId)
    requires LeadsNowhere(g, id, raw)
    ensures var t := CoerceSuggestedId(raw); t.Some? ==> TargetMatch(Outgoing(g, id), t.value) == None
  {
    hide Names;
    var t := CoerceSuggestedId(raw);
    if t.Some? {
      NamesExactly(raw, t.value);
      var hit := TargetMatch(Outgoing(g, id), t.value);
      if hit.Some? {
        FromMembers(g.edges, id, hit.value);
        NotLed(g, id, raw, hit.value, t.value);
      }
    }
  }

  lemma {:induction false} SuggestionMatchIs(g: Graph, id: NodeId, ids: seq<RawId>, j: nat, t: NodeId, i: nat)
    requires j < |ids| && Names(ids[j], t) && FirstLeading(g.edges, id, t, i)
    requires forall m :: 0 <= m < j ==> LeadsNowhere(g, id, ids[m])
    ensures SuggestionMatch(Outgoing(g, id), ids) == Some(g.edges[i])
    decreases |ids|
  {
    hide Names;
    hide LeadsNowhere;
    hide FirstLeading;
    hide TargetMatch;
    hide CoerceSuggestedId;
    if j == 0 {
      NamesExactly(ids[0], t);
      TargetMatchIs(g.edges, id, t, i);
    } else {
      NoTargetMatch(g, id, ids[0]);
      forall m | 0 <= m < j - 1 ensures LeadsNowhere(g, id, ids[1..][m]) { assert ids[1..][m] == ids[m + 1]; }
      SuggestionMatchIs(g, id, ids[1..], j - 1, t, i);
    }
  }

  lemma {:induction false} NoSuggestionMatch(g: Graph, id: NodeId, ids: seq<RawId>)
    requires forall raw :: raw in ids ==> LeadsNowhere(g, id, raw)
    ensures SuggestionMatch(Outgoing(g, id), ids) == None
  {
    hide LeadsNowhere;
    hide TargetMatch;
    hide CoerceSuggestedId;
    if ids != [] {
      NoTargetMatch(g, id, ids[0]);
      NoSuggestionMatch(g, id, ids[1..]);
    }
  }

  lemma NothingLabelled(g: Graph, id: NodeId, o: Outcome)
    requires NoneLabelled(g, id, o) && Truthy(o.preferredLabel)
    ensures LabelMatch(Outgoing(g, id), NormalizeLabel(o.preferredLabel.value)) == None
  {
    hide Labelled;
    NoLabelMatch(g.edges, id, o.preferredLabel.value);
  }

  /** Failing that: the first open edge to what the earliest entry naming such a target names. */
  lemma SuggestionDecides(g: Graph, id: NodeId, o: Outcome, ctx: Context, ids: seq<RawId>, j: nat, t: NodeId, i: nat)
    requires NoneMet(g, id, o, ctx) && NoneLabelled(g, id, o)
    requires o.suggestedNextIds == Some(ids) && j < |ids| && Names(ids[j], t) && FirstLeading(g.edges, id, t, i)
    requires forall m :: 0 <= m < j ==> LeadsNowhere(g, id, ids[m])
    ensures SelectEdge(g, id, o, ctx) == Some(g.edges[i])
  {
    hide Judge;
    hide NormalizeLabel;
    hide NoneLabelled;
    hide NoneMet;
    hide LeadsNowhere;
    hide FirstLeading;
    hide Names;
    NothingMet(g, id, o, ctx);
    if Truthy(o.preferredLabel) { NothingLabelled(g, id, o); }
    SuggestionMatchIs(g, id, ids, j, t, i);
    hide LabelMatch;
    hide Matching;
    hide SuggestionMatch;
  }

  /** Failing that too: the open edge of greatest weight, then earliest target, then place. */
  lemma WeightDecides(g: Graph, id: NodeId, o: Outcome, ctx: Context, i: nat)
    requires NoneMet(g, id, o, ctx) && NoneLabelled(g, id, o)
    requires forall raw :: raw in o.suggestedNextIds.Or([]) ==> LeadsNowhere(g, id, raw)
    requires FirstBest(g.edges, OpenAt(id), i)
    ensures SelectEdge(g, id, o, ctx) == Some(g.edges[i])
  {
    hide Judge;
    hide NormalizeLabel;
    hide NoneLabelled;
    hide NoneMet;
    hide LeadsNowhere;
    hide FirstBest;
    hide OpenAt;
    NothingMet(g, id, o, ctx);
    if Truthy(o.preferredLabel) { NothingLabelled(g, id, o); }
    NoSuggestionMatch(g, id, o.Suggestions());
    OpenEdges(g.edges, id);
    BestOfFiltered(g.edges, OpenAt(id), i);
    hide LabelMatch;
    hide Matching;
    hide SuggestionMatch;
    hide Unconditional;
    hide Filter;
    hide Best;
  }
}
