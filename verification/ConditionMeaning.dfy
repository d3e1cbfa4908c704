/** What a condition says, in terms of its text: which value its key stands for and how it is compared. */
module ConditionMeaning {
  import opened Prelude
  import opened Outcomes
  import opened Conditions

  // ---------------------------------------------------------------------------
  // Padded texts
  // ---------------------------------------------------------------------------

  predicate Blank(s: string) {
    forall i :: 0 <= i < |s| ==> IsSpace(s[i])
  }

  /** No blanks around it. */
  predicate Trim(s: string) {
    s == "" || (!IsSpace(s[0]) && !IsSpace(s[|s| - 1]))
  }

  lemma {:induction false} LStripPast(p: string, s: string)
    requires Blank(p)
    ensures LStrip(p + s) == LStrip(s)
  {
    if p == "" {
      assert p + s == s;
    } else {
      assert (p + s)[1..] == p[1..] + s && (p + s)[0] == p[0];
      LStripPast(p[1..], s);
    }
  }

  lemma {:induction false} RStripPast(s: string, q: string)
    requires Blank(q)
    ensures RStrip(s + q) == RStrip(s)
  {
    if q == "" {
      assert s + q == s;
    } else {
      var n := |q| - 1;
      assert (s + q)[..|s + q| - 1] == s + q[..n] && (s + q)[|s + q| - 1] == q[n];
      RStripPast(s, q[..n]);
    }
  }

  /** Blanks in front of something else are stripped up to it. */
  lemma {:induction false} LStripUpTo(a: string, t: string)
    requires t != "" && !IsSpace(t[0])
    ensures LStrip(a + t) == LStrip(a) + t
  {
    if a == "" {
      assert a + t == t;
    } else if IsSpace(a[0]) {
      assert (a + t)[1..] == a[1..] + t && (a + t)[0] == a[0];
      LStripUpTo(a[1..], t);
    } else {
      assert (a + t)[0] == a[0];
    }
  }

  lemma {:induction false} RStripUpTo(t: string, b: string)
    requires t != "" && !IsSpace(t[|t| - 1])
    ensures RStrip(t + b) == t + RStrip(b)
  {
    if b == "" {
      assert t + b == t;
    } else {
      var n := |b| - 1;
      assert (t + b)[..|t + b| - 1] == t + b[..n] && (t + b)[|t + b| - 1] == b[n];
      if IsSpace(b[n]) { RStripUpTo(t, b[..n]); }
    }
  }

  lemma StripPadded(p: string, x: string, q: string)
    requires Blank(p) && Trim(x) && Blank(q)
    ensures Strip(p + x + q) == x
  {
    assert p + x + q == p + (x + q);
    LStripPast(p, x + q);
    if x == "" {
      LStripPast(q, "");
      assert q + "" == q && x + q == q;
    } else {
      assert LStrip(x + q) == x + q;
      RStripPast(x, q);
    }
  }

  // ---------------------------------------------------------------------------
  // What a key stands for
  // ---------------------------------------------------------------------------

  predicate StatusWord(s: StageStatus, v: string) {
    || (s.Success? && v == "success") || (s.PartialSuccess? && v == "partial_success") || (s.Retry? && v == "retry")
    || (s.Fail? && v == "fail") || (s.Skipped? && v == "skipped")
  }

  predicate Holds(ctx: Context, key: Key, v: string) {
    key in ctx && ctx[key] == Text(v)
  }

  predicate Lacks(ctx: Context, key: Key) {
    key !in ctx || ctx[key].Null?
  }

  predicate Special(key: Key) {
    key == "outcome" || key == "preferred_label"
  }

  predicate Prefixed(key: Key) {
    |key| >= 8 && key[..8] == "context."
  }

  /** The value of a key: label or status, label, context entry, context entry without the prefix, or nothing. */
  predicate StandsFor(key: Key, o: Outcome, ctx: Context, v: string) {
    || (key == "outcome" && v != "" && o.preferredLabel == Some(v))
    || (key == "outcome" && (o.preferredLabel == None || o.preferredLabel == Some("")) && StatusWord(o.status, v))
    || (key == "preferred_label" && (o.preferredLabel == Some(v) || (o.preferredLabel == None && v == "")))
    || (!Special(key) && Holds(ctx, key, v))
    || (!Special(key) && Prefixed(key) && Lacks(ctx, key) && Holds(ctx, key[8..], v))
    || (!Special(key) && Lacks(ctx, key) && (Prefixed(key) ==> Lacks(ctx, key[8..])) && v == "")
  }

  lemma StandsForExactly(key: Key, o: Outcome, ctx: Context, v: string)
    ensures StandsFor(key, o, ctx, v) <==> ResolveKey(key, o, ctx) == v
  {
    assert |ContextPrefix| == 8;
    assert ContextPrefix <= key <==> Prefixed(key);
  }

  // ---------------------------------------------------------------------------
  // What a clause says
  // ---------------------------------------------------------------------------

  /** No conjunction in it. */
  predicate Single(s: string) {
    forall i :: 0 <= i < |s| - 1 ==> !(s[i] == '&' && s[i + 1] == '&')
  }

  predicate NoDiffers(s: string) {
    forall i :: 0 <= i < |s| - 1 ==> !(s[i] == '!' && s[i + 1] == '=')
  }

  predicate NoEquals(s: string) {
    forall i :: 0 <= i < |s| ==> s[i] != '='
  }

  lemma {:induction false} SplitSingle(s: string)
    requires Single(s)
    ensures SplitAnd(s) == [s]
  {
    if |s| >= 2 {
      assert !(s[0] == '&' && s[1] == '&');
      forall i | 0 <= i < |s[1..]| - 1 ensures !(s[1..][i] == '&' && s[1..][i + 1] == '&') {
        assert s[1..][i] == s[i + 1] && s[1..][i + 1] == s[i + 1 + 1];
      }
      SplitSingle(s[1..]);
      assert [s[0]] + s[1..] == s;
    }
  }

  lemma EvaluateSingle(s: string, c: Clause, o: Outcome, ctx: Context)
    requires Single(s) && ClauseOf(s) == Some(c) && s != ""
    ensures Evaluate(s, o, ctx) <==> EvaluateClause(c, o, ctx)
  {
    hide Evaluate;
    hide ClauseOf;
    hide EvaluateClause;
    EvaluateIsAllClauses(s, o, ctx);
    SplitSingle(s);
    assert ClausesOf([s]) == [c] by { assert [s][1..] == []; }
  }

  /** What is left of a text around an operator once it is stripped. */
  lemma StripAround(a: string, op: string, b: string)
    requires op != "" && !IsSpace(op[0]) && !IsSpace(op[|op| - 1])
    ensures Strip(a + op + b) == LStrip(a) + op + RStrip(b)
  {
    hide LStrip;
    hide RStrip;
    hide IsSpace;
    assert a + op + b == a + (op + b);
    LStripUpTo(a, op + b);
    var l := LStrip(a);
    assert l + (op + b) == (l + op) + b;
    RStripUpTo(l + op, b);
  }

  /** The two sides of an operator, padded or not. */
  lemma Sides(p: string, key: string, q: string)
    requires Blank(p) && Trim(key) && Blank(q)
    ensures Strip(LStrip(p + key + q)) == key && Strip(RStrip(p + key + q)) == key
  {
    var a := p + key + q;
    StripPadded(p, key, q);
    assert LStrip(LStrip(a)) == LStrip(a);
    RightSide(p, key, q);
  }

  lemma RightSide(p: string, key: string, q: string)
    requires Blank(p) && Trim(key) && Blank(q)
    ensures Strip(RStrip(p + key + q)) == key
  {
    RStripPast(p + key, q);
    if key == "" {
      assert p + key == "" + p;
      RStripPast("", p);
    } else {
      KeepsEnd(p + key);
      hide RStrip;
      hide LStrip;
      StripPadded(p, key, "");
      assert p + key + "" == p + key;
    }
  }

  lemma KeepsEnd(s: string)
    requires s != "" && !IsSpace(s[|s| - 1])
    ensures RStrip(s) == s
  {
  }

  /** The first place of an operator in a stripped text. */
  lemma IndexIs(s: string, pat: string, i: nat)
    requires OccursAt(s, pat, i) && forall j: nat :: j < i ==> !OccursAt(s, pat, j)
    ensures IndexOf(s, pat) == Some(i)
  {
    hide OccursAt;
  }

  lemma OccursInside(s: string, t: string, d: nat, pat: string, j: nat)
    requires d + |s| <= |t| && t[d..d + |s|] == s && OccursAt(s, pat, j)
    ensures OccursAt(t, pat, d + j)
  {
    var x, y := t[d + j..d + j + |pat|], s[j..j + |pat|];
    forall k | 0 <= k < |pat| ensures x[k] == y[k] { assert s[j + k] == t[d..d + |s|][j + k]; }
    assert x == y;
  }

  lemma StrippedHas(a: string, op: string, b: string, pat: string, j: nat)
    requires OccursAt(LStrip(a) + op + RStrip(b), pat, j)
    ensures OccursAt(a + op + b, pat, |a| - |LStrip(a)| + j)
  {
    var l, r := LStrip(a), RStrip(b);
    var d := |a| - |l|;
    var s, t := l + op + r, a + op + b;
    Within(a, op, b, |l|, |r|);
    hide LStrip;
    hide RStrip;
    hide OccursAt;
    OccursInside(s, t, d, pat, j);
  }

  lemma Within(a: string, op: string, b: string, m: nat, n: nat)
    requires m <= |a| && n <= |b|
    ensures var s, t := a[|a| - m..] + op + b[..n], a + op + b;
      |a| - m + |s| <= |t| && t[|a| - m..|a| - m + |s|] == s
  {
  }

  lemma OccursPair(s: string, c: char, d: char, j: nat)
    ensures OccursAt(s, [c, d], j) <==> j + 2 <= |s| && s[j] == c && s[j + 1] == d
  {
    if j + 2 <= |s| { assert s[j..j + 2] == [s[j], s[j + 1]]; }
  }

  lemma OccursOne(s: string, c: char, j: nat)
    ensures OccursAt(s, [c], j) <==> j + 1 <= |s| && s[j] == c
  {
    if j + 1 <= |s| { assert s[j..j + 1] == [s[j]]; }
  }

  lemma BeforeEquals(a: string, b: string)
    requires NoEquals(a) && NoDiffers(a + "=" + b)
    ensures var clause := LStrip(a) + "=" + RStrip(b);
      IndexOf(clause, "!=") == None && IndexOf(clause, "=") == Some(|LStrip(a)|)
  {
    hide LStrip;
    hide RStrip;
    hide OccursAt;
    hide IndexOf;
    var l, whole := LStrip(a), a + "=" + b;
    var clause := l + "=" + RStrip(b);
    var ne := IndexOf(clause, "!=");
    if ne.Some? {
      StrippedHas(a, "=", b, "!=", ne.value);
      OccursPair(whole, '!', '=', ne.value + |a| - |l|);
      assert false;
    }
    OccursOne(clause, '=', |l|);
    forall j: nat | j < |l| ensures !OccursAt(clause, "=", j) {
      OccursOne(clause, '=', j);
      assert clause[j] == l[j] == a[|a| - |l| + j];
    }
    IndexIs(clause, "=", |l|);
  }

  lemma BeforeDiffers(a: string, b: string)
    requires NoDiffers(a + "!")
    ensures var clause := LStrip(a) + "!=" + RStrip(b);
      IndexOf(clause, "!=") == Some(|LStrip(a)|)
  {
    hide LStrip;
    hide RStrip;
    hide OccursAt;
    hide IndexOf;
    var l := LStrip(a);
    var clause := l + "!=" + RStrip(b);
    OccursPair(clause, '!', '=', |l|);
    var d := |a| - |l|;
    forall j: nat | j < |l| ensures !OccursAt(clause, "!=", j) {
      OccursPair(clause, '!', '=', j);
      assert clause[j] == l[j] == (a + "!")[d + j];
      assert clause[j + 1] == (a + "!")[d + j + 1];
    }
    IndexIs(clause, "!=", |l|);
  }

  lemma EqualsClause(text: string, l: string, r: string)
    requires Strip(text) == l + "=" + r
    requires IndexOf(l + "=" + r, "!=") == None && IndexOf(l + "=" + r, "=") == Some(|l|)
    ensures ClauseOf(text) == Some(Equals(Strip(l), Strip(r)))
  {
    hide Strip;
    hide IndexOf;
    var clause := l + "=" + r;
    assert clause[..|l|] == l && clause[|l| + 1..] == r;
  }

  lemma DiffersClause(text: string, l: string, r: string)
    requires Strip(text) == l + "!=" + r && IndexOf(l + "!=" + r, "!=") == Some(|l|)
    ensures ClauseOf(text) == Some(Differs(Strip(l), Strip(r)))
  {
    hide Strip;
    hide IndexOf;
    var clause := l + "!=" + r;
    assert clause[..|l|] == l && clause[|l| + 2..] == r;
  }

  lemma SideHasNoEquals(p: string, key: string, q: string)
    requires Blank(p) && NoEquals(key) && Blank(q)
    ensures NoEquals(p + key + q)
  {
    BlankHasNoOperator(p);
    BlankHasNoOperator(q);
  }

  /** `key=value`, blanks around either side or none: the key stands for the value. Later `=` belong to the value. */
  lemma EqualsMeans(p: string, key: string, q: string, r: string, value: string, t: string, o: Outcome, ctx: Context)
    requires Blank(p) && Trim(key) && Blank(q) && Blank(r) && Trim(value) && Blank(t)
    requires NoEquals(key)
    requires var text := (p + key + q) + "=" + (r + value + t); Single(text) && NoDiffers(text)
    ensures Evaluate((p + key + q) + "=" + (r + value + t), o, ctx) <==> StandsFor(key, o, ctx, value)
  {
    hide IndexOf;
    hide Evaluate;
    hide StandsFor;
    hide ResolveKey;
    hide ClauseOf;
    hide Strip;
    hide LStrip;
    hide RStrip;
    hide Trim;
    SideHasNoEquals(p, key, q);
    Sides(p, key, q);
    Sides(r, value, t);
    hide NoEquals;
    hide Blank;
    var a, b := p + key + q, r + value + t;
    StripAround(a, "=", b);
    BeforeEquals(a, b);
    EqualsClause(a + "=" + b, LStrip(a), RStrip(b));
    hide NoDiffers;
    EvaluateSingle(a + "=" + b, Equals(key, value), o, ctx);
    StandsForExactly(key, o, ctx, value);
  }

  lemma BlankHasNoOperator(s: string)
    requires Blank(s)
    ensures NoEquals(s)
  {
    assert !IsSpace('=');
  }

  /** `key!=value`: the key does not stand for the value. The first `!=` counts. */
  lemma DiffersMeans(p: string, key: string, q: string, r: string, value: string, t: string, o: Outcome, ctx: Context)
    requires Blank(p) && Trim(key) && Blank(q) && Blank(r) && Trim(value) && Blank(t)
    requires NoDiffers(p + key + q + "!") && Single((p + key + q) + "!=" + (r + value + t))
    ensures Evaluate((p + key + q) + "!=" + (r + value + t), o, ctx) <==> !StandsFor(key, o, ctx, value)
  {
    hide IndexOf;
    hide Evaluate;
    hide StandsFor;
    hide ResolveKey;
    hide ClauseOf;
    hide Strip;
    hide LStrip;
    hide RStrip;
    hide Trim;
    Sides(p, key, q);
    Sides(r, value, t);
    hide Blank;
    var a, b := p + key + q, r + value + t;
    StripAround(a, "!=", b);
    BeforeDiffers(a, b);
    DiffersClause(a + "!=" + b, LStrip(a), RStrip(b));
    hide NoDiffers;
    EvaluateSingle(a + "!=" + b, Differs(key, value), o, ctx);
    StandsForExactly(key, o, ctx, value);
  }

  /** A bare key: it stands for something. */
  lemma BareMeans(p: string, key: string, q: string, o: Outcome, ctx: Context)
    requires Blank(p) && Trim(key) && key != "" && Blank(q) && NoEquals(key) && Single(p + key + q)
    ensures Evaluate(p + key + q, o, ctx) <==> !StandsFor(key, o, ctx, "")
  {
    hide Evaluate;
    hide StandsFor;
    hide ResolveKey;
    var text := p + key + q;
    StripPadded(p, key, q);
    var ne, eq := IndexOf(key, "!="), IndexOf(key, "=");
    if ne.Some? { OccursPair(key, '!', '=', ne.value); }
    if eq.Some? { OccursOne(key, '=', eq.value); }
    hide IndexOf;
    assert ClauseOf(text) == Some(Conditions.Holds(key)) by { hide Strip; }
    EvaluateSingle(text, Conditions.Holds(key), o, ctx);
    StandsForExactly(key, o, ctx, "");
    hide ClauseOf;
  }
}
