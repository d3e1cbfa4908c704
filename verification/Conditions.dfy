/** The edge condition language (conditions.py): `key=value`, `key!=value`, `key`, joined by `&&`. */
module Conditions {
  import opened Prelude
  import opened Outcomes

  datatype Clause = Differs(key: string, value: string) | Equals(key: string, value: string) | Holds(key: string)

  // ---------------------------------------------------------------------------
  // Parsing
  // ---------------------------------------------------------------------------

  /** `s.split("&&")`: leftmost, non-overlapping separators. */
  function SplitAnd(s: string): (r: seq<string>)
    ensures |r| >= 1
  {
    if |s| < 2 then [s]
    else if s[0] == '&' && s[1] == '&' then [""] + SplitAnd(s[2..])
    else
      var r := SplitAnd(s[1..]);
      [[s[0]] + r[0]] + r[1..]
  }

  predicate OccursAt(s: string, pat: string, i: nat) {
    i + |pat| <= |s| && s[i..i + |pat|] == pat
  }

  lemma OccursInTail(s: string, pat: string, i: nat)
    requires s != "" && i > 0
    ensures OccursAt(s, pat, i) == OccursAt(s[1..], pat, i - 1)
  {
    if i + |pat| <= |s| {
      var a, b := s[i..i + |pat|], s[1..][i - 1..i - 1 + |pat|];
      assert |a| == |b| && forall k :: 0 <= k < |a| ==> a[k] == b[k];
      assert a == b;
    }
  }

  /** Where `pat` first occurs in `s`. */
  function IndexOf(s: string, pat: string): (r: Option<nat>)
    ensures r.Some? ==> OccursAt(s, pat, r.value) && forall i: nat :: i < r.value ==> !OccursAt(s, pat, i)
    ensures r.None? ==> forall i: nat :: !OccursAt(s, pat, i)
  {
    if OccursAt(s, pat, 0) then Some(0)
    else if s == "" then None
    else
      var rest := IndexOf(s[1..], pat);
      assert forall i: nat :: 0 < i ==> OccursAt(s, pat, i) == OccursAt(s[1..], pat, i - 1) by {
        forall i: nat | 0 < i ensures OccursAt(s, pat, i) == OccursAt(s[1..], pat, i - 1) { OccursInTail(s, pat, i); }
      }
      if rest.None? then None else Some(rest.value + 1)
  }

  function ClauseOf(piece: string): Option<Clause> {
    var clause := Strip(piece);
    if clause == "" then None
    else
      var ne := IndexOf(clause, "!=");
      if ne.Some? then
        Some(Differs(Strip(clause[..ne.value]), Strip(clause[ne.value + 2..])))
      else
        var eq := IndexOf(clause, "=");
        if eq.Some? then
          Some(Equals(Strip(clause[..eq.value]), Strip(clause[eq.value + 1..])))
        else
          Some(Holds(clause))
  }

  function ClausesOf(pieces: seq<string>): seq<Clause> {
    if pieces == [] then []
    else
      var c := ClauseOf(pieces[0]);
      (if c.Some? then [c.value] else []) + ClausesOf(pieces[1..])
  }

  function Clauses(condition: string): seq<Clause> {
    if condition == "" then [] else ClausesOf(SplitAnd(condition))
  }

  method ParseCondition(condition: string) returns (clauses: seq<Clause>)
    ensures clauses == Clauses(condition)
  {
    hide ClauseOf;
    hide SplitAnd;
    clauses := [];
    if condition == "" {
      return;
    }
    var pieces := SplitAnd(condition);
    ghost var all := ClausesOf(pieces);
    assert pieces[0..] == pieces;
    for i := 0 to |pieces|
      invariant clauses + ClausesOf(pieces[i..]) == all
    {
      assert pieces[i..][1..] == pieces[i + 1..];
      var clause := ClauseOf(pieces[i]);
      ghost var rest := ClausesOf(pieces[i + 1..]);
      if clause.Some? {
        assert clauses + ([clause.value] + rest) == (clauses + [clause.value]) + rest;
        clauses := clauses + [clause.value];
      }
    }
  }

  // ---------------------------------------------------------------------------
  // Evaluation
  // ---------------------------------------------------------------------------

  const ContextPrefix := "context."

  function Shown(ctx: Context, key: Key): Option<string> {
    if key in ctx && ctx[key].Text? then Some(ctx[key].text) else None
  }

  function ResolveKey(key: Key, outcome: Outcome, ctx: Context): string {
    if key == "outcome" then
      if Truthy(outcome.preferredLabel) then outcome.preferredLabel.value else StatusText(outcome.status)
    else if key == "preferred_label" then
      outcome.preferredLabel.Or("")
    else if ContextPrefix <= key then
      if Shown(ctx, key).Some? then Shown(ctx, key).value
      else Shown(ctx, key[|ContextPrefix|..]).Or("")
    else
      Shown(ctx, key).Or("")
  }

  predicate EvaluateClause(c: Clause, outcome: Outcome, ctx: Context) {
    var resolved := ResolveKey(c.key, outcome, ctx);
    match c
    case Differs(_, value) => resolved != value
    case Equals(_, value) => resolved == value
    case Holds(_) => resolved != ""
  }

  predicate AllHold(clauses: seq<Clause>, outcome: Outcome, ctx: Context) {
    forall c :: c in clauses ==> EvaluateClause(c, outcome, ctx)
  }

  predicate Evaluate(condition: string, outcome: Outcome, ctx: Context) {
    Strip(condition) == "" || AllHold(Clauses(condition), outcome, ctx)
  }

  // ---------------------------------------------------------------------------
  // Laws
  // ---------------------------------------------------------------------------

  lemma {:induction false} ClausesOfConcat(a: seq<string>, b: seq<string>)
    ensures ClausesOf(a + b) == ClausesOf(a) + ClausesOf(b)
  {
    hide ClauseOf;
    if a == [] {
      assert a + b == b;
    } else {
      assert (a + b)[1..] == a[1..] + b && (a + b)[0] == a[0];
      ClausesOfConcat(a[1..], b);
      var c := ClauseOf(a[0]);
      var head := if c.Some? then [c.value] else [];
      assert head + (ClausesOf(a[1..]) + ClausesOf(b)) == head + ClausesOf(a[1..]) + ClausesOf(b);
    }
  }

  /** The piece of `a` that a following separator would close. */
  function LastPiece(a: string): string {
    var r := SplitAnd(a);
    r[|r| - 1]
  }

  predicate EndsWithAmp(s: string) {
    s != "" && s[|s| - 1] == '&'
  }

  /** Joining two conditions keeps their pieces, unless the join would shift a separator. */
  lemma {:induction false} SplitJoin(a: string, b: string)
    requires !EndsWithAmp(LastPiece(a))
    ensures SplitAnd(a + "&&" + b) == SplitAnd(a) + SplitAnd(b)
  {
    hide SplitAnd;
    var s := a + "&&" + b;
    if a == "" {
      assert s == "&&" + b && s[2..] == b;
      SplitSeparator(s);
      SplitShort(a);
    } else if |a| == 1 {
      SplitAfterOne(a, b);
    } else if a[0] == '&' && a[1] == '&' {
      assert s[2..] == a[2..] + "&&" + b && s[0] == a[0] && s[1] == a[1];
      SplitSeparator(s);
      SplitSeparator(a);
      SplitJoin(a[2..], b);
      assert [""] + (SplitAnd(a[2..]) + SplitAnd(b)) == [""] + SplitAnd(a[2..]) + SplitAnd(b);
    } else {
      assert s[1..] == a[1..] + "&&" + b && s[0] == a[0] && s[1] == a[1];
      LastPieceOfRest(a);
      SplitJoin(a[1..], b);
      SplitPrepended(a);
      SplitPrepended(s);
      var r, q := SplitAnd(a[1..]), SplitAnd(b);
      assert (r + q)[0] == r[0] && (r + q)[1..] == r[1..] + q;
      assert [[a[0]] + r[0]] + (r[1..] + q) == [[a[0]] + r[0]] + r[1..] + q;
    }
  }

  lemma SplitShort(s: string)
    requires |s| < 2
    ensures SplitAnd(s) == [s]
  {
  }

  /** Splitting at a separator in front. */
  lemma SplitSeparator(s: string)
    requires |s| >= 2 && s[0] == '&' && s[1] == '&'
    ensures SplitAnd(s) == [""] + SplitAnd(s[2..])
    ensures LastPiece(s) == LastPiece(s[2..])
  {
  }

  lemma SplitAfterOne(a: string, b: string)
    requires |a| == 1 && !EndsWithAmp(LastPiece(a))
    ensures SplitAnd(a + "&&" + b) == SplitAnd(a) + SplitAnd(b)
  {
    hide SplitAnd;
    var s := a + "&&" + b;
    SplitShort(a);
    assert LastPiece(a) == a && a[0] != '&';
    assert s[1..] == "&&" + b && s[1..][2..] == b && s[0] == a[0];
    SplitPrepended(s);
    SplitSeparator(s[1..]);
    assert [s[0]] + "" == a;
  }

  /** Splitting past a character that begins no separator. */
  lemma SplitPrepended(s: string)
    requires |s| >= 2 && !(s[0] == '&' && s[1] == '&')
    ensures var r := SplitAnd(s[1..]); SplitAnd(s) == [[s[0]] + r[0]] + r[1..]
  {
  }

  lemma LastPieceOfRest(a: string)
    requires |a| >= 2 && !(a[0] == '&' && a[1] == '&') && !EndsWithAmp(LastPiece(a))
    ensures !EndsWithAmp(LastPiece(a[1..]))
  {
    hide SplitAnd;
    SplitPrepended(a);
    var r := SplitAnd(a[1..]);
    if |r| == 1 && |r[0]| >= 1 {
      assert ([a[0]] + r[0])[|r[0]|] == r[0][|r[0]| - 1];
    }
  }

  lemma {:induction false} BlankStrip(s: string)
    ensures LStrip(s) == "" <==> forall i :: 0 <= i < |s| ==> IsSpace(s[i])
  {
    if s != "" && IsSpace(s[0]) {
      BlankStrip(s[1..]);
      assert forall i :: 1 <= i < |s| ==> s[i] == s[1..][i - 1];
    }
  }

  lemma StripBlank(s: string)
    ensures Strip(s) == "" <==> forall i :: 0 <= i < |s| ==> IsSpace(s[i])
  {
    BlankStrip(s);
    var l := LStrip(s);
    if l != "" {
      RStripKeepsFirst(l);
    }
  }

  lemma {:induction false} RStripKeepsFirst(s: string)
    requires s != "" && !IsSpace(s[0])
    ensures RStrip(s) != ""
  {
    if IsSpace(s[|s| - 1]) {
      RStripKeepsFirst(s[..|s| - 1]);
    }
  }

  lemma {:induction false} NoSeparator(s: string)
    requires forall i :: 0 <= i < |s| ==> s[i] != '&'
    ensures SplitAnd(s) == [s]
  {
    if |s| >= 2 {
      NoSeparator(s[1..]);
      assert [s[0]] + s[1..] == s;
    }
  }

  /** The early exit for blank conditions agrees with evaluating no clauses. */
  lemma EvaluateIsAllClauses(condition: string, outcome: Outcome, ctx: Context)
    ensures Evaluate(condition, outcome, ctx) == AllHold(Clauses(condition), outcome, ctx)
  {
    if Strip(condition) == "" && condition != "" {
      StripBlank(condition);
      NoSeparator(condition);
      assert ClausesOf([condition]) == [];
    }
  }

  /** The empty condition is no exception to the splitting. */
  lemma ClausesBySplit(condition: string)
    ensures Clauses(condition) == ClausesOf(SplitAnd(condition))
  {
    if condition == "" {
      assert ClauseOf("") == None;
      assert ClausesOf([""]) == [];
    }
  }

  /** `a && b` means both, for every pair the joined text can still be cut apart from. */
  lemma EvaluateConjunction(a: string, b: string, outcome: Outcome, ctx: Context)
    requires !EndsWithAmp(LastPiece(a))
    ensures Evaluate(a + "&&" + b, outcome, ctx) <==> Evaluate(a, outcome, ctx) && Evaluate(b, outcome, ctx)
  {
    hide Evaluate;
    hide EvaluateClause;
    hide ClauseOf;
    hide SplitAnd;
    EvaluateIsAllClauses(a + "&&" + b, outcome, ctx);
    EvaluateIsAllClauses(a, outcome, ctx);
    EvaluateIsAllClauses(b, outcome, ctx);
    SplitJoin(a, b);
    ClausesOfConcat(SplitAnd(a), SplitAnd(b));
    ClausesBySplit(a);
    ClausesBySplit(b);
    ClausesBySplit(a + "&&" + b);
    hide Clauses;
  }
}
