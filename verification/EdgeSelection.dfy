/** Choosing the next edge (edge_selection.py). */
module EdgeSelection {
  import opened Prelude
  import opened Outcomes
  import opened Graphs
  import opened Conditions

  type EdgeTest = Edge -> bool

  /** Whether an edge's condition holds for this outcome and context. */
  function Judge(outcome: Outcome, ctx: Context): EdgeTest {
    (e: Edge) => Evaluate(e.condition, outcome, ctx)
  }

  predicate Eligible(e: Edge, holds: EdgeTest) {
    e.condition != "" && holds(e)
  }

  predicate Refused(e: Edge, holds: EdgeTest) {
    e.condition != "" && !holds(e)
  }

  function Matching(edges: seq<Edge>, holds: EdgeTest): seq<Edge> {
    if edges == [] then []
    else if Eligible(edges[0], holds) then [edges[0]] + Matching(edges[1..], holds)
    else Matching(edges[1..], holds)
  }

  lemma {:induction false} MatchingMembers(edges: seq<Edge>, holds: EdgeTest, e: Edge)
    ensures e in Matching(edges, holds) <==> e in edges && Eligible(e, holds)
  {
    if edges != [] {
      MatchingMembers(edges[1..], holds, e);
      assert e in edges <==> e == edges[0] || e in edges[1..];
    }
  }

  function Unconditional(edges: seq<Edge>): seq<Edge> {
    if edges == [] then []
    else if edges[0].condition == "" then [edges[0]] + Unconditional(edges[1..])
    else Unconditional(edges[1..])
  }

  lemma {:induction false} UnconditionalMembers(edges: seq<Edge>, e: Edge)
    ensures e in Unconditional(edges) <==> e in edges && e.condition == ""
  {
    if edges != [] {
      UnconditionalMembers(edges[1..], e);
      assert e in edges <==> e == edges[0] || e in edges[1..];
    }
  }

  /** The sort key `(-weight, target)`, ascending. */
  predicate Precedes(a: Edge, b: Edge) {
    a.weight > b.weight || (a.weight == b.weight && LexLe(a.target, b.target))
  }

  predicate StrictlyPrecedes(a: Edge, b: Edge) {
    a.weight > b.weight || (a.weight == b.weight && a.target != b.target && LexLe(a.target, b.target))
  }

  lemma PrecedesTotal(a: Edge, b: Edge)
    ensures StrictlyPrecedes(b, a) <==> !Precedes(a, b)
  {
    LexTotal(a.target, b.target);
  }

  /** First of the stable sort by weight descending, then target ascending. */
  function Best(edges: seq<Edge>): (r: Edge)
    requires edges != []
    ensures r in edges
    ensures forall e :: e in edges ==> Precedes(r, e)
  {
    var first := edges[0];
    LexTotal(first.target, first.target);
    if |edges| == 1 then first
    else
      var rest := Best(edges[1..]);
      PrecedesTotal(first, rest);
      if StrictlyPrecedes(rest, first) then
        assert forall e :: e in edges ==> e == first || e in edges[1..];
        rest
      else
        assert forall e :: e in edges ==> Precedes(first, e) by {
          forall e | e in edges ensures Precedes(first, e) {
            if e != first {
              assert e in edges[1..];
              if first.weight == rest.weight && rest.weight == e.weight {
                LexTransitive(first.target, rest.target, e.target);
              }
            }
          }
        }
        first
  }

  // ---------------------------------------------------------------------------
  // Labels and suggested ids
  // ---------------------------------------------------------------------------

  function SkipSpaces(s: string): string {
    LStrip(s)
  }

  /** The accelerator prefixes "[Y] ", "Y) " and "Y - ", removed once at the start. */
  function StripAccelerator(s: string): string {
    if |s| >= 3 && s[0] == '[' && s[1] != '\n' && s[2] == ']' then SkipSpaces(s[3..])
    else if |s| >= 2 && s[0] != '\n' && s[1] == ')' then SkipSpaces(s[2..])
    else if |s| >= 2 && s[0] != '\n' && SkipSpaces(s[1..]) != "" && SkipSpaces(s[1..])[0] == '-' then
      SkipSpaces(SkipSpaces(s[1..])[1..])
    else s
  }

  function NormalizeLabel(s: string): string {
    Strip(StripAccelerator(Lower(Strip(s))))
  }

  function CoerceSuggestedId(raw: RawId): Option<NodeId> {
    match raw
    case StrId(id) => Some(id)
    case IntId(n) => Some(Decimal(n))
    case OtherId => None
  }

  function LabelMatch(edges: seq<Edge>, wanted: string): (r: Option<Edge>)
    ensures r.Some? ==> r.value in edges && r.value.condition == ""
  {
    if edges == [] then None
    else if edges[0].condition == "" && edges[0].labelText != "" && NormalizeLabel(edges[0].labelText) == wanted then
      Some(edges[0])
    else LabelMatch(edges[1..], wanted)
  }

  function TargetMatch(edges: seq<Edge>, id: NodeId): (r: Option<Edge>)
    ensures r.Some? ==> r.value in edges && r.value.condition == "" && r.value.target == id
    ensures r.None? ==> forall e :: e in edges && e.condition == "" ==> e.target != id
  {
    if edges == [] then None
    else if edges[0].condition == "" && edges[0].target == id then Some(edges[0])
    else TargetMatch(edges[1..], id)
  }

  function SuggestionMatch(edges: seq<Edge>, suggested: seq<RawId>): (r: Option<Edge>)
    ensures r.Some? ==> r.value in edges && r.value.condition == ""
  {
    if suggested == [] then None
    else
      var id := CoerceSuggestedId(suggested[0]);
      var hit := if id.Some? then TargetMatch(edges, id.value) else None;
      if hit.Some? then hit else SuggestionMatch(edges, suggested[1..])
  }

  // ---------------------------------------------------------------------------
  // The selection ladder
  // ---------------------------------------------------------------------------

  function Choose(edges: seq<Edge>, holds: EdgeTest, preferred: Option<string>, suggested: seq<RawId>): Option<Edge> {
    var matched := Matching(edges, holds);
    if matched != [] then Some(Best(matched))
    else
      var byLabel := if Truthy(preferred) then LabelMatch(edges, NormalizeLabel(preferred.value)) else None;
      if byLabel.Some? then byLabel
      else
        var bySuggestion := SuggestionMatch(edges, suggested);
        if bySuggestion.Some? then bySuggestion
        else
          var plain := Unconditional(edges);
          if plain != [] then Some(Best(plain)) else None
  }

  function SelectEdge(g: Graph, id: NodeId, outcome: Outcome, ctx: Context): Option<Edge> {
    Choose(Outgoing(g, id), Judge(outcome, ctx), outcome.preferredLabel, outcome.Suggestions())
  }

  // ---------------------------------------------------------------------------
  // Laws
  // ---------------------------------------------------------------------------

  lemma ChoiceIsUsable(edges: seq<Edge>, holds: EdgeTest, preferred: Option<string>, suggested: seq<RawId>)
    ensures var r := Choose(edges, holds, preferred, suggested); r.Some? ==> r.value in edges && !Refused(r.value, holds)
  {
    hide NormalizeLabel;
    var r := Choose(edges, holds, preferred, suggested);
    if r.Some? {
      MatchingMembers(edges, holds, r.value);
      UnconditionalMembers(edges, r.value);
    }
  }

  /** The chosen edge leaves the node and is never one whose condition is false. */
  lemma SelectedEdgeIsUsable(g: Graph, id: NodeId, outcome: Outcome, ctx: Context)
    ensures var r := SelectEdge(g, id, outcome, ctx);
      r.Some? ==> r.value in g.edges && r.value.source == id && !Refused(r.value, Judge(outcome, ctx))
  {
    hide Judge;
    ChoiceIsUsable(Outgoing(g, id), Judge(outcome, ctx), outcome.preferredLabel, outcome.Suggestions());
    var r := SelectEdge(g, id, outcome, ctx);
    if r.Some? { FromMembers(g.edges, id, r.value); }
  }

  /** Nothing is chosen exactly when every outgoing edge carries a false condition. */
  lemma NoEdgeExactly(g: Graph, id: NodeId, outcome: Outcome, ctx: Context)
    ensures SelectEdge(g, id, outcome, ctx) == None <==>
      forall e :: e in g.edges && e.source == id ==> Refused(e, Judge(outcome, ctx))
  {
    hide Judge;
    hide NormalizeLabel;
    var edges, holds := Outgoing(g, id), Judge(outcome, ctx);
    if SelectEdge(g, id, outcome, ctx) == None {
      forall e | e in g.edges && e.source == id ensures Refused(e, holds) {
        FromMembers(g.edges, id, e);
        MatchingMembers(edges, holds, e);
        UnconditionalMembers(edges, e);
      }
    } else {
      SelectedEdgeIsUsable(g, id, outcome, ctx);
    }
  }

  /** When some condition holds, the choice has the greatest weight and then the least target among those. */
  lemma ConditionsComeFirst(g: Graph, id: NodeId, outcome: Outcome, ctx: Context, e: Edge)
    requires e in g.edges && e.source == id && Eligible(e, Judge(outcome, ctx))
    ensures var r := SelectEdge(g, id, outcome, ctx);
      r.Some? && Eligible(r.value, Judge(outcome, ctx)) &&
      (r.value.weight > e.weight || (r.value.weight == e.weight && LexLe(r.value.target, e.target)))
  {
    hide Judge;
    hide LexLe;
    var edges, holds := Outgoing(g, id), Judge(outcome, ctx);
    FromMembers(g.edges, id, e);
    MatchingMembers(edges, holds, e);
    MatchingMembers(edges, holds, Best(Matching(edges, holds)));
  }

  /** The edges left after deleting those whose condition is false. */
  function Prune(edges: seq<Edge>, holds: EdgeTest): seq<Edge> {
    if edges == [] then []
    else if Refused(edges[0], holds) then Prune(edges[1..], holds)
    else [edges[0]] + Prune(edges[1..], holds)
  }

  lemma {:induction false} PruneCommutes(edges: seq<Edge>, id: NodeId, holds: EdgeTest)
    ensures From(Prune(edges, holds), id) == Prune(From(edges, id), holds)
  {
    if edges != [] {
      PruneCommutes(edges[1..], id, holds);
      if !Refused(edges[0], holds) {
        assert Prune(edges, holds)[1..] == Prune(edges[1..], holds);
      }
      if edges[0].source == id {
        assert From(edges, id)[1..] == From(edges[1..], id);
      }
    }
  }

  lemma {:induction false} PruneKeepsChoices(edges: seq<Edge>, holds: EdgeTest)
    ensures Matching(Prune(edges, holds), holds) == Matching(edges, holds)
    ensures Unconditional(Prune(edges, holds)) == Unconditional(edges)
  {
    if edges != [] {
      PruneKeepsChoices(edges[1..], holds);
      if !Refused(edges[0], holds) {
        assert Prune(edges, holds)[1..] == Prune(edges[1..], holds);
      }
    }
  }

  lemma {:induction false} PruneKeepsLookups(edges: seq<Edge>, holds: EdgeTest, wanted: string, id: NodeId)
    ensures LabelMatch(Prune(edges, holds), wanted) == LabelMatch(edges, wanted)
    ensures TargetMatch(Prune(edges, holds), id) == TargetMatch(edges, id)
  {
    hide NormalizeLabel;
    if edges != [] {
      PruneKeepsLookups(edges[1..], holds, wanted, id);
      if !Refused(edges[0], holds) {
        assert Prune(edges, holds)[1..] == Prune(edges[1..], holds);
      }
    }
  }

  lemma {:induction false} PruneKeepsSuggestions(edges: seq<Edge>, holds: EdgeTest, suggested: seq<RawId>)
    ensures SuggestionMatch(Prune(edges, holds), suggested) == SuggestionMatch(edges, suggested)
  {
    hide CoerceSuggestedId;
    if suggested != [] {
      var id := CoerceSuggestedId(suggested[0]);
      PruneKeepsLookups(edges, holds, "", id.Or(""));
      PruneKeepsSuggestions(edges, holds, suggested[1..]);
    }
  }

  /** Deleting every edge whose condition is false, anywhere in the graph, changes no choice. */
  lemma FalseEdgesAreInert(g: Graph, id: NodeId, outcome: Outcome, ctx: Context)
    ensures SelectEdge(g.(edges := Prune(g.edges, Judge(outcome, ctx))), id, outcome, ctx)
      == SelectEdge(g, id, outcome, ctx)
  {
    hide Judge;
    hide NormalizeLabel;
    var holds, edges := Judge(outcome, ctx), Outgoing(g, id);
    PruneCommutes(g.edges, id, holds);
    PruneKeepsChoices(edges, holds);
    PruneKeepsLookups(edges, holds, NormalizeLabel(outcome.preferredLabel.Or("")), "");
    PruneKeepsSuggestions(edges, holds, outcome.Suggestions());
  }

  lemma EvaluateSurvives(condition: string, outcome: Outcome, ctx: Context)
    ensures Evaluate(condition, Durable(outcome), ctx) == Evaluate(condition, outcome, ctx)
  {
    hide Clauses;
    hide Strip;
    forall c: Clause ensures EvaluateClause(c, Durable(outcome), ctx) == EvaluateClause(c, outcome, ctx) {
    }
  }

  lemma {:induction false} MatchingSurvives(edges: seq<Edge>, outcome: Outcome, ctx: Context)
    ensures Matching(edges, Judge(Durable(outcome), ctx)) == Matching(edges, Judge(outcome, ctx))
  {
    hide Evaluate;
    if edges != [] {
      EvaluateSurvives(edges[0].condition, outcome, ctx);
      MatchingSurvives(edges[1..], outcome, ctx);
    }
  }

  /** Routing reads only fields that a checkpoint keeps. */
  lemma SelectionSurvivesCheckpoint(g: Graph, id: NodeId, outcome: Outcome, ctx: Context)
    ensures SelectEdge(g, id, Durable(outcome), ctx) == SelectEdge(g, id, outcome, ctx)
  {
    hide Judge;
    hide NormalizeLabel;
    MatchingSurvives(Outgoing(g, id), outcome, ctx);
  }
}
