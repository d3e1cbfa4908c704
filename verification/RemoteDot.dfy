/** Materializing a remote pipeline tree (remote_dot.py): a bounded walk over references between files. */
module RemoteDot {
  import opened Prelude

  /** One file in one repository at one revision; the path is its components. */
  datatype Origin = Origin(host: string, owner: string, repo: string, revision: string, path: seq<string>)

  datatype Fetch = Unavailable | Got(size: nat, refs: Option<seq<string>>)  // no refs: it does not parse

  /** The network and the URI parser. */
  datatype World = World(fetch: Origin -> Fetch, parse: string -> Option<Origin>)

  datatype Limits = Limits(maxDepth: nat, maxFiles: nat, maxTotalBytes: nat)

  // ---------------------------------------------------------------------------
  // Resolving one reference
  // ---------------------------------------------------------------------------

  function Split(s: string, c: char): (r: seq<string>)
    ensures |r| >= 1
  {
    if s == "" then [""]
    else
      var rest := Split(s[1..], c);
      if s[0] == c then [""] + rest else [[s[0]] + rest[0]] + rest[1..]
  }

  /** `posixpath.normpath` on a relative path, after `done`. */
  function Normalize(done: seq<string>, parts: seq<string>): seq<string>
    decreases |parts|
  {
    if parts == [] then done
    else if parts[0] == "" || parts[0] == "." then Normalize(done, parts[1..])
    else if parts[0] != ".." || done == [] || done[|done| - 1] == ".." then Normalize(done + [parts[0]], parts[1..])
    else Normalize(done[..|done| - 1], parts[1..])
  }

  predicate HasPrefix(s: string, prefix: string) {
    |s| >= |prefix| && s[..|prefix|] == prefix
  }

  datatype Resolution = Skipped | To(origin: Origin) | Illegal

  function Directory(o: Origin): seq<string> {
    if o.path == [] then [] else o.path[..|o.path| - 1]
  }

  /** `_resolve_ref`. */
  function ResolveRef(w: World, raw: string, referrer: Origin): Resolution {
    if '$' in raw then Skipped
    else if HasPrefix(raw, "git+https://") then
      var child := w.parse(raw);
      if child.Some? then To(child.value) else Illegal
    else if HasPrefix(raw, "/") then Illegal
    else
      var joined := Normalize([], Directory(referrer) + Split(raw, '/'));
      if joined != [] && joined[0] == ".." then Illegal else To(referrer.(path := joined))
  }

  predicate Climbless(path: seq<string>) {
    forall i :: 0 <= i < |path| ==> path[i] != ".."
  }

  predicate ClimbsLead(path: seq<string>) {
    forall i, j :: 0 <= i < j < |path| && path[j] == ".." ==> path[i] == ".."
  }

  /** In a normalized path all climbs stand in front. */
  lemma {:induction false} ClimbsInFront(done: seq<string>, parts: seq<string>)
    requires ClimbsLead(done)
    ensures ClimbsLead(Normalize(done, parts))
    decreases |parts|
  {
    if parts != [] {
      if parts[0] == "" || parts[0] == "." { ClimbsInFront(done, parts[1..]); }
      else if parts[0] != ".." || done == [] || done[|done| - 1] == ".." { ClimbsInFront(done + [parts[0]], parts[1..]); }
      else { ClimbsInFront(done[..|done| - 1], parts[1..]); }
    }
  }

  /** A relative reference never leaves its repository, however it is written. */
  lemma RelativeStaysInside(w: World, raw: string, referrer: Origin)
    requires !HasPrefix(raw, "git+https://") && ResolveRef(w, raw, referrer).To?
    ensures var o := ResolveRef(w, raw, referrer).origin;
      && Climbless(o.path) && o.host == referrer.host && o.owner == referrer.owner && o.repo == referrer.repo
      && o.revision == referrer.revision
  {
    var joined := Normalize([], Directory(referrer) + Split(raw, '/'));
    ClimbsInFront([], Directory(referrer) + Split(raw, '/'));
    assert joined != [] ==> joined[0] != "..";
  }

  // ---------------------------------------------------------------------------
  // The reference graph
  // ---------------------------------------------------------------------------

  /** The origins a list of references leads to, in order; nothing when one of them is illegal. */
  function Resolved(w: World, refs: seq<string>, referrer: Origin): Option<seq<Origin>> {
    if refs == [] then Some([])
    else
      var head, tail := ResolveRef(w, refs[0], referrer), Resolved(w, refs[1..], referrer);
      if head.Illegal? || tail.None? then None
      else Some((if head.To? then [head.origin] else []) + tail.value)
  }

  /** What a file refers to; nothing when it cannot be fetched, parsed or resolved. */
  function Children(w: World, o: Origin): Option<seq<Origin>> {
    var f := w.fetch(o);
    if f.Got? && f.refs.Some? then Resolved(w, f.refs.value, o) else None
  }

  predicate Usable(w: World, o: Origin) {
    Children(w, o).Some?
  }

  predicate Refers(w: World, a: Origin, b: Origin) {
    Usable(w, a) && b in Children(w, a).value
  }

  /** `o` is `k` references away from the entry, along some path. */
  ghost predicate Reaches(w: World, entry: Origin, o: Origin, k: nat)
    decreases k
  {
    if k == 0 then o == entry else exists p :: Reaches(w, entry, p, k - 1) && Refers(w, p, o)
  }

  ghost predicate Within(w: World, entry: Origin, o: Origin, depth: nat) {
    exists k: nat :: k < depth && Reaches(w, entry, o, k)
  }

  ghost predicate Reachable(w: World, entry: Origin, o: Origin) {
    exists k: nat :: Reaches(w, entry, o, k)
  }

  // ---------------------------------------------------------------------------
  // The walk
  // ---------------------------------------------------------------------------

  datatype Failure = DepthExceeded | FilesExceeded | BytesExceeded | FetchFailed | Malformed

  datatype Result = Written(files: seq<Origin>) | Refused(failure: Failure)

  function Size(w: World, o: Origin): nat {
    var f := w.fetch(o);
    if f.Got? then f.size else 0
  }

  function TotalSize(w: World, files: seq<Origin>): nat {
    if files == [] then 0 else TotalSize(w, files[..|files| - 1]) + Size(w, files[|files| - 1])
  }

  predicate Distinct(s: seq<Origin>) {
    forall i, j :: 0 <= i < j < |s| ==> s[i] != s[j]
  }

  /** Every file fetched so far was usable, and the totals are within the limits. */
  ghost predicate Lawful(w: World, l: Limits, files: seq<Origin>) {
    && Distinct(files) && |files| <= l.maxFiles && TotalSize(w, files) <= l.maxTotalBytes
    && forall o :: o in files ==> Usable(w, o)
  }

  /** Levels: `files` is everything nearer than `depth`, `frontier` is what is first met at `depth`. */
  ghost predicate Levelled(w: World, entry: Origin, files: seq<Origin>, frontier: seq<Origin>, depth: nat) {
    && (forall o :: o in files <==> Within(w, entry, o, depth))
    && (forall o :: o in frontier <==> Reaches(w, entry, o, depth) && !Within(w, entry, o, depth))
    && Distinct(frontier)
  }

  /** Drop what is already written or already queued, keeping the order. */
  method Deduplicate(found: seq<Origin>, files: seq<Origin>) returns (frontier: seq<Origin>)
    ensures Distinct(frontier) && forall o :: o in frontier <==> o in found && o !in files
  {
    frontier := [];
    for i := 0 to |found|
      invariant Distinct(frontier) && forall o :: o in frontier <==> o in found[..i] && o !in files
    {
      assert found[..i + 1] == found[..i] + [found[i]];
      if found[i] !in files && found[i] !in frontier {
        frontier := frontier + [found[i]];
      }
    }
    assert found[..|found|] == found;
  }

  /** The references of one file, resolved in order. */
  method ResolveAll(w: World, refs: seq<string>, referrer: Origin, files: seq<Origin>) returns (found: Option<seq<Origin>>)
    ensures found.None? <==> Resolved(w, refs, referrer).None?
    ensures found.Some? ==>
      forall o :: o in found.value <==> o in Resolved(w, refs, referrer).value && o !in files
  {
    var next: seq<Origin> := [];
    for i := 0 to |refs|
      invariant Resolved(w, refs, referrer).None? <==> Resolved(w, refs[i..], referrer).None?
      invariant Resolved(w, refs, referrer).Some? ==>
        forall o :: o in Resolved(w, refs, referrer).value && o !in files <==>
                    o in next || (o in Resolved(w, refs[i..], referrer).value && o !in files)
    {
      assert refs[i..][1..] == refs[i + 1..] && refs[i..][0] == refs[i];
      var r := ResolveRef(w, refs[i], referrer);
      match r {
        case Illegal => return None;
        case Skipped =>
        case To(origin) => if origin !in files { next := next + [origin]; }
      }
    }
    return Some(next);
  }

  /** What the references found so far cover: all of some files, and nothing but theirs. */
  ghost predicate Covers(w: World, done: seq<Origin>, files: seq<Origin>, found: seq<Origin>) {
    && (forall o :: o in found ==> ReferredFrom(w, done, o))
    && (forall o, p :: p in done && Refers(w, p, o) ==> o in found || o in files)
  }

  ghost predicate ReferredFrom(w: World, done: seq<Origin>, o: Origin) {
    exists p :: p in done && Refers(w, p, o)
  }

  lemma CoversMore(w: World, done: seq<Origin>, origin: Origin, files: seq<Origin>, found: seq<Origin>, next: seq<Origin>)
    requires Covers(w, done, files, found) && Usable(w, origin)
    requires forall o :: o in next <==> o in Children(w, origin).value && o !in files
    ensures Covers(w, done + [origin], files + [origin], found + next)
  {
    forall o | o in found + next ensures ReferredFrom(w, done + [origin], o) {
      if o in found {
        var p :| p in done && Refers(w, p, o);
        assert p in done + [origin];
      } else {
        assert origin in done + [origin] && Refers(w, origin, o);
      }
    }
  }

  /** Writing one more usable file within the limits keeps the walk lawful. */
  lemma LawfulMore(w: World, l: Limits, files: seq<Origin>, x: Origin)
    requires Lawful(w, l, files) && x !in files && Usable(w, x)
    requires |files| + 1 <= l.maxFiles && TotalSize(w, files + [x]) <= l.maxTotalBytes
    ensures Lawful(w, l, files + [x])
  {
    hide Usable;
    hide TotalSize;
    DistinctConcat(files, [x]);
    hide Distinct;
    forall o | o in files + [x] ensures Usable(w, o) {
    }
  }

  /** Totals after one more file, and how they bound the totals of the whole level. */
  lemma TotalsStep(w: World, before: seq<Origin>, frontier: seq<Origin>, i: nat)
    requires i < |frontier|
    ensures before + frontier[..i] + [frontier[i]] == before + frontier[..i + 1]
    ensures TotalSize(w, before + frontier[..i + 1]) == TotalSize(w, before + frontier[..i]) + Size(w, frontier[i])
    ensures TotalSize(w, before + frontier) >= TotalSize(w, before + frontier[..i + 1])
    ensures |before + frontier| >= |before| + i + 1
  {
    var grown := before + frontier[..i + 1];
    assert grown[..|grown| - 1] == before + frontier[..i];
    assert before + frontier == grown + frontier[i + 1..];
    SizeGrows(w, grown, frontier[i + 1..]);
  }

  /** One level: count, check, resolve and write every file of the frontier. */
  method WriteLevel(w: World, l: Limits, before: seq<Origin>, frontier: seq<Origin>)
    returns (failure: Option<Failure>, files: seq<Origin>, found: seq<Origin>)
    requires Lawful(w, l, before) && Distinct(frontier) && forall o :: o in frontier ==> o !in before
    requires forall o :: o in frontier ==> w.fetch(o).Got?
    ensures failure.None? ==> files == before + frontier && Lawful(w, l, files) && Covers(w, frontier, files, found)
    ensures failure.Some? ==>
      || (exists p :: p in frontier && !Usable(w, p))
      || |before + frontier| > l.maxFiles || TotalSize(w, before + frontier) > l.maxTotalBytes
  {
    hide Covers;
    hide Resolved;
    hide TotalSize;
    hide Lawful;
    hide Distinct;
    files, found := before, [];
    var bytes := TotalSize(w, before);
    assert before + frontier[..0] == before && frontier[..0] == [];
    NothingCovered(w, files);
    for i := 0 to |frontier|
      invariant files == before + frontier[..i] && Lawful(w, l, files) && bytes == TotalSize(w, files)
      invariant Covers(w, frontier[..i], files, found)
    {
      var origin := frontier[i];
      var f := w.fetch(origin);
      TotalsStep(w, before, frontier, i);
      bytes := bytes + f.size;
      if |files| + 1 > l.maxFiles {
        return Some(FilesExceeded), files, found;
      }
      if bytes > l.maxTotalBytes {
        return Some(BytesExceeded), files, found;
      }
      if f.refs.None? {
        assert !Usable(w, origin);
        return Some(Malformed), files, found;
      }
      var next := ResolveAll(w, f.refs.value, origin, files);
      if next.None? {
        assert !Usable(w, origin);
        return Some(Malformed), files, found;
      }
      NotYet(before, frontier, i);
      LawfulMore(w, l, files, origin);
      CoversMore(w, frontier[..i], origin, files, found, next.value);
      assert frontier[..i + 1] == frontier[..i] + [origin];
      found := found + next.value;
      files := files + [origin];
    }
    assert frontier[..|frontier|] == frontier;
    return None, files, found;
  }

  lemma NothingCovered(w: World, files: seq<Origin>)
    ensures Covers(w, [], files, [])
  {
  }

  lemma NotYet(before: seq<Origin>, frontier: seq<Origin>, i: nat)
    requires i < |frontier| && Distinct(frontier) && forall o :: o in frontier ==> o !in before
    ensures frontier[i] !in before + frontier[..i]
  {
  }

  lemma {:induction false} SizeGrows(w: World, a: seq<Origin>, b: seq<Origin>)
    ensures TotalSize(w, a + b) >= TotalSize(w, a)
    decreases |b|
  {
    if b == [] {
      assert a + b == a;
    } else {
      assert (a + b)[..|a + b| - 1] == a + b[..|b| - 1];
      SizeGrows(w, a, b[..|b| - 1]);
    }
  }

  /** Fetch a whole level; nothing is written when one file is unavailable. */
  method FetchLevel(w: World, frontier: seq<Origin>) returns (missing: Option<Origin>)
    ensures missing.None? ==> forall o :: o in frontier ==> w.fetch(o).Got?
    ensures missing.Some? ==> missing.value in frontier && w.fetch(missing.value).Unavailable?
  {
    for i := 0 to |frontier|
      invariant forall o :: o in frontier[..i] ==> w.fetch(o).Got?
    {
      assert frontier[..i + 1] == frontier[..i] + [frontier[i]];
      if w.fetch(frontier[i]).Unavailable? {
        return Some(frontier[i]);
      }
    }
    assert frontier[..|frontier|] == frontier;
    return None;
  }

  /** `materialize_remote_dot`. */
  method Materialize(w: World, l: Limits, entry: Origin) returns (r: Result)
    ensures r.Written? ==> IsTree(w, l, entry, r.files)
    ensures r.Refused? ==> !Materializable(w, l, entry)
  {
    hide Levelled;
    hide Materializable;
    hide TotalSize;
    hide Usable;
    hide Covers;
    hide Distinct;
    var files: seq<Origin> := [];
    var frontier := [entry];
    var depth := 0;
    StartsLevelled(w, l, entry);
    while frontier != []
      invariant depth <= l.maxDepth && Lawful(w, l, files) && Levelled(w, entry, files, frontier, depth)
      decreases l.maxDepth - depth
    {
      if depth >= l.maxDepth {
        TooDeep(w, l, entry, files, frontier, depth);
        return Refused(DepthExceeded);
      }
      FrontierIsNew(w, entry, files, frontier, depth);
      var missing := FetchLevel(w, frontier);
      if missing.Some? {
        UnavailableFails(w, l, entry, files, frontier, depth, missing.value);
        return Refused(FetchFailed);
      }
      var failure, written, found := WriteLevel(w, l, files, frontier);
      if failure.Some? {
        LevelFails(w, l, entry, files, frontier, depth);
        return Refused(failure.value);
      }
      var next := Deduplicate(found, written);
      FoundLevel(w, files, frontier, found, next);
      NextLevel(w, entry, files, frontier, next, depth);
      files, frontier, depth := written, next, depth + 1;
    }
    Closed(w, l, entry, files, depth);
    return Written(files);
  }

  lemma FrontierIsNew(w: World, entry: Origin, files: seq<Origin>, frontier: seq<Origin>, depth: nat)
    requires Levelled(w, entry, files, frontier, depth)
    ensures Distinct(frontier) && forall o :: o in frontier ==> o !in files
  {
    hide Reaches;
    hide Within;
  }

  lemma UnavailableFails(w: World, l: Limits, entry: Origin, files: seq<Origin>, frontier: seq<Origin>, depth: nat, o: Origin)
    requires Levelled(w, entry, files, frontier, depth) && o in frontier && w.fetch(o).Unavailable?
    ensures !Materializable(w, l, entry)
  {
    assert Reaches(w, entry, o, depth);
    UnusableFails(w, l, entry, o);
    hide Materializable;
  }

  /** Everything reachable is near enough and usable, and together within the limits. */
  ghost predicate Materializable(w: World, l: Limits, entry: Origin) {
    && (forall o :: Reachable(w, entry, o) ==> Usable(w, o) && Within(w, entry, o, l.maxDepth))
    && (forall files :: Distinct(files) && (forall o :: o in files ==> Reachable(w, entry, o)) ==>
          |files| <= l.maxFiles && TotalSize(w, files) <= l.maxTotalBytes)
  }

  // ---------------------------------------------------------------------------
  // Levels
  // ---------------------------------------------------------------------------

  lemma StartsLevelled(w: World, l: Limits, entry: Origin)
    ensures Levelled(w, entry, [], [entry], 0) && Lawful(w, l, [])
  {
  }

  lemma FrontierIsReachable(w: World, entry: Origin, files: seq<Origin>, frontier: seq<Origin>, depth: nat)
    requires Levelled(w, entry, files, frontier, depth)
    ensures forall o :: o in files + frontier ==> Reachable(w, entry, o)
    ensures Distinct(files) ==> Distinct(files + frontier)
  {
    FrontierIsNew(w, entry, files, frontier, depth);
    if Distinct(files) { DistinctConcat(files, frontier); }
    hide Distinct;
    forall o | o in files + frontier ensures Reachable(w, entry, o) {
      if o in files {
        var k: nat :| k < depth && Reaches(w, entry, o, k);
      }
    }
  }

  lemma DistinctConcat(a: seq<Origin>, b: seq<Origin>)
    requires Distinct(a) && Distinct(b) && forall o :: o in b ==> o !in a
    ensures Distinct(a + b)
  {
    var s := a + b;
    forall i, j | 0 <= i < j < |s| ensures s[i] != s[j] {
      if i < |a| <= j { assert s[j] == b[j - |a|] && s[j] in b && s[i] in a; }
    }
  }

  lemma TooDeep(w: World, l: Limits, entry: Origin, files: seq<Origin>, frontier: seq<Origin>, depth: nat)
    requires Levelled(w, entry, files, frontier, depth) && frontier != [] && depth == l.maxDepth
    ensures !Materializable(w, l, entry)
  {
    FrontierIsReachable(w, entry, files, frontier, depth);
    assert frontier[0] in frontier;
    assert frontier[0] in files + frontier;
  }

  lemma LevelFails(w: World, l: Limits, entry: Origin, files: seq<Origin>, frontier: seq<Origin>, depth: nat)
    requires Levelled(w, entry, files, frontier, depth) && Distinct(files)
    requires (exists p :: p in frontier && !Usable(w, p)) ||
             |files + frontier| > l.maxFiles || TotalSize(w, files + frontier) > l.maxTotalBytes
    ensures !Materializable(w, l, entry)
  {
    hide Reachable;
    hide Distinct;
    hide Materializable;
    FrontierIsReachable(w, entry, files, frontier, depth);
    if p :| p in frontier && !Usable(w, p) {
      assert p in files + frontier;
      UnusableFails(w, l, entry, p);
    } else {
      LimitsFail(w, l, entry, files + frontier);
    }
  }

  lemma UnusableFails(w: World, l: Limits, entry: Origin, p: Origin)
    requires Reachable(w, entry, p) && !Usable(w, p)
    ensures !Materializable(w, l, entry)
  {
    hide Usable;
    hide Reachable;
  }

  lemma LimitsFail(w: World, l: Limits, entry: Origin, all: seq<Origin>)
    requires Distinct(all) && forall o :: o in all ==> Reachable(w, entry, o)
    requires |all| > l.maxFiles || TotalSize(w, all) > l.maxTotalBytes
    ensures !Materializable(w, l, entry)
  {
    hide Usable;
    hide Reachable;
    hide Distinct;
  }

  lemma FoundLevel(w: World, files: seq<Origin>, frontier: seq<Origin>, found: seq<Origin>, next: seq<Origin>)
    requires Covers(w, frontier, files + frontier, found)
    requires forall o :: o in next <==> o in found && o !in files + frontier
    ensures forall o :: o in next <==> (exists p :: p in frontier && Refers(w, p, o)) && o !in files + frontier
  {
    hide Refers;
    assert forall o :: ReferredFrom(w, frontier, o) <==> exists p :: p in frontier && Refers(w, p, o);
  }

  /** What is first met below `depth + 1` has no referrer met before `depth`. */
  lemma NotNearer(w: World, entry: Origin, p: Origin, o: Origin, depth: nat)
    requires Refers(w, p, o) && !Within(w, entry, o, depth + 1)
    ensures !Within(w, entry, p, depth)
  {
    forall k: nat | k < depth ensures !Reaches(w, entry, p, k) {
      assert !Reaches(w, entry, o, k + 1);
    }
  }

  lemma NextLevel(w: World, entry: Origin, files: seq<Origin>, frontier: seq<Origin>, next: seq<Origin>, depth: nat)
    requires Levelled(w, entry, files, frontier, depth) && Distinct(next)
    requires forall o :: o in next <==> (exists p :: p in frontier && Refers(w, p, o)) && o !in files + frontier
    ensures Levelled(w, entry, files + frontier, next, depth + 1)
  {
    hide Refers;
    forall o ensures o in files + frontier <==> Within(w, entry, o, depth + 1) {
      if Within(w, entry, o, depth + 1) {
        var k: nat :| k < depth + 1 && Reaches(w, entry, o, k);
        if k < depth { assert Within(w, entry, o, depth); }
      }
    }
    forall o ensures o in next <==> Reaches(w, entry, o, depth + 1) && !Within(w, entry, o, depth + 1) {
      if Reaches(w, entry, o, depth + 1) && !Within(w, entry, o, depth + 1) {
        var p :| Reaches(w, entry, p, depth) && Refers(w, p, o);
        NotNearer(w, entry, p, o, depth);
        assert p in frontier;
      }
    }
  }

  lemma NothingAtDepth(w: World, entry: Origin, files: seq<Origin>, depth: nat, o: Origin)
    requires Levelled(w, entry, files, [], depth) && (Reaches(w, entry, o, depth) || Within(w, entry, o, depth))
    ensures o in files && Within(w, entry, o, depth)
  {
    hide Reaches;
    hide Within;
    assert o !in [];
  }

  lemma OneFurther(w: World, entry: Origin, p: Origin, o: Origin, depth: nat)
    requires Within(w, entry, p, depth) && Refers(w, p, o)
    ensures Reaches(w, entry, o, depth) || Within(w, entry, o, depth)
  {
    hide Refers;
    var j: nat :| j < depth && Reaches(w, entry, p, j);
    assert Reaches(w, entry, o, j + 1);
  }

  /** With no new level, everything reachable has been met. */
  lemma {:induction false} MetBy(w: World, entry: Origin, files: seq<Origin>, depth: nat, o: Origin, k: nat)
    requires Levelled(w, entry, files, [], depth) && Reaches(w, entry, o, k)
    ensures o in files && Within(w, entry, o, depth)
    decreases k
  {
    hide Refers;
    hide Levelled;
    if k > depth {
      var p :| Reaches(w, entry, p, k - 1) && Refers(w, p, o);
      hide Reaches;
      MetBy(w, entry, files, depth, p, k - 1);
      OneFurther(w, entry, p, o, depth);
    } else if k < depth {
      assert Within(w, entry, o, depth);
    }
    hide Reaches;
    NothingAtDepth(w, entry, files, depth, o);
  }

  lemma Closed(w: World, l: Limits, entry: Origin, files: seq<Origin>, depth: nat)
    requires Levelled(w, entry, files, [], depth) && Lawful(w, l, files) && depth <= l.maxDepth
    ensures IsTree(w, l, entry, files)
  {
    hide Lawful;
    forall o | Reachable(w, entry, o) ensures o in files {
      var k: nat :| Reaches(w, entry, o, k);
      MetBy(w, entry, files, depth, o, k);
    }
    hide Reaches;
    forall o | o in files ensures Reachable(w, entry, o) && Within(w, entry, o, l.maxDepth) {
      var k: nat :| k < depth && Reaches(w, entry, o, k);
    }
  }

  // ---------------------------------------------------------------------------
  // What the contract comes to
  // ---------------------------------------------------------------------------

  /** A written set is what `Materialize` promises to return. */
  ghost predicate IsTree(w: World, l: Limits, entry: Origin, files: seq<Origin>) {
    && Lawful(w, l, files)
    && (forall o :: o in files <==> Reachable(w, entry, o))
    && (forall o :: o in files ==> Within(w, entry, o, l.maxDepth))
  }

  /** The entry is in it, and nothing a file in it refers to is missing from it. */
  lemma TreeIsClosed(w: World, l: Limits, entry: Origin, files: seq<Origin>, a: Origin, b: Origin)
    requires IsTree(w, l, entry, files) && a in files && Refers(w, a, b)
    ensures entry in files && b in files
  {
    assert Reaches(w, entry, entry, 0);
    var k: nat :| Reaches(w, entry, a, k);
    assert Reaches(w, entry, b, k + 1);
  }

  /** A tree can be written exactly when the reachable files permit it, and it is always the same set. */
  lemma TreeExactly(w: World, l: Limits, entry: Origin, files: seq<Origin>)
    requires IsTree(w, l, entry, files)
    ensures Materializable(w, l, entry)
  {
    hide Reachable;
    hide Within;
    hide Usable;
    forall some | Distinct(some) && (forall o :: o in some ==> Reachable(w, entry, o))
      ensures |some| <= l.maxFiles && TotalSize(w, some) <= l.maxTotalBytes
    {
      SubsetFits(w, some, files);
    }
  }

  lemma {:induction false} SubsetFits(w: World, some: seq<Origin>, all: seq<Origin>)
    requires Distinct(some) && Distinct(all) && forall o :: o in some ==> o in all
    ensures |some| <= |all| && TotalSize(w, some) <= TotalSize(w, all)
    decreases |some|
  {
    if some != [] {
      var n := |some| - 1;
      assert some[n] in all;
      var i :| 0 <= i < |all| && all[i] == some[n];
      OthersRemain(some, all, i);
      SubsetFits(w, some[..n], all[..i] + all[i + 1..]);
      SizeWithout(w, all, i);
    }
  }

  lemma OthersRemain(some: seq<Origin>, all: seq<Origin>, i: nat)
    requires Distinct(some) && Distinct(all) && forall o :: o in some ==> o in all
    requires some != [] && i < |all| && all[i] == some[|some| - 1]
    ensures var rest := all[..i] + all[i + 1..];
      Distinct(rest) && forall o :: o in some[..|some| - 1] ==> o in rest
  {
    var rest := all[..i] + all[i + 1..];
    forall o | o in some[..|some| - 1] ensures o in rest {
      assert o in some;
      var k :| 0 <= k < |all| && all[k] == o;
      if k < i { assert rest[k] == o; } else { assert rest[k - 1] == o; }
    }
  }

  lemma {:induction false} SizeWithout(w: World, s: seq<Origin>, i: nat)
    requires i < |s|
    ensures TotalSize(w, s) == TotalSize(w, s[..i] + s[i + 1..]) + Size(w, s[i])
    decreases |s|
  {
    var n := |s| - 1;
    if i == n {
      assert s[..i] + s[i + 1..] == s[..n];
    } else {
      SizeWithout(w, s[..n], i);
      var rest := s[..i] + s[i + 1..];
      assert rest[..|rest| - 1] == s[..n][..i] + s[..n][i + 1..];
      assert rest[|rest| - 1] == s[n];
    }
  }
}
