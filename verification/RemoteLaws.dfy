/** How a reference in a remote file is read: where its path leads when it is walked from the file's directory. */
module RemoteLaws {
  import opened Prelude
  import opened RemoteDot

  // ---------------------------------------------------------------------------
  // Cutting a path into parts
  // ---------------------------------------------------------------------------

  function Join(parts: seq<string>, c: char): string
    requires parts != []
  {
    if |parts| == 1 then parts[0] else parts[0] + [c] + Join(parts[1..], c)
  }

  /** Splitting cuts at every separator and loses nothing. */
  lemma {:induction false} SplitExactly(s: string, c: char)
    ensures Join(Split(s, c), c) == s && forall p :: p in Split(s, c) ==> c !in p
  {
    if s != "" {
      SplitExactly(s[1..], c);
      var rest := Split(s[1..], c);
      assert [s[0]] + s[1..] == s;
      if s[0] == c {
        assert Split(s, c)[1..] == rest;
      } else {
        var head := [s[0]] + rest[0];
        assert Split(s, c) == [head] + rest[1..];
        assert ([head] + rest[1..])[1..] == rest[1..];
        assert forall p :: p in Split(s, c) ==> p == head || p in rest;
        assert rest[0] in rest;
        if |rest| > 1 {
          assert head + [c] + Join(rest[1..], c) == [s[0]] + (rest[0] + [c] + Join(rest[1..], c));
        }
      }
    }
  }

  // ---------------------------------------------------------------------------
  // Walking the parts
  // ---------------------------------------------------------------------------

  /** A place in a repository, or so many steps above its root. */
  datatype Place = Place(above: nat, path: seq<string>)

  function Step(at: Place, part: string): Place {
    if part == "" || part == "." then at
    else if part != ".." then Place(at.above, at.path + [part])
    else if at.path != [] then Place(at.above, at.path[..|at.path| - 1])
    else Place(at.above + 1, [])
  }

  function Follow(at: Place, parts: seq<string>): Place
    decreases |parts|
  {
    if parts == [] then at else Follow(Step(at, parts[0]), parts[1..])
  }

  function Climbs(n: nat): seq<string> {
    seq(n, _ => "..")
  }

  predicate Descends(path: seq<string>) {
    forall i :: 0 <= i < |path| ==> path[i] != ".."
  }

  lemma {:induction false} NormalizeFollows(at: Place, parts: seq<string>)
    requires Descends(at.path)
    ensures var end := Follow(at, parts);
      Normalize(Climbs(at.above) + at.path, parts) == Climbs(end.above) + end.path && Descends(end.path)
    decreases |parts|
  {
    if parts != [] {
      var next := Step(at, parts[0]);
      NormalizeFollows(next, parts[1..]);
      hide Follow;
      NormalizeStep(at, parts);
    }
  }

  lemma NormalizeOnce(done: seq<string>, parts: seq<string>)
    requires parts != []
    ensures Normalize(done, parts) ==
      Normalize(if parts[0] == "" || parts[0] == "." then done
                else if parts[0] != ".." || done == [] || done[|done| - 1] == ".." then done + [parts[0]]
                else done[..|done| - 1], parts[1..])
  {
  }

  lemma NormalizeStep(at: Place, parts: seq<string>)
    requires Descends(at.path) && parts != []
    ensures var next := Step(at, parts[0]);
      Normalize(Climbs(at.above) + at.path, parts) == Normalize(Climbs(next.above) + next.path, parts[1..])
  {
    var done, part := Climbs(at.above) + at.path, parts[0];
    NormalizeOnce(done, parts);
    hide Normalize;
    if part == "" || part == "." {
    } else if part != ".." {
      assert done + [part] == Climbs(at.above) + (at.path + [part]);
    } else if at.path != [] {
      var last := |at.path| - 1;
      assert done[|done| - 1] == at.path[last] && at.path[last] != "..";
      assert done[..|done| - 1] == Climbs(at.above) + at.path[..last];
    } else {
      assert done == Climbs(at.above);
      assert done + [".."] == Climbs(at.above + 1) + [];
    }
  }

  /**
   * A reference with a variable in it is left alone and one with the prefix of a remote address is read as such. An
   * absolute path is illegal. Anything else is walked from the directory of the file it stands in, in the same repository
   * at the same revision, and is illegal exactly when that leads above the root.
   */
  lemma ReferenceExactly(w: World, raw: string, referrer: Origin)
    ensures var r := ResolveRef(w, raw, referrer);
      var remote := "git+https://" <= raw;
      var dir := if referrer.path == [] then [] else referrer.path[..|referrer.path| - 1];
      var end := Follow(Place(0, []), dir + Split(raw, '/'));
      && (r == Resolution.Skipped <==> '$' in raw)
      && ('$' !in raw && remote ==> r == match w.parse(raw) case Some(o) => To(o) case None => Illegal)
      && ('$' !in raw && !remote && "/" <= raw ==> r == Illegal)
      && ('$' !in raw && !remote && !("/" <= raw) ==>
            r == if end.above > 0 then Illegal
                 else To(Origin(referrer.host, referrer.owner, referrer.repo, referrer.revision, end.path)))
  {
    var parts := Directory(referrer) + Split(raw, '/');
    var end := Follow(Place(0, []), parts);
    NormalizeFollows(Place(0, []), parts);
    assert Climbs(0) + [] == [];
    hide Follow;
    hide Normalize;
    hide Split;
    var joined := Normalize([], parts);
    assert HasPrefix(raw, "git+https://") <==> "git+https://" <= raw;
    assert HasPrefix(raw, "/") <==> "/" <= raw;
    if end.above > 0 { assert joined[0] == Climbs(end.above)[0]; } else { assert joined == end.path; }
  }
}
