/** Comment stripping (dot_parser.py): the scanner, what it keeps, and why scanning twice changes nothing. */
module Comments {

  // ---------------------------------------------------------------------------
  // Source text as pieces
  // ---------------------------------------------------------------------------

  datatype Piece = Quoted(text: string) | Plain(c: char) | LineComment(text: string) | BlockComment(text: string)

  predicate StartsWith(s: string, a: char, b: char) {
    |s| >= 2 && s[0] == a && s[1] == b
  }

  /** Where a quoted literal ends, scanning from `i`: past the closing quote, or at the end of the text. */
  function LiteralEnd(s: string, i: nat): (j: nat)
    requires i <= |s|
    ensures i <= j <= |s|
    decreases |s| - i
  {
    if i == |s| then i
    else if s[i] == '\\' && i + 1 < |s| then LiteralEnd(s, i + 2)
    else if s[i] == '"' then i + 1
    else LiteralEnd(s, i + 1)
  }

  /** `source.find("\n", i)`, or the end. */
  function LineEnd(s: string, i: nat): (j: nat)
    requires i <= |s|
    ensures i <= j <= |s| && (j < |s| ==> s[j] == '\n') && forall k :: i <= k < j ==> s[k] != '\n'
    decreases |s| - i
  {
    if i == |s| || s[i] == '\n' then i else LineEnd(s, i + 1)
  }

  /** Past the first block closer from `i`, or the end. */
  function BlockEnd(s: string, i: nat): (j: nat)
    requires i <= |s|
    ensures i <= j <= |s|
    decreases |s| - i
  {
    if |s| - i < 2 then |s|
    else if s[i] == '*' && s[i + 1] == '/' then i + 2
    else BlockEnd(s, i + 1)
  }

  /** The piece a non-empty text begins with. */
  function First(s: string): (p: Piece)
    requires s != ""
    ensures |Text(p)| > 0 && |Text(p)| <= |s| && Text(p) == s[..|Text(p)|]
  {
    if s[0] == '"' then Quoted(s[..LiteralEnd(s, 1)])
    else if StartsWith(s, '/', '/') then LineComment(s[..LineEnd(s, 2)])
    else if StartsWith(s, '/', '*') then BlockComment(s[..BlockEnd(s, 2)])
    else Plain(s[0])
  }

  function Text(p: Piece): string {
    if p.Plain? then [p.c] else p.text
  }

  function Pieces(s: string): seq<Piece>
    decreases |s|
  {
    if s == "" then [] else [First(s)] + Pieces(s[|Text(First(s))|..])
  }

  function Join(pieces: seq<Piece>): string {
    if pieces == [] then "" else Text(pieces[0]) + Join(pieces[1..])
  }

  predicate IsKept(p: Piece) {
    p.Quoted? || p.Plain?
  }

  function Kept(pieces: seq<Piece>): seq<Piece> {
    if pieces == [] then []
    else if IsKept(pieces[0]) then [pieces[0]] + Kept(pieces[1..])
    else Kept(pieces[1..])
  }

  /** The text without its comments. */
  function Stripped(s: string): string {
    Join(Kept(Pieces(s)))
  }

  // ---------------------------------------------------------------------------
  // Where comments end
  // ---------------------------------------------------------------------------

  predicate Closes(s: string, k: int) {
    0 <= k < |s| - 1 && s[k] == '*' && s[k + 1] == '/'
  }

  /** The block closer at `k` is the first from `i` on. */
  ghost predicate ClosesFirst(s: string, i: nat, k: int) {
    i <= k && Closes(s, k) && forall m :: i <= m < k ==> !Closes(s, m)
  }

  lemma {:induction false} BlockEndExactly(s: string, i: nat)
    requires i <= |s|
    ensures forall k :: ClosesFirst(s, i, k) ==> BlockEnd(s, i) == k + 2
    ensures (forall k :: i <= k ==> !Closes(s, k)) ==> BlockEnd(s, i) == |s|
    decreases |s| - i
  {
    if |s| - i >= 2 && !Closes(s, i) {
      BlockEndExactly(s, i + 1);
      forall k | ClosesFirst(s, i, k) ensures ClosesFirst(s, i + 1, k) { }
    }
  }

  /**
   * A block comment reaches to its first closer after the opener, or to the end of the text; a line comment to the end
   * of its line, without the line break.
   */
  lemma CommentExactly(s: string)
    requires s != ""
    ensures var p := First(s);
      && (p.BlockComment? <==> "/*" <= s) && (p.LineComment? <==> "//" <= s) && (p.Quoted? <==> s[0] == '"')
      && (p.BlockComment? ==> forall k :: ClosesFirst(s, 2, k) ==> p.text == s[..k + 2])
      && (p.BlockComment? && (forall k :: 2 <= k ==> !Closes(s, k)) ==> p.text == s)
      && (p.LineComment? ==> '\n' !in p.text && (p.text == s || s[|p.text|] == '\n'))
  {
    assert StartsWith(s, '/', '*') <==> "/*" <= s;
    assert StartsWith(s, '/', '/') <==> "//" <= s;
    if |s| >= 2 { BlockEndExactly(s, 2); }
    hide ClosesFirst;
    hide Closes;
    hide BlockEnd;
  }

  // ---------------------------------------------------------------------------
  // The scanner
  // ---------------------------------------------------------------------------

  lemma StrippedStep(s: string)
    requires s != ""
    ensures var rest := s[|Text(First(s))|..];
      Stripped(s) == (if IsKept(First(s)) then Text(First(s)) else "") + Stripped(rest)
  {
    var p, rest := First(s), s[|Text(First(s))|..];
    assert Pieces(s)[1..] == Pieces(rest);
    if IsKept(p) { assert Kept(Pieces(s))[1..] == Kept(Pieces(rest)); }
  }

  lemma {:induction false} LiteralEndTail(s: string, i: nat, j: nat)
    requires i <= j <= |s|
    ensures LiteralEnd(s[i..], j - i) == LiteralEnd(s, j) - i
    decreases |s| - j
  {
    if j < |s| {
      if s[j] == '\\' && j + 1 < |s| { LiteralEndTail(s, i, j + 2); }
      else if s[j] != '"' { LiteralEndTail(s, i, j + 1); }
    }
  }

  lemma {:induction false} LineEndTail(s: string, i: nat, j: nat)
    requires i <= j <= |s|
    ensures LineEnd(s[i..], j - i) == LineEnd(s, j) - i
    decreases |s| - j
  {
    if j < |s| && s[j] != '\n' { LineEndTail(s, i, j + 1); }
  }

  lemma {:induction false} BlockEndTail(s: string, i: nat, j: nat)
    requires i <= j <= |s|
    ensures BlockEnd(s[i..], j - i) == BlockEnd(s, j) - i
    decreases |s| - j
  {
    if |s| - j >= 2 && !(s[j] == '*' && s[j + 1] == '/') { BlockEndTail(s, i, j + 1); }
  }

  /** Index just past the literal that opens at `i`. */
  method SkipLiteral(source: string, i: nat) returns (j: nat)
    requires i < |source|
    ensures j == LiteralEnd(source, i + 1) && i < j <= |source|
  {
    j := i + 1;
    while j < |source|
      invariant i < j <= |source| && LiteralEnd(source, j) == LiteralEnd(source, i + 1)
    {
      if source[j] == '\\' && j + 1 < |source| {
        j := j + 2;
      } else if source[j] == '"' {
        return j + 1;
      } else {
        j := j + 1;
      }
    }
  }

  predicate OpensAt(s: string, i: nat, b: char)
    requires i < |s|
  {
    i + 1 < |s| && s[i] == '/' && s[i + 1] == b
  }

  /** One step of the scan, by the characters at `i`: where it moves, and what it adds. */
  /** What a text begins with, and how long that is. */
  lemma FirstCases(t: string)
    requires t != ""
    ensures var p := First(t);
      && (IsKept(p) <==> t[0] == '"' || (!StartsWith(t, '/', '/') && !StartsWith(t, '/', '*')))
      && (p.Quoted? <==> t[0] == '"')
      && |Text(p)| == if t[0] == '"' then LiteralEnd(t, 1)
                      else if StartsWith(t, '/', '/') then LineEnd(t, 2)
                      else if StartsWith(t, '/', '*') then BlockEnd(t, 2)
                      else 1
  {
    hide LiteralEnd;
    hide LineEnd;
    hide BlockEnd;
  }

  lemma ScanStep(s: string, i: nat)
    requires i < |s|
    ensures var rest := Stripped(s[i..]);
      if s[i] == '"' then var j := LiteralEnd(s, i + 1); i < j <= |s| && rest == s[i..j] + Stripped(s[j..])
      else if OpensAt(s, i, '/') then rest == Stripped(s[LineEnd(s, i + 2)..])
      else if OpensAt(s, i, '*') then rest == Stripped(s[BlockEnd(s, i + 2)..])
      else rest == [s[i]] + Stripped(s[i + 1..])
  {
    hide Stripped;
    hide First;
    hide Text;
    hide LiteralEnd;
    hide LineEnd;
    hide BlockEnd;
    hide IsKept;
    var t := s[i..];
    FirstCases(t);
    StrippedStep(t);
    var n := |Text(First(t))|;
    assert t[n..] == s[i + n..] && t[..n] == s[i..i + n];
    if s[i] == '"' {
      LiteralEndTail(s, i, i + 1);
    } else if OpensAt(s, i, '/') {
      LineEndTail(s, i, i + 2);
    } else if OpensAt(s, i, '*') {
      BlockEndTail(s, i, i + 2);
    }
  }

  /** `_strip_comments`. */
  method StripComments(source: string) returns (result: string)
    ensures result == Stripped(source)
  {
    hide Stripped;
    hide LiteralEnd;
    hide LineEnd;
    hide BlockEnd;
    result := "";
    var i := 0;
    assert source[0..] == source;
    while i < |source|
      invariant i <= |source| && result + Stripped(source[i..]) == Stripped(source)
      decreases |source| - i
    {
      ScanStep(source, i);
      ghost var rest := Stripped(source[i..]);
      if source[i] == '"' {
        var j := SkipLiteral(source, i);
        assert result + (source[i..j] + Stripped(source[j..])) == result + source[i..j] + Stripped(source[j..]);
        result := result + source[i..j];
        i := j;
      } else if OpensAt(source, i, '/') {
        i := LineEnd(source, i + 2);
      } else if OpensAt(source, i, '*') {
        i := BlockEnd(source, i + 2);
      } else {
        assert result + ([source[i]] + Stripped(source[i + 1..])) == result + [source[i]] + Stripped(source[i + 1..]);
        result := result + [source[i]];
        i := i + 1;
      }
    }
    assert source[i..] == "";
    NothingStripped();
  }

  lemma NothingStripped()
    ensures Stripped("") == ""
  {
  }

  // ---------------------------------------------------------------------------
  // Laws
  // ---------------------------------------------------------------------------

  /** The pieces are the whole text. */
  lemma {:induction false} PiecesLossless(s: string)
    ensures Join(Pieces(s)) == s
    decreases |s|
  {
    hide First;
    if s != "" {
      var p := First(s);
      var rest := s[|Text(p)|..];
      PiecesLossless(rest);
      assert Pieces(s) == [p] + Pieces(rest);
      assert Text(p) + rest == s;
    }
  }

  /** A literal that ends before the end of the text ends there whatever follows it. */
  lemma {:induction false} LiteralEndLocal(s: string, t: string, i: nat)
    requires i <= |s|
    requires LiteralEnd(s, i) < |s| || (LiteralEnd(s, i) == |s| && t == s)
    requires LiteralEnd(s, i) <= |t| && t[..LiteralEnd(s, i)] == s[..LiteralEnd(s, i)]
    ensures LiteralEnd(t, i) == LiteralEnd(s, i)
    decreases |s| - i
  {
    var n := LiteralEnd(s, i);
    if n < |s| && i < |s| {
      assert forall k :: i <= k < n ==> t[k] == s[k] by { assert forall k :: i <= k < n ==> t[..n][k] == s[..n][k]; }
      if s[i] == '\\' && i + 1 < |s| { LiteralEndLocal(s, t, i + 2); }
      else if s[i] != '"' { LiteralEndLocal(s, t, i + 1); }
    }
  }

  /** Stripping cannot put a `/` or `*` in front of what did not begin with one. */
  lemma StrippedHead(s: string)
    requires s == "" || (s[0] != '/' && s[0] != '*')
    ensures Stripped(s) == "" || (Stripped(s)[0] != '/' && Stripped(s)[0] != '*')
  {
    if s != "" { StrippedStep(s); }
  }

  /** A kept piece is found again in front of the stripped rest. */
  lemma KeptStays(s: string)
    requires s != "" && IsKept(First(s))
    ensures var p := First(s);
      var after := Stripped(s[|Text(p)|..]);
      First(Text(p) + after) == p
  {
    var p := First(s);
    var n := |Text(p)|;
    var rest := s[n..];
    var t := Text(p) + Stripped(rest);
    if p.Quoted? {
      if n == |s| {
        assert rest == "" && t == s;
      }
      assert t[..n] == s[..n];
      LiteralEndLocal(s, t, 1);
    } else {
      if s[0] == '/' { StrippedHead(rest); }
    }
  }

  /** The text holds no comment: every piece of it is kept. */
  predicate CommentFree(s: string) {
    forall i :: 0 <= i < |Pieces(s)| ==> IsKept(Pieces(s)[i])
  }

  /** The stripped text consists of exactly the kept pieces of the source, in order: literals verbatim, no new opener. */
  lemma {:induction false} StrippedPieces(s: string)
    ensures Pieces(Stripped(s)) == Kept(Pieces(s))
    decreases |s|
  {
    if s != "" {
      var p := First(s);
      var rest := s[|Text(p)|..];
      StrippedStep(s);
      StrippedPieces(rest);
      assert Pieces(s)[1..] == Pieces(rest);
      if IsKept(p) {
        KeptStays(s);
        var t := Text(p) + Stripped(rest);
        assert t[|Text(p)|..] == Stripped(rest);
      }
    }
  }

  lemma {:induction false} KeptTwice(pieces: seq<Piece>)
    ensures Kept(Kept(pieces)) == Kept(pieces)
    ensures forall i :: 0 <= i < |Kept(pieces)| ==> IsKept(Kept(pieces)[i])
  {
    if pieces != [] {
      KeptTwice(pieces[1..]);
      if IsKept(pieces[0]) { assert Kept(pieces)[1..] == Kept(pieces[1..]); }
    }
  }

  lemma {:induction false} KeptAll(pieces: seq<Piece>)
    ensures Kept(pieces) == pieces <==> forall i :: 0 <= i < |pieces| ==> IsKept(pieces[i])
    ensures |Kept(pieces)| <= |pieces|
  {
    if pieces != [] {
      KeptAll(pieces[1..]);
      assert pieces == [pieces[0]] + pieces[1..];
    }
  }

  /** Stripping is idempotent, its result is comment-free, and only comment-free texts are left as they are. */
  lemma StrippingSettles(s: string)
    ensures Stripped(Stripped(s)) == Stripped(s)
    ensures CommentFree(Stripped(s))
    ensures Stripped(s) == s <==> CommentFree(s)
  {
    StrippedPieces(s);
    KeptTwice(Pieces(s));
    KeptAll(Pieces(s));
    PiecesLossless(s);
    PiecesLossless(Stripped(s));
  }

  // ---------------------------------------------------------------------------
  // The same, read character by character
  // ---------------------------------------------------------------------------

  datatype Mode = Outside | Inside | Escaped

  /** An ordinary string-literal automaton, knowing nothing of comments. */
  function Next(m: Mode, c: char): Mode {
    match m
    case Outside => if c == '"' then Inside else Outside
    case Inside => if c == '\\' then Escaped else if c == '"' then Outside else Inside
    case Escaped => Inside
  }

  function ModeAt(s: string, i: nat): Mode
    requires i <= |s|
  {
    if i == 0 then Outside else Next(ModeAt(s, i - 1), s[i - 1])
  }

  /** Inside a literal the automaton is back outside no earlier than where the scanner ends it. */
  lemma {:induction false} InsideLiteral(s: string, i: nat, k: nat)
    requires i <= |s| && ModeAt(s, i) == Inside && i <= k < LiteralEnd(s, i)
    ensures ModeAt(s, k) != Outside
    decreases |s| - i
  {
    if k > i {
      if s[i] == '\\' && i + 1 < |s| {
        assert ModeAt(s, i + 1) == Escaped && ModeAt(s, i + 2) == Inside;
        if k > i + 1 { InsideLiteral(s, i + 2, k); }
      } else if s[i] != '"' {
        if s[i] != '\\' { InsideLiteral(s, i + 1, k); }
      }
    }
  }

  lemma {:induction false} AfterLiteral(s: string, i: nat)
    requires i <= |s| && ModeAt(s, i) == Inside
    ensures LiteralEnd(s, i) < |s| ==> ModeAt(s, LiteralEnd(s, i)) == Outside
    decreases |s| - i
  {
    if i < |s| {
      if s[i] == '\\' && i + 1 < |s| {
        assert ModeAt(s, i + 1) == Escaped && ModeAt(s, i + 2) == Inside;
        AfterLiteral(s, i + 2);
      } else if s[i] != '"' && s[i] != '\\' {
        AfterLiteral(s, i + 1);
      }
    }
  }

  lemma CommentFreeStep(s: string)
    requires s != "" && CommentFree(s)
    ensures IsKept(First(s)) && CommentFree(s[|Text(First(s))|..])
  {
    var rest := s[|Text(First(s))|..];
    assert Pieces(s)[0] == First(s);
    forall j | 0 <= j < |Pieces(rest)| ensures IsKept(Pieces(rest)[j]) {
      assert Pieces(rest)[j] == Pieces(s)[j + 1];
    }
  }

  lemma ModeStep(s: string, i: nat)
    requires i < |s|
    ensures ModeAt(s, i + 1) == Next(ModeAt(s, i), s[i])
  {
  }

  /** A comment-free rest, entered outside any literal, has no opener outside literals. */
  lemma {:induction false} NoOpenerFrom(s: string, at: nat, i: nat)
    requires at <= i && i + 1 < |s| && ModeAt(s, at) == Outside && CommentFree(s[at..])
    requires ModeAt(s, i) == Outside
    ensures !(s[i] == '/' && (s[i + 1] == '/' || s[i + 1] == '*'))
    decreases |s| - at
  {
    hide First;
    hide Text;
    hide LiteralEnd;
    hide LineEnd;
    hide BlockEnd;
    hide ModeAt;
    hide CommentFree;
    var rest := s[at..];
    var p := First(rest);
    var n := |Text(p)|;
    CommentFreeStep(rest);
    FirstCases(rest);
    ModeStep(s, at);
    assert rest[n..] == s[at + n..] && rest[0] == s[at];
    if p.Quoted? {
      LiteralEndTail(s, at, at + 1);
      assert ModeAt(s, at + 1) == Inside;
      AfterLiteral(s, at + 1);
      if at < i < at + n { InsideLiteral(s, at + 1, i); }
      if i >= at + n { NoOpenerFrom(s, at + n, i); }
    } else if i > at {
      assert ModeAt(s, at + 1) == Outside;
      NoOpenerFrom(s, at + 1, i);
    }
  }

  /** In the stripped text no `//` and no block opener stands outside a string literal. */
  lemma NoOpenerLeft(s: string, i: nat)
    requires i + 1 < |Stripped(s)| && ModeAt(Stripped(s), i) == Outside
    ensures var r := Stripped(s); !(r[i] == '/' && (r[i + 1] == '/' || r[i + 1] == '*'))
  {
    StrippingSettles(s);
    var r := Stripped(s);
    assert r[0..] == r;
    NoOpenerFrom(r, 0, i);
  }
}
