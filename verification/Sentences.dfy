/** Splitting a summary into sentences, and what every reading of the text that white space
    separates keeps under that split. Source: server/audit-search/grounding.ts. */
module Sentences {
  import opened Citations

  predicate EndsSentence(c: char) {
    c == '.' || c == '!' || c == '?'
  }

  predicate IsNewline(c: char) {
    c == '\n'
  }

  /** The length of the separator `/(?<=[.!?])\s+|\n+/` at position `q`; 0 if there is none. */
  function SeparatorLength(s: string, q: nat): (n: nat)
    requires q < |s|
    ensures q + n <= |s| && (forall i :: q <= i < q + n ==> IsSpace(s[i]))
  {
    if q > 0 && EndsSentence(s[q - 1]) && IsSpace(s[q]) then
      var n := Run(s[q..], IsSpace);
      assert forall i :: q <= i < q + n ==> s[i] == s[q..][i - q];
      n
    else
      var n := Run(s[q..], IsNewline);
      SpaceFacts('\n');
      assert forall i :: q <= i < q + n ==> s[i] == s[q..][i - q];
      n
  }

  /** `text.split(...)`, with the current piece starting at `p` and the scan standing at `q`. */
  function Pieces(s: string, p: nat, q: nat): seq<string>
    requires p <= q <= |s|
    decreases |s| - q
  {
    if q == |s| then [s[p..q]]
    else
      var n := SeparatorLength(s, q);
      if n > 0 then [s[p..q]] + Pieces(s, q + n, q + n)
      else Pieces(s, p, q + 1)
  }

  function TrimStart(s: string): string {
    s[Run(s, IsSpace)..]
  }

  function TrimEnd(s: string): (t: string)
    ensures t <= s
  {
    if s != "" && IsSpace(s[|s| - 1]) then TrimEnd(s[..|s| - 1]) else s
  }

  function Trim(s: string): string {
    TrimEnd(TrimStart(s))
  }

  /** `.map((s) => s.trim()).filter((s) => s.length > 0)` */
  function TrimmedNonEmpty(pieces: seq<string>): seq<string> {
    if pieces == [] then []
    else (if Trim(pieces[0]) == "" then [] else [Trim(pieces[0])]) + TrimmedNonEmpty(pieces[1..])
  }

  function SplitSentences(text: string): seq<string> {
    TrimmedNonEmpty(Pieces(text, 0, 0))
  }

  // ----- nothing is lost, nothing is cut -----

  /** A reading of texts that treats white space as a separator. */
  ghost predicate Separable<T>(f: string -> seq<T>) {
    f("") == [] && forall a, ws, b :: ws != "" && AllSpace(ws) ==> f(a + (ws + b)) == f(a) + f(b)
  }

  function FlatMap<T>(f: string -> seq<T>, xs: seq<string>): seq<T> {
    if xs == [] then [] else f(xs[0]) + FlatMap(f, xs[1..])
  }

  lemma {:induction false} TrimStartKeeps<T>(f: string -> seq<T>, s: string)
    requires Separable(f)
    ensures f(TrimStart(s)) == f(s)
  {
    var n := Run(s, IsSpace);
    if n > 0 {
      assert s == "" + (s[..n] + s[n..]);
      assert f("" + (s[..n] + s[n..])) == f("") + f(s[n..]);
    } else {
      assert s[0..] == s;
    }
  }

  lemma {:induction false} TrimEndKeeps<T>(f: string -> seq<T>, s: string)
    requires Separable(f)
    ensures f(TrimEnd(s)) == f(s)
  {
    var n := |s| - 1;
    if s != "" && IsSpace(s[n]) {
      TrimEndKeeps(f, s[..n]);
      assert s == s[..n] + ([s[n]] + "");
      assert f(s[..n] + ([s[n]] + "")) == f(s[..n]) + f("");
    }
  }

  lemma {:induction false} TrimmedNonEmptyKeeps<T>(f: string -> seq<T>, pieces: seq<string>)
    requires Separable(f)
    ensures FlatMap(f, TrimmedNonEmpty(pieces)) == FlatMap(f, pieces)
  {
    if pieces != [] {
      TrimmedNonEmptyKeeps(f, pieces[1..]);
      TrimStartKeeps(f, pieces[0]);
      TrimEndKeeps(f, TrimStart(pieces[0]));
      var t, rest := Trim(pieces[0]), TrimmedNonEmpty(pieces[1..]);
      if t != "" {
        assert ([t] + rest)[1..] == rest;
      } else {
        assert [] + rest == rest;
      }
    }
  }

  lemma Rejoin(s: string, p: nat, q: nat, r: nat)
    requires p <= q <= r <= |s|
    ensures s[p..] == s[p..q] + (s[q..r] + s[r..])
  {
  }

  lemma FlatMapCons<T>(f: string -> seq<T>, x: string, rest: seq<string>)
    ensures FlatMap(f, [x] + rest) == f(x) + FlatMap(f, rest)
  {
    assert ([x] + rest)[1..] == rest;
  }

  lemma PiecesStep(s: string, p: nat, q: nat)
    requires p <= q < |s|
    ensures var n := SeparatorLength(s, q);
            Pieces(s, p, q) == if n > 0 then [s[p..q]] + Pieces(s, q + n, q + n) else Pieces(s, p, q + 1)
  {
  }

  lemma PiecesEnd(s: string, p: nat)
    requires p <= |s|
    ensures Pieces(s, p, |s|) == [s[p..]]
  {
    assert s[p..|s|] == s[p..];
  }

  lemma JoinPiece<T>(f: string -> seq<T>, s: string, p: nat, q: nat, r: nat, rest: seq<string>)
    requires Separable(f) && p <= q < r <= |s| && AllSpace(s[q..r])
    requires FlatMap(f, rest) == f(s[r..])
    ensures FlatMap(f, [s[p..q]] + rest) == f(s[p..])
  {
    Rejoin(s, p, q, r);
    assert f(s[p..q] + (s[q..r] + s[r..])) == f(s[p..q]) + f(s[r..]);
    FlatMapCons(f, s[p..q], rest);
  }

  lemma OnePiece<T>(f: string -> seq<T>, x: string)
    ensures FlatMap(f, [x]) == f(x)
  {
    assert FlatMap(f, [x][1..]) == [];
  }

  lemma KeepAtSeparator<T>(f: string -> seq<T>, s: string, p: nat, q: nat)
    requires Separable(f) && p <= q < |s| && SeparatorLength(s, q) > 0
    requires var r := q + SeparatorLength(s, q); FlatMap(f, Pieces(s, r, r)) == f(s[r..])
    ensures FlatMap(f, Pieces(s, p, q)) == f(s[p..])
  {
    var r := q + SeparatorLength(s, q);
    PiecesStep(s, p, q);
    JoinPiece(f, s, p, q, r, Pieces(s, r, r));
  }

  lemma {:induction false} PiecesKeep<T>(f: string -> seq<T>, s: string, p: nat, q: nat)
    requires Separable(f) && p <= q <= |s|
    ensures FlatMap(f, Pieces(s, p, q)) == f(s[p..])
    decreases |s| - q
  {
    if q == |s| {
      PiecesEnd(s, p);
      OnePiece(f, s[p..]);
    } else if SeparatorLength(s, q) > 0 {
      var r := q + SeparatorLength(s, q);
      PiecesKeep(f, s, r, r);
      KeepAtSeparator(f, s, p, q);
    } else {
      PiecesStep(s, p, q);
      PiecesKeep(f, s, p, q + 1);
    }
  }

  /** Reading the sentences one after the other gives what reading the whole text gives. */
  lemma SentencesKeep<T>(f: string -> seq<T>, text: string)
    requires Separable(f)
    ensures FlatMap(f, SplitSentences(text)) == f(text)
  {
    TrimmedNonEmptyKeeps(f, Pieces(text, 0, 0));
    PiecesKeep(f, text, 0, 0);
    assert text[0..] == text;
  }

  lemma ScanIsSeparable()
    ensures Separable(Scan)
  {
    forall a, ws, b | ws != "" && AllSpace(ws) ensures Scan(a + (ws + b)) == Scan(a) + Scan(b) {
      SpacesSeparate(a, ws, b);
    }
  }

  /** No split ever cuts a citation: the text's citations are its sentences' citations, in order. */
  lemma CitationsOfSentences(text: string)
    ensures FlatMap(Scan, SplitSentences(text)) == Scan(text)
  {
    ScanIsSeparable();
    SentencesKeep(Scan, text);
  }

  function NonSpace(s: string): string {
    if s == "" then ""
    else if IsSpace(s[0]) then NonSpace(s[1..])
    else [s[0]] + NonSpace(s[1..])
  }

  lemma NonSpaceCons(c: char, rest: string)
    ensures NonSpace([c] + rest) == (if IsSpace(c) then "" else [c]) + NonSpace(rest)
  {
    assert ([c] + rest)[1..] == rest;
  }

  lemma {:induction false} NonSpaceAppend(a: string, b: string)
    ensures NonSpace(a + b) == NonSpace(a) + NonSpace(b)
  {
    if a == "" {
      assert a + b == b;
    } else {
      var c, rest := a[0], a[1..];
      NonSpaceAppend(rest, b);
      NonSpaceFront(a, b, c, rest);
    }
  }

  lemma NonSpaceFront(a: string, b: string, c: char, rest: string)
    requires a != "" && c == a[0] && rest == a[1..] && NonSpace(rest + b) == NonSpace(rest) + NonSpace(b)
    ensures NonSpace(a + b) == NonSpace(a) + NonSpace(b)
  {
    var front := if IsSpace(c) then "" else [c];
    HeadTail(a);
    Assoc([c], rest, b);
    NonSpaceCons(c, rest);
    NonSpaceCons(c, rest + b);
    Assoc(front, NonSpace(rest), NonSpace(b));
  }

  lemma {:induction false} NonSpaceOfSpaces(ws: string)
    requires AllSpace(ws)
    ensures NonSpace(ws) == ""
  {
    if ws != "" {
      NonSpaceOfSpaces(ws[1..]);
    }
  }

  /** Splitting drops white space and nothing else. */
  lemma SplittingKeepsEveryCharacter(text: string)
    ensures FlatMap(NonSpace, SplitSentences(text)) == NonSpace(text)
  {
    forall a, ws, b | ws != "" && AllSpace(ws) ensures NonSpace(a + (ws + b)) == NonSpace(a) + NonSpace(b) {
      NonSpaceAppend(a, ws + b);
      NonSpaceAppend(ws, b);
      NonSpaceOfSpaces(ws);
    }
    SentencesKeep(NonSpace, text);
  }

  // ----- no sentence hides a boundary -----

  /** A line break, or white space after a full stop, question or exclamation mark. */
  predicate Boundary(s: string, i: nat)
    requires i < |s|
  {
    s[i] == '\n' || (i > 0 && s[i - 1] in {'.', '!', '?'} && IsSpace(s[i]))
  }

  ghost predicate OneSentence(s: string) {
    forall i: nat :: i < |s| ==> !Boundary(s, i)
  }

  ghost predicate AllSingle(pieces: seq<string>) {
    forall piece :: piece in pieces ==> OneSentence(piece)
  }

  lemma AllSingleCons(x: string, rest: seq<string>)
    requires OneSentence(x) && AllSingle(rest)
    ensures AllSingle([x] + rest)
  {
  }

  lemma SingleAtSeparator(s: string, p: nat, q: nat)
    requires p <= q < |s| && SeparatorLength(s, q) > 0 && NoBoundary(s, p, q)
    requires var r := q + SeparatorLength(s, q); AllSingle(Pieces(s, r, r))
    ensures AllSingle(Pieces(s, p, q))
  {
    var r := q + SeparatorLength(s, q);
    PiecesStep(s, p, q);
    PartOfSentence(s, p, q);
    AllSingleCons(s[p..q], Pieces(s, r, r));
  }

  lemma SingleAtEnd(s: string, p: nat)
    requires p <= |s| && NoBoundary(s, p, |s|)
    ensures AllSingle(Pieces(s, p, |s|))
  {
    PiecesEnd(s, p);
    PartOfSentence(s, p, |s|);
    assert s[p..|s|] == s[p..];
  }

  lemma {:induction false} PiecesAreSentences(s: string, p: nat, q: nat)
    requires p <= q <= |s|
    requires NoBoundary(s, p, q)
    ensures AllSingle(Pieces(s, p, q))
    decreases |s| - q
  {
    if q == |s| {
      SingleAtEnd(s, p);
    } else if SeparatorLength(s, q) > 0 {
      var r := q + SeparatorLength(s, q);
      PiecesAreSentences(s, r, r);
      SingleAtSeparator(s, p, q);
    } else {
      CharStepsOn(s, p, q);
      PiecesAreSentences(s, p, q + 1);
    }
  }

  lemma CharStepsOn(s: string, p: nat, q: nat)
    requires p <= q < |s| && SeparatorLength(s, q) == 0 && NoBoundary(s, p, q)
    ensures NoBoundary(s, p, q + 1) && Pieces(s, p, q) == Pieces(s, p, q + 1)
  {
    NoSeparator(s, q);
    PiecesStep(s, p, q);
  }

  lemma NoSeparator(s: string, q: nat)
    requires q < |s| && SeparatorLength(s, q) == 0
    ensures !Boundary(s, q)
  {
    assert s[q..][0] == s[q];
  }

  predicate NoBoundary(s: string, p: nat, q: nat)
    requires p <= q <= |s|
  {
    p == q || (!Boundary(s, q - 1) && NoBoundary(s, p, q - 1))
  }

  lemma {:induction false} NoBoundaryAt(s: string, p: nat, q: nat, i: nat)
    requires p <= i < q <= |s| && NoBoundary(s, p, q)
    ensures !Boundary(s, i)
  {
    if i < q - 1 {
      NoBoundaryAt(s, p, q - 1, i);
    }
  }

  lemma {:induction false} NoBoundaryIn(s: string, p: nat, q: nat)
    requires p <= q <= |s| && OneSentence(s)
    ensures NoBoundary(s, p, q)
  {
    if p < q {
      assert !Boundary(s, q - 1);
      NoBoundaryIn(s, p, q - 1);
    }
  }

  lemma PartOfSentence(s: string, p: nat, q: nat)
    requires p <= q <= |s| && NoBoundary(s, p, q)
    ensures OneSentence(s[p..q])
  {
    var t := s[p..q];
    forall i: nat | i < |t| ensures !Boundary(t, i) {
      assert t[i] == s[p + i] && (i > 0 ==> t[i - 1] == s[p + i - 1]);
      NoBoundaryAt(s, p, q, p + i);
    }
  }

  // ----- two sentences on two lines -----

  /** A sentence as a split leaves it: not empty, no white space at its ends, no boundary inside. */
  ghost predicate IsTrimmedSentence(s: string) {
    s != "" && !IsSpace(s[0]) && !IsSpace(s[|s| - 1]) && OneSentence(s)
  }

  lemma {:induction false} SkipToBoundary(s: string, p: nat, q: nat, r: nat)
    requires p <= q <= r <= |s| && forall k: nat :: q <= k < r ==> !Boundary(s, k)
    ensures Pieces(s, p, q) == Pieces(s, p, r)
    decreases r - q
  {
    if q < r {
      NoBoundaryNoSeparator(s, q);
      PiecesStep(s, p, q);
      SkipToBoundary(s, p, q + 1, r);
    }
  }

  lemma NoBoundaryNoSeparator(s: string, q: nat)
    requires q < |s| && !Boundary(s, q)
    ensures SeparatorLength(s, q) == 0
  {
    assert s[q..][0] == s[q];
  }

  lemma LineBreakSeparates(s: string, q: nat)
    requires q + 1 < |s| && s[q] == '\n' && !IsSpace(s[q + 1])
    ensures SeparatorLength(s, q) == 1
  {
    SpaceFacts('\n');
    assert s[q..][0] == s[q] && s[q..][1..] == s[q + 1..] && s[q + 1..][0] == s[q + 1];
  }

  lemma TrimmedIsTrimmed(s: string)
    requires s != "" && !IsSpace(s[0]) && !IsSpace(s[|s| - 1])
    ensures Trim(s) == s
  {
    assert s[0..] == s;
  }

  lemma JoinedBoundaries(a: string, b: string)
    requires IsTrimmedSentence(a) && IsTrimmedSentence(b)
    ensures var s := a + "\n" + b;
            forall k: nat :: k < |a| || |a| + 1 <= k < |s| ==> !Boundary(s, k)
  {
    var s, n := a + "\n" + b, |a|;
    assert forall k :: 0 <= k < n ==> s[k] == a[k];
    assert s[n] == '\n' && forall k :: 0 <= k < |b| ==> s[n + 1 + k] == b[k];
    forall k: nat | k < n ensures !Boundary(s, k) {
      assert !Boundary(a, k);
    }
    forall k: nat | n + 1 <= k < |s| ensures !Boundary(s, k) {
      assert !Boundary(b, k - n - 1);
    }
  }

  /** Splitting takes apart exactly what a line break has joined. */
  lemma SplittingUndoesJoining(a: string, b: string)
    requires IsTrimmedSentence(a) && IsTrimmedSentence(b)
    ensures SplitSentences(a + "\n" + b) == [a, b]
  {
    JoinedBoundaries(a, b);
    TwoPieces(a, b, a + "\n" + b);
    TrimTwo(a, b);
  }

  lemma TwoPieces(a: string, b: string, s: string)
    requires s == a + "\n" + b && b != "" && !IsSpace(b[0])
    requires forall k: nat :: k < |a| || |a| + 1 <= k < |s| ==> !Boundary(s, k)
    ensures Pieces(s, 0, 0) == [a] + [b]
  {
    var n := |a|;
    assert s[n] == '\n' && s[n + 1] == b[0];
    LineBreakSeparates(s, n);
    FirstPiece(s, n);
    LastPiece(s, n + 1);
    assert s[0..n] == a && s[n + 1..] == b;
  }

  lemma FirstPiece(s: string, n: nat)
    requires n < |s| && SeparatorLength(s, n) == 1 && forall k: nat :: k < n ==> !Boundary(s, k)
    ensures Pieces(s, 0, 0) == [s[0..n]] + Pieces(s, n + 1, n + 1)
  {
    SkipToBoundary(s, 0, 0, n);
    PiecesStep(s, 0, n);
  }

  lemma LastPiece(s: string, p: nat)
    requires p <= |s| && forall k: nat :: p <= k < |s| ==> !Boundary(s, k)
    ensures Pieces(s, p, p) == [s[p..]]
  {
    SkipToBoundary(s, p, p, |s|);
    PiecesEnd(s, p);
  }

  lemma TrimTwo(a: string, b: string)
    requires IsTrimmedSentence(a) && IsTrimmedSentence(b)
    ensures TrimmedNonEmpty([a] + [b]) == [a, b]
  {
    TrimmedIsTrimmed(a);
    TrimmedIsTrimmed(b);
    assert [b][1..] == [] && ([a] + [b])[1..] == [b];
    assert TrimmedNonEmpty([b]) == [b] + TrimmedNonEmpty([]);
    assert TrimmedNonEmpty([a] + [b]) == [a] + TrimmedNonEmpty([b]);
  }

  lemma TrimIsPart(s: string) returns (p: nat, q: nat)
    ensures p <= q <= |s| && Trim(s) == s[p..q]
    ensures forall i :: 0 <= i < p || q <= i < |s| ==> IsSpace(s[i])
  {
    p := Run(s, IsSpace);
    q := p + |Trim(s)|;
    var t := TrimStart(s);
    assert Trim(s) == t[..|Trim(s)|];
    CutEndIsSpace(t);
    assert forall i :: p <= i < |s| ==> s[i] == t[i - p];
  }

  lemma {:induction false} CutEndIsSpace(s: string)
    ensures forall i :: |TrimEnd(s)| <= i < |s| ==> IsSpace(s[i])
  {
    if s != "" && IsSpace(s[|s| - 1]) {
      CutEndIsSpace(s[..|s| - 1]);
    }
  }

  /** What trimming leaves begins and ends with something. */
  lemma TrimmedEnds(s: string)
    requires Trim(s) != ""
    ensures !IsSpace(Trim(s)[0]) && !IsSpace(Trim(s)[|Trim(s)| - 1])
  {
    var t := TrimStart(s);
    assert t != "" && t[0] == s[Run(s, IsSpace)];
    LastIsNoSpace(t);
  }

  lemma {:induction false} LastIsNoSpace(s: string)
    ensures TrimEnd(s) != "" ==> !IsSpace(TrimEnd(s)[|TrimEnd(s)| - 1])
  {
    if s != "" && IsSpace(s[|s| - 1]) {
      LastIsNoSpace(s[..|s| - 1]);
    }
  }

  /** A claim cannot ride along inside another sentence: no sentence contains a boundary. None is empty, and
      none begins or ends with white space. */
  lemma {:induction false} SentencesAreSingle(text: string)
    ensures forall s :: s in SplitSentences(text) ==> IsTrimmedSentence(s)
  {
    PiecesAreSentences(text, 0, 0);
    TrimmedAreSingle(Pieces(text, 0, 0));
  }

  lemma {:induction false} TrimmedAreSingle(pieces: seq<string>)
    requires AllSingle(pieces)
    ensures forall s :: s in TrimmedNonEmpty(pieces) ==> IsTrimmedSentence(s)
  {
    if pieces != [] {
      if Trim(pieces[0]) != "" {
        TrimmedEnds(pieces[0]);
      }
      TrimmedAreSingle(pieces[1..]);
      var p, q := TrimIsPart(pieces[0]);
      NoBoundaryIn(pieces[0], p, q);
      PartOfSentence(pieces[0], p, q);
    }
  }
}
