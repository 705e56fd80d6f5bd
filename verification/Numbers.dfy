/** The figures a text states, and the figures a record licenses.
    Source: server/audit-search/grounding.ts. */
module Numbers {
  import opened Citations
  import opened Sentences

  predicate IsDigit(c: char) {
    '0' <= c <= '9'
  }

  predicate IsLetter(c: char) {
    'a' <= c <= 'z' || 'A' <= c <= 'Z'
  }

  /** `[0-9A-Za-z.]`, the characters that do not separate tokens of a record's text. */
  predicate IsTokenChar(c: char) {
    IsDigit(c) || IsLetter(c) || c == '.'
  }

  /** The three classes of characters, by their ASCII codes. */
  lemma AsciiCharacters(c: char)
    ensures IsDigit(c) <==> 48 <= c as int <= 57
    ensures IsLetter(c) <==> 65 <= c as int <= 90 || 97 <= c as int <= 122
    ensures IsTokenChar(c) <==> 48 <= c as int <= 57 || 65 <= c as int <= 90 || 97 <= c as int <= 122 || c as int == 46
  {
  }

  // ----- figures in a summary -----

  /** The length of the number at the front of `s`, by `/\d+(?:\.\d+)?/`; 0 if there is none. */
  function NumberLength(s: string): (n: nat)
    ensures n <= |s|
  {
    var n := Run(s, IsDigit);
    if n > 0 && n < |s| && s[n] == '.' && Run(s[n + 1..], IsDigit) > 0 then n + 1 + Run(s[n + 1..], IsDigit)
    else n
  }

  function NumbersOf(s: string): seq<string> {
    if s == "" then []
    else if NumberLength(s) > 0 then [s[..NumberLength(s)]] + NumbersOf(s[NumberLength(s)..])
    else NumbersOf(s[1..])
  }

  /** The figures a text states outside its citations. */
  function Figures(text: string): seq<string> {
    NumbersOf(Strip(text))
  }

  lemma NumberStopsAt(a: string, t: string)
    requires t != "" && IsSpace(t[0])
    ensures NumberLength(a + t) == NumberLength(a)
  {
    SpaceFacts(t[0]);
    RunStopsAt(a, t, IsDigit);
    var n := Run(a, IsDigit);
    if n < |a| {
      assert (a + t)[n + 1..] == a[n + 1..] + t;
      RunStopsAt(a[n + 1..], t, IsDigit);
    } else {
      assert (a + t)[n] == t[0];
    }
  }

  lemma NumbersStep(s: string)
    requires s != "" && NumberLength(s) > 0
    ensures NumbersOf(s) == [s[..NumberLength(s)]] + NumbersOf(s[NumberLength(s)..])
  {
  }

  lemma NumbersSkip(s: string)
    requires s != "" && NumberLength(s) == 0
    ensures NumbersOf(s) == NumbersOf(s[1..])
  {
  }

  lemma NumbersStepBoth(a: string, t: string)
    requires a != "" && NumberLength(a + t) == NumberLength(a)
    ensures var n := NumberLength(a);
            if n > 0 then NumbersOf(a + t) == [a[..n]] + NumbersOf(a[n..] + t)
            else NumbersOf(a + t) == NumbersOf(a[1..] + t)
  {
    var n := NumberLength(a);
    if n > 0 {
      assert (a + t)[..n] == a[..n] && (a + t)[n..] == a[n..] + t;
      NumbersStep(a + t);
    } else {
      assert (a + t)[1..] == a[1..] + t;
      NumbersSkip(a + t);
    }
  }

  lemma {:induction false} SpaceSeparatesNumbers(a: string, t: string)
    requires t != "" && IsSpace(t[0])
    ensures NumbersOf(a + t) == NumbersOf(a) + NumbersOf(t)
    decreases |a|
  {
    if a == "" {
      assert a + t == t;
    } else {
      NumberStopsAt(a, t);
      NumbersStepBoth(a, t);
      var n := NumberLength(a);
      if n > 0 {
        SpaceSeparatesNumbers(a[n..], t);
        NumbersStep(a);
        Assoc([a[..n]], NumbersOf(a[n..]), NumbersOf(t));
      } else {
        SpaceSeparatesNumbers(a[1..], t);
        NumbersSkip(a);
      }
    }
  }

  lemma {:induction false} SpacesHaveNoNumbers(ws: string, b: string)
    requires AllSpace(ws)
    ensures NumbersOf(ws + b) == NumbersOf(b)
  {
    if ws == "" {
      assert ws + b == b;
    } else {
      SpaceFacts(ws[0]);
      assert (ws + b)[0] == ws[0] && (ws + b)[1..] == ws[1..] + b;
      NumbersSkip(ws + b);
      SpacesHaveNoNumbers(ws[1..], b);
    }
  }

  /** No split cuts a figure either: the text's figures are its sentences' figures, in order. */
  lemma FiguresOfSentences(text: string)
    ensures FlatMap(Figures, SplitSentences(text)) == Figures(text)
  {
    forall a, ws, b | ws != "" && AllSpace(ws) ensures Figures(a + (ws + b)) == Figures(a) + Figures(b) {
      SpacesSeparate(a, ws, b);
      SpaceSeparatesNumbers(Strip(a), ws + Strip(b));
      SpacesHaveNoNumbers(ws, Strip(b));
    }
    SentencesKeep(Figures, text);
  }

  // ----- no digit escapes -----

  function Digits(s: string): string {
    if s == "" then ""
    else if IsDigit(s[0]) then [s[0]] + Digits(s[1..])
    else Digits(s[1..])
  }

  lemma {:induction false} DigitsSplit(s: string, n: nat)
    requires n <= |s|
    ensures Digits(s) == Digits(s[..n]) + Digits(s[n..])
  {
    if n == 0 {
      assert s[0..] == s;
    } else {
      DigitsSplit(s[1..], n - 1);
      assert s[1..][..n - 1] == s[..n][1..] && s[1..][n - 1..] == s[n..];
      if IsDigit(s[0]) {
        Assoc([s[0]], Digits(s[..n][1..]), Digits(s[n..]));
      }
    }
  }

  /** Every ASCII digit of a text outside its citations, in order, belongs to one of the figures the check looks
      at, and each of them is the next number of that text. */
  lemma NoDigitEscapes(text: string)
    ensures FlatMap(Digits, Figures(text)) == Digits(Strip(text))
    ensures Figures(text) == NumbersOf(Strip(text))
  {
    DigitsOfNumbers(Strip(text));
  }

  lemma {:induction false} DigitsOfNumbers(s: string)
    ensures FlatMap(Digits, NumbersOf(s)) == Digits(s)
  {
    if s != "" {
      var n := NumberLength(s);
      if n > 0 {
        NumbersStep(s);
        DigitsOfNumbers(s[n..]);
        DigitsSplit(s, n);
        FlatMapCons(Digits, s[..n], NumbersOf(s[n..]));
      } else {
        assert !IsDigit(s[0]);
        DigitsOfNumbers(s[1..]);
      }
    }
  }

  /** `/^\d+(?:\.\d+)?$/` */
  predicate IsNumeral(t: string) {
    t != "" && NumberLength(t) == |t|
  }

  lemma {:induction false} RunOfPrefix(s: string, n: nat, p: char -> bool)
    requires n <= |s|
    ensures Run(s[..n], p) == if Run(s, p) < n then Run(s, p) else n
  {
    if s != "" && n > 0 {
      RunOfPrefix(s[1..], n - 1, p);
      assert s[..n][1..] == s[1..][..n - 1];
    }
  }

  /** What the scan calls a number is a whole numeral. */
  lemma {:induction false} NumbersAreNumerals(s: string)
    ensures forall t :: t in NumbersOf(s) ==> IsNumeral(t)
  {
    if s != "" {
      var n := NumberLength(s);
      if n > 0 {
        NumbersStep(s);
        NumbersAreNumerals(s[n..]);
        FrontNumberIsNumeral(s);
      } else {
        NumbersAreNumerals(s[1..]);
      }
    }
  }

  lemma FrontNumberIsNumeral(s: string)
    requires NumberLength(s) > 0
    ensures IsNumeral(s[..NumberLength(s)])
  {
    var n, t, d := NumberLength(s), s[..NumberLength(s)], Run(s, IsDigit);
    RunOfPrefix(s, n, IsDigit);
    if n > d {
      assert t[d + 1..] == s[d + 1..][..n - d - 1];
      RunOfPrefix(s[d + 1..], n - d - 1, IsDigit);
    }
  }

  ghost predicate AllDigits(s: string) {
    s != "" && forall i :: 0 <= i < |s| ==> '0' <= s[i] <= '9'
  }

  /** A numeral is a group of digits, or two of them around a point. */
  lemma NumeralIs(t: string)
    ensures IsNumeral(t) <==>
      exists k: nat :: k <= |t| && AllDigits(t[..k]) && (k == |t| || (t[k] == '.' && AllDigits(t[k + 1..])))
  {
    if IsNumeral(t) {
      var d := Run(t, IsDigit);
      assert AllDigits(t[..d]);
      if d < |t| {
        var rest := t[d + 1..];
        assert Run(rest, IsDigit) == |rest|;
        assert AllDigits(rest);
      }
    }
    if k: nat :| k <= |t| && AllDigits(t[..k]) && (k == |t| || (t[k] == '.' && AllDigits(t[k + 1..]))) {
      RunOfDigits(t, k);
      if k < |t| {
        RunOfDigits(t[k + 1..], |t| - k - 1);
      }
    }
  }

  lemma RunOfDigits(t: string, k: nat)
    requires k <= |t| && AllDigits(t[..k]) && (k < |t| ==> !IsDigit(t[k]))
    ensures Run(t, IsDigit) == k
  {
    forall i | 0 <= i < k ensures IsDigit(t[i]) {
      assert t[..k][i] == t[i];
    }
  }

  lemma LongestNumeral(s: string, n: nat)
    requires n <= |s| && IsNumeral(s[..n])
    ensures n <= NumberLength(s)
  {
    var t, d := s[..n], Run(s, IsDigit);
    RunOfPrefix(s, n, IsDigit);
    if d < n {
      assert t[d + 1..] == s[d + 1..][..n - d - 1];
      RunOfPrefix(s[d + 1..], n - d - 1, IsDigit);
    }
  }

  /** Where a numeral begins the scan takes the longest one, goes on behind it, and passes over everything
      else. */
  lemma NumbersTakeTheLongest(s: string, n: nat)
    requires s != ""
    ensures n <= |s| && IsNumeral(s[..n]) && (forall k: nat :: n < k <= |s| ==> !IsNumeral(s[..k])) ==>
              NumbersOf(s) == [s[..n]] + NumbersOf(s[n..])
    ensures (forall k: nat :: k <= |s| ==> !IsNumeral(s[..k])) ==> NumbersOf(s) == NumbersOf(s[1..])
  {
    if n <= |s| && IsNumeral(s[..n]) && forall k: nat :: n < k <= |s| ==> !IsNumeral(s[..k]) {
      LongestIsTaken(s, n);
    }
    if forall k: nat :: k <= |s| ==> !IsNumeral(s[..k]) {
      OthersArePassed(s);
    }
  }

  lemma LongestIsTaken(s: string, n: nat)
    requires s != "" && n <= |s| && IsNumeral(s[..n]) && forall k: nat :: n < k <= |s| ==> !IsNumeral(s[..k])
    ensures NumbersOf(s) == [s[..n]] + NumbersOf(s[n..])
  {
    LongestNumeral(s, n);
    FrontNumberIsNumeral(s);
    assert NumberLength(s) == n;
    NumbersStep(s);
  }

  lemma OthersArePassed(s: string)
    requires s != "" && forall k: nat :: k <= |s| ==> !IsNumeral(s[..k])
    ensures NumbersOf(s) == NumbersOf(s[1..])
  {
    if NumberLength(s) > 0 {
      FrontNumberIsNumeral(s);
      assert false;
    }
    NumbersSkip(s);
  }

  // ----- claims -----

  /** What `/[A-Za-z]{2,}/g` matches, in order. */
  function Words(s: string): seq<string> {
    if s == "" then []
    else
      var n := Run(s, IsLetter);
      if n >= 2 then [s[..n]] + Words(s[n..]) else Words(s[1..])
  }

  predicate IsClaim(sentence: string) {
    |Words(Trim(Strip(sentence)))| >= 2
  }

  predicate LettersOnly(s: string, i: nat, j: nat)
    requires i <= j <= |s|
    decreases j - i
  {
    i == j || (IsLetter(s[i]) && LettersOnly(s, i + 1, j))
  }

  lemma {:induction false} LettersOnlyMeans(s: string, i: nat, j: nat)
    requires i <= j <= |s|
    ensures LettersOnly(s, i, j) <==> forall k :: i <= k < j ==> IsLetter(s[k])
    decreases j - i
  {
    if i < j {
      LettersOnlyMeans(s, i + 1, j);
    }
  }

  /** `s[i..j]` is a whole run of two or more ASCII letters: it has none on either side. */
  predicate IsWord(s: string, i: nat, j: nat) {
    && i + 2 <= j <= |s|
    && LettersOnly(s, i, j)
    && (i > 0 ==> !IsLetter(s[i - 1]))
    && (j < |s| ==> !IsLetter(s[j]))
  }

  /** Two separate words, one behind the other. */
  ghost predicate HasTwoWords(s: string) {
    exists i: nat, j: nat, k: nat, l: nat :: IsWord(s, i, j) && IsWord(s, k, l) && j <= k
  }

  lemma WordOfRest(s: string, n: nat, i: nat, j: nat)
    requires n <= |s| && IsWord(s[n..], i, j) && (i == 0 && n > 0 ==> !IsLetter(s[n - 1]))
    ensures IsWord(s, n + i, n + j)
  {
    assert forall k :: n <= k < |s| ==> s[k] == s[n..][k - n];
    LettersOnlyMeans(s[n..], i, j);
    LettersOnlyMeans(s, n + i, n + j);
  }

  lemma WordInRest(s: string, n: nat, i: nat, j: nat)
    requires n <= i && IsWord(s, i, j)
    ensures IsWord(s[n..], i - n, j - n)
  {
    assert forall k :: n <= k < |s| ==> s[n..][k - n] == s[k];
    LettersOnlyMeans(s[n..], i - n, j - n);
    LettersOnlyMeans(s, i, j);
  }

  /** What the greedy match takes at the front is a whole run. */
  lemma FrontWord(s: string)
    requires Run(s, IsLetter) >= 2
    ensures IsWord(s, 0, Run(s, IsLetter))
  {
    LettersOnlyMeans(s, 0, Run(s, IsLetter));
  }

  /** At the start of a whole run the greedy match takes all of it, and in front of one it stops. */
  lemma RunOfWord(s: string, i: nat, j: nat)
    requires IsWord(s, i, j)
    ensures if i == 0 then Run(s, IsLetter) == j else Run(s, IsLetter) < i
  {
    LettersOnlyMeans(s, i, j);
  }

  lemma SingleLetter(s: string)
    requires s != "" && Run(s, IsLetter) < 2
    ensures |s| > 1 && IsLetter(s[0]) ==> !IsLetter(s[1..][0])
  {
    assert IsLetter(s[0]) ==> Run(s, IsLetter) > 0;
  }

  lemma WordBehindFirst(s: string, i: nat, j: nat)
    requires s != "" && Run(s, IsLetter) < 2 && IsWord(s[1..], i, j)
    ensures IsWord(s, i + 1, j + 1)
  {
    SingleLetter(s);
    WordOfRest(s, 1, i, j);
  }

  lemma {:induction false} MatchIsWord(s: string) returns (i: nat, j: nat)
    requires Words(s) != []
    ensures IsWord(s, i, j)
  {
    var n := Run(s, IsLetter);
    if n >= 2 {
      FrontWord(s);
      i, j := 0, n;
    } else {
      WordsSkip(s);
      i, j := MatchIsWord(s[1..]);
      WordBehindFirst(s, i, j);
      i, j := i + 1, j + 1;
    }
  }

  lemma {:induction false} MatchesAreWords(s: string)
    requires |Words(s)| >= 2
    ensures HasTwoWords(s)
  {
    var n := Run(s, IsLetter);
    if n >= 2 {
      FrontWord(s);
      WordsStep(s);
      var k, l := MatchIsWord(s[n..]);
      WordOfRest(s, n, k, l);
    } else {
      WordsSkip(s);
      MatchesAreWords(s[1..]);
      var i: nat, j: nat, k: nat, l: nat :| IsWord(s[1..], i, j) && IsWord(s[1..], k, l) && j <= k;
      WordBehindFirst(s, i, j);
      WordBehindFirst(s, k, l);
    }
  }

  lemma {:induction false} WordIsMatched(s: string, i: nat, j: nat)
    requires IsWord(s, i, j)
    ensures Words(s) != []
  {
    var n := Run(s, IsLetter);
    RunOfWord(s, i, j);
    if n < 2 {
      WordInRest(s, 1, i, j);
      WordIsMatched(s[1..], i - 1, j - 1);
    }
  }

  lemma {:induction false} WordsAreMatched(s: string, i: nat, j: nat, k: nat, l: nat)
    requires IsWord(s, i, j) && IsWord(s, k, l) && j <= k
    ensures |Words(s)| >= 2
  {
    var n := Run(s, IsLetter);
    RunOfWord(s, i, j);
    RunOfWord(s, k, l);
    if n >= 2 {
      WordInRest(s, n, k, l);
      WordIsMatched(s[n..], k - n, l - n);
      WordsStep(s);
    } else {
      WordInRest(s, 1, i, j);
      WordInRest(s, 1, k, l);
      WordsAreMatched(s[1..], i - 1, j - 1, k - 1, l - 1);
      WordsSkip(s);
    }
  }

  lemma WordsMatchAtLeastTwo(s: string)
    ensures |Words(s)| >= 2 <==> HasTwoWords(s)
  {
    if |Words(s)| >= 2 {
      MatchesAreWords(s);
    }
    if i: nat, j: nat, k: nat, l: nat :| IsWord(s, i, j) && IsWord(s, k, l) && j <= k {
      WordsAreMatched(s, i, j, k, l);
    }
  }

  lemma WordsStep(s: string)
    requires s != "" && Run(s, IsLetter) >= 2
    ensures Words(s) == [s[..Run(s, IsLetter)]] + Words(s[Run(s, IsLetter)..])
  {
  }

  lemma WordsSkip(s: string)
    requires s != "" && Run(s, IsLetter) < 2
    ensures Words(s) == Words(s[1..])
  {
  }

  lemma LettersAreNoSpace(c: char)
    ensures IsSpace(c) ==> !IsLetter(c)
  {
    SpaceFacts(c);
  }

  /** Cutting off a front and a back without letters cuts off no word. */
  lemma WordsOfPart(s: string, p: nat, q: nat, i: nat, j: nat)
    requires p <= q <= |s| && i <= j <= q - p
    requires forall k :: 0 <= k < p || q <= k < |s| ==> !IsLetter(s[k])
    ensures IsWord(s[p..q], i, j) <==> IsWord(s, p + i, p + j)
  {
    var t := s[p..q];
    assert forall k :: p <= k < q ==> t[k - p] == s[k];
    LettersOnlyMeans(t, i, j);
    LettersOnlyMeans(s, p + i, p + j);
  }

  lemma WordIsInside(s: string, p: nat, q: nat, i: nat, j: nat)
    requires p <= q <= |s| && IsWord(s, i, j)
    requires forall k :: 0 <= k < p || q <= k < |s| ==> !IsLetter(s[k])
    ensures p <= i && j <= q
  {
    LettersOnlyMeans(s, i, j);
    assert IsLetter(s[i]) && IsLetter(s[j - 1]);
  }

  lemma PartHasTwoWords(s: string, p: nat, q: nat)
    requires p <= q <= |s| && forall k :: 0 <= k < p || q <= k < |s| ==> !IsLetter(s[k])
    ensures HasTwoWords(s[p..q]) <==> HasTwoWords(s)
  {
    if i: nat, j: nat, k: nat, l: nat :| IsWord(s[p..q], i, j) && IsWord(s[p..q], k, l) && j <= k {
      WordsOfPart(s, p, q, i, j);
      WordsOfPart(s, p, q, k, l);
    }
    if i: nat, j: nat, k: nat, l: nat :| IsWord(s, i, j) && IsWord(s, k, l) && j <= k {
      WordIsInside(s, p, q, i, j);
      WordIsInside(s, p, q, k, l);
      WordsOfPart(s, p, q, i - p, j - p);
      WordsOfPart(s, p, q, k - p, l - p);
    }
  }

  /** Two separate whole runs of two or more ASCII letters stand in the sentence outside its citations. */
  ghost predicate StatesSomething(sentence: string) {
    HasTwoWords(Strip(sentence))
  }

  /** This is what the scan for claims decides. */
  lemma ClaimMeansTwoWords(sentence: string)
    ensures IsClaim(sentence) <==> StatesSomething(sentence)
  {
    var s := Strip(sentence);
    var p, q := TrimIsPart(s);
    forall k | 0 <= k < p || q <= k < |s| ensures !IsLetter(s[k]) {
      LettersAreNoSpace(s[k]);
    }
    PartHasTwoWords(s, p, q);
    WordsMatchAtLeastTwo(Trim(s));
  }

  /** In a script without ASCII letters nothing is ever a claim. */
  lemma WithoutAsciiLettersNothingIsClaimed(sentence: string)
    requires forall i :: 0 <= i < |Strip(sentence)| ==> !IsLetter(Strip(sentence)[i])
    ensures !IsClaim(sentence) && !StatesSomething(sentence)
  {
    ClaimMeansTwoWords(sentence);
    NoLettersNoWords(Strip(sentence));
  }

  lemma NoLettersNoWords(s: string)
    requires forall i :: 0 <= i < |s| ==> !IsLetter(s[i])
    ensures !HasTwoWords(s)
  {
    forall i: nat, j: nat ensures !IsWord(s, i, j) {
      if i < |s| {
        assert !IsLetter(s[i]);
      }
    }
  }

  /** One run of letters is not two words, whatever else stands behind it. */
  lemma OneRunStatesNothing(s: string, n: nat)
    requires n <= |s| && forall k :: 0 <= k < |s| ==> (IsLetter(s[k]) <==> k < n)
    ensures !HasTwoWords(s)
  {
    forall k: nat, l: nat | IsWord(s, k, l) ensures k == 0 {
      assert IsLetter(s[k]);
    }
  }

  /** Figures written in any other digits are not looked at. */
  lemma {:induction false} NoDigitsNoNumbers(s: string)
    requires forall i :: 0 <= i < |s| ==> !IsDigit(s[i])
    ensures NumbersOf(s) == []
  {
    if s != "" {
      NoDigitsNoNumbers(s[1..]);
      assert Run(s, IsDigit) == 0;
      NumbersSkip(s);
    }
  }

  // ----- figures a record licenses -----

  /** `value.split(/[^0-9A-Za-z.]+/)`, without the empty strings that no numeral matches. */
  function Tokens(s: string): seq<string> {
    if s == "" then []
    else
      var n := Run(s, IsTokenChar);
      if n > 0 then [s[..n]] + Tokens(s[n..]) else Tokens(s[1..])
  }

  function NumeralsIn(value: string): set<string> {
    set t | t in Tokens(value) && IsNumeral(t)
  }

  /** `token` stands in `s` at `i` with no letter, digit or point on either side. */
  predicate StandsAlone(s: string, token: string, i: nat) {
    && PieceAt(s, token, i) && token != ""
    && (forall k :: 0 <= k < |token| ==> IsTokenChar(token[k]))
    && (i > 0 ==> !IsTokenChar(s[i - 1]))
    && (i + |token| < |s| ==> !IsTokenChar(s[i + |token|]))
  }

  lemma {:induction false} TokenStandsAlone(s: string, from: nat, token: string) returns (i: nat)
    requires from <= |s| && token in Tokens(s[from..])
    requires from > 0 && from < |s| && IsTokenChar(s[from]) ==> !IsTokenChar(s[from - 1])
    ensures StandsAlone(s, token, i)
    decreases |s| - from
  {
    var rest := s[from..];
    var n := Run(rest, IsTokenChar);
    if n > 0 && token == rest[..n] {
      i := from;
      assert s[from..from + n] == token;
      assert from + n < |s| ==> s[from + n] == rest[n];
      assert StandsAlone(s, token, i);
    } else if n > 0 {
      assert rest[n..] == s[from + n..];
      assert from + n < |s| ==> s[from + n] == rest[n];
      i := TokenStandsAlone(s, from + n, token);
    } else {
      assert rest[1..] == s[from + 1..] && rest[0] == s[from];
      i := TokenStandsAlone(s, from + 1, token);
    }
  }

  lemma {:induction false} StandaloneIsToken(s: string, token: string, i: nat)
    requires StandsAlone(s, token, i)
    ensures token in Tokens(s)
    decreases |s|
  {
    var n := Run(s, IsTokenChar);
    if i == 0 {
      RunIsWhole(s, token);
    } else if n > 0 {
      // the front run ends before the token begins
      assert !IsTokenChar(s[i - 1]) && n < i;
      ShiftStandalone(s, token, i, n);
      StandaloneIsToken(s[n..], token, i - n);
    } else {
      ShiftStandalone(s, token, i, 1);
      StandaloneIsToken(s[1..], token, i - 1);
    }
  }

  lemma ShiftStandalone(s: string, token: string, i: nat, n: nat)
    requires StandsAlone(s, token, i) && 0 < n <= i
    ensures StandsAlone(s[n..], token, i - n)
  {
    assert s[n..][i - n..i - n + |token|] == s[i..i + |token|];
    assert i - n > 0 ==> s[n..][i - n - 1] == s[i - 1];
    assert i + |token| < |s| ==> s[n..][i - n + |token|] == s[i + |token|];
  }

  lemma {:induction false} RunIsWhole(s: string, token: string)
    requires StandsAlone(s, token, 0)
    ensures Run(s, IsTokenChar) == |token| && token in Tokens(s)
  {
    var n := Run(s, IsTokenChar);
    assert s[0..|token|] == token && forall k :: 0 <= k < |token| ==> s[k] == token[k];
    assert s[..n] == token;
  }

  /** A record's text licenses exactly the numerals that stand alone in it: a digit run welded to
      letters, as inside an identifier, licenses nothing. */
  lemma LicensedNumeralsStandAlone(value: string, t: string)
    ensures t in NumeralsIn(value) <==> IsNumeral(t) && exists i: nat :: StandsAlone(value, t, i)
  {
    if t in NumeralsIn(value) {
      assert value[0..] == value;
      var i := TokenStandsAlone(value, 0, t);
    }
    if i: nat :| IsNumeral(t) && StandsAlone(value, t, i) {
      StandaloneIsToken(value, t, i);
    }
  }

  /** A group of digits between the hyphens of an identifier stands alone, and licenses its figure. */
  lemma IdentifierLicensesSeven()
    ensures "7" in NumeralsIn("b-7-c")
  {
    var s, t := "b-7-c", "7";
    assert t[1..] == "" && Run(t, IsDigit) == 1;
    assert s[2..3] == t && StandsAlone(s, t, 2);
    LicensedNumeralsStandAlone(s, t);
  }
}
