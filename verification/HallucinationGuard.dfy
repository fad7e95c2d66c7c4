/**
 The detector of decoder loops. `IsHallucination` is the one-pass, early-exit scan; `Looping`
 says what it is meant to find.
 */
module HallucinationGuard {

  const MAX_LENGTH: nat := 500
  const LIMIT: nat := 4

  // ----- words -----

  predicate IsSpace(c: char) {
    c == ' ' || c == '\t' || c == '\n' || c == '\r' || c == '\U{0B}' || c == '\U{0C}'
  }

  ghost predicate NoSpace(w: string) {
    forall i :: 0 <= i < |w| ==> !IsSpace(w[i])
  }

  ghost predicate IsToken(w: string) {
    w != "" && NoSpace(w)
  }

  /** Length of the whitespace-free start of `t`. */
  function WordEnd(t: string): (n: nat)
    ensures n <= |t|
    ensures NoSpace(t[..n])
    ensures n < |t| ==> IsSpace(t[n])
  {
    if t == "" || IsSpace(t[0]) then 0
    else
      var n := WordEnd(t[1..]);
      assert t[..n + 1] == [t[0]] + t[1..][..n];
      n + 1
  }

  function Words(t: string): seq<string>
    decreases |t|
  {
    if t == "" then []
    else if IsSpace(t[0]) then Words(t[1..])
    else [t[..WordEnd(t)]] + Words(t[WordEnd(t)..])
  }

  lemma {:induction false} WordsAreTokens(t: string)
    ensures forall i :: 0 <= i < |Words(t)| ==> IsToken(Words(t)[i])
    decreases |t|
  {
    if t == "" {
    } else if IsSpace(t[0]) {
      WordsAreTokens(t[1..]);
    } else {
      WordsAreTokens(t[WordEnd(t)..]);
    }
  }

  lemma WordEndIs(t: string, n: nat)
    requires n <= |t| && NoSpace(t[..n]) && (n < |t| ==> IsSpace(t[n]))
    ensures WordEnd(t) == n
  {
    var k := WordEnd(t);
    assert forall i :: 0 <= i < n ==> t[i] == t[..n][i] && !IsSpace(t[i]);
    assert forall i :: 0 <= i < k ==> t[i] == t[..k][i] && !IsSpace(t[i]);
  }

  /** A text without whitespace is one word. */
  lemma TokenIsOneWord(w: string)
    requires IsToken(w)
    ensures Words(w) == [w]
  {
    assert w[..|w|] == w;
    WordEndIs(w, |w|);
    assert w[|w|..] == "";
  }

  /** Any whitespace character separates: with the lemma above, this determines `Words`. */
  lemma {:induction false} WordsSplit(a: string, c: char, b: string)
    requires IsSpace(c)
    ensures Words(a + [c] + b) == Words(a) + Words(b)
    decreases |a|
  {
    var t := a + [c] + b;
    if a == "" {
      assert t[1..] == b;
    } else if IsSpace(a[0]) {
      WordsSplit(a[1..], c, b);
      assert t[1..] == a[1..] + [c] + b;
    } else {
      var n := WordEnd(a);
      assert t[..n] == a[..n];
      WordEndIs(t, n);
      assert t[n..] == a[n..] + [c] + b;
      WordsSplit(a[n..], c, b);
    }
  }

  /** Words with a space between them. */
  function Sentence(ws: seq<string>): string {
    if ws == [] then ""
    else if |ws| == 1 then ws[0]
    else ws[0] + [' '] + Sentence(ws[1..])
  }

  /** Every list of words is what some text is split into. */
  lemma {:induction false} SentenceRoundTrip(ws: seq<string>)
    requires forall i :: 0 <= i < |ws| ==> IsToken(ws[i])
    ensures Words(Sentence(ws)) == ws
  {
    if ws != [] {
      TokenIsOneWord(ws[0]);
      if |ws| > 1 {
        SentenceRoundTrip(ws[1..]);
        WordsSplit(ws[0], ' ', Sentence(ws[1..]));
      }
    }
  }

  /** Skipping one whitespace character loses no word. */
  lemma SkipSpace(text: string, i: nat)
    requires i < |text| && IsSpace(text[i])
    ensures Words(text[i..]) == Words(text[i + 1..])
  {
  }

  lemma FirstWord(text: string, start: nat, next: nat)
    requires start < next <= |text| && NoSpace(text[start..next]) && (next < |text| ==> IsSpace(text[next]))
    ensures Words(text[start..]) == [text[start..next]] + Words(text[next..])
  {
    var rest := text[start..];
    assert rest[..next - start] == text[start..next] && rest[next - start..] == text[next..];
    WordEndIs(rest, next - start);
    assert rest[0] == text[start..next][0];
  }

  /** Stream extraction: skip whitespace, take one word; fails at the end of the text. */
  method Extract(text: string, from: nat) returns (found: bool, word: string, next: nat)
    requires from <= |text|
    ensures from <= next <= |text|
    ensures found <==> Words(text[from..]) != []
    ensures found ==> Words(text[from..]) == [word] + Words(text[next..])
  {
    var start := from;
    while start < |text| && IsSpace(text[start])
      invariant from <= start <= |text|
      invariant Words(text[start..]) == Words(text[from..])
    {
      SkipSpace(text, start);
      start := start + 1;
    }
    next := start;
    while next < |text| && !IsSpace(text[next])
      invariant start <= next <= |text|
      invariant NoSpace(text[start..next])
    {
      assert text[start..next + 1] == text[start..next] + [text[next]];
      next := next + 1;
    }
    word := text[start..next];
    found := word != "";
    if found {
      FirstWord(text, start, next);
    } else {
      assert text[start..] == "";
    }
  }

  // ----- repetition -----

  ghost predicate FourAt(ws: seq<string>, i: int) {
    0 <= i && i + 3 < |ws| && ws[i] == ws[i + 1] == ws[i + 2] == ws[i + 3]
  }

  ghost predicate FourInARow(ws: seq<string>) {
    exists i :: FourAt(ws, i)
  }

  ghost predicate PairAt(ws: seq<string>, a: string, b: string, i: int) {
    0 <= i < |ws| - 1 && ws[i] == a && ws[i + 1] == b
  }

  /** The positions at which `a` is immediately followed by `b`. */
  ghost function Places(ws: seq<string>, a: string, b: string): set<nat> {
    set i: nat | i < |ws| && PairAt(ws, a, b, i)
  }

  ghost predicate RepeatedPair(ws: seq<string>) {
    exists a, b :: |Places(ws, a, b)| >= LIMIT
  }

  ghost predicate Looping(ws: seq<string>) {
    FourInARow(ws) || RepeatedPair(ws)
  }

  ghost predicate Hallucinated(text: string) {
    |text| > MAX_LENGTH || Looping(Words(text))
  }

  /** Length of the run of equal words at the end. */
  ghost function RunLength(ws: seq<string>): nat {
    if ws == [] then 0
    else if |ws| > 1 && ws[|ws| - 2] == ws[|ws| - 1] then RunLength(ws[..|ws| - 1]) + 1
    else 1
  }

  lemma {:induction false} RunLengthMeaning(ws: seq<string>)
    ensures RunLength(ws) <= |ws|
    ensures forall i :: |ws| - RunLength(ws) <= i < |ws| ==> ws[i] == ws[|ws| - 1]
    ensures 0 < RunLength(ws) < |ws| ==> ws[|ws| - RunLength(ws) - 1] != ws[|ws| - 1]
  {
    if |ws| > 1 && ws[|ws| - 2] == ws[|ws| - 1] {
      var init := ws[..|ws| - 1];
      RunLengthMeaning(init);
      assert forall i :: 0 <= i < |init| ==> init[i] == ws[i];
    }
  }

  lemma FourInARowSnoc(ws: seq<string>, w: string)
    ensures FourInARow(ws + [w]) <==> FourInARow(ws) || RunLength(ws + [w]) >= LIMIT
  {
    var all := ws + [w];
    RunLengthMeaning(all);
    assert forall i :: FourAt(ws, i) ==> FourAt(all, i);
    assert forall i :: FourAt(all, i) && i + 3 < |ws| ==> FourAt(ws, i);
    if RunLength(all) >= LIMIT {
      assert FourAt(all, |all| - 4);
    } else {
      assert !FourAt(all, |all| - 4);
    }
  }

  lemma PlacesSnoc(ws: seq<string>, w: string, a: string, b: string)
    ensures Places(ws + [w], a, b) ==
            if ws != [] && ws[|ws| - 1] == a && w == b then Places(ws, a, b) + {|ws| - 1} else Places(ws, a, b)
    ensures ws != [] && ws[|ws| - 1] == a && w == b ==> |Places(ws + [w], a, b)| == |Places(ws, a, b)| + 1
  {
    var all, last := ws + [w], |ws| - 1;
    assert forall i :: i != last ==> (PairAt(all, a, b, i) <==> PairAt(ws, a, b, i));
    assert last !in Places(ws, a, b);
    assert last >= 0 ==> (PairAt(all, a, b, last) <==> ws[last] == a && w == b);
  }

  /** What is found in a prefix is found in the whole: the early exits are sound. */
  lemma {:induction false} LoopingGrows(ws: seq<string>, more: seq<string>)
    requires Looping(ws)
    ensures Looping(ws + more)
  {
    var all := ws + more;
    if FourInARow(ws) {
      var i :| FourAt(ws, i);
      assert FourAt(all, i);
    } else {
      var a, b :| |Places(ws, a, b)| >= LIMIT;
      assert forall i :: PairAt(ws, a, b, i) ==> PairAt(all, a, b, i);
      SubsetSize(Places(ws, a, b), Places(all, a, b));
    }
  }

  lemma SubsetSize<T>(a: set<T>, b: set<T>)
    requires a <= b
    ensures |a| <= |b|
  {
    assert b == a + (b - a);
  }

  // ----- the scan -----

  /** The key under which the scan counts a word pair. */
  function PairKey(a: string, b: string): string {
    a + " " + b
  }

  /** Distinct pairs of words have distinct keys. */
  lemma PairKeyInjective(a: string, b: string, c: string, d: string)
    requires NoSpace(a) && NoSpace(c)
    requires PairKey(a, b) == PairKey(c, d)
    ensures a == c && b == d
  {
    var k := PairKey(a, b);
    assert k[|a|] == ' ' && k[|c|] == ' ';
    assert forall i :: 0 <= i < |a| ==> k[i] == a[i];
    assert forall i :: 0 <= i < |c| ==> k[i] == c[i];
    assert |a| == |c|;
    assert a == k[..|a|] == c;
    assert b == k[|a| + 1..] == d;
  }

  function Tally(m: map<string, int>, key: string): int {
    if key in m then m[key] else 0
  }

  /** The map counts every pair of words exactly. */
  ghost predicate Tallied(m: map<string, int>, ws: seq<string>) {
    forall a, b :: IsToken(a) && IsToken(b) ==> Tally(m, PairKey(a, b)) == |Places(ws, a, b)|
  }

  lemma TalliedFirst(m: map<string, int>, w: string)
    ensures Tallied(m, []) <==> Tallied(m, [w])
    ensures m == map[] ==> Tallied(m, [])
  {
  }

  lemma TalliedNext(m: map<string, int>, ws: seq<string>, w: string)
    requires Tallied(m, ws) && ws != [] && IsToken(ws[|ws| - 1]) && IsToken(w)
    ensures var key := PairKey(ws[|ws| - 1], w);
            Tallied(m[key := Tally(m, key) + 1], ws + [w])
  {
    var prev := ws[|ws| - 1];
    var key := PairKey(prev, w);
    var m' := m[key := Tally(m, key) + 1];
    forall a, b | IsToken(a) && IsToken(b)
      ensures Tally(m', PairKey(a, b)) == |Places(ws + [w], a, b)|
    {
      PlacesSnoc(ws, w, a, b);
      if PairKey(a, b) == key {
        PairKeyInjective(a, b, prev, w);
      }
    }
  }

  lemma RepeatedPairSnoc(ws: seq<string>, w: string)
    ensures RepeatedPair(ws + [w]) <==>
            RepeatedPair(ws) || (ws != [] && |Places(ws + [w], ws[|ws| - 1], w)| >= LIMIT)
  {
    if RepeatedPair(ws) {
      var a, b :| |Places(ws, a, b)| >= LIMIT;
      PlacesSnoc(ws, w, a, b);
      assert |Places(ws + [w], a, b)| >= LIMIT;
    } else if RepeatedPair(ws + [w]) {
      var a, b :| |Places(ws + [w], a, b)| >= LIMIT;
      PlacesSnoc(ws, w, a, b);
      assert |Places(ws, a, b)| < LIMIT;
    }
  }

  /** The scan after some words: it has found a loop, or it goes on with what it has counted. */
  datatype Scan = Found | Going(prev: string, run: int, bigrams: map<string, int>)

  function NextRun(run: int, prev: string, cur: string): int {
    if cur == prev then run + 1 else 1
  }

  function NextBigrams(bigrams: map<string, int>, prev: string, cur: string): map<string, int> {
    if prev == "" then bigrams
    else
      var key := PairKey(prev, cur);
      bigrams[key := Tally(bigrams, key) + 1]
  }

  function Observed(prev: string, run: int, bigrams: map<string, int>, cur: string): Scan {
    var run', bigrams' := NextRun(run, prev, cur), NextBigrams(bigrams, prev, cur);
    if run' >= LIMIT || (prev != "" && Tally(bigrams', PairKey(prev, cur)) >= LIMIT) then Found
    else Going(cur, run', bigrams')
  }

  function ScanOf(ws: seq<string>): Scan {
    if ws == [] then Going("", 0, map[])
    else
      match ScanOf(ws[..|ws| - 1])
      case Found => Found
      case Going(prev, run, bigrams) => Observed(prev, run, bigrams, ws[|ws| - 1])
  }

  /** What the scan knows when it goes on. */
  ghost predicate Scanned(ws: seq<string>, prev: string, run: int, bigrams: map<string, int>) {
    && prev == (if ws == [] then "" else ws[|ws| - 1])
    && run == RunLength(ws)
    && Tallied(bigrams, ws)
    && !Looping(ws)
  }

  lemma ScanStep(ws: seq<string>, prev: string, run: int, bigrams: map<string, int>, cur: string)
    requires Scanned(ws, prev, run, bigrams)
    requires IsToken(cur) && forall i :: 0 <= i < |ws| ==> IsToken(ws[i])
    ensures var next := Observed(prev, run, bigrams, cur);
            if next.Found? then Looping(ws + [cur])
            else Scanned(ws + [cur], next.prev, next.run, next.bigrams)
  {
    FourInARowSnoc(ws, cur);
    RepeatedPairSnoc(ws, cur);
    assert (ws + [cur])[..|ws|] == ws;
    assert RunLength(ws + [cur]) == NextRun(run, prev, cur);
    if prev == "" {
      TalliedFirst(bigrams, cur);
    } else {
      TalliedNext(bigrams, ws, cur);
    }
  }

  /** The one-pass scan finds something exactly when there is something to find. */
  lemma {:induction false} ScanIsExact(ws: seq<string>)
    requires forall i :: 0 <= i < |ws| ==> IsToken(ws[i])
    ensures ScanOf(ws).Found? <==> Looping(ws)
    ensures ScanOf(ws).Going? ==> Scanned(ws, ScanOf(ws).prev, ScanOf(ws).run, ScanOf(ws).bigrams)
  {
    if ws == [] {
      TalliedFirst(map[], "");
    } else {
      var init, cur := ws[..|ws| - 1], ws[|ws| - 1];
      assert ws == init + [cur];
      ScanIsExact(init);
      if ScanOf(init).Found? {
        LoopingGrows(init, [cur]);
      } else {
        ScanStep(init, ScanOf(init).prev, ScanOf(init).run, ScanOf(init).bigrams, cur);
      }
    }
  }

  /** Stopping early changes nothing. */
  lemma {:induction false} FoundStaysFound(ws: seq<string>, n: nat)
    requires n <= |ws| && ScanOf(ws[..n]).Found?
    ensures ScanOf(ws).Found?
    decreases |ws| - n
  {
    if n == |ws| {
      assert ws[..n] == ws;
    } else {
      assert ws[..n + 1][..n] == ws[..n];
      FoundStaysFound(ws, n + 1);
    }
  }

  lemma ScanDecides(text: string)
    ensures Hallucinated(text) <==> |text| > MAX_LENGTH || ScanOf(Words(text)).Found?
  {
    WordsAreTokens(text);
    ScanIsExact(Words(text));
  }

  method IsHallucination(text: string) returns (flagged: bool)
    ensures flagged <==> Hallucinated(text)
  {
    ScanDecides(text);
    if |text| > MAX_LENGTH {
      return true;
    }
    flagged := Repeats(text);
  }

  /** The scan itself: one word at a time, stopping as soon as a limit is reached. */
  method Repeats(text: string) returns (flagged: bool)
    ensures flagged <==> ScanOf(Words(text)).Found?
  {
    ghost var ws, n := Words(text), 0;
    assert text[0..] == text;
    var bigrams: map<string, int> := map[];
    var prev, consec := "", 0;
    var found, cur, pos := Extract(text, 0);
    while found
      invariant n <= |ws| && pos <= |text|
      invariant found ==> n < |ws| && ws[n] == cur && ws[n + 1..] == Words(text[pos..])
      invariant !found ==> n == |ws|
      invariant ScanOf(ws[..n]) == Going(prev, consec, bigrams)
      decreases |ws| - n
    {
      var stop;
      consec, bigrams, stop := CountWord(prev, consec, bigrams, cur);
      assert ws[..n + 1][..n] == ws[..n];
      if stop {
        FoundStaysFound(ws, n + 1);
        return true;
      }
      prev := cur;
      n := n + 1;
      found, cur, pos := Extract(text, pos);
    }
    assert ws[..n] == ws;
    return false;
  }

  method CountWord(prev: string, run: int, bigrams: map<string, int>, cur: string)
    returns (consec: int, counts: map<string, int>, stop: bool)
    ensures Observed(prev, run, bigrams, cur) == if stop then Found else Going(cur, consec, counts)
  {
    consec, counts := run, bigrams;
    if cur == prev {
      consec := consec + 1;
      if consec >= LIMIT {
        return consec, counts, true;
      }
    } else {
      consec := 1;
    }
    if prev != "" {
      var key := PairKey(prev, cur);
      counts := counts[key := Tally(counts, key) + 1];
      if counts[key] >= LIMIT {
        return consec, counts, true;
      }
    }
    stop := false;
  }

  // ----- how long an accepted text can be -----

  ghost function Row(a: string, vocabulary: set<string>): set<(string, string)> {
    set b | b in vocabulary :: (a, b)
  }

  ghost function Grid(rows: set<string>, vocabulary: set<string>): set<(string, string)> {
    set a, b | a in rows && b in vocabulary :: (a, b)
  }

  lemma {:induction false} RowSize(a: string, vocabulary: set<string>)
    ensures |Row(a, vocabulary)| == |vocabulary|
  {
    if vocabulary != {} {
      var b :| b in vocabulary;
      RowSize(a, vocabulary - {b});
      assert Row(a, vocabulary) == Row(a, vocabulary - {b}) + {(a, b)};
    }
  }

  lemma {:induction false} GridSize(rows: set<string>, vocabulary: set<string>)
    ensures |Grid(rows, vocabulary)| == |rows| * |vocabulary|
  {
    if rows != {} {
      var a :| a in rows;
      var fewer := rows - {a};
      GridSize(fewer, vocabulary);
      RowSize(a, vocabulary);
      GridSplits(fewer, a, vocabulary);
      assert rows == fewer + {a};
      OneMoreRow(|fewer|, |vocabulary|);
    }
  }

  lemma GridSplits(rows: set<string>, a: string, vocabulary: set<string>)
    requires a !in rows
    ensures Grid(rows + {a}, vocabulary) == Grid(rows, vocabulary) + Row(a, vocabulary)
    ensures Grid(rows, vocabulary) !! Row(a, vocabulary)
  {
  }

  lemma OneMoreRow(n: nat, k: nat)
    ensures (n + 1) * k == n * k + k
  {
  }

  /** The positions whose adjacent pair is one of `pairs`. */
  ghost function Covered(ws: seq<string>, pairs: set<(string, string)>): set<nat> {
    set i: nat | i < |ws| && CoveredAt(ws, pairs, i)
  }

  ghost predicate CoveredAt(ws: seq<string>, pairs: set<(string, string)>, i: int) {
    0 <= i < |ws| - 1 && (ws[i], ws[i + 1]) in pairs
  }

  lemma {:induction false} CoveredSize(ws: seq<string>, pairs: set<(string, string)>)
    requires !RepeatedPair(ws)
    ensures |Covered(ws, pairs)| <= 3 * |pairs|
  {
    if pairs == {} {
      assert Covered(ws, pairs) == {};
    } else {
      var p :| p in pairs;
      CoveredSize(ws, pairs - {p});
      assert Covered(ws, pairs) == Covered(ws, pairs - {p}) + Places(ws, p.0, p.1);
      assert |Places(ws, p.0, p.1)| < LIMIT;
    }
  }

  ghost function Below(n: nat): (r: set<nat>)
    ensures |r| == n
    ensures forall i: nat :: i in r <==> i < n
  {
    if n == 0 then {} else Below(n - 1) + {n - 1}
  }

  ghost function Vocabulary(ws: seq<string>): set<string> {
    set w | w in ws
  }

  /** Every adjacent pair of words is a pair over the vocabulary. */
  lemma AllCovered(ws: seq<string>)
    requires ws != []
    ensures |Covered(ws, Grid(Vocabulary(ws), Vocabulary(ws)))| == |ws| - 1
  {
    assert Covered(ws, Grid(Vocabulary(ws), Vocabulary(ws))) == Below(|ws| - 1);
  }

  lemma Triple(v: set<string>)
    ensures 3 * (|v| * |v|) == 3 * |v| * |v|
  {
  }

  /** Pigeonhole: k distinct words leave room for at most 3k^2 adjacent pairs. */
  lemma VocabularyBound(ws: seq<string>)
    requires !RepeatedPair(ws)
    ensures |ws| <= 3 * |Vocabulary(ws)| * |Vocabulary(ws)| + 1
  {
    if ws != [] {
      var v := Vocabulary(ws);
      CoveredSize(ws, Grid(v, v));
      AllCovered(ws);
      GridSize(v, v);
      Triple(v);
    }
  }

  /** Every accepted text over a k-word vocabulary has at most 3k^2+1 words. */
  lemma AcceptedTextIsShort(text: string)
    requires !Hallucinated(text)
    ensures var k := |Vocabulary(Words(text))|; |Words(text)| <= 3 * k * k + 1
  {
    VocabularyBound(Words(text));
  }

  /** Thirteen words over a two-word vocabulary, none of them repeated too often. */
  const DENSE: seq<string> := ["a", "a", "a", "b", "b", "b", "a", "a", "b", "b", "a", "b", "a"]

  /** Words of one letter each. */
  ghost predicate Letters(ws: seq<string>) {
    forall i :: 0 <= i < |ws| ==> |ws[i]| == 1 && IsToken(ws[i])
  }

  lemma {:induction false} SentenceLength(ws: seq<string>)
    requires Letters(ws)
    ensures |Sentence(ws)| <= 2 * |ws|
  {
    if |ws| > 1 {
      SentenceLength(ws[1..]);
    }
  }

  lemma LettersAccepted(ws: seq<string>)
    requires Letters(ws) && 2 * |ws| <= MAX_LENGTH && !Looping(ws)
    ensures Words(Sentence(ws)) == ws && !Hallucinated(Sentence(ws))
  {
    SentenceRoundTrip(ws);
    SentenceLength(ws);
  }

  /** The bound is attained: a text of thirteen words over two of them is accepted. */
  lemma BoundIsTight()
    ensures var text := Sentence(DENSE);
            && !Hallucinated(text)
            && Vocabulary(Words(text)) == {"a", "b"} && |Words(text)| == 3 * 2 * 2 + 1
  {
    DenseLetters();
    DenseIsAccepted();
    LettersAccepted(DENSE);
  }

  lemma DenseLetters()
    ensures Letters(DENSE)
  {
  }

  lemma DenseIsAccepted()
    ensures Vocabulary(DENSE) == {"a", "b"} && !Looping(DENSE)
  {
    assert DENSE[0] == "a" && DENSE[3] == "b";
    assert "a" != "b";
    forall i
      ensures !FourAt(DENSE, i)
    {
    }
    forall x, y
      ensures |Places(DENSE, x, y)| < LIMIT
    {
      DensePlaces(x, y);
    }
  }

  lemma DensePlaces(x: string, y: string)
    ensures |Places(DENSE, x, y)| <= 3
  {
    if x == "a" {
      AfterA(y);
    } else if x == "b" {
      AfterB(y);
    } else {
      assert Places(DENSE, x, y) == {};
    }
  }

  lemma AfterA(y: string)
    ensures |Places(DENSE, "a", y)| <= 3
  {
    var p := Places(DENSE, "a", y);
    if y == "a" {
      assert p == {0, 1, 6};
    } else if y == "b" {
      assert p == {2, 7, 10};
    } else {
      assert p == {};
    }
  }

  lemma AfterB(y: string)
    ensures |Places(DENSE, "b", y)| <= 3
  {
    var p := Places(DENSE, "b", y);
    if y == "a" {
      assert p == {5, 9, 11};
    } else if y == "b" {
      assert p == {3, 4, 8};
    } else {
      assert p == {};
    }
  }

  // ----- the three conditions, spelled out -----

  /** The whitespace of the "C" locale. */
  lemma SpaceIs(c: char)
    ensures IsSpace(c) <==> c as int == 32 || 9 <= c as int <= 13
  {
  }

  /** The same two words follow each other at four positions. */
  ghost predicate SamePairAt(ws: seq<string>, i: int, j: int, k: int, l: int) {
    && 0 <= i < j < k < l < |ws| - 1
    && ws[i] == ws[j] == ws[k] == ws[l]
    && ws[i + 1] == ws[j + 1] == ws[k + 1] == ws[l + 1]
  }

  ghost predicate SamePairFourTimes(ws: seq<string>) {
    exists i, j, k, l :: SamePairAt(ws, i, j, k, l)
  }

  lemma Least(s: set<nat>) returns (m: nat)
    requires |s| > 0
    ensures m in s && forall x :: x in s ==> m <= x
  {
    m :| m in s;
    var rest := s - {m};
    if |s| > 1 {
      assert |rest| == |s| - 1;
      var least := Least(rest);
      assert forall x :: x in s ==> x == m || x in rest;
      m := if least < m then least else m;
    } else {
      assert |rest| == 0;
      assert forall x :: x in s ==> x == m || x in rest;
    }
  }

  lemma FourOf(s: set<nat>) returns (i: nat, j: nat, k: nat, l: nat)
    requires |s| >= 4
    ensures i < j < k < l && i in s && j in s && k in s && l in s
  {
    i := Least(s);
    var t := s - {i};
    assert |t| == |s| - 1;
    j := Least(t);
    var u := t - {j};
    assert |u| == |s| - 2;
    k := Least(u);
    assert |u - {k}| == |s| - 3;
    l := Least(u - {k});
  }

  lemma SamePairRepeats(ws: seq<string>, i: nat, j: nat, k: nat, l: nat)
    requires SamePairAt(ws, i, j, k, l)
    ensures RepeatedPair(ws)
  {
    var four: set<nat> := {i, j, k, l};
    assert |four| == 4;
    assert four <= Places(ws, ws[i], ws[i + 1]);
    SubsetSize(four, Places(ws, ws[i], ws[i + 1]));
  }

  lemma RepeatedPairIff(ws: seq<string>)
    ensures RepeatedPair(ws) <==> SamePairFourTimes(ws)
  {
    if RepeatedPair(ws) {
      var a, b :| |Places(ws, a, b)| >= LIMIT;
      var i, j, k, l := FourOf(Places(ws, a, b));
      assert SamePairAt(ws, i, j, k, l);
    }
    if i: int, j: int, k: int, l: int :| SamePairAt(ws, i, j, k, l) {
      SamePairRepeats(ws, i, j, k, l);
    }
  }

  /** What is flagged: long text, four equal words in a row, or a word pair at four positions. */
  lemma HallucinatedIff(text: string)
    ensures var ws := Words(text);
            Hallucinated(text) <==> |text| > 500 || FourInARow(ws) || SamePairFourTimes(ws)
  {
    RepeatedPairIff(Words(text));
  }
}
