/** Tenant slugs: normalising a name, and finding a free suffix. */
module Slug {

  const MAX_LENGTH := 50

  predicate IsWord(c: char) {
    'a' <= c <= 'z' || '0' <= c <= '9'
  }

  /** `toLowerCase`, as far as it can yield a word character: ASCII capitals, and the only two
      other letters whose lower case contains one, the Kelvin sign and dotted capital I. */
  function LowerChar(c: char): string {
    if 'A' <= c <= 'Z' then [(c as int + 32) as char]
    else if c == '\U{212A}' then "k"
    else if c == '\U{0130}' then "i\U{0307}"
    else [c]
  }

  function Lower(s: string): string {
    if s == "" then "" else LowerChar(s[0]) + Lower(s[1..])
  }

  predicate IsSpace(c: char) {
    '\t' <= c <= '\r' || c == ' ' || c == '\U{00A0}' || c == '\U{1680}' || '\U{2000}' <= c <= '\U{200A}'
    || c == '\U{2028}' || c == '\U{2029}' || c == '\U{202F}' || c == '\U{205F}' || c == '\U{3000}' || c == '\U{FEFF}'
  }

  function TrimLeft(s: string): string {
    if s != "" && IsSpace(s[0]) then TrimLeft(s[1..]) else s
  }

  function TrimRight(s: string): string {
    if s != "" && IsSpace(s[|s| - 1]) then TrimRight(s[..|s| - 1]) else s
  }

  function Trim(s: string): string { TrimRight(TrimLeft(s)) }

  /** What follows a run of other characters. */
  function SkipOthers(s: string): (r: string)
    ensures |r| <= |s|
    ensures r != "" ==> IsWord(r[0])
  {
    if s != "" && !IsWord(s[0]) then SkipOthers(s[1..]) else s
  }

  /** `replace(/[^a-z0-9]+/g, '-')` */
  function Collapse(s: string): string
    decreases |s|
  {
    if s == "" then ""
    else if IsWord(s[0]) then [s[0]] + Collapse(s[1..])
    else "-" + Collapse(SkipOthers(s))
  }

  function StripLeft(s: string): (r: string)
    ensures |r| <= |s| && r == s[|s| - |r|..]
    ensures r != "" ==> r[0] != '-'
  {
    if s != "" && s[0] == '-' then StripLeft(s[1..]) else s
  }

  function StripRight(s: string): (r: string)
    ensures |r| <= |s| && r == s[..|r|]
    ensures r != "" ==> r[|r| - 1] != '-'
  {
    if s != "" && s[|s| - 1] == '-' then StripRight(s[..|s| - 1]) else s
  }

  function StripHyphens(s: string): string { StripRight(StripLeft(s)) }

  function Truncate(s: string): string {
    if |s| <= MAX_LENGTH then s else s[..MAX_LENGTH]
  }

  function Hyphenate(s: string): string { StripHyphens(Collapse(Trim(s))) }

  function Slugify(input: string): string { Truncate(Hyphenate(Lower(input))) }

  /** Words joined by single hyphens; a trailing hyphen is possible, a leading one is not. */
  ghost predicate Shaped(s: string) {
    && Hyphenated(s)
    && (s != "" ==> s[0] != '-')
  }

  ghost predicate Hyphenated(s: string) {
    && (forall i | 0 <= i < |s| :: IsWord(s[i]) || s[i] == '-')
    && (forall i, j | 0 <= i < |s| && j == i + 1 && j < |s| :: !(s[i] == '-' && s[j] == '-'))
  }

  predicate EndsInHyphen(s: string) {
    s != "" && s[|s| - 1] == '-'
  }

  lemma {:induction false} HyphenatedCons(c: char, s: string)
    requires Hyphenated(s) && (IsWord(c) || c == '-')
    requires c == '-' && s != "" ==> s[0] != '-'
    ensures Hyphenated([c] + s)
  {
  }

  lemma {:induction false} CollapseHyphenates(s: string)
    ensures Hyphenated(Collapse(s))
    ensures s != "" ==> Collapse(s) != "" && (Collapse(s)[0] == '-' <==> !IsWord(s[0]))
    decreases |s|
  {
    if s != "" {
      var rest := if IsWord(s[0]) then s[1..] else SkipOthers(s);
      CollapseHyphenates(rest);
      HyphenatedCons(if IsWord(s[0]) then s[0] else '-', Collapse(rest));
    }
  }

  lemma {:induction false} SliceHyphenated(s: string, lo: nat, hi: nat)
    requires Hyphenated(s) && lo <= hi <= |s|
    ensures Hyphenated(s[lo..hi])
  {
  }

  lemma {:induction false} StripLeftShapes(s: string)
    requires Hyphenated(s)
    ensures Shaped(StripLeft(s))
  {
    if s != "" && s[0] == '-' {
      SliceHyphenated(s, 1, |s|);
      assert s[1..|s|] == s[1..];
      StripLeftShapes(s[1..]);
    }
  }

  lemma {:induction false} StripRightKeepsShape(s: string)
    requires Shaped(s)
    ensures Shaped(StripRight(s))
  {
    if EndsInHyphen(s) {
      SliceHyphenated(s, 0, |s| - 1);
      assert s[0..|s| - 1] == s[..|s| - 1];
      StripRightKeepsShape(s[..|s| - 1]);
    }
  }

  lemma {:induction false} StripKeepsShape(s: string)
    requires Hyphenated(s)
    ensures Shaped(StripHyphens(s)) && !EndsInHyphen(StripHyphens(s))
  {
    StripLeftShapes(s);
    StripRightKeepsShape(StripLeft(s));
  }

  lemma {:induction false} TruncateKeepsShape(s: string)
    requires Shaped(s) && !EndsInHyphen(s)
    ensures Shaped(Truncate(s)) && |Truncate(s)| <= MAX_LENGTH
    ensures EndsInHyphen(Truncate(s)) ==> |Truncate(s)| == MAX_LENGTH
  {
  }

  lemma {:induction false} SlugShaped(input: string)
    ensures Shaped(Slugify(input)) && |Slugify(input)| <= MAX_LENGTH
    ensures EndsInHyphen(Slugify(input)) ==> |Slugify(input)| == MAX_LENGTH
  {
    var c := Collapse(Trim(Lower(input)));
    CollapseHyphenates(Trim(Lower(input)));
    StripKeepsShape(c);
    TruncateKeepsShape(StripHyphens(c));
  }

  lemma {:induction false} LowerFixed(s: string)
    requires forall i | 0 <= i < |s| :: IsWord(s[i]) || s[i] == '-'
    ensures Lower(s) == s
  {
    if s != "" {
      LowerFixed(s[1..]);
    }
  }

  lemma {:induction false} CollapseFixed(s: string)
    requires Hyphenated(s)
    ensures Collapse(s) == s
    decreases |s|
  {
    if s != "" {
      assert Hyphenated(s[1..]);
      CollapseFixed(s[1..]);
      if s[0] == '-' {
        assert s[1..] != "" ==> s[1..][0] != '-';
        assert SkipOthers(s) == SkipOthers(s[1..]) == s[1..];
      }
      assert s == [s[0]] + s[1..];
    }
  }

  lemma {:induction false} StripShaped(s: string)
    requires Shaped(s)
    ensures StripHyphens(s) == if EndsInHyphen(s) then s[..|s| - 1] else s
  {
    if EndsInHyphen(s) {
      var c := s[..|s| - 1];
      assert c != "" && c[|c| - 1] != '-';
      assert StripRight(s) == StripRight(c) == c;
    }
  }

  lemma {:induction false} TrimFixed(s: string)
    requires Shaped(s)
    ensures Trim(s) == s
  {
    if s != "" {
      assert !IsSpace(s[0]) && !IsSpace(s[|s| - 1]);
    }
  }

  lemma {:induction false} HyphenateShaped(s: string)
    requires Shaped(s)
    ensures Hyphenate(s) == if EndsInHyphen(s) then s[..|s| - 1] else s
  {
    TrimFixed(s);
    CollapseFixed(s);
    StripShaped(s);
  }

  /** Normalising a shaped string drops a final hyphen and changes nothing else. */
  lemma {:induction false} SlugifyShaped(s: string)
    requires Shaped(s) && |s| <= MAX_LENGTH
    ensures Slugify(s) == if EndsInHyphen(s) then s[..|s| - 1] else s
  {
    LowerFixed(s);
    HyphenateShaped(s);
  }

  /** `slug` is made of words and single hyphens, does not begin with one, and is short enough; `again`
      is all of it but a last hyphen, which it has only at its full length. */
  ghost predicate Normal(slug: string, again: string) {
    && (forall i | 0 <= i < |slug| :: IsWord(slug[i]) || slug[i] == '-')
    && (slug != "" ==> slug[0] != '-')
    && (forall i, j | 0 <= i < |slug| && j == i + 1 && j < |slug| :: !(slug[i] == '-' && slug[j] == '-'))
    && |slug| <= 50
    && (again == slug <==> !EndsInHyphen(slug))
    && (EndsInHyphen(slug) ==> |slug| == 50 && again == slug[..49])
  }

  lemma {:induction false} ShapedIsNormal(slug: string, again: string)
    requires Shaped(slug) && |slug| <= MAX_LENGTH && (EndsInHyphen(slug) ==> |slug| == MAX_LENGTH)
    requires again == if EndsInHyphen(slug) then slug[..|slug| - 1] else slug
    ensures Normal(slug, again)
  {
  }

  lemma {:induction false} AgainIsNormal(slug: string)
    requires Shaped(slug) && |slug| <= MAX_LENGTH && (EndsInHyphen(slug) ==> |slug| == MAX_LENGTH)
    ensures Normal(slug, Slugify(slug))
  {
    SlugifyShaped(slug);
    ShapedIsNormal(slug, Slugify(slug));
  }

  /** What a slug looks like, and exactly when normalising it again changes it: when cutting it
      to 50 characters left a hyphen at the end. */
  lemma {:induction false} SlugIsNormal(input: string)
    ensures Normal(Slugify(input), Slugify(Slugify(input)))
  {
    SlugShaped(input);
    AgainIsNormal(Slugify(input));
  }

  // ---------------------------------------------------------------- what is in a slug

  function Flush(word: string): seq<string> { if word == "" then [] else [word] }

  /** The runs of word characters of `s`, the first of them begun with `word`. */
  function Scan(s: string, word: string): seq<string>
    decreases |s|
  {
    if s == "" then Flush(word)
    else if IsWord(s[0]) then Scan(s[1..], word + [s[0]])
    else Flush(word) + Scan(s[1..], "")
  }

  function Words(s: string): seq<string> { Scan(s, "") }

  function Joined(words: seq<string>): string {
    if words == [] then "" else if |words| == 1 then words[0] else words[0] + "-" + Joined(words[1..])
  }

  lemma {:induction false} SkipKeepsWords(s: string)
    ensures Words(SkipOthers(s)) == Words(s)
  {
    if s != "" && !IsWord(s[0]) {
      SkipKeepsWords(s[1..]);
    }
  }

  /** What is left ends as `s` does. */
  lemma {:induction false} SkipKeepsEnd(s: string)
    requires s != ""
    ensures var r := SkipOthers(s); if r == "" then !IsWord(s[|s| - 1]) else r[|r| - 1] == s[|s| - 1]
  {
    if |s| > 1 && !IsWord(s[0]) {
      assert s[1..][|s| - 2] == s[|s| - 1];
      SkipKeepsEnd(s[1..]);
    }
  }

  /** The hyphen left by other characters at the end. */
  function Tail(s: string): string { if s != "" && !IsWord(s[|s| - 1]) then "-" else "" }

  lemma {:induction false} WordBegun(s: string, word: string)
    requires word != ""
    ensures Scan(s, word) != []
    decreases |s|
  {
    if s != "" && IsWord(s[0]) {
      WordBegun(s[1..], word + [s[0]]);
    }
  }

  lemma {:induction false} JoinedCons(word: string, words: seq<string>)
    requires words != []
    ensures Joined([word] + words) == word + "-" + Joined(words)
  {
    assert ([word] + words)[1..] == words;
  }

  lemma {:induction false} ScanGap(s: string, word: string)
    requires s != "" && !IsWord(s[0])
    ensures Scan(s, word) == Flush(word) + Words(SkipOthers(s))
  {
    SkipKeepsWords(s[1..]);
  }

  lemma {:induction false} ScanStart(r: string)
    requires r != "" && IsWord(r[0])
    ensures Words(r) == Scan(r[1..], [r[0]]) && Words(r) != []
  {
    assert "" + [r[0]] == [r[0]];
    WordBegun(r[1..], [r[0]]);
  }

  lemma {:induction false} GapTail(s: string)
    requires s != "" && !IsWord(s[0])
    ensures var r := SkipOthers(s); Tail(s) == if r == "" then "-" else Tail(r[1..])
  {
    SkipKeepsEnd(s);
  }

  lemma {:induction false} WordGoesOn(s: string, word: string)
    requires s != "" && IsWord(s[0])
    ensures word + Collapse(s) == word + [s[0]] + Collapse(s[1..])
    ensures Scan(s, word) == Scan(s[1..], word + [s[0]]) && Tail(s) == Tail(s[1..])
  {
    assert |s| > 1 ==> s[1..][|s| - 2] == s[|s| - 1];
    assert word + ([s[0]] + Collapse(s[1..])) == word + [s[0]] + Collapse(s[1..]);
  }

  lemma {:induction false} GapFollows(s: string, word: string)
    requires word != "" && s != "" && !IsWord(s[0])
    ensures Collapse(s) == "-" + Collapse(SkipOthers(s))
    ensures Scan(s, word) == [word] + Words(SkipOthers(s))
    ensures SkipOthers(s) == "" ==> Tail(s) == "-" && Words(SkipOthers(s)) == []
    ensures SkipOthers(s) != "" ==> Tail(s) == Tail(SkipOthers(s)[1..])
  {
    ScanGap(s, word);
    GapTail(s);
  }

  /** Collapsing what follows a word begun: the words joined, and a hyphen for what trails. */
  lemma {:induction false} CollapseJoins(s: string, word: string)
    requires word != ""
    ensures word + Collapse(s) == Joined(Scan(s, word)) + Tail(s)
    decreases |s|, 1
  {
    if s != "" && IsWord(s[0]) {
      CollapseJoins(s[1..], word + [s[0]]);
      WordGoesOn(s, word);
    } else if s != "" {
      var r := SkipOthers(s);
      GapFollows(s, word);
      if r != "" {
        CollapseWords(r);
        GapJoins(word, r, Words(r), Tail(s));
      }
    }
  }

  lemma {:induction false} GapJoins(word: string, r: string, words: seq<string>, tail: string)
    requires words != [] && Collapse(r) == Joined(words) + tail
    ensures word + ("-" + Collapse(r)) == Joined([word] + words) + tail
  {
    JoinedCons(word, words);
    assert word + ("-" + (Joined(words) + tail)) == word + "-" + Joined(words) + tail;
  }

  lemma {:induction false} CollapseWords(r: string)
    requires r != "" && IsWord(r[0])
    ensures Words(r) != [] && Collapse(r) == Joined(Words(r)) + Tail(r[1..])
    decreases |r|, 0
  {
    ScanStart(r);
    CollapseJoins(r[1..], [r[0]]);
  }

  lemma {:induction false} TrimLeftKeepsWords(s: string)
    ensures Words(TrimLeft(s)) == Words(s)
  {
    if s != "" && IsSpace(s[0]) {
      TrimLeftKeepsWords(s[1..]);
    }
  }

  lemma {:induction false} LastOtherAddsNoWord(s: string, c: char, word: string)
    requires !IsWord(c)
    ensures Scan(s + [c], word) == Scan(s, word)
    decreases |s|
  {
    if s == "" {
      assert s + [c] == [c] && [c][1..] == "";
    } else {
      assert (s + [c])[1..] == s[1..] + [c];
      LastOtherAddsNoWord(s[1..], c, if IsWord(s[0]) then word + [s[0]] else "");
    }
  }

  lemma {:induction false} TrimRightKeepsWords(s: string)
    ensures Words(TrimRight(s)) == Words(s)
  {
    if s != "" && IsSpace(s[|s| - 1]) {
      TrimRightKeepsWords(s[..|s| - 1]);
      assert s == s[..|s| - 1] + [s[|s| - 1]];
      LastOtherAddsNoWord(s[..|s| - 1], s[|s| - 1], "");
    }
  }

  predicate AllWord(s: string) { forall i | 0 <= i < |s| :: IsWord(s[i]) }

  predicate EndsInWord(s: string) { s != "" && IsWord(s[|s| - 1]) }

  lemma {:induction false} JoinedEndsInWord(s: string, word: string)
    requires AllWord(word) && Scan(s, word) != []
    ensures EndsInWord(Joined(Scan(s, word)))
    decreases |s|
  {
    if s != "" && IsWord(s[0]) {
      JoinedEndsInWord(s[1..], word + [s[0]]);
    } else if s != "" {
      var rest := Words(s[1..]);
      assert Scan(s, word) == Flush(word) + rest;
      if rest != [] {
        JoinedEndsInWord(s[1..], "");
        if word != "" {
          JoinedCons(word, rest);
        } else {
          assert Scan(s, word) == rest;
        }
      }
    }
  }

  lemma {:induction false} StripFirstHyphen(s: string)
    ensures StripHyphens("-" + s) == StripHyphens(s)
  {
    assert ("-" + s)[1..] == s;
  }

  lemma {:induction false} StripTail(joined: string, tail: string)
    requires EndsInWord(joined) && (tail == "" || tail == "-") && Shaped(joined + tail)
    ensures StripHyphens(joined + tail) == joined
  {
    StripShaped(joined + tail);
    assert tail == "-" ==> (joined + tail)[..|joined|] == joined;
  }

  lemma {:induction false} WordsStripped(r: string)
    requires r != "" && IsWord(r[0])
    ensures StripHyphens(Collapse(r)) == Joined(Words(r))
  {
    CollapseWords(r);
    JoinedEndsInWord(r, "");
    CollapseHyphenates(r);
    StripTail(Joined(Words(r)), Tail(r[1..]));
  }

  lemma {:induction false} CollapseStripped(s: string)
    ensures StripHyphens(Collapse(s)) == Joined(Words(s))
  {
    var r := SkipOthers(s);
    SkipKeepsWords(s);
    if r != "" {
      WordsStripped(r);
    }
    if s != "" && !IsWord(s[0]) {
      StripFirstHyphen(Collapse(r));
    }
  }

  /** A slug is the words of the lower-cased name, its runs of letters a-z and digits, joined by single
      hyphens and cut to 50 characters; nothing else of the name matters. */
  lemma {:induction false} SlugIsJoinedWords(input: string)
    ensures var joined := Joined(Words(Lower(input)));
            Slugify(input) == if |joined| <= 50 then joined else joined[..50]
  {
    var s := Lower(input);
    TrimLeftKeepsWords(s);
    TrimRightKeepsWords(TrimLeft(s));
    CollapseStripped(Trim(s));
  }

  lemma {:induction false} LowerAscii(s: string)
    requires forall i | 0 <= i < |s| :: s[i] < '\U{0080}'
    ensures |Lower(s)| == |s|
    ensures forall i | 0 <= i < |s| ::
              Lower(s)[i] == if 'A' <= s[i] <= 'Z' then (s[i] as int - 'A' as int + 'a' as int) as char else s[i]
  {
    if s != "" {
      LowerAscii(s[1..]);
    }
  }
  /** The two letters beyond ASCII that lower-case to something with a word character. */
  lemma {:induction false} LowerBeyondAscii(s: string, t: string)
    ensures Lower(s + t) == Lower(s) + Lower(t)
    ensures Lower("\U{212A}") == "k" && Words(Lower("\U{0130}")) == ["i"]
  {
    if s == "" {
      assert s + t == t;
      assert "\U{212A}"[1..] == "" && "\U{0130}"[1..] == "";
      assert Lower("\U{0130}") == "i\U{0307}" && "i\U{0307}"[1..] == "\U{0307}" && "\U{0307}"[1..] == "";
      assert Scan("", "") == [] && Scan("\U{0307}", "i") == ["i"] + Scan("", "");
      assert "" + ['i'] == "i" && Words("i\U{0307}") == Scan("\U{0307}", "" + ['i']);
    } else {
      assert (s + t)[1..] == s[1..] + t;
      LowerBeyondAscii(s[1..], t);
    }
  }

  // ---------------------------------------------------------------- a free suffix

  function Digit(n: nat): char
    requires n < 10
  {
    ('0' as int + n) as char
  }

  function Decimal(n: nat): (s: string)
    ensures s != ""
  {
    if n < 10 then [Digit(n)] else Decimal(n / 10) + [Digit(n % 10)]
  }

  lemma {:induction false} DecimalInjective(m: nat, n: nat)
    requires Decimal(m) == Decimal(n)
    ensures m == n
  {
    var s := Decimal(m);
    assert s[|s| - 1] == Digit(m % 10) && s[|s| - 1] == Digit(n % 10);
    if m >= 10 && n >= 10 {
      assert Decimal(m / 10) == s[..|s| - 1] == Decimal(n / 10);
      DecimalInjective(m / 10, n / 10);
    } else {
      assert |Decimal(m / 10)| >= 1 && |Decimal(n / 10)| >= 1;
    }
  }

  predicate IsDigit(c: char) { '0' <= c <= '9' }

  /** The number a string of digits denotes. */
  function Value(s: string): nat
    requires forall i | 0 <= i < |s| :: IsDigit(s[i])
  {
    if s == "" then 0
    else
      assert IsDigit(s[|s| - 1]);
      10 * Value(s[..|s| - 1]) + (s[|s| - 1] as int - '0' as int)
  }

  /** A suffix is printed as its decimal digits, without leading zeros. */
  lemma {:induction false} DecimalDenotes(n: nat)
    ensures forall i | 0 <= i < |Decimal(n)| :: IsDigit(Decimal(n)[i])
    ensures Value(Decimal(n)) == n && (Decimal(n)[0] == '0' <==> n == 0)
  {
    if n >= 10 {
      DecimalDenotes(n / 10);
      assert Decimal(n)[..|Decimal(n)| - 1] == Decimal(n / 10);
    }
  }

  /** The k-th slug tried. */
  function Candidate(base: string, k: nat): string {
    if k == 0 then base else base + "-" + Decimal(k)
  }

  lemma {:induction false} CandidateInjective(base: string, j: nat, k: nat)
    requires Candidate(base, j) == Candidate(base, k)
    ensures j == k
  {
    if j > 0 && k > 0 {
      assert Candidate(base, j)[|base| + 1..] == Decimal(j);
      assert Candidate(base, k)[|base| + 1..] == Decimal(k);
      DecimalInjective(j, k);
    } else {
      assert |Candidate(base, j)| == |Candidate(base, k)|;
    }
  }

  function Candidates(base: string, n: nat): set<string> {
    set k: nat | k < n :: Candidate(base, k)
  }

  lemma {:induction false} CandidatesCount(base: string, n: nat)
    ensures |Candidates(base, n)| == n
  {
    if n > 0 {
      CandidatesCount(base, n - 1);
      assert Candidates(base, n) == Candidates(base, n - 1) + {Candidate(base, n - 1)};
      forall k: nat | k < n - 1 ensures Candidate(base, k) != Candidate(base, n - 1) {
        if Candidate(base, k) == Candidate(base, n - 1) {
          CandidateInjective(base, k, n - 1);
        }
      }
    }
  }

  lemma {:induction false} TakenIsBounded(base: string, n: nat, existing: set<string>)
    requires forall k: nat | k < n :: Candidate(base, k) in existing
    ensures n <= |existing|
  {
    CandidatesCount(base, n);
    CardinalityMonotone(Candidates(base, n), existing);
  }

  lemma {:induction false} CardinalityMonotone(a: set<string>, b: set<string>)
    requires a <= b
    ensures |a| <= |b|
  {
    assert b == a + (b - a);
  }

  /** The search: the first candidate not taken, after at most one lookup more than there are
      slugs. */
  method FirstFree(base: string, existing: set<string>) returns (slug: string, lookups: nat)
    ensures slug !in existing
    ensures lookups >= 1 && slug == Candidate(base, lookups - 1)
    ensures forall k: nat | k < lookups - 1 :: Candidate(base, k) in existing
    ensures lookups <= |existing| + 1
  {
    slug := base;
    var suffix := 0;
    lookups := 0;
    while true
      invariant slug == Candidate(base, suffix) && lookups == suffix
      invariant forall k: nat | k < suffix :: Candidate(base, k) in existing
      invariant suffix <= |existing|
      decreases |existing| - suffix
    {
      lookups := lookups + 1;
      if slug !in existing {
        return;
      }
      TakenIsBounded(base, suffix + 1, existing);
      suffix := suffix + 1;
      slug := base + "-" + Decimal(suffix);
    }
  }

  method GenerateSlug(input: string, existing: set<string>) returns (slug: string, lookups: nat)
    ensures slug !in existing
    ensures lookups >= 1 && slug == Candidate(Slugify(input), lookups - 1)
    ensures slug == if lookups == 1 then Slugify(input) else Slugify(input) + "-" + Decimal(lookups - 1)
    ensures forall k: nat | k < lookups - 1 :: Candidate(Slugify(input), k) in existing
    ensures lookups <= |existing| + 1
  {
    slug, lookups := FirstFree(Slugify(input), existing);
  }
}
