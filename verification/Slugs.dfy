/** Event slugs: made from a name, then numbered until one is free. */
module Slugs {
  import opened Wrappers
  import opened Decimals

  const MAX_SLUG_LENGTH: nat := 255

  predicate IsLetter(c: char) {
    'a' <= c <= 'z' || 'A' <= c <= 'Z'
  }

  predicate IsPlain(c: char) {
    'a' <= c <= 'z' || IsDigit(c)
  }

  function ToLower(c: char): (r: char)
    requires IsLetter(c) || IsDigit(c)
    ensures IsPlain(r) && (IsPlain(c) ==> r == c)
  {
    if 'A' <= c <= 'Z' then c - 'A' + 'a' else c
  }

  predicate IsSeparator(c: char) {
    c in " -_/.'\U{2019}"
  }

  // ---------------------------------------------------------------- what a slug is

  /** [a-z0-9]+(-[a-z0-9]+)* */
  predicate IsSlug(s: string) {
    s != "" && IsPlain(s[0]) && IsPlain(s[|s| - 1]) &&
    forall i {:trigger s[i]} :: 0 <= i < |s| ==> IsPlain(s[i]) || (s[i] == '-' && i > 0 && s[i - 1] != '-')
  }

  /** The letters and digits before the first separator, in lower case. */
  function FirstWord(s: string): (w: string)
    ensures forall i :: 0 <= i < |w| ==> IsPlain(w[i])
  {
    if s == "" || IsSeparator(s[0]) then ""
    else if IsLetter(s[0]) || IsDigit(s[0]) then [ToLower(s[0])] + FirstWord(s[1..])
    else FirstWord(s[1..])
  }

  function AfterFirstWord(s: string): (r: string)
    ensures s != "" ==> |r| < |s|
  {
    if s == "" then ""
    else if IsSeparator(s[0]) then s[1..]
    else AfterFirstWord(s[1..])
  }

  function NonEmpty(w: string): seq<string> {
    if w == "" then [] else [w]
  }

  /** The words of a name: what its separators part, empty ones left out. */
  function Words(s: string): (r: seq<string>)
    ensures AllWords(r)
    decreases |s|
  {
    if s == "" then [] else NonEmpty(FirstWord(s)) + Words(AfterFirstWord(s))
  }

  predicate AllWords(words: seq<string>) {
    forall i :: 0 <= i < |words| ==> IsWord(words[i])
  }

  predicate IsWord(w: string) {
    w != "" && forall i :: 0 <= i < |w| ==> IsPlain(w[i])
  }

  function Hyphenated(words: seq<string>): string {
    if words == [] then ""
    else if |words| == 1 then words[0]
    else Hyphenated(words[..|words| - 1]) + "-" + words[|words| - 1]
  }

  /** strings.Trim(s, "-"). */
  function Trim(s: string): string
    decreases |s|
  {
    if s != "" && s[0] == '-' then Trim(s[1..])
    else if s != "" && s[|s| - 1] == '-' then Trim(s[..|s| - 1])
    else s
  }

  function Cut(s: string, limit: nat): string {
    if |s| > limit then Trim(s[..limit]) else s
  }

  /** The slug of a name: its words, hyphenated, cut to length. */
  function SlugOf(name: string): string {
    Cut(Hyphenated(Words(name)), MAX_SLUG_LENGTH)
  }

  // ---------------------------------------------------------------- Slugify

  /** The builder's content after the finished words and a current one. */
  function Built(words: seq<string>, current: string): string {
    if current != "" then Hyphenated(words + [current])
    else if words == [] then ""
    else Hyphenated(words) + "-"
  }

  /** The words still to come when `current` has been read of the first of them. */
  function Rest(current: string, s: string): seq<string> {
    NonEmpty(current + FirstWord(s)) + Words(AfterFirstWord(s))
  }

  lemma WordsGoOn(s: string)
    ensures Words(s) == Rest("", s)
  {
    assert "" + FirstWord(s) == FirstWord(s);
  }

  lemma RestLetter(current: string, s: string)
    requires s != "" && (IsLetter(s[0]) || IsDigit(s[0]))
    ensures Rest(current, s) == Rest(current + [ToLower(s[0])], s[1..])
  {
    assert current + ([ToLower(s[0])] + FirstWord(s[1..])) == current + [ToLower(s[0])] + FirstWord(s[1..]);
  }

  lemma RestSeparator(current: string, s: string)
    requires s != "" && IsSeparator(s[0])
    ensures Rest(current, s) == NonEmpty(current) + Rest("", s[1..])
  {
    WordsGoOn(s[1..]);
    assert current + "" == current;
  }

  lemma RestOther(current: string, s: string)
    requires s != "" && !IsSeparator(s[0]) && !IsLetter(s[0]) && !IsDigit(s[0])
    ensures Rest(current, s) == Rest(current, s[1..])
  {
  }

  lemma BuiltLetter(words: seq<string>, current: string, c: char)
    ensures Built(words, current) + [c] == Built(words, current + [c])
  {
    assert (words + [current])[..|words|] == words && (words + [current + [c]])[..|words|] == words;
  }

  lemma ReadLetter(all: seq<string>, b: string, lastHyphen: bool, words: seq<string>, current: string, rest: string)
    requires Reading(all, b, lastHyphen, words, current, rest) && rest != "" && (IsLetter(rest[0]) || IsDigit(rest[0]))
    ensures Reading(all, b + [ToLower(rest[0])], false, words, current + [ToLower(rest[0])], rest[1..])
  {
    BuiltLetter(words, current, ToLower(rest[0]));
    RestLetter(current, rest);
    assert IsWord(current + [ToLower(rest[0])]);
  }

  lemma ReadSeparator(all: seq<string>, b: string, words: seq<string>, current: string, rest: string)
    requires Reading(all, b, false, words, current, rest) && rest != "" && IsSeparator(rest[0])
    ensures b != "" && Reading(all, b + "-", true, words + [current], "", rest[1..])
  {
    RestSeparator(current, rest);
    Regroup(words, current, Rest("", rest[1..]));
  }

  lemma Regroup<T>(a: seq<T>, x: T, b: seq<T>)
    ensures a + ([x] + b) == a + [x] + b
  {
  }

  lemma ReadMoreSeparator(all: seq<string>, b: string, words: seq<string>, rest: string)
    requires Reading(all, b, true, words, "", rest) && rest != "" && IsSeparator(rest[0])
    ensures Reading(all, b, true, words, "", rest[1..])
  {
    RestSeparator("", rest);
    assert [] + Rest("", rest[1..]) == Rest("", rest[1..]);
  }

  lemma JoinedIsSlug(s: string, w: string)
    requires IsSlug(s) && IsWord(w)
    ensures IsSlug(s + "-" + w)
  {
    var t := s + "-" + w;
    forall i | 0 <= i < |t| ensures IsPlain(t[i]) || (t[i] == '-' && i > 0 && t[i - 1] != '-') {
      if i < |s| {
        assert t[i] == s[i] && (i > 0 ==> t[i - 1] == s[i - 1]);
      } else if i > |s| {
        assert t[i] == w[i - |s| - 1];
      }
    }
  }

  lemma {:induction false} HyphenatedIsSlug(words: seq<string>)
    requires words != [] && AllWords(words)
    ensures IsSlug(Hyphenated(words))
  {
    var w := words[|words| - 1];
    assert IsWord(w);
    if |words| > 1 {
      HyphenatedIsSlug(words[..|words| - 1]);
      JoinedIsSlug(Hyphenated(words[..|words| - 1]), w);
    }
  }

  lemma TrimBuilt(words: seq<string>, current: string)
    requires AllWords(words)
    requires current != "" ==> IsWord(current)
    ensures Trim(Built(words, current)) == Hyphenated(words + Rest(current, ""))
  {
    assert current + "" == current;
    assert Rest(current, "") == NonEmpty(current) + [];
    if current != "" {
      HyphenatedIsSlug(words + [current]);
    } else {
      assert words + [] == words;
      if words != [] {
        HyphenatedIsSlug(words);
        assert (Hyphenated(words) + "-")[..|Hyphenated(words)|] == Hyphenated(words);
      }
    }
  }

  /** The loop has read everything but `rest`: its words so far are `words` and an unfinished `current`. */
  ghost predicate Reading(all: seq<string>, b: string, lastHyphen: bool, words: seq<string>, current: string, rest: string) {
    b == Built(words, current) && lastHyphen == (current == "") && (current != "" ==> b != "") &&
    AllWords(words) && (current != "" ==> IsWord(current)) &&
    all == words + Rest(current, rest)
  }

  method Slugify(name: string) returns (slug: string)
    ensures slug == SlugOf(name)
  {
    var b := "";
    var lastHyphen := true;
    ghost var words: seq<string> := [];
    ghost var current := "";
    var i := 0;
    WordsGoOn(name);
    assert name[0..] == name;
    while i < |name|
      invariant 0 <= i <= |name|
      invariant Reading(Words(name), b, lastHyphen, words, current, name[i..])
    {
      var r := name[i];
      assert name[i..][1..] == name[i + 1..];
      if IsLetter(r) || IsDigit(r) {
        ReadLetter(Words(name), b, lastHyphen, words, current, name[i..]);
        b := b + [ToLower(r)];
        lastHyphen := false;
        current := current + [ToLower(r)];
      } else if IsSeparator(r) {
        if lastHyphen {
          ReadMoreSeparator(Words(name), b, words, name[i..]);
        } else {
          ReadSeparator(Words(name), b, words, current, name[i..]);
        }
        if !lastHyphen && |b| > 0 {
          b := b + "-";
          lastHyphen := true;
          words, current := words + [current], "";
        }
      } else {
        RestOther(current, name[i..]);
      }
      i := i + 1;
    }
    assert name[i..] == "";
    TrimBuilt(words, current);
    slug := Trim(b);
    if |slug| > MAX_SLUG_LENGTH {
      slug := Trim(slug[..MAX_SLUG_LENGTH]);
    }
  }


  // ---------------------------------------------------------------- every slug has the shape, and is its own slug

  lemma PrefixTrimmed(s: string, n: nat)
    requires IsSlug(s) && 1 <= n <= |s|
    ensures IsSlug(Trim(s[..n])) && |Trim(s[..n])| <= n
  {
    var p := s[..n];
    assert p[0] == s[0];
    if p[n - 1] == '-' {
      var q := p[..n - 1];
      assert s[n - 1] == '-' && q[|q| - 1] == s[n - 2] && q[0] == s[0];
      assert IsSlug(q);
      assert Trim(p) == Trim(q) == q;
    } else {
      assert IsSlug(p) && Trim(p) == p;
    }
  }

  lemma CutIsSlug(s: string, limit: nat)
    requires IsSlug(s) && limit >= 1
    ensures IsSlug(Cut(s, limit)) && |Cut(s, limit)| <= limit
  {
    if |s| > limit {
      PrefixTrimmed(s, limit);
    }
  }

  /** A slug is empty, or has the shape and the length the database column takes. */
  lemma SlugShape(name: string)
    ensures SlugOf(name) == "" || IsSlug(SlugOf(name))
    ensures |SlugOf(name)| <= MAX_SLUG_LENGTH
    ensures SlugOf(name) == "" <==> forall i :: 0 <= i < |name| ==> !IsLetter(name[i]) && !IsDigit(name[i])
  {
    NoWordsIff(name);
    if Words(name) != [] {
      HyphenatedIsSlug(Words(name));
      CutIsSlug(Hyphenated(Words(name)), MAX_SLUG_LENGTH);
    }
  }

  predicate Blank(s: string) {
    forall i :: 0 <= i < |s| ==> !IsLetter(s[i]) && !IsDigit(s[i])
  }

  lemma BlankTail(s: string)
    requires s != ""
    ensures Blank(s) <==> Blank(s[1..]) && !IsLetter(s[0]) && !IsDigit(s[0])
  {
    assert forall i :: 1 <= i < |s| ==> s[i] == s[1..][i - 1];
  }

  lemma {:induction false} BlankWord(s: string)
    ensures Blank(s) <==> FirstWord(s) == "" && Blank(AfterFirstWord(s))
    decreases |s|
  {
    if s != "" {
      BlankTail(s);
      if !IsSeparator(s[0]) {
        BlankWord(s[1..]);
      }
    }
  }

  lemma {:induction false} NoWordsIff(s: string)
    ensures Words(s) == [] <==> Blank(s)
    decreases |s|
  {
    if s != "" {
      BlankWord(s);
      NoWordsIff(AfterFirstWord(s));
    }
  }

  /** Reading a slug gives back its words, so a slug is its own slug. */
  lemma SlugifyIsIdempotent(name: string)
    ensures SlugOf(SlugOf(name)) == SlugOf(name)
    ensures IsSlug(name) && |name| <= MAX_SLUG_LENGTH ==> SlugOf(name) == name
  {
    SlugShape(name);
    if SlugOf(name) != "" {
      SlugKeeps(SlugOf(name));
    }
    if IsSlug(name) {
      SlugKeeps(name);
    }
  }

  /** Where the first word of a slug ends. */
  lemma {:induction false} FirstWordEnds(s: string, k: nat)
    requires k <= |s| && (forall i :: 0 <= i < k ==> IsPlain(s[i])) && (k < |s| ==> s[k] == '-')
    ensures FirstWord(s) == s[..k] && AfterFirstWord(s) == if k < |s| then s[k + 1..] else ""
    decreases k
  {
    if k > 0 {
      FirstWordEnds(s[1..], k - 1);
      assert s[..k] == [s[0]] + s[1..][..k - 1];
    }
  }

  lemma FirstWordOf(s: string) returns (k: nat)
    requires IsSlug(s)
    ensures 0 < k <= |s| && (k < |s| ==> s[k] == '-')
    ensures Words(s) == [s[..k]] + Words(if k < |s| then s[k + 1..] else "")
  {
    k := FirstHyphen(s, 0);
    FirstWordEnds(s, k);
  }

  lemma Rejoined(s: string, k: nat)
    requires k < |s| && s[k] == '-'
    ensures s[..k] + "-" + s[k + 1..] == s
  {
  }

  lemma {:induction false} SlugKeeps(s: string)
    requires IsSlug(s)
    ensures Words(s) != [] && Hyphenated(Words(s)) == s
    decreases |s|
  {
    var k := FirstWordOf(s);
    if k < |s| {
      TailIsSlug(s, k);
      SlugKeeps(s[k + 1..]);
      HyphenatedCons(s[..k], Words(s[k + 1..]));
      Rejoined(s, k);
    } else {
      assert s[..k] == s && Words(s) == [s];
    }
  }

  lemma TailIsSlug(s: string, k: nat)
    requires IsSlug(s) && k < |s| && s[k] == '-'
    ensures 0 < k < |s| - 1 && IsSlug(s[k + 1..])
  {
    var rest := s[k + 1..];
    assert s[k + 1] != '-';
    forall i | 0 <= i < |rest| ensures IsPlain(rest[i]) || (rest[i] == '-' && i > 0 && rest[i - 1] != '-') {
      assert rest[i] == s[k + 1 + i];
    }
  }

  function FirstHyphen(s: string, i: nat): (k: nat)
    requires i <= |s|
    ensures i <= k <= |s| && (k < |s| ==> s[k] == '-') && forall j :: i <= j < k ==> s[j] != '-'
    decreases |s| - i
  {
    if i == |s| || s[i] == '-' then i else FirstHyphen(s, i + 1)
  }

  lemma {:induction false} HyphenatedCons(w: string, words: seq<string>)
    requires words != []
    ensures Hyphenated([w] + words) == w + "-" + Hyphenated(words)
  {
    var last := words[|words| - 1];
    assert ([w] + words)[..|words|] == [w] + words[..|words| - 1];
    if |words| > 1 {
      HyphenatedCons(w, words[..|words| - 1]);
      assert w + "-" + (Hyphenated(words[..|words| - 1]) + "-" + last) == w + "-" + Hyphenated(words[..|words| - 1]) + "-" + last;
    }
  }

  // ---------------------------------------------------------------- numbered slugs

  /** The number's suffix; the original's itoa writes nothing for a negative one. */
  function Suffix(n: int): string {
    "-" + if n < 0 then "" else Decimal(n)
  }

  function Numbered(slug: string, n: int): string
    requires |Suffix(n)| <= MAX_SLUG_LENGTH
  {
    Cut(slug, MAX_SLUG_LENGTH - |Suffix(n)|) + Suffix(n)
  }

  lemma SuffixFits(n: int)
    requires n <= MAX_INT
    ensures |Suffix(n)| <= 21
  {
    if n >= 0 {
      TwentyDigits();
      DecimalLength(n, 20);
    }
  }

  method SuffixSlug(slug: string, n: int) returns (r: string)
    requires -MAX_INT - 1 <= n <= MAX_INT
    ensures |Suffix(n)| <= MAX_SLUG_LENGTH && r == Numbered(slug, n)
  {
    SuffixFits(n);
    var digits := Itoa(n);
    var suffix := "-" + digits;
    var base := slug;
    if |base| + |suffix| > MAX_SLUG_LENGTH {
      base := Trim(base[..MAX_SLUG_LENGTH - |suffix|]);
    }
    return base + suffix;
  }

  lemma NumberedIsSlug(slug: string, n: nat)
    requires IsSlug(slug) && n <= MAX_INT
    ensures |Suffix(n)| <= MAX_SLUG_LENGTH && IsSlug(Numbered(slug, n)) && |Numbered(slug, n)| <= MAX_SLUG_LENGTH
  {
    SuffixFits(n);
    CutIsSlug(slug, MAX_SLUG_LENGTH - |Suffix(n)|);
    var base := Cut(slug, MAX_SLUG_LENGTH - |Suffix(n)|);
    DecimalIsWord(n);
    JoinedIsSlug(base, Decimal(n));
    assert base + "-" + Decimal(n) == Numbered(slug, n);
  }

  lemma DecimalIsWord(n: nat)
    ensures IsWord(Decimal(n))
  {
    assert forall i :: 0 <= i < |Decimal(n)| ==> Decimal(n)[i] in Decimal(n);
  }

  /** A numbered slug tells its number, even where the slug had to be cut to make room. */
  lemma NumberTells(slug: string, m: nat, n: nat)
    requires m <= MAX_INT && n <= MAX_INT
    ensures |Suffix(m)| <= MAX_SLUG_LENGTH && |Suffix(n)| <= MAX_SLUG_LENGTH
    ensures Numbered(slug, m) == Numbered(slug, n) ==> m == n
  {
    SuffixFits(m);
    SuffixFits(n);
    if Numbered(slug, m) == Numbered(slug, n) {
      SuffixesAgree(Cut(slug, MAX_SLUG_LENGTH - |Suffix(m)|), Decimal(m), Cut(slug, MAX_SLUG_LENGTH - |Suffix(n)|), Decimal(n)) by {
        DecimalIsWord(m);
        DecimalIsWord(n);
      }
      DecimalIsInjective(m, n);
    }
  }

  lemma SuffixesAgree(a: string, v: string, b: string, w: string)
    requires IsWord(v) && IsWord(w) && a + ("-" + v) == b + ("-" + w)
    ensures v == w
  {
    var s := a + ("-" + v);
    assert s[|a|] == '-' && s[|b|] == '-';
    assert forall i :: |a| < i < |s| ==> s[i] == v[i - |a| - 1];
    assert forall i :: |b| < i < |s| ==> s[i] == w[i - |b| - 1];
    assert s[|a| + 1..] == v && s[|b| + 1..] == w;
  }

  // ---------------------------------------------------------------- uniqueSlug

  /** The slugs tried for a base, in order: the base itself, then numbered 2, 3, … */
  function Candidate(slug: string, i: nat): string
    requires i < CANDIDATES
  {
    SuffixFits(i + 1);
    if i == 0 then slug else Numbered(slug, i + 1)
  }

  const CANDIDATES := 998

  function Base(name: string): string {
    if SlugOf(name) == "" then "event" else SlugOf(name)
  }

  lemma CandidateIsSlug(name: string, i: nat)
    requires i < CANDIDATES
    ensures IsSlug(Candidate(Base(name), i)) && |Candidate(Base(name), i)| <= MAX_SLUG_LENGTH
  {
    SlugShape(name);
    NumberedIsSlug(Base(name), i + 1);
  }

  /** lookup(i) tells whether the i-th lookup succeeds; taken are the user's slugs. */
  method UniqueSlug(taken: set<string>, name: string, lookup: nat -> bool) returns (r: Option<string>)
    ensures r.Some? ==> r.value !in taken && IsSlug(r.value) && |r.value| <= MAX_SLUG_LENGTH
    ensures r.Some? ==> exists i :: FirstFree(taken, name, i) && r.value == Candidate(Base(name), i)
    ensures (forall i :: lookup(i)) && r.None? ==> TakenUpTo(taken, Base(name), CANDIDATES)
    ensures (forall i :: lookup(i)) && |taken| < CANDIDATES - 1 ==> r.Some?
  {
    var base := Slugify(name);
    if base == "" {
      base := "event";
    }
    var slug := base;
    var i := 2;
    while i < 1000
      invariant 2 <= i <= 1000
      invariant i < 1000 ==> slug == Candidate(Base(name), i - 2)
      invariant TakenUpTo(taken, Base(name), i - 2)
    {
      if !lookup(i - 2) { return None; }
      if slug !in taken {
        CandidateIsSlug(name, i - 2);
        assert FirstFree(taken, name, i - 2);
        return Some(slug);
      }
      TakenOneMore(taken, base, i - 2);
      slug := SuffixSlug(base, i);
      i := i + 1;
    }
    AllTaken(taken, Base(name));
    return None;
  }

  predicate TakenUpTo(taken: set<string>, slug: string, n: nat)
    requires n <= CANDIDATES
  {
    forall i: nat :: i < n ==> Candidate(slug, i) in taken
  }

  lemma TakenOneMore(taken: set<string>, slug: string, n: nat)
    requires n < CANDIDATES && TakenUpTo(taken, slug, n) && Candidate(slug, n) in taken
    ensures TakenUpTo(taken, slug, n + 1)
  {
  }

  predicate FirstFree(taken: set<string>, name: string, i: nat) {
    i < CANDIDATES && Candidate(Base(name), i) !in taken && TakenUpTo(taken, Base(name), i)
  }

  ghost function NumberedUpTo(slug: string, n: nat): set<string>
    requires n < CANDIDATES
  {
    if n == 0 then {} else NumberedUpTo(slug, n - 1) + {Candidate(slug, n)}
  }

  lemma {:induction false} NumberedMember(slug: string, n: nat, c: string)
    requires n < CANDIDATES && c in NumberedUpTo(slug, n)
    ensures exists i :: 1 <= i <= n && Candidate(slug, i) == c
  {
    if c in NumberedUpTo(slug, n - 1) {
      NumberedMember(slug, n - 1, c);
    }
  }

  lemma {:induction false} NumberedCount(slug: string, n: nat)
    requires n < CANDIDATES
    ensures |NumberedUpTo(slug, n)| == n
  {
    if n > 0 {
      NumberedCount(slug, n - 1);
      if Candidate(slug, n) in NumberedUpTo(slug, n - 1) {
        NumberedMember(slug, n - 1, Candidate(slug, n));
        var i :| 1 <= i <= n - 1 && Candidate(slug, i) == Candidate(slug, n);
        NumberTells(slug, i + 1, n + 1);
      }
    }
  }

  /** If every candidate is taken, at least as many slugs are taken as there are numbered candidates. */
  lemma AllTaken(taken: set<string>, slug: string)
    requires TakenUpTo(taken, slug, CANDIDATES)
    ensures |taken| >= CANDIDATES - 1
  {
    var numbered := NumberedUpTo(slug, CANDIDATES - 1);
    NumberedCount(slug, CANDIDATES - 1);
    forall c | c in numbered ensures c in taken {
      NumberedMember(slug, CANDIDATES - 1, c);
    }
    assert taken == numbered + (taken - numbered);
  }

  /** The base may itself be a numbered candidate, so 997 is the most that is promised. */
  lemma BaseMayRepeat()
    ensures exists slug :: IsSlug(slug) && |slug| == MAX_SLUG_LENGTH && Candidate(slug, 1) == Candidate(slug, 0)
  {
    var a := seq(253, _ => 'a');
    var slug := a + "-2";
    assert Decimal(2) == "2";
    assert slug[..253] == a && Trim(a) == a;
    assert Candidate(slug, 1) == slug;
  }
}
