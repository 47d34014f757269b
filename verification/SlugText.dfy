/**
 What becomes of each character of an event's name: seven characters part words, letters and digits stay in lower case,
 and everything else vanishes.
 */
module SlugText {
  import opened Decimals
  import opened Slugs

  predicate Separates(c: char) {
    c == ' ' || c == '-' || c == '_' || c == '/' || c == '.' || c == '\'' || c == '\U{2019}'
  }

  predicate Stays(c: char) {
    'a' <= c <= 'z' || 'A' <= c <= 'Z' || '0' <= c <= '9'
  }

  ghost predicate Parted(s: string) {
    exists i :: 0 <= i < |s| && IsSeparator(s[i])
  }

  /** Where a name goes on after u, its first word is u's own if u has a separator, and goes on with it if not. */
  lemma {:induction false} ReadsOn(u: string, t: string)
    ensures Parted(u) ==> FirstWord(u + t) == FirstWord(u) && AfterFirstWord(u + t) == AfterFirstWord(u) + t
    ensures !Parted(u) ==> FirstWord(u + t) == FirstWord(u) + FirstWord(t) && AfterFirstWord(u + t) == AfterFirstWord(t)
    ensures !Parted(u) ==> AfterFirstWord(u) == ""
    decreases |u|
  {
    if u == "" {
      assert u + t == t;
    } else {
      ReadsOn(u[1..], t);
      assert (u + t)[1..] == u[1..] + t;
      PartedTail(u);
    }
  }

  lemma PartedTail(u: string)
    requires u != ""
    ensures Parted(u) <==> IsSeparator(u[0]) || Parted(u[1..])
  {
    if Parted(u[1..]) {
      var i :| 0 <= i < |u[1..]| && IsSeparator(u[1..][i]);
      assert u[i + 1] == u[1..][i];
    }
    if Parted(u) && !IsSeparator(u[0]) {
      var i :| 0 <= i < |u| && IsSeparator(u[i]);
      assert u[1..][i - 1] == u[i];
    }
  }

  lemma WordsOf(s: string)
    ensures Words(s) == NonEmpty(FirstWord(s)) + Words(AfterFirstWord(s))
  {
  }

  /** A tail that starts with a separator starts a new word. */
  lemma {:induction false} Parts(u: string, t: string)
    requires FirstWord(t) == ""
    ensures Words(u + t) == Words(u) + Words(AfterFirstWord(t))
    decreases |u|
  {
    ReadsOn(u, t);
    WordsOf(u);
    WordsOf(u + t);
    if Parted(u) {
      Parts(AfterFirstWord(u), t);
      Joined(NonEmpty(FirstWord(u)), Words(AfterFirstWord(u)), Words(AfterFirstWord(t)));
    } else {
      assert FirstWord(u) + "" == FirstWord(u) && Words("") == [];
      assert NonEmpty(FirstWord(u)) + [] == NonEmpty(FirstWord(u));
    }
  }

  lemma Joined<T>(a: seq<T>, b: seq<T>, c: seq<T>)
    ensures a + (b + c) == a + b + c
  {
  }

  lemma SeparatorReads(c: char, v: string)
    requires Separates(c)
    ensures FirstWord([c] + v) == "" && AfterFirstWord([c] + v) == v
  {
    assert ([c] + v)[1..] == v;
  }

  lemma BothSlugs(u: string, v: string, whole: string)
    requires |u| + |v| < 255 && |whole| <= 255 && Words(whole) == Words(u) + Words(v)
    ensures SlugOf(whole) == if SlugOf(u) == "" then SlugOf(v) else if SlugOf(v) == "" then SlugOf(u) else SlugOf(u) + "-" + SlugOf(v)
  {
    ShortSlug(whole);
    ShortSlug(u);
    ShortSlug(v);
    if Words(u) != [] && Words(v) != [] {
      HyphenatedBoth(Words(u), Words(v));
    }
    assert Words(u) + [] == Words(u) && [] + Words(v) == Words(v);
  }

  /** Two tails that read alike may stand for each other. */
  lemma {:induction false} ReadAlike(u: string, s: string, t: string)
    requires FirstWord(s) == FirstWord(t) && AfterFirstWord(s) == AfterFirstWord(t)
    ensures Words(u + s) == Words(u + t)
    decreases |u|
  {
    ReadsOn(u, s);
    ReadsOn(u, t);
    WordsOf(u + s);
    WordsOf(u + t);
    if Parted(u) {
      ReadAlike(AfterFirstWord(u), s, t);
    }
  }

  lemma {:induction false} HyphenatedBoth(a: seq<string>, b: seq<string>)
    requires a != [] && b != []
    ensures Hyphenated(a + b) == Hyphenated(a) + "-" + Hyphenated(b)
    decreases |b|
  {
    var last := b[|b| - 1];
    assert (a + b)[..|a + b| - 1] == a + b[..|b| - 1];
    if |b| == 1 {
      assert a + b[..0] == a;
    } else {
      HyphenatedBoth(a, b[..|b| - 1]);
    }
  }

  lemma {:induction false} FirstWordFits(s: string)
    ensures |FirstWord(s)| + |AfterFirstWord(s)| <= |s|
    ensures AfterFirstWord(s) != "" ==> |FirstWord(s)| + |AfterFirstWord(s)| < |s|
  {
    if s != "" && !IsSeparator(s[0]) {
      FirstWordFits(s[1..]);
    }
  }

  lemma {:induction false} NoLonger(s: string)
    ensures |Hyphenated(Words(s))| <= |s|
    decreases |s|
  {
    if s != "" {
      var w, rest := FirstWord(s), AfterFirstWord(s);
      WordsOf(s);
      FirstWordFits(s);
      NoLonger(rest);
      if w != "" && Words(rest) != [] {
        HyphenatedBoth([w], Words(rest));
      }
      assert [w] + [] == [w] && [] + Words(rest) == Words(rest);
    }
  }

  lemma ShortSlug(s: string)
    requires |s| <= 255
    ensures SlugOf(s) == Hyphenated(Words(s)) && (SlugOf(s) == "" <==> Words(s) == [])
  {
    NoLonger(s);
    if Words(s) != [] {
      HyphenatedIsSlug(Words(s));
    }
  }

  /** One of the seven separators between two names puts a hyphen between their slugs, if both have one. */
  lemma SeparatorParts(u: string, c: char, v: string)
    requires Separates(c) && |u| + |v| < 255
    ensures SlugOf(u + [c] + v) ==
              if SlugOf(u) == "" then SlugOf(v) else if SlugOf(v) == "" then SlugOf(u) else SlugOf(u) + "-" + SlugOf(v)
  {
    assert u + [c] + v == u + ([c] + v);
    SeparatorReads(c, v);
    Parts(u, [c] + v);
    BothSlugs(u, v, u + [c] + v);
  }

  /** A character that is no ASCII letter or digit and no separator might as well not be there. */
  lemma OthersVanish(u: string, c: char, v: string)
    requires !Stays(c) && !Separates(c)
    ensures SlugOf(u + [c] + v) == SlugOf(u + v)
  {
    assert u + [c] + v == u + ([c] + v) && ([c] + v)[1..] == v;
    ReadAlike(u, [c] + v, v);
  }

  /** A capital might as well be its small letter. */
  lemma CapitalsFall(u: string, c: char, v: string)
    requires 'A' <= c <= 'Z'
    ensures SlugOf(u + [c] + v) == SlugOf(u + [c - 'A' + 'a'] + v)
  {
    var d := c - 'A' + 'a';
    assert ([c] + v)[1..] == v && ([d] + v)[1..] == v;
    assert u + [c] + v == u + ([c] + v) && u + [d] + v == u + ([d] + v);
    ReadAlike(u, [c] + v, [d] + v);
  }

  /** Small letters and digits stay as they are. */
  lemma PlainStays(w: string)
    requires 0 < |w| <= 255 && forall i :: 0 <= i < |w| ==> Stays(w[i]) && !('A' <= w[i] <= 'Z')
    ensures SlugOf(w) == w
  {
    FirstWordEnds(w, |w|);
    assert w[..|w|] == w && Words("") == [];
    WordsOf(w);
    ShortSlug(w);
  }

  /** Where there is room for it, a numbered slug is the slug, a hyphen and the number. */
  lemma NumberFollows(slug: string, n: nat)
    requires |slug| + 1 + |Decimal(n)| <= 255
    ensures Numbered(slug, n) == slug + "-" + Decimal(n)
  {
    assert Suffix(n) == "-" + Decimal(n);
  }
}
