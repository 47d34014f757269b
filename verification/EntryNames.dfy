/**
 The names of the entries of an export archive.

 `lower` stands for the letter-by-letter mapping of strings.ToLower. Strings are sequences of characters.
 */
module EntryNames {
  import opened Wrappers
  import opened Decimals

  /** All that is used of the mapping: it leaves blanks, parentheses and digits alone, and makes no dot or slash. */
  ghost predicate IsLower(lower: char -> char) {
    (forall c :: IsDigit(c) || c in " ()" ==> lower(c) == c) &&
    (forall c :: lower(c) == '.' <==> c == '.') &&
    (forall c :: lower(c) == '/' <==> c == '/')
  }

  function Lower(lower: char -> char, s: string): string {
    seq(|s|, i requires 0 <= i < |s| => lower(s[i]))
  }

  /** The last dot before position i that no slash follows. */
  function DotBefore(name: string, i: nat): (r: Option<nat>)
    requires i <= |name|
    ensures r.Some? ==> r.value < i && name[r.value] == '.' && forall j :: r.value < j < i ==> name[j] != '.' && name[j] != '/'
  {
    if i == 0 || name[i - 1] == '/' then None
    else if name[i - 1] == '.' then Some(i - 1)
    else DotBefore(name, i - 1)
  }

  function StemLength(name: string): (n: nat)
    ensures n <= |name|
  {
    var dot := DotBefore(name, |name|);
    if dot.Some? then dot.value else |name|
  }

  /** path.Ext. */
  function Ext(name: string): string {
    name[StemLength(name)..]
  }

  /** The name with its extension cut off. */
  function Stem(name: string): string {
    name[..StemLength(name)]
  }

  function Mark(k: nat): string {
    " (" + Decimal(k) + ")"
  }

  function Suffixed(name: string, k: nat): string {
    Stem(name) + Mark(k) + Ext(name)
  }

  /** How many of the names equal the key when case is ignored. */
  function Count(lower: char -> char, names: seq<string>, key: string): nat {
    if names == [] then 0
    else Count(lower, names[..|names| - 1], key) + if Lower(lower, names[|names| - 1]) == key then 1 else 0
  }

  /** The entry name of the i-th of the given names. */
  function Entry(lower: char -> char, names: seq<string>, i: nat): string
    requires i < |names|
  {
    var earlier := Count(lower, names[..i], Lower(lower, names[i]));
    if earlier == 0 then names[i] else Suffixed(names[i], earlier + 1)
  }

  /** The map of names already used, as one archive fills it. */
  class SeenNames {
    const lower: char -> char
    var seen: map<string, nat>
    ghost var given: seq<string>

    ghost predicate Valid()
      reads this
    {
      forall key :: (if key in seen then seen[key] else 0) == Count(lower, given, key)
    }

    constructor (lower: char -> char)
      ensures Valid() && this.lower == lower && given == []
    {
      this.lower := lower;
      seen := map[];
      given := [];
    }

    method UniqueEntryName(name: string) returns (r: string)
      requires Valid()
      modifies this
      ensures Valid() && given == old(given) + [name]
      ensures r == Entry(lower, given, |old(given)|)
    {
      var key := Lower(lower, name);
      var n := if key in seen then seen[key] else 0;
      seen := seen[key := n + 1];
      given := given + [name];
      assert given[..|given| - 1] == old(given);
      if n == 0 { return name; }
      var ext := Ext(name);
      var base := Stem(name);
      return base + " (" + Decimal(n + 1) + ")" + ext;
    }
  }

  // ---------------------------------------------------------------- a suffixed name tells what it was made from

  lemma LowerConcat(lower: char -> char, a: string, b: string)
    ensures Lower(lower, a + b) == Lower(lower, a) + Lower(lower, b)
  {
  }

  lemma {:induction false} LowerKeepsDot(lower: char -> char, name: string, i: nat)
    requires IsLower(lower) && i <= |name|
    ensures DotBefore(Lower(lower, name), i) == DotBefore(name, i)
  {
    if i > 0 {
      LowerKeepsDot(lower, name, i - 1);
    }
  }

  lemma LowerKeepsStem(lower: char -> char, name: string)
    requires IsLower(lower)
    ensures StemLength(Lower(lower, name)) == StemLength(name)
  {
    LowerKeepsDot(lower, name, |name|);
  }

  lemma {:induction false} DotSkipsPlain(name: string, i: nat, j: nat)
    requires i <= j <= |name| && forall m :: i <= m < j ==> name[m] != '.' && name[m] != '/'
    ensures DotBefore(name, j) == DotBefore(name, i)
  {
    if i < j {
      DotSkipsPlain(name, i, j - 1);
    }
  }

  lemma {:induction false} DotSeesPrefixOnly(name: string, other: string, i: nat)
    requires i <= |name| && i <= |other| && name[..i] == other[..i]
    ensures DotBefore(name, i) == DotBefore(other, i)
  {
    if i > 0 {
      assert name[i - 1] == name[..i][i - 1] && other[i - 1] == other[..i][i - 1];
      assert name[..i - 1] == name[..i][..i - 1] && other[..i - 1] == other[..i][..i - 1];
      DotSeesPrefixOnly(name, other, i - 1);
    }
  }

  lemma MarkIsPlain(k: nat)
    ensures forall m :: 0 <= m < |Mark(k)| ==> IsDigit(Mark(k)[m]) || Mark(k)[m] in " ()"
  {
  }

  /** The suffix goes in front of the extension. */
  lemma SuffixedStem(name: string, k: nat)
    ensures Stem(Suffixed(name, k)) == Stem(name) + Mark(k) && Ext(Suffixed(name, k)) == Ext(name)
  {
    var s, n := Suffixed(name, k), |Stem(name) + Mark(k)|;
    MarkIsPlain(k);
    if Ext(name) == "" {
      assert s == Stem(name) + Mark(k) && Stem(name) == name;
      DotSkipsPlain(s, |name|, |s|);
      DotSeesPrefixOnly(s, name, |name|);
    } else {
      assert forall m :: n < m < |s| ==> s[m] == name[StemLength(name) + m - n];
      DotSkipsPlain(s, n + 1, |s|);
    }
  }

  lemma MarkTells(p: string, m: nat, q: string, n: nat)
    requires p + Mark(m) == q + Mark(n)
    ensures p == q && m == n
  {
    var s := p + Mark(m);
    OpenParenthesis(p, m, s);
    OpenParenthesis(q, n, s);
    assert s[|p| + 2..|s| - 1] == Decimal(m);
    assert s[|q| + 2..|s| - 1] == Decimal(n);
    DecimalIsInjective(m, n);
    assert s[..|p|] == p && s[..|q|] == q;
  }

  lemma OpenParenthesis(p: string, m: nat, s: string)
    requires s == p + Mark(m)
    ensures |p| + 3 < |s| && s[|p| + 1] == '(' && forall j :: |p| + 1 < j < |s| ==> s[j] != '('
  {
    assert forall j :: 0 <= j < |Decimal(m)| ==> IsDigit(Decimal(m)[j]);
    assert s == p + " (" + Decimal(m) + ")";
  }

  /** Ignoring case, a suffixed name determines the name and the number it was made from. */
  lemma SuffixTellsApart(lower: char -> char, a: string, m: nat, b: string, n: nat)
    requires IsLower(lower)
    ensures Lower(lower, Suffixed(a, m)) == Lower(lower, Suffixed(b, n)) <==> Lower(lower, a) == Lower(lower, b) && m == n
  {
    SuffixedParts(lower, a, m);
    SuffixedParts(lower, b, n);
    NameParts(lower, a);
    NameParts(lower, b);
    if Lower(lower, Suffixed(a, m)) == Lower(lower, Suffixed(b, n)) {
      MarkTells(Lower(lower, Stem(a)), m, Lower(lower, Stem(b)), n);
    }
  }

  lemma NameParts(lower: char -> char, a: string)
    requires IsLower(lower)
    ensures Lower(lower, Stem(a)) == Stem(Lower(lower, a)) && Lower(lower, Ext(a)) == Ext(Lower(lower, a))
    ensures Lower(lower, a) == Lower(lower, Stem(a)) + Lower(lower, Ext(a))
  {
    LowerKeepsStem(lower, a);
  }

  lemma SuffixedParts(lower: char -> char, a: string, m: nat)
    requires IsLower(lower)
    ensures Stem(Lower(lower, Suffixed(a, m))) == Lower(lower, Stem(a)) + Mark(m)
    ensures Ext(Lower(lower, Suffixed(a, m))) == Lower(lower, Ext(a))
    ensures Lower(lower, Suffixed(a, m)) == Lower(lower, Stem(a)) + Mark(m) + Lower(lower, Ext(a))
  {
    SuffixedStem(a, m);
    NameParts(lower, Suffixed(a, m));
    LowerConcat(lower, Stem(a), Mark(m));
    MarkIsPlain(m);
    assert Lower(lower, Mark(m)) == Mark(m);
  }

  // ---------------------------------------------------------------- which archives have distinct entry names

  lemma {:induction false} CountGrows(lower: char -> char, names: seq<string>, i: nat, j: nat, key: string)
    requires i < j <= |names|
    ensures Count(lower, names[..i], key) + (if Lower(lower, names[i]) == key then 1 else 0) <= Count(lower, names[..j], key)
    decreases j
  {
    assert names[..j][..j - 1] == names[..j - 1];
    if i < j - 1 {
      CountGrows(lower, names, i, j - 1, key);
    }
  }

  /** The k-th of the equal names. */
  lemma {:induction false} KthOccurrence(lower: char -> char, names: seq<string>, key: string, k: nat) returns (j: nat)
    requires 1 <= k <= Count(lower, names, key)
    ensures j < |names| && Lower(lower, names[j]) == key && Count(lower, names[..j], key) == k - 1
  {
    var rest := names[..|names| - 1];
    if k <= Count(lower, rest, key) {
      j := KthOccurrence(lower, rest, key, k);
      assert rest[..j] == names[..j];
    } else {
      j := |names| - 1;
    }
  }

  predicate Same(lower: char -> char, a: string, b: string) {
    Lower(lower, a) == Lower(lower, b)
  }

  predicate Generated(lower: char -> char, names: seq<string>, i: nat)
    requires i < |names|
  {
    Count(lower, names[..i], Lower(lower, names[i])) > 0
  }

  /** Two names that were given a suffix never come out equal, whatever the inputs. */
  lemma GeneratedAreDistinct(lower: char -> char, names: seq<string>, i: nat, j: nat)
    requires IsLower(lower) && i < j < |names|
    requires Generated(lower, names, i) && Generated(lower, names, j)
    ensures !Same(lower, Entry(lower, names, i), Entry(lower, names, j))
  {
    var m := Count(lower, names[..i], Lower(lower, names[i])) + 1;
    var n := Count(lower, names[..j], Lower(lower, names[j])) + 1;
    SuffixTellsApart(lower, names[i], m, names[j], n);
    CountGrows(lower, names, i, j, Lower(lower, names[j]));
  }

  /** Input x is the name that the k-th input equal to input a is given. */
  predicate Clash(lower: char -> char, names: seq<string>, x: nat, a: nat, k: nat) {
    x < |names| && a < |names| && 2 <= k <= Count(lower, names, Lower(lower, names[a])) &&
    Same(lower, names[x], Suffixed(names[a], k))
  }

  ghost predicate EntriesDistinct(lower: char -> char, names: seq<string>) {
    forall i, j :: 0 <= i < j < |names| ==> !Same(lower, Entry(lower, names, i), Entry(lower, names, j))
  }

  lemma ClashFrom(lower: char -> char, names: seq<string>, x: nat, j: nat)
    requires x < |names| && j < |names| && Generated(lower, names, j)
    requires Same(lower, names[x], Entry(lower, names, j))
    ensures exists k :: Clash(lower, names, x, j, k)
  {
    var k := Count(lower, names[..j], Lower(lower, names[j])) + 1;
    assert names[..|names|] == names;
    CountGrows(lower, names, j, |names|, Lower(lower, names[j]));
    assert Clash(lower, names, x, j, k);
  }

  lemma ClashRepeats(lower: char -> char, names: seq<string>, x: nat, a: nat, k: nat)
    requires IsLower(lower) && Clash(lower, names, x, a, k)
    ensures !EntriesDistinct(lower, names)
  {
    assert names[..|names|] == names;
    CountGrows(lower, names, x, |names|, Lower(lower, names[x]));
    var i := KthOccurrence(lower, names, Lower(lower, names[x]), 1);
    var j := KthOccurrence(lower, names, Lower(lower, names[a]), k);
    SuffixTellsApart(lower, names[a], k, names[j], k);
    assert Same(lower, Entry(lower, names, i), Entry(lower, names, j));
    assert i != j;
  }

  /** All entries are distinct, ignoring case, exactly when no input is already the suffixed form of a repeated one. */
  lemma EntriesDistinctIff(lower: char -> char, names: seq<string>)
    requires IsLower(lower)
    ensures EntriesDistinct(lower, names) <==> !exists x, a, k :: Clash(lower, names, x, a, k)
  {
    forall x, a, k | Clash(lower, names, x, a, k) ensures !EntriesDistinct(lower, names) {
      ClashRepeats(lower, names, x, a, k);
    }
    forall i, j | 0 <= i < j < |names| && Same(lower, Entry(lower, names, i), Entry(lower, names, j))
      ensures exists x, a, k :: Clash(lower, names, x, a, k)
    {
      SomeClash(lower, names, i, j);
    }
  }

  lemma SomeClash(lower: char -> char, names: seq<string>, i: nat, j: nat)
    requires IsLower(lower) && i < j < |names| && Same(lower, Entry(lower, names, i), Entry(lower, names, j))
    ensures exists x, a, k :: Clash(lower, names, x, a, k)
  {
    CountGrows(lower, names, i, j, Lower(lower, names[j]));
    if !Generated(lower, names, i) {
      ClashFrom(lower, names, i, j);
    } else if !Generated(lower, names, j) {
      ClashFrom(lower, names, j, i);
    } else {
      GeneratedAreDistinct(lower, names, i, j);
    }
  }

  /** Three uploads whose archive names the same entry twice. */
  lemma CollisionHappens(lower: char -> char)
    requires IsLower(lower)
    ensures !EntriesDistinct(lower, ["a.jpg", "a.jpg", "a (2).jpg"])
  {
    var names := ["a.jpg", "a.jpg", "a (2).jpg"];
    assert Stem("a.jpg") == "a" && Ext("a.jpg") == ".jpg";
    assert Suffixed("a.jpg", 2) == "a (2).jpg";
    var key := Lower(lower, "a.jpg");
    CountGrows(lower, names, 0, 1, key);
    CountGrows(lower, names, 1, 3, key);
    assert names[..3] == names;
    ClashRepeats(lower, names, 2, 0, 2);
  }

  // ---------------------------------------------------------------- what an entry is called

  /** The extension of a name starts at its last dot; where a slash follows the last dot, or there is none, it is empty. */
  ghost predicate Extends(name: string, stem: string, ext: string) {
    name == stem + ext &&
    if ext == "" then forall k :: 0 <= k < |name| && name[k] == '.' ==> '/' in name[k..]
    else ext[0] == '.' && forall k :: 1 <= k < |ext| ==> ext[k] != '.' && ext[k] != '/'
  }

  lemma LastDot(name: string)
    ensures DotBefore(name, |name|).Some? ==> exists k :: 0 <= k < |name| && name[k] == '.' && '/' !in name[k..]
  {
    var dot := DotBefore(name, |name|);
    if dot.Some? {
      assert '/' !in name[dot.value..];
    }
  }

  lemma ExtIs(name: string, stem: string, ext: string)
    requires Extends(name, stem, ext)
    ensures Stem(name) == stem && Ext(name) == ext
  {
    if ext != "" {
      assert forall k :: |stem| < k < |name| ==> name[k] == ext[k - |stem|];
      DotSkipsPlain(name, |stem| + 1, |name|);
    } else {
      LastDot(name);
    }
  }

  /** The earlier names that equal the i-th when case is ignored. */
  function Earlier(lower: char -> char, names: seq<string>, i: nat, key: string): set<nat>
    requires i <= |names|
  {
    set j: nat | j < i && Lower(lower, names[j]) == key
  }

  lemma {:induction false} CountIsSize(lower: char -> char, names: seq<string>, i: nat, key: string)
    requires i <= |names|
    ensures Count(lower, names[..i], key) == |Earlier(lower, names, i, key)|
  {
    if i > 0 {
      CountIsSize(lower, names, i - 1, key);
      assert names[..i][..i - 1] == names[..i - 1];
      assert Earlier(lower, names, i, key) ==
             Earlier(lower, names, i - 1, key) + if Lower(lower, names[i - 1]) == key then {i - 1} else {};
    }
  }

  /** The first of equal names stays as it is; the n-th after it is numbered n + 1, in front of its extension. */
  lemma EntryIs(lower: char -> char, names: seq<string>, i: nat, stem: string, ext: string)
    requires i < |names| && Extends(names[i], stem, ext)
    ensures var n := |Earlier(lower, names, i, Lower(lower, names[i]))|;
            Entry(lower, names, i) == if n == 0 then names[i] else stem + " (" + Decimal(n + 1) + ")" + ext
  {
    CountIsSize(lower, names, i, Lower(lower, names[i]));
    ExtIs(names[i], stem, ext);
    assert forall k: nat :: stem + Mark(k) + ext == stem + " (" + Decimal(k) + ")" + ext;
  }
}
