/**
 What is left of a file name that a client gives, in the object's key and in an archive: its last path element without the
 blanks around it and the dots before it, at most its last 200 characters.
 */
module ClientNames {
  import opened ObjectKeys
  import EntryNames
  import ExportArchive

  predicate AllOf(s: string, kind: char -> bool) {
    forall i :: 0 <= i < |s| ==> kind(s[i])
  }

  /** The name with every backslash made a slash. */
  predicate Slashed(name: string, path: string) {
    |path| == |name| && forall i :: 0 <= i < |name| ==> path[i] == if name[i] == '\\' then '/' else name[i]
  }

  /** The path's directories, its last element, and the slashes after it; only slashes have no last element. */
  ghost predicate Split(path: string, dir: string, last: string, slashes: string) {
    path == dir + last + slashes && AllOf(slashes, c => c == '/') && '/' !in last &&
    (dir == "" || dir[|dir| - 1] == '/') && (last == "" ==> dir == "")
  }

  /** Dots, and what follows the last of them at the front. */
  ghost predicate Dotted(s: string, dots: string, kept: string) {
    s == dots + kept && AllOf(dots, c => c == '.') && (kept == "" || kept[0] != '.')
  }

  lemma {:induction false} SlashesTrimmed(s: string) returns (slashes: string)
    ensures s == TrimRightSlashes(s) + slashes && AllOf(slashes, c => c == '/')
    ensures TrimRightSlashes(s) == "" || TrimRightSlashes(s)[|TrimRightSlashes(s)| - 1] != '/'
    decreases |s|
  {
    slashes := "";
    if s != "" && s[|s| - 1] == '/' {
      var rest := SlashesTrimmed(s[..|s| - 1]);
      slashes := rest + "/";
    }
  }

  lemma {:induction false} DirectoriesDropped(s: string) returns (dir: string)
    ensures s == dir + AfterLastSlash(s) && (dir == "" || dir[|dir| - 1] == '/')
    decreases |s|
  {
    dir := "";
    if '/' in s {
      var rest := DirectoriesDropped(s[1..]);
      dir := s[..1] + rest;
      if rest == "" {
        assert s[1..] == AfterLastSlash(s[1..]);
        assert s[0] == '/';
      }
    }
  }

  ghost predicate Trimmed(s: string, blanks: string, kept: string, trail: string) {
    s == blanks + kept + trail && AllOf(blanks, IsSpace) && AllOf(trail, IsSpace) &&
    (if kept == "" then trail == "" else !IsSpace(kept[0]) && !IsSpace(kept[|kept| - 1]))
  }

  lemma OneMoreBefore(kind: char -> bool, c: char, s: string)
    requires kind(c) && AllOf(s, kind)
    ensures AllOf([c] + s, kind)
  {
  }

  lemma OneMoreAfter(kind: char -> bool, c: char, s: string)
    requires kind(c) && AllOf(s, kind)
    ensures AllOf(s + [c], kind)
  {
  }

  lemma TrimmedBefore(c: char, s: string, blanks: string, kept: string, trail: string)
    requires IsSpace(c) && Trimmed(s, blanks, kept, trail)
    ensures Trimmed([c] + s, [c] + blanks, kept, trail)
  {
    OneMoreBefore(IsSpace, c, blanks);
    assert [c] + (blanks + kept + trail) == [c] + blanks + kept + trail;
  }

  lemma TrimmedAfter(c: char, s: string, blanks: string, kept: string, trail: string)
    requires IsSpace(c) && Trimmed(s, blanks, kept, trail) && kept != ""
    ensures Trimmed(s + [c], blanks, kept, trail + [c])
  {
    OneMoreAfter(IsSpace, c, trail);
    assert blanks + kept + trail + [c] == blanks + kept + (trail + [c]);
  }

  lemma NothingToTrim(s: string)
    requires s == "" || !(IsSpace(s[0]) || IsSpace(s[|s| - 1]))
    ensures Trimmed(s, "", s, "")
  {
    assert "" + s + "" == s;
  }

  lemma {:induction false} KeepsText(s: string)
    requires s != "" && !IsSpace(s[0])
    ensures TrimSpace(s) != ""
    decreases |s|
  {
    if IsSpace(s[|s| - 1]) {
      KeepsText(s[..|s| - 1]);
    }
  }

  lemma StepBefore(s: string, blanks: string, kept: string, trail: string)
    requires s != "" && IsSpace(s[0]) && Trimmed(s[1..], blanks, kept, trail)
    ensures Trimmed(s, [s[0]] + blanks, kept, trail)
  {
    TrimmedBefore(s[0], s[1..], blanks, kept, trail);
    assert [s[0]] + s[1..] == s;
  }

  lemma TrimsAfter(s: string)
    requires s != "" && !IsSpace(s[0]) && IsSpace(s[|s| - 1])
    ensures TrimSpace(s) == TrimSpace(s[..|s| - 1]) && TrimSpace(s) != ""
  {
    assert s[..|s| - 1] != "" && s[..|s| - 1][0] == s[0];
    KeepsText(s[..|s| - 1]);
  }

  lemma StepAfter(s: string, blanks: string, kept: string, trail: string)
    requires s != "" && IsSpace(s[|s| - 1]) && kept != "" && Trimmed(s[..|s| - 1], blanks, kept, trail)
    ensures Trimmed(s, blanks, kept, trail + [s[|s| - 1]])
  {
    TrimmedAfter(s[|s| - 1], s[..|s| - 1], blanks, kept, trail);
    assert s[..|s| - 1] + [s[|s| - 1]] == s;
  }

  lemma StepNone(s: string)
    requires s == "" || !(IsSpace(s[0]) || IsSpace(s[|s| - 1]))
    ensures Trimmed(s, "", TrimSpace(s), "")
  {
    NothingToTrim(s);
  }

  lemma {:induction false} BlanksTrimmed(s: string) returns (blanks: string, trail: string)
    ensures Trimmed(s, blanks, TrimSpace(s), trail)
    decreases |s|
  {
    if s == "" || !(IsSpace(s[0]) || IsSpace(s[|s| - 1])) {
      blanks, trail := "", "";
      StepNone(s);
    } else if IsSpace(s[0]) {
      blanks, trail := BlanksTrimmed(s[1..]);
      StepBefore(s, blanks, TrimSpace(s), trail);
      blanks := [s[0]] + blanks;
    } else {
      blanks, trail := BlanksTrimmed(s[..|s| - 1]);
      TrimsAfter(s);
      StepAfter(s, blanks, TrimSpace(s), trail);
      trail := trail + [s[|s| - 1]];
    }
  }

  lemma {:induction false} DotsTrimmed(s: string) returns (dots: string)
    ensures s == dots + TrimLeftDots(s) && AllOf(dots, c => c == '.')
    decreases |s|
  {
    dots := "";
    if s != "" && s[0] == '.' {
      var rest := DotsTrimmed(s[1..]);
      dots := "." + rest;
    }
  }

  /** The last 200 characters. */
  function LastOf(s: string): string {
    if |s| <= 200 then s else s[|s| - 200..]
  }

  /** How a name is taken apart: the path it stands for, and the parts of that. */
  datatype Parts = Parts(path: string, dir: string, last: string, slashes: string, blanks: string, text: string, trail: string,
                         dots: string, kept: string)

  ghost predicate TakenApart(name: string, p: Parts) {
    Slashed(name, p.path) && Split(p.path, p.dir, p.last, p.slashes) && Trimmed(p.last, p.blanks, p.text, p.trail) && Dotted(p.text, p.dots, p.kept)
  }

  lemma PathSplit(path: string) returns (dir: string, slashes: string)
    ensures Split(path, dir, AfterLastSlash(TrimRightSlashes(path)), slashes)
  {
    var cut := TrimRightSlashes(path);
    slashes := SlashesTrimmed(path);
    dir := DirectoriesDropped(cut);
    assert path == dir + AfterLastSlash(cut) + slashes;
    assert AfterLastSlash(cut) == "" ==> cut == dir;
  }

  /** Every name can be taken apart. */
  lemma PartsOf(name: string) returns (p: Parts)
    ensures TakenApart(name, p)
    ensures p.path == BackslashesReplaced(name) && p.kept == TrimLeftDots(TrimSpace(AfterLastSlash(TrimRightSlashes(p.path))))
  {
    var path := BackslashesReplaced(name);
    var last := AfterLastSlash(TrimRightSlashes(path));
    var dir, slashes := PathSplit(path);
    var blanks, trail := BlanksTrimmed(last);
    var dots := DotsTrimmed(TrimSpace(last));
    p := Parts(path, dir, last, slashes, blanks, TrimSpace(last), trail, dots, TrimLeftDots(TrimSpace(last)));
  }

  /** A character of another kind stands behind a front of that kind. */
  lemma BehindFront(s: string, kind: char -> bool, front: string, rest: string, k: nat)
    requires s == front + rest && AllOf(front, kind) && k < |s| && !kind(s[k])
    ensures |front| <= k
  {
    assert forall i :: 0 <= i < |front| ==> s[i] == front[i];
  }

  /** And before a back of that kind. */
  lemma BeforeBack(s: string, kind: char -> bool, rest: string, back: string, k: nat)
    requires s == rest + back && AllOf(back, kind) && k < |s| && !kind(s[k])
    ensures k < |rest|
  {
    assert forall i :: |rest| <= i < |s| ==> s[i] == back[i - |rest|];
  }

  lemma SlashesAtLeast(path: string, dir: string, last: string, slashes: string, dir': string, last': string, slashes': string)
    requires Split(path, dir, last, slashes) && Split(path, dir', last', slashes')
    ensures |slashes'| <= |slashes|
  {
    if last != "" {
      var k := |dir + last| - 1;
      assert path[k] == last[|last| - 1] && last[|last| - 1] in last;
      BeforeBack(path, c => c == '/', dir' + last', slashes', k);
    }
  }

  lemma LastAtLeast(path: string, dir: string, last: string, dir': string, last': string)
    requires path == dir + last && path == dir' + last' && '/' !in last && '/' !in last'
    requires (dir == "" || dir[|dir| - 1] == '/') && (dir' == "" || dir'[|dir'| - 1] == '/')
    ensures |last'| <= |last|
  {
    if dir != "" {
      assert path[|dir| - 1] == dir[|dir| - 1];
      assert forall i :: 0 <= i < |last'| ==> last'[i] in last';
      BeforeBack(path, c => c != '/', dir', last', |dir| - 1);
    }
  }

  lemma OneSplit(path: string, dir: string, last: string, slashes: string, dir': string, last': string, slashes': string)
    requires Split(path, dir, last, slashes) && Split(path, dir', last', slashes')
    ensures dir == dir' && last == last' && slashes == slashes'
  {
    SlashesAtLeast(path, dir, last, slashes, dir', last', slashes');
    SlashesAtLeast(path, dir', last', slashes', dir, last, slashes);
    var n := |path| - |slashes|;
    assert path[..n] == dir + last && path[..n] == dir' + last' && path[n..] == slashes && path[n..] == slashes';
    LastAtLeast(path[..n], dir, last, dir', last');
    LastAtLeast(path[..n], dir', last', dir, last);
    assert path[..n][..|dir|] == dir && path[..n][..|dir|] == dir';
    assert path[..n][|dir|..] == last && path[..n][|dir|..] == last';
  }

  /** A string is trimmed, or freed of its dots, in only one way: what is kept starts where the first other character stands. */
  lemma StartsAtLeast(s: string, kind: char -> bool, front: string, rest: string, front': string, rest': string)
    requires s == front + rest && s == front' + rest' && AllOf(front', kind) && rest != "" && !kind(rest[0])
    ensures |front'| <= |front|
  {
    assert s[|front|] == rest[0];
    BehindFront(s, kind, front', rest', |front|);
  }

  lemma EndsAtLeast(s: string, kind: char -> bool, rest: string, back: string, rest': string, back': string)
    requires s == rest + back && s == rest' + back' && AllOf(back', kind) && rest != "" && !kind(rest[|rest| - 1])
    ensures |back'| <= |back|
  {
    assert s[|rest| - 1] == rest[|rest| - 1];
    BeforeBack(s, kind, rest', back', |rest| - 1);
  }

  lemma OneDotted(s: string, dots: string, kept: string, dots': string, kept': string)
    requires Dotted(s, dots, kept) && Dotted(s, dots', kept')
    ensures dots == dots' && kept == kept'
  {
    if kept != "" { StartsAtLeast(s, c => c == '.', dots, kept, dots', kept'); }
    if kept' != "" { StartsAtLeast(s, c => c == '.', dots', kept', dots, kept); }
    assert |dots| == |dots'|;
    assert s[..|dots|] == dots && s[..|dots|] == dots' && s[|dots|..] == kept && s[|dots|..] == kept';
  }

  lemma KeptIsKept(s: string, blanks: string, kept: string, trail: string, blanks': string, kept': string, trail': string)
    requires Trimmed(s, blanks, kept, trail) && Trimmed(s, blanks', kept', trail') && kept != ""
    ensures kept' != "" && |blanks'| <= |blanks| && |trail'| <= |trail|
  {
    assert s == blanks + (kept + trail) && s == blanks' + (kept' + trail') && (kept + trail)[0] == kept[0];
    StartsAtLeast(s, IsSpace, blanks, kept + trail, blanks', kept' + trail');
    assert (blanks + kept)[|blanks + kept| - 1] == kept[|kept| - 1];
    EndsAtLeast(s, IsSpace, blanks + kept, trail, blanks' + kept', trail');
  }

  lemma OneTrimmed(s: string, blanks: string, kept: string, trail: string, blanks': string, kept': string, trail': string)
    requires Trimmed(s, blanks, kept, trail) && Trimmed(s, blanks', kept', trail')
    ensures blanks == blanks' && kept == kept' && trail == trail'
  {
    if kept != "" { KeptIsKept(s, blanks, kept, trail, blanks', kept', trail'); }
    if kept' != "" { KeptIsKept(s, blanks', kept', trail', blanks, kept, trail); }
    assert |blanks| == |blanks'| && |trail| == |trail'|;
    var n := |s| - |trail|;
    assert s[..|blanks|] == blanks && s[..|blanks|] == blanks' && s[n..] == trail && s[n..] == trail';
    assert s[|blanks|..n] == kept && s[|blanks|..n] == kept';
  }

  /** There is only one way to take a name apart. */
  lemma OneTakenApart(name: string, p: Parts, q: Parts)
    requires TakenApart(name, p) && TakenApart(name, q)
    ensures p == q
  {
    assert p.path == q.path;
    OneSplit(p.path, p.dir, p.last, p.slashes, q.dir, q.last, q.slashes);
    OneTrimmed(p.last, p.blanks, p.text, p.trail, q.blanks, q.text, q.trail);
    OneDotted(p.text, p.dots, p.kept, q.dots, q.kept);
  }

  /** What the key of an upload keeps of the client's name; nothing but dots, blanks and separators becomes "upload". */
  lemma KeyKeeps(name: string, p: Parts)
    requires TakenApart(name, p)
    ensures SafeFilename(name) == if p.kept == "" then "upload" else LastOf(p.kept)
  {
    var q := PartsOf(name);
    OneTakenApart(name, p, q);
    BaseKeeps(p.path, p.kept);
  }

  /** What an archive keeps of it; then a photo asks for a name made from its id and its type. */
  lemma EntryKeeps(lower: char -> char, photo: ExportArchive.PhotoFile, p: Parts)
    requires photo.filename.Some? && TakenApart(photo.filename.value, p)
    ensures ExportArchive.EntryName(lower, photo) ==
              if p.kept == "" then "photo-" + photo.id + ExtensionOf(EntryNames.Lower(lower, TrimSpace(photo.mimeType))) else LastOf(p.kept)
  {
    var q := PartsOf(photo.filename.value);
    OneTakenApart(photo.filename.value, p, q);
    SanitizedKeeps(photo.filename.value, p);
    ExtensionIs(lower, photo.mimeType);
  }

  lemma SanitizedKeeps(name: string, p: Parts)
    requires p.path == BackslashesReplaced(name) && p.kept == TrimLeftDots(TrimSpace(AfterLastSlash(TrimRightSlashes(p.path))))
    ensures ExportArchive.SanitizeEntryName(name) == LastOf(p.kept)
  {
    BaseKeeps(p.path, p.kept);
  }

  lemma ExtensionIs(lower: char -> char, mime: string)
    ensures ExportArchive.ExtensionForMime(lower, mime) == ExtensionOf(EntryNames.Lower(lower, TrimSpace(mime)))
  {
  }

  function ExtensionOf(mime: string): string {
    match mime
    case "image/jpeg" => ".jpg"
    case "image/jpg" => ".jpg"
    case "image/png" => ".png"
    case "image/webp" => ".webp"
    case _ => ""
  }

  lemma NamelessEntry(lower: char -> char, photo: ExportArchive.PhotoFile)
    requires photo.filename.None?
    ensures ExportArchive.EntryName(lower, photo) == "photo-" + photo.id + ExtensionOf(EntryNames.Lower(lower, TrimSpace(photo.mimeType)))
  {
    ExtensionIs(lower, photo.mimeType);
  }

  lemma BaseKeeps(path: string, kept: string)
    requires kept == TrimLeftDots(TrimSpace(AfterLastSlash(TrimRightSlashes(path))))
    ensures var base := TrimLeftDots(TrimSpace(Base(path)));
            if kept == "" then base == "" || base == "/" else base == kept
  {
    assert TrimSpace("/") == "/" && TrimSpace(".") == "." && TrimLeftDots(".") == "";
  }
}
