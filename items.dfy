/** `ItemArray` (gulp/gulpfile.js lines 367-407), the list the script keeps
    of image directories and of files to watch, and its two users: the
    image-directory and glob list of `_imageminSingleton` (lines 457-484) and
    the watch list of `_livereload` (lines 524-541). */
module Items {
  import opened JsStrings
  import opened Paths
  import opened SassSetup

  /** What `add` and `remove` accept: a string, or an array whose elements
      are again strings or arrays. */
  datatype Input = Text(s: string) | List(elems: seq<Input>)

  /** Every item is trimmed and non-empty. */
  predicate Clean(items: seq<string>) {
    forall i :: 0 <= i < |items| ==> items[i] != [] && IsTrimmed(items[i])
  }

  /** What one string without the delimiter contributes: its trim, unless
      that is empty. */
  function Kept(s: string): (r: seq<string>)
    ensures |r| <= 1
    ensures r == [] <==> Trim(s) == []
    ensures r != [] ==> r[0] == Trim(s)
  {
    if Trim(s) == [] then [] else [Trim(s)]
  }

  /** A string contributes nothing exactly when it is all white space;
      otherwise it contributes one non-empty, trimmed item, which is `s`
      with only white space cut from either end. */
  lemma KeptMeaning(s: string)
    ensures |Kept(s)| <= 1
    ensures Kept(s) == [] <==> forall i :: 0 <= i < |s| ==> IsJsSpace(s[i])
    ensures Kept(s) != [] ==>
      var item, k := Kept(s)[0], TrimStartIndex(s, 0);
      (item != [] && IsTrimmed(item)
        && k + |item| <= |s| && s[k..k + |item|] == item
        && (forall i :: 0 <= i < k ==> IsJsSpace(s[i]))
        && (forall i :: k + |item| <= i < |s| ==> IsJsSpace(s[i])))
  {
    TrimIsSlice(s);
  }

  /** What the first `n` pieces of a split contribute, in order. */
  function KeptUpTo(parts: seq<string>, n: nat): seq<string>
    requires n <= |parts|
  {
    if n == 0 then [] else KeptUpTo(parts, n - 1) + Kept(parts[n - 1])
  }

  /** What the pieces of a split contribute, in order. */
  function PartsKept(parts: seq<string>): seq<string> {
    KeptUpTo(parts, |parts|)
  }

  /** The items `add(x)` appends, in order: a string holding the delimiter is
      split and each piece kept; an array contributes its elements' items one
      after the other. */
  function Pieces(x: Input, d: char): seq<string>
    decreases x
  {
    match x
    case Text(s) => if d in s then PartsKept(Split(s, d)) else Kept(s)
    case List(es) => PiecesUpTo(es, |es|, d)
  }

  /** The items of the first `n` elements of an array, in order. */
  function PiecesUpTo(es: seq<Input>, n: nat, d: char): seq<string>
    requires n <= |es|
    decreases es, n
  {
    if n == 0 then [] else PiecesUpTo(es, n - 1, d) + Pieces(es[n - 1], d)
  }

  /** The items of an array, in order. */
  function ListPieces(es: seq<Input>, d: char): seq<string> {
    PiecesUpTo(es, |es|, d)
  }

  /** Appending clean items to clean items gives clean items. */
  lemma CleanAppend(a: seq<string>, b: seq<string>)
    requires Clean(a) && Clean(b)
    ensures Clean(a + b)
  {
    forall i | 0 <= i < |a + b|
      ensures (a + b)[i] != [] && IsTrimmed((a + b)[i])
    {
      if i >= |a| {
        assert (a + b)[i] == b[i - |a|];
      }
    }
  }

  /** Every item kept from the pieces of a split is trimmed and non-empty. */
  lemma {:induction false} KeptUpToClean(parts: seq<string>, n: nat)
    requires n <= |parts|
    ensures Clean(KeptUpTo(parts, n))
  {
    if n > 0 {
      KeptUpToClean(parts, n - 1);
      CleanAppend(KeptUpTo(parts, n - 1), Kept(parts[n - 1]));
    }
  }

  /** Every item `add` appends is trimmed and non-empty. */
  lemma {:induction false} PiecesClean(x: Input, d: char)
    ensures Clean(Pieces(x, d))
    decreases x
  {
    match x
    case Text(s) =>
      if d in s {
        KeptUpToClean(Split(s, d), |Split(s, d)|);
      }
    case List(es) =>
      PiecesUpToClean(es, |es|, d);
  }

  lemma {:induction false} PiecesUpToClean(es: seq<Input>, n: nat, d: char)
    requires n <= |es|
    ensures Clean(PiecesUpTo(es, n, d))
    decreases es, n
  {
    if n > 0 {
      PiecesUpToClean(es, n - 1, d);
      PiecesClean(es[n - 1], d);
      CleanAppend(PiecesUpTo(es, n - 1, d), Pieces(es[n - 1], d));
    }
  }

  /** The items of the first `n` elements depend on those elements only. */
  lemma {:induction false} PiecesUpToPrefix(es: seq<Input>, fs: seq<Input>, n: nat, d: char)
    requires n <= |es| && n <= |fs|
    requires forall i :: 0 <= i < n ==> es[i] == fs[i]
    ensures PiecesUpTo(es, n, d) == PiecesUpTo(fs, n, d)
  {
    if n > 0 {
      PiecesUpToPrefix(es, fs, n - 1, d);
      assert es[n - 1] == fs[n - 1];
    }
  }

  /** The items of `a + b` up to `|a| + k` are those of `a` followed by
      those of the first `k` elements of `b`. */
  lemma {:induction false} PiecesUpToAppend(a: seq<Input>, b: seq<Input>, k: nat, d: char)
    requires k <= |b|
    ensures PiecesUpTo(a + b, |a| + k, d) == ListPieces(a, d) + PiecesUpTo(b, k, d)
  {
    if k == 0 {
      PiecesUpToPrefix(a + b, a, |a|, d);
    } else {
      PiecesUpToAppend(a, b, k - 1, d);
      var ab, n := a + b, |a| + k;
      assert ab[n - 1] == b[k - 1];
      assert PiecesUpTo(ab, n, d) == PiecesUpTo(ab, n - 1, d) + Pieces(b[k - 1], d);
      assert PiecesUpTo(b, k, d) == PiecesUpTo(b, k - 1, d) + Pieces(b[k - 1], d);
      ConcatAssoc(ListPieces(a, d), PiecesUpTo(b, k - 1, d), Pieces(b[k - 1], d));
    }
  }

  /** The items of an array are the items of its parts, left to right:
      adding `a + b` is adding `a` and then adding `b`. */
  lemma ListPiecesAppend(a: seq<Input>, b: seq<Input>, d: char)
    ensures ListPieces(a + b, d) == ListPieces(a, d) + ListPieces(b, d)
  {
    PiecesUpToAppend(a, b, |b|, d);
  }

  /** The items of a delimiter-joined list of names are the kept names:
      `add` undoes the join, up to trimming and dropping blanks. */
  lemma PiecesOfJoin(parts: seq<string>, d: char)
    requires |parts| >= 2
    requires forall i :: 0 <= i < |parts| ==> d !in parts[i]
    ensures Pieces(Text(JoinWith(parts, d)), d) == PartsKept(parts)
  {
    SplitJoin(parts, d);
    assert d in JoinWith(parts, d) by {
      assert JoinWith(parts, d) == parts[0] + [d] + JoinWith(parts[1..], d);
      assert JoinWith(parts, d)[|parts[0]|] == d;
    }
  }

  /** `items.trim === item` at line 400: the left side is the `trim`
      function itself, which is never strictly equal to a string. */
  predicate TrimFunctionEquals(item: string) {
    false
  }

  /** `splice(idx, 1)`: drop the element at `idx`, if there is one. */
  function Splice(s: seq<string>, idx: nat): (r: seq<string>)
    ensures idx < |s| ==> r == s[..idx] + s[idx + 1..]
    ensures idx >= |s| ==> r == s
  {
    if idx < |s| then s[..idx] + s[idx + 1..] else s
  }

  class ItemArray {
    var items: seq<string>
    const filedelim: char

    /** What `add` guarantees of every stored item. */
    predicate Valid()
      reads this
    {
      Clean(items)
    }

    /** `new ItemArray(items, filedelim)`: an empty list, then `add(items)`. */
    constructor(x: Input, filedelim: char)
      ensures this.filedelim == filedelim
      ensures items == Pieces(x, filedelim)
      ensures Valid()
    {
      this.filedelim := filedelim;
      items := [];
      new;
      Add(x);
      PiecesClean(x, filedelim);
    }

    /** `add(x)`: append the items of `x` in order, leaving the existing ones
        where they are. No item is removed, since `remove` removes nothing. */
    method Add(x: Input)
      modifies this
      ensures items == old(items) + Pieces(x, filedelim)
      ensures old(Valid()) ==> Valid()
      decreases x, 1
    {
      match x {
        case Text(s) =>
          if filedelim in s {
            AddParts(Split(s, filedelim));
          } else {
            AddOne(s);
          }
        case List(es) =>
          AddAll(es);
      }
      if old(Valid()) {
        PiecesClean(x, filedelim);
        CleanAppend(old(items), Pieces(x, filedelim));
      }
    }

    /** `add` on an array: each element in turn, by a recursive `add`. */
    method AddAll(es: seq<Input>)
      modifies this
      ensures items == old(items) + ListPieces(es, filedelim)
      decreases List(es), 0
    {
      for i := 0 to |es|
        invariant items == old(items) + PiecesUpTo(es, i, filedelim)
      {
        Add(es[i]);
      }
    }

    /** `add` on the array a split produced: each piece in turn. */
    method AddParts(parts: seq<string>)
      modifies this
      ensures items == old(items) + PartsKept(parts)
    {
      for i := 0 to |parts|
        invariant items == old(items) + KeptUpTo(parts, i)
      {
        AddOne(parts[i]);
      }
    }

    /** `add` on a string without the delimiter: trim it and, unless it is
        empty, `remove` it and push it. */
    method AddOne(s: string)
      modifies this
      ensures items == old(items) + Kept(s)
    {
      var item := Trim(s);
      if item != [] {
        Remove(Text(item));
        items := items + [item];
      }
    }

    /** `remove(x)` as written: it splits and recurses like `add`, but its
        comparison never holds, so nothing is removed. */
    method Remove(x: Input)
      modifies this
      ensures items == old(items)
      decreases x
    {
      match x
      case Text(s) =>
        if filedelim in s {
          var parts := Split(s, filedelim);
          for i := 0 to |parts|
            invariant items == old(items)
          {
            RemoveOne(parts[i]);
          }
        } else {
          RemoveOne(s);
        }
      case List(es) =>
        for i := 0 to |es|
          invariant items == old(items)
        {
          Remove(es[i]);
        }
    }

    /** `remove` on a string without the delimiter: scan the items and splice
        out those the comparison at line 400 accepts. */
    method RemoveOne(s: string)
      modifies this
      ensures items == old(items)
    {
      var item := Trim(s);
      if item != [] {
        var idx: nat := 0;
        while idx < |items|
          invariant items == old(items)
        {
          items := if TrimFunctionEquals(items[idx]) then Splice(items, idx) else items;
          idx := idx + 1;
        }
      }
    }
  }

  /** No item occurs twice. */
  predicate NoDuplicates(s: seq<string>) {
    forall i, j :: 0 <= i < j < |s| ==> s[i] != s[j]
  }

  /** Adding the same directory twice keeps both copies: `add` does not
      deduplicate, so `"img,img"` gives two items `img`. */
  lemma AddKeepsDuplicates(name: string, d: char)
    requires name != [] && d !in name && IsTrimmed(name)
    ensures Pieces(Text(name + [d] + name), d) == [name, name]
    ensures !NoDuplicates(Pieces(Text(name + [d] + name), d))
  {
    var s := name + [d] + name;
    assert s[|name|] == d;
    var parts := Split(s, d);
    SplitTwoNames(name, d);
    assert Pieces(Text(s), d) == PartsKept(parts);
    PartsKeptTwo(name, name);
    TrimOfTrimmed(name);
    var r := Pieces(Text(s), d);
    assert r == [name, name];
    assert r[0] == r[1];
  }

  lemma PartsKeptTwo(a: string, b: string)
    ensures PartsKept([a, b]) == Kept(a) + Kept(b)
  {
    assert KeptUpTo([a, b], 1) == Kept(a);
  }

  lemma SplitTwoNames(name: string, d: char)
    requires d !in name
    ensures Split(name + [d] + name, d) == [name, name]
  {
    SplitPrefix(name, name, d);
    SplitFree(name, d);
  }

  /** The removal evidently intended: every copy of `t` goes, the rest keep
      their order. */
  function RemoveAll(s: seq<string>, t: string): (r: seq<string>)
    ensures t !in r
    ensures forall x :: x in r <==> x in s && x != t
    ensures NoDuplicates(s) ==> NoDuplicates(r)
  {
    if s == [] then []
    else
      var init := RemoveAll(s[..|s| - 1], t);
      assert forall x :: x in s[..|s| - 1] ==> x in s;
      assert forall x :: x in s ==> x in s[..|s| - 1] || x == s[|s| - 1];
      if s[|s| - 1] == t then init
      else
        assert NoDuplicates(s) ==> s[|s| - 1] !in s[..|s| - 1];
        NoDuplicatesAppend(init, s[|s| - 1]);
        init + [s[|s| - 1]]
  }

  lemma NoDuplicatesAppend(s: seq<string>, x: string)
    ensures NoDuplicates(s) && x !in s ==> NoDuplicates(s + [x])
  {
  }

  /** `add` as evidently intended: each new item first removes its earlier
      copy, then goes to the end. The list then holds each item once, and
      holds exactly the old items and the new ones. */
  function IntendedAdd(s: seq<string>, pieces: seq<string>): (r: seq<string>)
    ensures NoDuplicates(s) ==> NoDuplicates(r)
    ensures forall x :: x in r <==> x in s || x in pieces
    ensures pieces != [] ==> |r| >= 1 && r[|r| - 1] == pieces[|pieces| - 1]
  {
    if pieces == [] then s
    else
      var init := pieces[..|pieces| - 1];
      var last := pieces[|pieces| - 1];
      var before := IntendedAdd(s, init);
      assert forall x :: x in init ==> x in pieces;
      assert forall x :: x in pieces ==> x in init || x == last;
      var kept := RemoveAll(before, last);
      NoDuplicatesAppend(kept, last);
      kept + [last]
  }

  /** The items of one argument followed by those of further elements are
      clean. */
  lemma PiecesThenClean(x: Input, es: seq<Input>, d: char)
    ensures Clean(Pieces(x, d) + ListPieces(es, d))
  {
    PiecesClean(x, d);
    PiecesUpToClean(es, |es|, d);
    CleanAppend(Pieces(x, d), ListPieces(es, d));
  }

  /** The image directories `_imageminSingleton` collects: those of the
      `imagemin` argument, then, once the `Sass` configuration exists, its
      theme image and assets directories, each passed through
      `path.join`. */
  function ImageDirs(imagemin: string, sass: Option<SassConfig>): (r: seq<string>)
    ensures Clean(r)
  {
    var extra := match sass
      case None => []
      case Some(c) => [Text(JoinSingle(c.themeimagedir)), Text(JoinSingle(c.assetsdir))];
    PiecesThenClean(Text(imagemin), extra, ',');
    Pieces(Text(imagemin), ',') + ListPieces(extra, ',')
  }

  /** `_imageminSingleton`: the image directories, and for each the glob of
      the files it holds, in the same order. */
  method ImageminDirs(imagemin: string, sass: Option<SassConfig>)
    returns (dirs: seq<string>, globs: seq<string>)
    ensures dirs == ImageDirs(imagemin, sass)
    ensures |globs| == |dirs|
    ensures forall i :: 0 <= i < |dirs| ==> globs[i] == Join(dirs[i], "*")
  {
    dirs := CollectImageDirs(imagemin, sass);
    globs := [];
    for idx := 0 to |dirs|
      invariant |globs| == idx
      invariant forall i :: 0 <= i < idx ==> globs[i] == Join(dirs[i], "*")
    {
      globs := globs + [Join(dirs[idx], "*")];
    }
  }

  /** Lines 459-466: the `ItemArray` of image directories. */
  method CollectImageDirs(imagemin: string, sass: Option<SassConfig>) returns (dirs: seq<string>)
    ensures dirs == ImageDirs(imagemin, sass)
  {
    var list := new ItemArray(Text(imagemin), ',');
    if sass.Some? {
      list.Add(List([Text(JoinSingle(sass.value.themeimagedir)), Text(JoinSingle(sass.value.assetsdir))]));
    }
    dirs := list.items;
  }

  /** A `Sass` configuration without theme image or assets directory still
      adds ".", the current directory, twice. */
  lemma ImageDirsAddCurrentDir(imagemin: string, c: SassConfig)
    requires c.themeimagedir == [] && c.assetsdir == []
    ensures ImageDirs(imagemin, Some(c)) == Pieces(Text(imagemin), ',') + [".", "."]
  {
    var es := [Text("."), Text(".")];
    assert JoinSingle(c.themeimagedir) == "." && JoinSingle(c.assetsdir) == ".";
    TrimOfTrimmed(".");
    assert Pieces(Text("."), ',') == ["."];
    assert PiecesUpTo(es, 1, ',') == ["."];
    assert ListPieces(es, ',') == [".", "."];
  }

  /** The image directories evidently intended: a missing theme image or
      assets directory contributes nothing. */
  function IntendedImageDirs(imagemin: string, sass: Option<SassConfig>): (r: seq<string>)
    ensures Clean(r)
  {
    var extra := match sass
      case None => []
      case Some(c) => [Text(c.themeimagedir), Text(c.assetsdir)];
    PiecesThenClean(Text(imagemin), extra, ',');
    Pieces(Text(imagemin), ',') + ListPieces(extra, ',')
  }

  /** A single trimmed name without the delimiter is one item, or none when
      it is empty. */
  lemma PiecesOfName(x: string, d: char)
    requires IsTrimmed(x) && d !in x
    ensures Pieces(Text(x), d) == (if x == [] then [] else [x])
  {
    TrimOfTrimmed(x);
  }

  /** The intended list is the `imagemin` items followed by those of each
      optional directory. */
  lemma IntendedImageDirsSplit(imagemin: string, c: SassConfig)
    ensures IntendedImageDirs(imagemin, Some(c))
      == Pieces(Text(imagemin), ',') + Pieces(Text(c.themeimagedir), ',') + Pieces(Text(c.assetsdir), ',')
  {
    var t, a := Pieces(Text(c.themeimagedir), ','), Pieces(Text(c.assetsdir), ',');
    var es := [Text(c.themeimagedir), Text(c.assetsdir)];
    assert PiecesUpTo(es, 1, ',') == t;
    assert ListPieces(es, ',') == t + a;
    ConcatAssoc(Pieces(Text(imagemin), ','), t, a);
  }

  /** In the intended list each optional directory contributes on its own:
      one that was not found adds nothing, and one that was found (a trimmed
      path without a comma) adds exactly itself, after the `imagemin`
      items. */
  lemma IntendedImageDirsEach(imagemin: string, c: SassConfig)
    ensures c.themeimagedir == [] ==>
      IntendedImageDirs(imagemin, Some(c)) == Pieces(Text(imagemin), ',') + Pieces(Text(c.assetsdir), ',')
    ensures c.assetsdir == [] ==>
      IntendedImageDirs(imagemin, Some(c)) == Pieces(Text(imagemin), ',') + Pieces(Text(c.themeimagedir), ',')
    ensures (IsTrimmed(c.themeimagedir) && ',' !in c.themeimagedir
      && IsTrimmed(c.assetsdir) && ',' !in c.assetsdir) ==>
      IntendedImageDirs(imagemin, Some(c)) == Pieces(Text(imagemin), ',')
        + (if c.themeimagedir == [] then [] else [c.themeimagedir])
        + (if c.assetsdir == [] then [] else [c.assetsdir])
  {
    IntendedImageDirsSplit(imagemin, c);
    var p := Pieces(Text(imagemin), ',');
    var t, a := Pieces(Text(c.themeimagedir), ','), Pieces(Text(c.assetsdir), ',');
    if c.themeimagedir == [] {
      assert t == [] && p + t == p;
    }
    if c.assetsdir == [] {
      assert a == [];
    }
    if IsTrimmed(c.themeimagedir) && ',' !in c.themeimagedir
      && IsTrimmed(c.assetsdir) && ',' !in c.assetsdir
    {
      PiecesOfName(c.themeimagedir, ',');
      PiecesOfName(c.assetsdir, ',');
    }
  }

  /** The intended list agrees with the one written whenever both optional
      directories were found, and adds nothing when neither was. */
  lemma IntendedImageDirsAgree(imagemin: string, sass: Option<SassConfig>)
    ensures sass.None? ==> IntendedImageDirs(imagemin, sass) == ImageDirs(imagemin, sass)
    ensures sass.Some? && sass.value.themeimagedir != [] && sass.value.assetsdir != [] ==>
      IntendedImageDirs(imagemin, sass) == ImageDirs(imagemin, sass)
    ensures sass.Some? && sass.value.themeimagedir == [] && sass.value.assetsdir == [] ==>
      IntendedImageDirs(imagemin, sass) == Pieces(Text(imagemin), ',')
  {
    if sass.Some? && sass.value.themeimagedir == [] && sass.value.assetsdir == [] {
      var es := [Text([]), Text([])];
      assert Pieces(Text([]), ',') == [];
      assert PiecesUpTo(es, 1, ',') == [];
      assert ListPieces(es, ',') == [];
    }
  }

  /** The files `_livereload` watches, before the slashes are rewritten: those
      of the `livereload` argument, then the `Sass` CSS and template
      globs. */
  function WatchItems(livereload: string, sass: Option<SassConfig>): (r: seq<string>)
    ensures Clean(r)
  {
    var extra := match sass
      case None => []
      case Some(c) => [Text(c.cssfiles), Text(c.templatefiles)];
    PiecesThenClean(Text(livereload), extra, ',');
    Pieces(Text(livereload), ',') + ListPieces(extra, ',')
  }

  /** `_livereload` up to `pkgGulp.watch`: the watch list with every
      backslash turned into a forward slash, in place; empty when there is
      nothing to watch. */
  method LivereloadFiles(livereload: string, sass: Option<SassConfig>) returns (files: seq<string>)
    ensures |files| == |WatchItems(livereload, sass)|
    ensures forall i :: 0 <= i < |files| ==> files[i] == ForwardSlashes(WatchItems(livereload, sass)[i])
    ensures forall i :: 0 <= i < |files| ==> files[i] != [] && '\\' !in files[i]
  {
    var srcfiles := new ItemArray(Text(livereload), ',');
    if sass.Some? {
      srcfiles.Add(List([Text(sass.value.cssfiles), Text(sass.value.templatefiles)]));
    }
    ghost var watched := srcfiles.items;
    if |srcfiles.items| == 0 {
      return [];
    }
    for idx := 0 to |srcfiles.items|
      invariant |srcfiles.items| == |watched|
      invariant forall i :: 0 <= i < idx ==> srcfiles.items[i] == ForwardSlashes(watched[i])
      invariant forall i :: idx <= i < |watched| ==> srcfiles.items[i] == watched[i]
    {
      srcfiles.items := srcfiles.items[idx := ForwardSlashes(srcfiles.items[idx])];
    }
    files := srcfiles.items;
  }
}
