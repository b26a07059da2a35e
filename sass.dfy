/** Directory and configuration resolution of the `Sass` constructor
    (gulp/gulpfile.js lines 152-309): where the SCSS sources and the CSS
    output live, which optional directories exist, which source files to
    compile, the output style and the source-map flag. */
module SassSetup {
  import opened JsStrings
  import opened Paths

  /** Why the constructor ends the process through `log.ter`. */
  datatype AbortReason =
    | InvalidScssDir(scssdir: string)      // line 172
    | NoCssDir                             // line 190
    | InvalidCssDir(cssdir: string)        // line 196
    | NoScssDir                            // line 214
    | InvalidDrupalRoot(drupalroot: string) // line 222
    | NoThemeName                          // line 226
    | NoThemeDir                           // lines 245-246
    | InsufficientArguments                // lines 251-252
    | InvalidScssFile(path: string)        // line 289
    | InvalidStyle(style: string)          // line 296

  /** A value, or the reason the process exits with status -1. */
  datatype Result<T> = Ok(value: T) | Abort(reason: AbortReason) {
    predicate IsFailure() {
      Abort?
    }

    function PropagateFailure<U>(): Result<U>
      requires Abort?
    {
      Abort(reason)
    }

    function Extract(): T
      requires Ok?
    {
      value
    }
  }

  /** The constructor's parameters, as `_sassSingleton` passes them from the
      command line (every string option defaults to ""). */
  datatype SassArgs = SassArgs(
    dev: bool, style: string, sourcemap: bool,
    scssdir: string, cssdir: string, scssfiles: string,
    drupalroot: string, theme: string, verbose: bool)

  /** The fields of a constructed `Sass` object. */
  datatype SassConfig = SassConfig(
    dev: bool, verbose: bool,
    scssdir: string, cssdir: string,
    scssfiles: seq<string>, scssfilepaths: seq<string>,
    templatedir: string, templatefiles: string, cssfiles: string,
    themeimagedir: string, assetsdir: string,
    style: string, sourcemap: bool)

  /** The source and output directories, and the directory the optional
      directories are looked up from (`referencedir`). */
  datatype Dirs = Dirs(scssdir: string, cssdir: string, referencedir: string)

  /** The optional directories of lines 257-280, "" when not found. */
  datatype OptionalDirs = OptionalDirs(
    templatedir: string, templatefiles: string, themeimagedir: string, assetsdir: string)

  /** Where the CSS directory is looked for when only `scssdir` is given. */
  function CssCandidates(scssdir: string): seq<string> {
    [JoinAll(scssdir, ["..", "css"]), Join(scssdir, "css")]
  }

  /** Where the SCSS directory is looked for when only `cssdir` is given. */
  function ScssCandidates(cssdir: string): seq<string> {
    [JoinAll(cssdir, ["..", "scss"]), Join(cssdir, "scss")]
  }

  /** The Drupal root: the given one, or the parent of the working directory. */
  function DrupalRoot(cwd: string, drupalroot: string): string {
    if drupalroot == "" then Join(cwd, "..") else drupalroot
  }

  /** The six places a Drupal theme may live, in the order they are tried. */
  function ThemeCandidates(root: string, theme: string): (c: seq<string>)
    ensures |c| == 6
  {
    [ JoinAll(root, ["themes", theme])
    , JoinAll(root, ["themes", "custom", theme])
    , JoinAll(root, ["public_html", "themes", theme])
    , JoinAll(root, ["public_html", "themes", "custom", theme])
    , JoinAll(root, ["web", "themes", theme])
    , JoinAll(root, ["web", "themes", "custom", theme]) ]
  }

  /** Where the shared assets directory is looked for. */
  function AssetsCandidates(referencedir: string): seq<string> {
    [ JoinAll(referencedir, ["..", "..", "..", "sites", "default", "files"])
    , JoinAll(referencedir, ["..", "..", "..", "..", "sites", "default", "files"]) ]
  }

  /** The closed set of output styles. */
  const Styles: seq<string> := ["compact", "compressed", "expanded", "nested"]

  /** Lines 169-217: `scssdir` and/or `cssdir` given. A given directory must
      exist; a missing counterpart is the first existing one of two
      conventional places; the result never names a directory that does not
      exist. */
  function ExplicitDirs(fs: FileSystem, scssdir: string, cssdir: string): (r: Result<Dirs>)
    requires scssdir != "" || cssdir != ""
    ensures scssdir != "" && !IsDir(fs, scssdir) ==> r == Abort(InvalidScssDir(scssdir))
    ensures cssdir != "" && !IsDir(fs, cssdir) && (scssdir == "" || IsDir(fs, scssdir))
      ==> r == Abort(InvalidCssDir(cssdir))
    ensures r.Ok? ==> IsDir(fs, r.value.scssdir) && IsDir(fs, r.value.cssdir)
    ensures r.Ok? && scssdir != "" ==> r.value.scssdir == scssdir
    ensures r.Ok? && cssdir != "" ==> r.value.cssdir == cssdir
    ensures r.Ok? ==> r.value.referencedir == (if cssdir != "" then cssdir else scssdir)
    ensures scssdir != "" && cssdir == "" && IsDir(fs, scssdir) ==>
      var c := CssCandidates(scssdir);
      && (r.Ok? <==> IsDir(fs, c[0]) || IsDir(fs, c[1]))
      && (r.Ok? ==> r.value.cssdir == (if IsDir(fs, c[0]) then c[0] else c[1]))
      && (r.Abort? ==> r.reason == NoCssDir)
    ensures scssdir == "" && IsDir(fs, cssdir) ==>
      var c := ScssCandidates(cssdir);
      && (r.Ok? <==> IsDir(fs, c[0]) || IsDir(fs, c[1]))
      && (r.Ok? ==> r.value.scssdir == (if IsDir(fs, c[0]) then c[0] else c[1]))
      && (r.Abort? ==> r.reason == NoScssDir)
    ensures scssdir != "" && cssdir != "" ==>
      (r.Ok? <==> IsDir(fs, scssdir) && IsDir(fs, cssdir))
    ensures r.Abort? ==>
      r.reason.InvalidScssDir? || r.reason.InvalidCssDir? || r.reason.NoCssDir? || r.reason.NoScssDir?
  {
    if scssdir != "" && !IsDir(fs, scssdir) then Abort(InvalidScssDir(scssdir))
    else if cssdir == "" then
      var c := FirstDir(fs, CssCandidates(scssdir));
      if c == "" then Abort(NoCssDir) else Ok(Dirs(scssdir, c, scssdir))
    else if !IsDir(fs, cssdir) then Abort(InvalidCssDir(cssdir))
    else if scssdir == "" then
      var s := FirstDir(fs, ScssCandidates(cssdir));
      if s == "" then Abort(NoScssDir) else Ok(Dirs(s, cssdir, cssdir))
    else Ok(Dirs(scssdir, cssdir, cssdir))
  }

  /** Lines 218-249: the Drupal layout. A given root must exist and a theme
      name is required; the theme directory is the first of the six
      candidates that exists, and `scss` and `css` sit directly in it. */
  function ThemeDirs(fs: FileSystem, cwd: string, drupalroot: string, theme: string): (r: Result<Dirs>)
    ensures drupalroot != "" && !IsDir(fs, drupalroot) ==> r == Abort(InvalidDrupalRoot(drupalroot))
    ensures (drupalroot == "" || IsDir(fs, drupalroot)) && theme == "" ==> r == Abort(NoThemeName)
    ensures (drupalroot == "" || IsDir(fs, drupalroot)) && theme != "" ==>
      var c := ThemeCandidates(DrupalRoot(cwd, drupalroot), theme);
      && (r.Ok? <==> exists j :: 0 <= j < 6 && IsDir(fs, c[j]))
      && (r.Abort? ==> r.reason == NoThemeDir)
    ensures r.Ok? ==>
      var c := ThemeCandidates(DrupalRoot(cwd, drupalroot), theme);
      exists k :: 0 <= k < 6 && IsDir(fs, c[k]) && (forall j :: 0 <= j < k ==> !IsDir(fs, c[j]))
        && r.value == Dirs(Join(c[k], "scss"), Join(c[k], "css"), Join(c[k], "scss"))
    ensures r.Abort? ==> r.reason.InvalidDrupalRoot? || r.reason.NoThemeName? || r.reason.NoThemeDir?
  {
    if drupalroot != "" && !IsDir(fs, drupalroot) then Abort(InvalidDrupalRoot(drupalroot))
    else if theme == "" then Abort(NoThemeName)
    else
      var c := ThemeCandidates(DrupalRoot(cwd, drupalroot), theme);
      var themedir := FirstDir(fs, c);
      if themedir == "" then Abort(NoThemeDir)
      else
        assert themedir == c[FirstDirIndex(fs, c)];
        Ok(Dirs(Join(themedir, "scss"), Join(themedir, "css"), Join(themedir, "scss")))
  }

  /** Lines 169-253: explicit directories take precedence over the Drupal
      arguments, and with neither the run aborts. */
  function ResolveDirs(fs: FileSystem, cwd: string, a: SassArgs): (r: Result<Dirs>)
    ensures a.scssdir != "" || a.cssdir != "" ==> r == ExplicitDirs(fs, a.scssdir, a.cssdir)
    ensures a.scssdir == "" && a.cssdir == "" ==>
      r == (if a.drupalroot == "" && a.theme == "" then Abort(InsufficientArguments)
            else ThemeDirs(fs, cwd, a.drupalroot, a.theme))
    ensures r == Abort(InsufficientArguments) <==>
      a.scssdir == "" && a.cssdir == "" && a.drupalroot == "" && a.theme == ""
  {
    if a.scssdir != "" || a.cssdir != "" then ExplicitDirs(fs, a.scssdir, a.cssdir)
    else if a.drupalroot != "" || a.theme != "" then ThemeDirs(fs, cwd, a.drupalroot, a.theme)
    else Abort(InsufficientArguments)
  }

  /** Lines 257-280: the template, theme image and assets directories are
      probed next to `referencedir`; each is either "" or an existing
      directory, and template files are watched only under a found template
      directory. */
  function FindOptionalDirs(fs: FileSystem, referencedir: string): (o: OptionalDirs)
    ensures o.templatedir == "" || (o.templatedir == JoinAll(referencedir, ["..", "templates"]) && IsDir(fs, o.templatedir))
    ensures o.templatedir == "" <==> !IsDir(fs, JoinAll(referencedir, ["..", "templates"]))
    ensures o.templatefiles == (if o.templatedir == "" then "" else JoinAll(o.templatedir, ["**", "*.twig"]))
    ensures o.themeimagedir == "" || (o.themeimagedir == JoinAll(referencedir, ["..", "images"]) && IsDir(fs, o.themeimagedir))
    ensures o.themeimagedir == "" <==> !IsDir(fs, JoinAll(referencedir, ["..", "images"]))
    ensures o.assetsdir == "" || IsDir(fs, o.assetsdir)
    ensures var c := AssetsCandidates(referencedir);
      o.assetsdir == (if IsDir(fs, c[0]) then c[0] else if IsDir(fs, c[1]) then c[1] else "")
  {
    var templatedir := JoinAll(referencedir, ["..", "templates"]);
    var themeimagedir := JoinAll(referencedir, ["..", "images"]);
    OptionalDirs(
      if IsDir(fs, templatedir) then templatedir else "",
      if IsDir(fs, templatedir) then JoinAll(templatedir, ["**", "*.twig"]) else "",
      if IsDir(fs, themeimagedir) then themeimagedir else "",
      FirstDir(fs, AssetsCandidates(referencedir)))
  }

  /** Line 282: the source files named on the command line, `style.scss`
      when none are; the names are exactly the comma-separated pieces of the
      option, so joining them back with commas gives the option. */
  function ScssFileNames(scssfiles: string): (names: seq<string>)
    ensures |names| >= 1
    ensures scssfiles == "" ==> names == ["style.scss"]
    ensures scssfiles != "" ==> JoinWith(names, ',') == scssfiles
    ensures scssfiles != "" ==> forall i :: 0 <= i < |names| ==> ',' !in names[i]
  {
    if scssfiles == "" then ["style.scss"]
    else
      JoinSplit(scssfiles, ',');
      Split(scssfiles, ',')
  }

  /** Each name joined onto the source directory. */
  function JoinEach(dir: string, names: seq<string>): (paths: seq<string>)
    ensures |paths| == |names|
    ensures forall i :: 0 <= i < |names| ==> paths[i] == Join(dir, names[i])
  {
    seq(|names|, i requires 0 <= i < |names| => Join(dir, names[i]))
  }

  /** The index of the first path that is not a regular file, or the number
      of paths when all of them are. */
  function FirstMissingIndex(fs: FileSystem, paths: seq<string>): (k: nat)
    ensures k <= |paths|
    ensures k < |paths| ==> !IsFile(fs, paths[k])
    ensures forall j :: 0 <= j < k ==> IsFile(fs, paths[j])
  {
    FirstMissingFrom(fs, paths, 0)
  }

  /** The index of the first path at or after `i` that is not a regular
      file, or the number of paths. */
  function FirstMissingFrom(fs: FileSystem, paths: seq<string>, i: nat): (k: nat)
    requires i <= |paths|
    ensures i <= k <= |paths|
    ensures k < |paths| ==> !IsFile(fs, paths[k])
    ensures forall j :: i <= j < k ==> IsFile(fs, paths[j])
    decreases |paths| - i
  {
    if i == |paths| || !IsFile(fs, paths[i]) then i
    else FirstMissingFrom(fs, paths, i + 1)
  }

  /** Lines 283-291: every source file must be a regular file in the source
      directory; the first one that is not aborts the run, naming its path. */
  function ResolveFiles(fs: FileSystem, scssdir: string, names: seq<string>): (r: Result<seq<string>>)
    ensures r.Ok? <==> forall i :: 0 <= i < |names| ==> IsFile(fs, Join(scssdir, names[i]))
    ensures r.Ok? ==> |r.value| == |names|
    ensures r.Ok? ==> forall i :: 0 <= i < |names| ==> r.value[i] == Join(scssdir, names[i])
    ensures r.Abort? ==>
      exists k :: 0 <= k < |names| && r.reason == InvalidScssFile(Join(scssdir, names[k]))
        && !IsFile(fs, Join(scssdir, names[k])) && forall j :: 0 <= j < k ==> IsFile(fs, Join(scssdir, names[j]))
  {
    var paths := JoinEach(scssdir, names);
    var k := FirstMissingIndex(fs, paths);
    if k < |paths| then Abort(InvalidScssFile(paths[k])) else Ok(paths)
  }

  /** Lines 293-297: the output style. An empty style is `expanded` for a
      development build and `compressed` otherwise; any other value is
      lower-cased and must be one of the four styles. */
  function ResolveStyle(style: string, dev: bool): (r: Result<string>)
    ensures r.Ok? ==> r.value in Styles
    ensures style == "" ==> r == Ok(if dev then "expanded" else "compressed")
    ensures style != "" ==> (r.Ok? <==> Lower(style) in Styles)
    ensures style != "" && r.Ok? ==> r.value == Lower(style)
    ensures r.Abort? ==> r.reason == InvalidStyle(style)
  {
    var s := if style == "" then (if dev then "expanded" else "compressed") else Lower(style);
    if s in Styles then Ok(s) else Abort(InvalidStyle(style))
  }

  /** The style check ignores case: a style and its lower-case spelling are
      accepted or refused together, and resolve to the same style. */
  lemma StyleIgnoresCase(style: string, dev: bool)
    ensures ResolveStyle(style, dev).Ok? <==> ResolveStyle(Lower(style), dev).Ok?
    ensures ResolveStyle(style, dev).Ok? ==> ResolveStyle(style, dev).value == ResolveStyle(Lower(style), dev).value
  {
    LowerIdempotent(style);
  }

  /** The whole constructor, lines 156-298: directories first, then the
      optional directories, then the source files, then the style; the first
      failure in that order is the one reported. */
  function SassSpec(fs: FileSystem, cwd: string, a: SassArgs): (r: Result<SassConfig>)
    ensures ResolveDirs(fs, cwd, a).Abort? ==> r == Abort(ResolveDirs(fs, cwd, a).reason)
    ensures r.Ok? ==> (ResolveDirs(fs, cwd, a).Ok?
      && r.value.scssdir == ResolveDirs(fs, cwd, a).value.scssdir
      && r.value.cssdir == ResolveDirs(fs, cwd, a).value.cssdir)
    ensures r.Ok? ==>
      && r.value.scssfiles == ScssFileNames(a.scssfiles)
      && |r.value.scssfilepaths| == |r.value.scssfiles|
      && (forall i :: 0 <= i < |r.value.scssfiles| ==>
            r.value.scssfilepaths[i] == Join(r.value.scssdir, r.value.scssfiles[i])
            && IsFile(fs, r.value.scssfilepaths[i]))
    ensures r.Ok? ==> r.value.cssfiles == Join(r.value.cssdir, "*.css")
    ensures r.Ok? ==> r.value.style in Styles && r.value.sourcemap == (a.sourcemap || a.dev)
    ensures r.Ok? ==> r.value.dev == a.dev && r.value.verbose == a.verbose
    ensures r.Ok? ==> ((r.value.templatedir == "" || IsDir(fs, r.value.templatedir))
      && (r.value.themeimagedir == "" || IsDir(fs, r.value.themeimagedir))
      && (r.value.assetsdir == "" || IsDir(fs, r.value.assetsdir)))
    ensures ResolveDirs(fs, cwd, a).Ok?
      && !ResolveFiles(fs, ResolveDirs(fs, cwd, a).value.scssdir, ScssFileNames(a.scssfiles)).Ok?
      ==> (r.Abort? && r.reason.InvalidScssFile?
        && r.reason == ResolveFiles(fs, ResolveDirs(fs, cwd, a).value.scssdir, ScssFileNames(a.scssfiles)).reason)
    ensures ResolveDirs(fs, cwd, a).Ok?
      && ResolveFiles(fs, ResolveDirs(fs, cwd, a).value.scssdir, ScssFileNames(a.scssfiles)).Ok?
      ==> ((r.Ok? <==> ResolveStyle(a.style, a.dev).Ok?)
        && (r.Abort? ==> r == Abort(InvalidStyle(a.style))))
    ensures r.Ok? ==> r.value.style == ResolveStyle(a.style, a.dev).value
    ensures r.Ok? ==>
      var o := FindOptionalDirs(fs, ResolveDirs(fs, cwd, a).value.referencedir);
      && r.value.templatedir == o.templatedir && r.value.templatefiles == o.templatefiles
      && r.value.themeimagedir == o.themeimagedir && r.value.assetsdir == o.assetsdir
  {
    var dirs :- ResolveDirs(fs, cwd, a);
    var optional := FindOptionalDirs(fs, dirs.referencedir);
    var names := ScssFileNames(a.scssfiles);
    var paths :- ResolveFiles(fs, dirs.scssdir, names);
    var style :- ResolveStyle(a.style, a.dev);
    Ok(SassConfig(
      a.dev, a.verbose, dirs.scssdir, dirs.cssdir, names, paths,
      optional.templatedir, optional.templatefiles, Join(dirs.cssdir, "*.css"),
      optional.themeimagedir, optional.assetsdir, style, a.sourcemap || a.dev))
  }

  /** Only a source directory given, with a sibling `css` directory and a
      `style.scss` in it: a development build compiles that one file into
      the sibling directory, expanded and with source maps. */
  lemma ScssDirOnly(fs: FileSystem, cwd: string, a: SassArgs)
    requires a.scssdir != "" && a.cssdir == "" && a.scssfiles == "" && a.style == "" && a.dev
    requires IsDir(fs, a.scssdir) && IsDir(fs, JoinAll(a.scssdir, ["..", "css"]))
    requires IsFile(fs, Join(a.scssdir, "style.scss"))
    ensures SassSpec(fs, cwd, a).Ok?
    ensures var c := SassSpec(fs, cwd, a).value;
      && c.scssdir == a.scssdir && c.cssdir == JoinAll(a.scssdir, ["..", "css"])
      && c.scssfilepaths == [Join(a.scssdir, "style.scss")]
      && c.style == "expanded" && c.sourcemap
  {
    var dirs := ResolveDirs(fs, cwd, a);
    assert dirs == Ok(Dirs(a.scssdir, JoinAll(a.scssdir, ["..", "css"]), a.scssdir));
    var names := ScssFileNames(a.scssfiles);
    assert names == ["style.scss"];
    var files := ResolveFiles(fs, a.scssdir, names);
    assert files.Ok?;
    assert files.value == [Join(a.scssdir, "style.scss")];
  }

  /** A theme found only under `themes/custom` of the default Drupal root
      (the parent of the working directory) provides the `scss` and `css`
      directories inside it. */
  lemma CustomTheme(fs: FileSystem, cwd: string, a: SassArgs)
    requires a.scssdir == "" && a.cssdir == "" && a.drupalroot == "" && a.theme != ""
    requires !IsDir(fs, JoinAll(Join(cwd, ".."), ["themes", a.theme]))
    requires IsDir(fs, JoinAll(Join(cwd, ".."), ["themes", "custom", a.theme]))
    ensures var themedir := JoinAll(Join(cwd, ".."), ["themes", "custom", a.theme]);
      ResolveDirs(fs, cwd, a) == Ok(Dirs(Join(themedir, "scss"), Join(themedir, "css"), Join(themedir, "scss")))
  {
    var c := ThemeCandidates(Join(cwd, ".."), a.theme);
    assert !IsDir(fs, c[0]) && IsDir(fs, c[1]);
    assert FirstDirIndex(fs, c[1..]) == 0;
    assert FirstDirIndex(fs, c) == 1;
  }

  /** Lines 167-253 of the constructor, step by step as the source runs
      them: each `log.ter` becomes an early `Abort`, and the candidate loops
      are `FindFirstDir`. */
  method LocateDirs(fs: FileSystem, cwd: string, a: SassArgs) returns (r: Result<Dirs>)
    ensures r == ResolveDirs(fs, cwd, a)
  {
    var scssdir, cssdir, referencedir := "", "", "";
    if a.scssdir != "" || a.cssdir != "" {
      if a.scssdir != "" {
        if !IsDir(fs, a.scssdir) {
          return Abort(InvalidScssDir(a.scssdir));
        }
        scssdir, referencedir := a.scssdir, a.scssdir;
        if a.cssdir == "" {
          cssdir := FindFirstDir(fs, CssCandidates(scssdir));
          if cssdir == "" {
            return Abort(NoCssDir);
          }
        }
      }
      if a.cssdir != "" {
        if !IsDir(fs, a.cssdir) {
          return Abort(InvalidCssDir(a.cssdir));
        }
        cssdir, referencedir := a.cssdir, a.cssdir;
        if a.scssdir == "" {
          scssdir := FindFirstDir(fs, ScssCandidates(cssdir));
          if scssdir == "" {
            return Abort(NoScssDir);
          }
        }
      }
    } else if a.drupalroot != "" || a.theme != "" {
      var drupalroot := a.drupalroot;
      if drupalroot == "" {
        drupalroot := Join(cwd, "..");
      } else if !IsDir(fs, drupalroot) {
        return Abort(InvalidDrupalRoot(drupalroot));
      }
      if a.theme == "" {
        return Abort(NoThemeName);
      }
      var themedir := FindFirstDir(fs, ThemeCandidates(drupalroot, a.theme));
      if themedir == "" {
        return Abort(NoThemeDir);
      }
      scssdir := Join(themedir, "scss");
      referencedir := scssdir;
      cssdir := Join(themedir, "css");
    } else {
      return Abort(InsufficientArguments);
    }
    r := Ok(Dirs(scssdir, cssdir, referencedir));
  }

  /** Lines 283-291: push each source file and its path while it is a regular
      file; abort on the first that is not. */
  method CollectFiles(fs: FileSystem, scssdir: string, names: seq<string>)
    returns (r: Result<(seq<string>, seq<string>)>)
    ensures r.Ok? <==> ResolveFiles(fs, scssdir, names).Ok?
    ensures r.Ok? ==> r.value == (names, ResolveFiles(fs, scssdir, names).value)
    ensures r.Abort? ==> r.reason == ResolveFiles(fs, scssdir, names).reason
  {
    ghost var paths := JoinEach(scssdir, names);
    ghost var k := FirstMissingIndex(fs, paths);
    var scssfiles, scssfilepaths := [], [];
    for i := 0 to |names|
      invariant scssfiles == names[..i]
      invariant scssfilepaths == paths[..i]
      invariant i <= k
    {
      var scssfilepath := Join(scssdir, names[i]);
      if IsFile(fs, scssfilepath) {
        scssfiles := scssfiles + [names[i]];
        scssfilepaths := scssfilepaths + [scssfilepath];
      } else {
        assert paths[i] == scssfilepath && i == k;
        return Abort(InvalidScssFile(scssfilepath));
      }
    }
    assert names[..|names|] == names && paths[..|paths|] == paths;
    r := Ok((scssfiles, scssfilepaths));
  }

  /** Lines 257-280: probe the template and theme image directories, then
      scan for the assets directory. */
  method LocateOptionalDirs(fs: FileSystem, referencedir: string) returns (o: OptionalDirs)
    ensures o == FindOptionalDirs(fs, referencedir)
  {
    var templatedir, templatefiles := "", "";
    var templatetry := JoinAll(referencedir, ["..", "templates"]);
    if IsDir(fs, templatetry) {
      templatedir := templatetry;
      templatefiles := JoinAll(templatedir, ["**", "*.twig"]);
    }

    var themeimagedir := "";
    var imagetry := JoinAll(referencedir, ["..", "images"]);
    if IsDir(fs, imagetry) {
      themeimagedir := imagetry;
    }

    var assetsdir := FindFirstDir(fs, AssetsCandidates(referencedir));
    o := OptionalDirs(templatedir, templatefiles, themeimagedir, assetsdir);
  }

  /** The `Sass` constructor (lines 152-298), phase by phase in the order the
      source runs them. */
  method NewSass(fs: FileSystem, cwd: string, a: SassArgs) returns (r: Result<SassConfig>)
    ensures r == SassSpec(fs, cwd, a)
  {
    var dirs := LocateDirs(fs, cwd, a);
    if dirs.Abort? {
      return Abort(dirs.reason);
    }
    var scssdir, cssdir, referencedir := dirs.value.scssdir, dirs.value.cssdir, dirs.value.referencedir;

    var cssfiles := Join(cssdir, "*.css");

    var optional := LocateOptionalDirs(fs, referencedir);

    var files := CollectFiles(fs, scssdir, ScssFileNames(a.scssfiles));
    if files.Abort? {
      return Abort(files.reason);
    }

    var style := if a.style == "" then (if a.dev then "expanded" else "compressed") else Lower(a.style);
    if style !in Styles {
      return Abort(InvalidStyle(a.style));
    }
    r := Ok(SassConfig(
      a.dev, a.verbose, scssdir, cssdir, files.value.0, files.value.1,
      optional.templatedir, optional.templatefiles, cssfiles,
      optional.themeimagedir, optional.assetsdir, style, a.sourcemap || a.dev));
  }
}
