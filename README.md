# gulp-sass-dev build script: a verified model of its own logic

The build script `gulp/gulpfile.js` drives Sass, imagemin, uglify and
livereload for a theme. Around those libraries it carries a small amount of
logic of its own, and that logic is what this project models and proves:

- **`Sass` constructor** (module `SassSetup`, `sass.dfy`). The constructor
  resolves the SCSS and CSS directories. They come either from `--scssdir` /
  `--cssdir`, with the missing one searched in two conventional places, or
  from a Drupal root and a theme name, searched in six places. It then
  probes the optional template, theme image and assets directories. Next it
  checks each source file, lower-cases and checks the output style, and
  derives the source-map flag.
  - Every fatal `log.ter` (which ends the process) is an `Abort` result that
    names the reason.
  - The file system is an abstract map from path to `Dir` or `File`
    (module `Paths`). `_isValidPath` is a lookup in that map.
  - `NewSass` follows the source step by step: early returns for `log.ter`,
    and `for`/`break` loops for the candidate searches. It is proved equal
    to the specification function `SassSpec`, whose contract states the
    resolution rules.
  - The constructed object is returned as a `SassConfig` value, because
    nothing in the modelled code changes its fields after construction.
- **`ItemArray`** (module `Items`, `items.dfy`). This is a class whose
  `items` field the methods update in place. `add` splits on the delimiter,
  recurses into arrays, trims, drops blanks and appends. `remove`, as
  written, removes nothing (see Findings).
- **The lists built with `ItemArray`**:
  - the image directories and their globs (`_imageminSingleton`);
  - the livereload watch list, whose backslashes are rewritten in place
    (`_livereload`).
- **`_fitLength`** (module `Format`, `format.dfy`), together with its two
  uses:
  - the eight-character log prefix;
  - the `HH:MM:SS` clock of `_getTime`.
- **`beautifyText`** (module `Beautify`, `beautify.dfy`). It wraps text in
  the SGR escape sequences of ECMA-48 (section 8.3.117).
- **The output file name rule of `_uglifyjs`** (module `Uglify`,
  `uglify.dfy`).

`js_strings.dfy` models the JavaScript string built-ins these rely on:
`trim`, `toLowerCase`, `toUpperCase`, `split`, `join`, `repeat`, `substr`,
`endsWith` and a global `replace`. `paths.dfy` models the part of
`path.join` they use, together with the file-system oracle.

`ItemArray.add` calls `this.remove(items)` just before
`this.items.push(items)` (gulp/gulpfile.js:384-385), so each item was meant
to be stored once. The comparison in `remove` (gulp/gulpfile.js:400) defeats
that. The model follows the code as written and keeps duplicates; the
corrected behaviour is modelled beside it (see Findings).

## Model

| member | source | states |
|---|---|---|
| Paths.FirstDirIndex | gulp/gulpfile.js:182-188 | The index of the first candidate that is a directory: it is one, no earlier candidate is, and it equals the number of candidates when none is |
| Paths.FirstDir | gulp/gulpfile.js:182-188 | The search result is non-empty exactly when some candidate is a directory. A non-empty result is the first candidate that is a directory: it is a directory, and no earlier candidate is |
| Paths.FindFirstDir | gulp/gulpfile.js:182-188 | The `for ... break` scan over a candidate list returns the first directory among them, or "" |
| SassSetup.ExplicitDirs | gulp/gulpfile.js:169-217 | A given SCSS or CSS directory that does not exist aborts, naming it. A missing counterpart is the first of `dir/../x` and `dir/x` that exists, else the run aborts. Both resulting directories exist. The reference directory is the CSS directory when one was given |
| SassSetup.ThemeDirs | gulp/gulpfile.js:218-249 | A bad Drupal root aborts, and so does a missing theme name. Otherwise the result is Ok exactly when one of the six theme candidates exists. The directories are then `scss`/`css` inside the first such candidate; if none exists, the run aborts with NoThemeDir |
| SassSetup.ResolveDirs | gulp/gulpfile.js:169-253 | The run aborts for insufficient arguments exactly when the SCSS directory, the CSS directory, the Drupal root and the theme are all empty. A given SCSS or CSS directory decides the result through the explicit rules, and the Drupal arguments are then ignored. Otherwise the theme rules decide it |
| SassSetup.LocateDirs | gulp/gulpfile.js:167-253 | The step-by-step directory resolution with early aborts and candidate loops yields exactly `ResolveDirs` |
| SassSetup.FindOptionalDirs | gulp/gulpfile.js:257-280 | The template, theme image and assets directories are each "" or an existing directory at the conventional place. Template files are set only for a found template directory. The assets directory is the first existing candidate |
| SassSetup.LocateOptionalDirs | gulp/gulpfile.js:257-280 | The probes for the template, theme image and assets directories, run in turn, give exactly `FindOptionalDirs` |
| SassSetup.ScssFileNames | gulp/gulpfile.js:282 | No option means `style.scss`. Otherwise the names are comma-free pieces that join back with commas to the option |
| SassSetup.ResolveFiles | gulp/gulpfile.js:282-291 | The run continues exactly when every named source file is a regular file in the source directory. The paths are those joins, in order. Otherwise it aborts, naming the first path that is not a file |
| SassSetup.CollectFiles | gulp/gulpfile.js:282-291 | The push loop over the source files gives the names and the paths of `ResolveFiles`, or its abort |
| SassSetup.ResolveStyle | gulp/gulpfile.js:293-297 | The resolved style is always one of the four styles. An empty style is `expanded` for development and `compressed` otherwise. A given style is accepted exactly when its lower case is one of the four, and an abort names the given style |
| SassSetup.StyleIgnoresCase | gulp/gulpfile.js:293-297 | A style and its lower-case spelling are accepted or refused together and give the same style |
| SassSetup.SassSpec | gulp/gulpfile.js:152-298 | A directory failure aborts the whole constructor with its reason. Once the directories resolve, a missing source file aborts with that file's reason. Once the files resolve too, the constructor succeeds exactly when the style is accepted, and otherwise aborts with `InvalidStyle` naming the given style. In a built configuration every source path is an existing file in the source directory and the CSS glob is `cssdir/*.css`. The style is the resolved style, and the source map is on when asked for or in development. The template, theme image and assets directories and the template files are those probed from the reference directory |
| SassSetup.NewSass | gulp/gulpfile.js:152-298 | The constructor run phase by phase is exactly `SassSpec` |
| SassSetup.ScssDirOnly | gulp/gulpfile.js:169-298 | The case where only the source directory is given and a sibling `css` directory and `style.scss` exist. A development build then compiles that file into the sibling, expanded, with source maps |
| SassSetup.CustomTheme | gulp/gulpfile.js:218-249 | A theme found only under `themes/custom` of the default Drupal root gives `scss` and `css` inside that directory |
| Format.FitLength | gulp/gulpfile.js:510-522 | The result has exactly the target length. A longer text is cut to its prefix. A shorter text stays whole at its end, on the left when padding right and on the right when padding left |
| Format.FitLengthPadsRight | gulp/gulpfile.js:510-522 | Right padding repeats the pad string from its first character |
| Format.FitLengthPadsLeft | gulp/gulpfile.js:510-522 | Left padding is cut from the end of the repetition, so it ends with the pad string's last character |
| Format.LogPrefix | gulp/gulpfile.js:81-84 | A non-empty prefix becomes eight characters: its upper case, blank-padded on the right or cut to eight |
| Format.TwoDigits | gulp/gulpfile.js:423-428 | A clock field is always two characters |
| Format.TwoDigitsBelowHundred | gulp/gulpfile.js:423-428 | A number below 100 is shown as its tens digit and its units digit, with a leading zero below ten |
| Format.FormatTime | gulp/gulpfile.js:423-428 | The clock is eight characters with colons at positions 2 and 5, and the three fields in between |
| Beautify.BeautifyText | gulp/gulpfile.js:720-764 | The loop's output is the opening codes in option order, then the text, then the closing codes in reverse option order |
| Beautify.OpensAppend | gulp/gulpfile.js:755-763 | The opening codes of `a + b` are those of `a` followed by those of `b` |
| Beautify.ClosesAppend | gulp/gulpfile.js:755-763 | The closing codes of `a + b` are those of `b` followed by those of `a` |
| Beautify.BeautifyNests | gulp/gulpfile.js:755-763 | Beautifying with `a + b` equals beautifying with `b` and wrapping the result with the codes of `a` |
| Beautify.UnrecognisedIgnored | gulp/gulpfile.js:756-762 | Options whose lower case names no attribute contribute nothing |
| Beautify.ResetClosesWithUndefined | gulp/gulpfile.js:722-763 | As written, `reset` opens with SGR 0 and closes with the literal text `undefined` |
| Beautify.BoldCodes | gulp/gulpfile.js:722-763 | `Bold`, in any case, opens with SGR 1 and closes with SGR 21 |
| Beautify.IntendedCloseCode | gulp/gulpfile.js:760 | Corrected closing code: non-empty only when the option's `end_` entry exists, and then that entry |
| Beautify.IntendedCloseCodeAgrees | gulp/gulpfile.js:760 | The corrected closing code agrees with the written one wherever that is not `undefined` |
| Beautify.IntendedResetCloses | gulp/gulpfile.js:760 | Where the written code closes `reset` with `undefined`, the corrected one closes it with nothing |
| Items.KeptMeaning | gulp/gulpfile.js:383-386 | A delimiter-free string contributes nothing exactly when it is all white space. Otherwise it contributes one item: non-empty, trimmed, and equal to the string with only white space removed before and after it |
| Items.KeptUpToClean | gulp/gulpfile.js:375-386 | Every item kept from the pieces of a split is trimmed and non-empty |
| Items.PiecesClean | gulp/gulpfile.js:374-388 | Every item `add` appends, from a string or from nested arrays, is trimmed and non-empty |
| Items.PiecesUpToClean | gulp/gulpfile.js:379-382 | Every item the elements of an array contribute is trimmed and non-empty |
| Items.ListPiecesAppend | gulp/gulpfile.js:379-382 | The items of an array are the items of its parts, left to right |
| Items.PiecesOfJoin | gulp/gulpfile.js:375-378 | Adding a delimiter-joined list of names adds the kept names: the split undoes the join |
| Items.ItemArray.constructor | gulp/gulpfile.js:368-373 | A new list holds exactly the items of its argument, all trimmed and non-empty |
| Items.ItemArray.Add | gulp/gulpfile.js:374-388 | `add` appends the argument's items after the existing ones, which keep their positions; the list stays trimmed and non-empty |
| Items.ItemArray.AddAll | gulp/gulpfile.js:379-382 | The array loop appends each element's items in turn |
| Items.ItemArray.AddParts | gulp/gulpfile.js:375-382 | A split string's pieces are added in turn |
| Items.ItemArray.AddOne | gulp/gulpfile.js:383-386 | A string without the delimiter is trimmed and pushed unless empty |
| Items.ItemArray.Remove | gulp/gulpfile.js:389-406 | As written, `remove` leaves the list unchanged |
| Items.ItemArray.RemoveOne | gulp/gulpfile.js:398-404 | The scan and splice loop, with the comparison as written, splices nothing |
| Items.AddKeepsDuplicates | gulp/gulpfile.js:374-388 | A name given twice, as in `img,img`, is stored twice |
| Items.RemoveAll | gulp/gulpfile.js:399-402 | Corrected removal: no copy of the item remains, everything else does, and a duplicate-free list stays so |
| Items.IntendedAdd | gulp/gulpfile.js:383-386 | Corrected `add`: a duplicate-free list stays duplicate-free. It holds exactly the old items and the new ones, and the last item added comes last |
| Items.ImageDirs | gulp/gulpfile.js:459-466 | The image directories are the trimmed, non-empty items of the `imagemin` option, then the joined theme image and assets directories |
| Items.CollectImageDirs | gulp/gulpfile.js:459-466 | A new list built from the `imagemin` option, with the two joined directories added once the configuration exists, holds exactly `ImageDirs` |
| Items.ImageminDirs | gulp/gulpfile.js:457-471 | The directory list is `ImageDirs`, and each glob is its directory joined with `*`, in the same order |
| Items.ImageDirsAddCurrentDir | gulp/gulpfile.js:461-466 | With no theme image and no assets directory the list still gains `.` twice |
| Items.IntendedImageDirs | gulp/gulpfile.js:461-466 | Corrected list: only trimmed, non-empty directories |
| Items.IntendedImageDirsSplit | gulp/gulpfile.js:461-466 | Corrected list: the `imagemin` items, then the items of the theme image directory, then those of the assets directory, each taken on its own |
| Items.IntendedImageDirsEach | gulp/gulpfile.js:461-466 | Corrected list, directory by directory. A directory that was not found ("") adds nothing, so with one missing only the other is added. A found directory that is a trimmed path without a comma adds exactly itself |
| Items.IntendedImageDirsAgree | gulp/gulpfile.js:461-466 | The corrected list equals the written one when both optional directories were found, and adds nothing when neither was |
| Items.WatchItems | gulp/gulpfile.js:525-528 | The watch list is the trimmed, non-empty items of the `livereload` option, then the CSS and template globs |
| Items.LivereloadFiles | gulp/gulpfile.js:524-541 | The watched files are the watch list with every backslash replaced by a forward slash, position by position. None is empty or holds a backslash, and an empty list watches nothing |
| Uglify.UglifyFileName | gulp/gulpfile.js:626-627 | As written, the output name is always the given name followed by `.min.js` |
| Uglify.UglifyFileNameNeverKeeps | gulp/gulpfile.js:626-631 | As written, no name is kept: a `.js` name becomes `.js.min.js`, and the empty name becomes `.min.js`, so "Not provided" is never logged |
| Uglify.IntendedUglifyFileName | gulp/gulpfile.js:626-627 | Corrected name: the empty name stays empty and a `.js` name is kept. Any other name gains `.min.js`, so every non-empty result ends in `.js` and starts with the given name |

## Left out

- Gulp streams and watchers are left out: `preprocess`, `watch`, `clean`, the `_imagemin` pipelines, the `_uglifyjs` pipelines and `pkgGulp.watch`. They only hand paths to libraries that are not part of this model.
- Logging is left out: `Log` output, colours, beeps, separators and notifications. Only the prefix and the clock format are modelled.
- The clock is left out. `FormatTime` takes the hour, minute and second as parameters.
- Command-line parsing (`yargs`) is left out. Options arrive as the record `SassArgs` or as plain strings, with the documented defaults ("" and false).
- The singletons `_sassSingleton` and `_imageminSingleton` are not modelled as caches. A `Sass` configuration that may or may not exist is an `Option`.
- Node's `path.join` is not modelled in full: it does not resolve `..`, collapse separators or use Windows separators. Paths are compared as strings.
- `_isValidPath` treats permissions, links and statting errors only as "not a key of the file-system map". Its case-insensitive `type` argument is fixed to `Dir` or `File`.
- `toLowerCase` maps only A-Z and the Kelvin sign, and `toUpperCase` only a-z. The other Unicode case mappings are not modelled.
- `ItemArray` accepts only a single-character delimiter. That is the only one the script uses.
- `ItemArray`'s `verbose` argument is left out. It is unused.
- `beautifyText` takes a list of options. Its wrapping of a single non-array option is not modelled.
- Property names inherited from `Object.prototype` are not in the attribute table. In JavaScript, an option such as `constructor` would find one.
- `_uglifyjs` is modelled only through its output file name. Its source and destination defaults are not modelled.
- Format.FitLength: lengths and `substr` count Unicode code points, while JavaScript counts UTF-16 code units. A text outside the Basic Multilingual Plane would be cut or padded differently. The same holds for `Format.LogPrefix`.
- Format.FitLength: requires a non-empty pad string whenever padding is needed. In JavaScript, `''.repeat(Infinity)` throws a RangeError at gulp/gulpfile.js:515. No call site reaches it, because the callers pass `' '` or `'0'`.
- Format.TwoDigits: numbers of 100 or more are cut to their first two digits; no clock field reaches that.

## Findings

| source | as written | input that shows it | evidently intended | confidence | as-written member | corrected member |
|---|---|---|---|---|---|---|
| gulp/gulpfile.js:400 | `items.trim === this.items[idx]` compares the `trim` function with a string, so `remove` never removes and `add` never deduplicates | `new ItemArray('img,img')` holds `img` twice | compare the trimmed string, `items === this.items[idx]`, so each item is stored once | not executed | Items.AddKeepsDuplicates | Items.IntendedAdd |
| gulp/gulpfile.js:461-466 | `pkgPath.join(themeimagedir)` and `pkgPath.join(assetsdir)` turn a missing ("") directory into `.` | a theme without `images` and `assets` directories makes imagemin process and overwrite `./*` | skip directories that were not found | not executed | Items.ImageDirsAddCurrentDir | Items.IntendedImageDirs |
| gulp/gulpfile.js:626-627 | `uglifyjsf === '' && uglifyjsf.endsWith('.js')` can never hold, so `.min.js` is always appended | `-w app.js` writes `app.js.min.js`; no `-w` logs `.min.js` instead of "Not provided" | `uglifyjsf === '' \|\| uglifyjsf.endsWith('.js')` | not executed | Uglify.UglifyFileNameNeverKeeps | Uglify.IntendedUglifyFileName |
| gulp/gulpfile.js:760 | `textAttributes['end_' + option]` is `undefined` for `reset`, and concatenation writes the text `undefined` | `beautifyText('x', ['reset'])` ends with `xundefined` | add nothing when there is no `end_` entry | not executed | Beautify.ResetClosesWithUndefined | Beautify.IntendedCloseCode |
