/** The output file name rule of `_uglifyjs` (gulp/gulpfile.js lines
    626-627): the name under which the concatenated, minified scripts are
    written. */
module Uglify {
  import opened JsStrings

  /** The output file name as written (lines 626-627): the file is kept
      only when it is empty and also ends in `.js`, which no string does, so
      `.min.js` is always appended. */
  function UglifyFileName(f: string): (r: string)
    ensures r == f + ".min.js"
  {
    if f == "" && EndsWith(f, ".js") then f else f + ".min.js"
  }

  /** As written, a name already ending in `.js` still gets `.min.js`
      appended, and an empty name becomes `.min.js`, so the log line
      "Not provided" (line 631) is never reached. */
  lemma UglifyFileNameNeverKeeps(f: string)
    ensures UglifyFileName(f) != f
    ensures UglifyFileName(f) != ""
    ensures EndsWith(f, ".js") ==> EndsWith(UglifyFileName(f), ".js.min.js")
  {
    var r := UglifyFileName(f);
    assert |r| == |f| + 7;
    if EndsWith(f, ".js") {
      assert r[|r| - 10..] == f[|f| - 3..] + ".min.js";
    }
  }

  /** The output file name evidently intended: no name stays no name, a name
      ending in `.js` is kept, any other name gets `.min.js`. */
  function IntendedUglifyFileName(f: string): (r: string)
    ensures f == "" ==> r == ""
    ensures f != "" ==> EndsWith(r, ".js") && |f| <= |r| && r[..|f|] == f
    ensures EndsWith(f, ".js") ==> r == f
    ensures f != "" && !EndsWith(f, ".js") ==> r == f + ".min.js"
  {
    if f == "" || EndsWith(f, ".js") then f
    else
      var r := f + ".min.js";
      assert r[|r| - 3..] == ".js";
      r
  }
}
