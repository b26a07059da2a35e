/** Models of the JavaScript String built-ins the build script relies on:
    trim, toLowerCase, toUpperCase, split, repeat, substr, endsWith and
    replace(/\\/g, '/'), plus the decimal rendering of a number by toString. */
module JsStrings {

  /** A value, or JavaScript's `undefined`. */
  datatype Option<T> = None | Some(value: T)

  /** Concatenation is associative. */
  lemma ConcatAssoc<T>(x: seq<T>, y: seq<T>, z: seq<T>)
    ensures (x + y) + z == x + (y + z)
  {
  }

  /** White space as String.prototype.trim strips it: the WhiteSpace and
      LineTerminator code points of ECMAScript (TAB, VT, FF, SP, NBSP, BOM,
      every other space separator, LF, CR, LS and PS). */
  predicate IsJsSpace(c: char) {
    || c == '\t' || c == '\n' || c == '\U{B}' || c == '\U{C}' || c == '\r'
    || c == ' ' || c == '\U{A0}' || c == '\U{1680}'
    || ('\U{2000}' <= c <= '\U{200A}')
    || c == '\U{2028}' || c == '\U{2029}' || c == '\U{202F}' || c == '\U{205F}'
    || c == '\U{3000}' || c == '\U{FEFF}'
  }

  /** Neither end of `s` is white space. */
  predicate IsTrimmed(s: string) {
    s == [] || (!IsJsSpace(s[0]) && !IsJsSpace(s[|s| - 1]))
  }

  /** The index of the first character at or after `i` that is not white
      space, or `|s|`. */
  function TrimStartIndex(s: string, i: nat): (k: nat)
    requires i <= |s|
    ensures i <= k <= |s|
    ensures k < |s| ==> !IsJsSpace(s[k])
    decreases |s| - i
  {
    if i < |s| && IsJsSpace(s[i]) then TrimStartIndex(s, i + 1) else i
  }

  /** The end of `s[lo..j]` once its trailing white space is dropped. */
  function TrimEndIndex(s: string, lo: nat, j: nat): (k: nat)
    requires lo <= j <= |s|
    ensures lo <= k <= j
    ensures k > lo ==> !IsJsSpace(s[k - 1])
  {
    if j > lo && IsJsSpace(s[j - 1]) then TrimEndIndex(s, lo, j - 1) else j
  }

  /** String.prototype.trim: the slice of `s` between its leading and its
      trailing white space. */
  function Trim(s: string): (r: string)
    ensures IsTrimmed(r) && |r| <= |s|
  {
    var k := TrimStartIndex(s, 0);
    s[k..TrimEndIndex(s, k, |s|)]
  }

  /** Everything `TrimStartIndex` skips is white space. */
  lemma {:induction false} TrimStartSkipsSpace(s: string, i: nat)
    requires i <= |s|
    ensures forall m :: i <= m < TrimStartIndex(s, i) ==> IsJsSpace(s[m])
    decreases |s| - i
  {
    if i < |s| && IsJsSpace(s[i]) {
      TrimStartSkipsSpace(s, i + 1);
    }
  }

  /** Everything `TrimEndIndex` drops is white space. */
  lemma {:induction false} TrimEndSkipsSpace(s: string, lo: nat, j: nat)
    requires lo <= j <= |s|
    ensures forall m :: TrimEndIndex(s, lo, j) <= m < j ==> IsJsSpace(s[m])
  {
    if j > lo && IsJsSpace(s[j - 1]) {
      TrimEndSkipsSpace(s, lo, j - 1);
    }
  }

  /** What trim removes from either end of `s` is all white space, and what
      it keeps is the slice in between. */
  lemma TrimIsSlice(s: string)
    ensures var k := TrimStartIndex(s, 0);
      && k + |Trim(s)| <= |s|
      && Trim(s) == s[k..k + |Trim(s)|]
      && (forall m :: 0 <= m < k ==> IsJsSpace(s[m]))
      && (forall m :: k + |Trim(s)| <= m < |s| ==> IsJsSpace(s[m]))
  {
    var k := TrimStartIndex(s, 0);
    TrimStartSkipsSpace(s, 0);
    TrimEndSkipsSpace(s, k, |s|);
    assert Trim(s) == s[k..k + |Trim(s)|];
  }

  /** A trimmed string is its own trim, so trimming twice is trimming once. */
  lemma TrimOfTrimmed(s: string)
    requires IsTrimmed(s)
    ensures Trim(s) == s
  {
    if s != [] {
      assert TrimStartIndex(s, 0) == 0;
      assert TrimEndIndex(s, 0, |s|) == |s|;
    }
  }

  /** String.prototype.toLowerCase, for the code points whose lower case is
      plain ASCII: the letters A-Z and the Kelvin sign. */
  function LowerChar(c: char): char {
    if 'A' <= c <= 'Z' then (c as int + 32) as char
    else if c == '\U{212A}' then 'k'
    else c
  }

  function Lower(s: string): (r: string)
    ensures |r| == |s|
    ensures forall i :: 0 <= i < |s| ==> r[i] == LowerChar(s[i])
  {
    if s == [] then [] else [LowerChar(s[0])] + Lower(s[1..])
  }

  /** Lower-casing is idempotent. */
  lemma LowerIdempotent(s: string)
    ensures Lower(Lower(s)) == Lower(s)
  {
  }

  /** String.prototype.toUpperCase on the ASCII letters a-z. */
  function UpperChar(c: char): char {
    if 'a' <= c <= 'z' then (c as int - 32) as char else c
  }

  function Upper(s: string): (r: string)
    ensures |r| == |s|
    ensures forall i :: 0 <= i < |s| ==> r[i] == UpperChar(s[i])
  {
    if s == [] then [] else [UpperChar(s[0])] + Upper(s[1..])
  }

  /** String.prototype.split with a one-character separator: at least one
      piece, and no piece contains the separator. */
  function Split(s: string, d: char): (parts: seq<string>)
    ensures |parts| >= 1
    ensures forall i :: 0 <= i < |parts| ==> d !in parts[i]
  {
    if s == [] then [[]]
    else
      var rest := Split(s[1..], d);
      if s[0] == d then [[]] + rest else [[s[0]] + rest[0]] + rest[1..]
  }

  /** Array.prototype.join with a one-character separator. */
  function JoinWith(parts: seq<string>, d: char): string {
    if parts == [] then []
    else if |parts| == 1 then parts[0]
    else parts[0] + [d] + JoinWith(parts[1..], d)
  }

  /** Joining the pieces of a split gives back the string that was split. */
  lemma {:induction false} JoinSplit(s: string, d: char)
    ensures JoinWith(Split(s, d), d) == s
  {
    if s != [] {
      var rest := Split(s[1..], d);
      JoinSplit(s[1..], d);
      if s[0] == d {
        assert Split(s, d) == [[]] + rest;
        assert JoinWith([[]] + rest, d) == [] + [d] + JoinWith(rest, d);
      } else {
        var parts := Split(s, d);
        assert parts == [[s[0]] + rest[0]] + rest[1..];
        if |rest| == 1 {
          assert JoinWith(parts, d) == [s[0]] + rest[0];
        } else {
          assert parts[1..] == rest[1..];
          assert JoinWith(rest, d) == rest[0] + [d] + JoinWith(rest[1..], d);
          assert JoinWith(parts, d) == [s[0]] + rest[0] + [d] + JoinWith(rest[1..], d);
        }
      }
    }
  }

  /** Splitting a join of separator-free pieces gives back the pieces. */
  lemma {:induction false} SplitJoin(parts: seq<string>, d: char)
    requires |parts| >= 1
    requires forall i :: 0 <= i < |parts| ==> d !in parts[i]
    ensures Split(JoinWith(parts, d), d) == parts
  {
    if |parts| == 1 {
      SplitFree(parts[0], d);
    } else {
      SplitJoin(parts[1..], d);
      SplitPrefix(parts[0], JoinWith(parts[1..], d), d);
      assert [parts[0]] + parts[1..] == parts;
    }
  }

  /** A string without the separator splits into itself. */
  lemma {:induction false} SplitFree(s: string, d: char)
    requires d !in s
    ensures Split(s, d) == [s]
  {
    if s != [] {
      SplitFree(s[1..], d);
      assert [s[0]] + s[1..] == s;
    }
  }

  /** Splitting `p + [d] + t`, where `p` has no separator, yields `p` followed
      by the pieces of `t`. */
  lemma {:induction false} SplitPrefix(p: string, t: string, d: char)
    requires d !in p
    ensures Split(p + [d] + t, d) == [p] + Split(t, d)
  {
    if p == [] {
      assert [d] + t == p + [d] + t;
      assert ([d] + t)[1..] == t;
    } else {
      SplitPrefix(p[1..], t, d);
      assert (p + [d] + t)[1..] == p[1..] + [d] + t;
      assert [p[0]] + p[1..] == p;
    }
  }

  /** String.prototype.repeat. */
  function Repeat(s: string, n: nat): (r: string)
    ensures |r| == n * |s|
  {
    if n == 0 then [] else s + Repeat(s, n - 1)
  }

  /** Position `j` of a repetition holds character `j % |s|` of `s`. */
  lemma {:induction false} RepeatAt(s: string, n: nat, j: nat)
    requires j < n * |s|
    ensures Repeat(s, n)[j] == s[j % |s|]
  {
    var m := |s|;
    if j < m {
      ModUnique(j, m, 0, j);
    } else {
      assert n != 0;
      assert (n - 1) * m == n * m - m;
      RepeatAt(s, n - 1, j - m);
      assert Repeat(s, n)[j] == Repeat(s, n - 1)[j - m];
      ModShift(j - m, m);
    }
  }

  lemma MulAtLeast(m: nat, k: int)
    requires m > 0 && k >= 1
    ensures m * k >= m
  {
  }

  /** Euclidean remainder is determined by any quotient-remainder split. */
  lemma ModUnique(a: int, m: nat, q: int, r: int)
    requires m > 0 && 0 <= r < m && a == m * q + r
    ensures a % m == r
  {
    var q', r' := a / m, a % m;
    assert a == m * q' + r';
    assert m * (q - q') == r' - r;
    if q - q' >= 1 {
      MulAtLeast(m, q - q');
    } else if q' - q >= 1 {
      MulAtLeast(m, q' - q);
    }
  }

  lemma ModShift(x: nat, m: nat)
    requires m > 0
    ensures (x + m) % m == x % m
  {
    var q, r := x / m, x % m;
    assert x == m * q + r;
    assert x + m == m * (q + 1) + r;
    ModUnique(x + m, m, q + 1, r);
  }

  /** String.prototype.substr for a non-negative start: at most `len`
      characters from `start` on; nothing when `len` is not positive. */
  function Substr(s: string, start: nat, len: int): (r: string)
    ensures len <= 0 ==> r == []
    ensures start + len <= |s| && len >= 0 ==> r == s[start..start + len]
  {
    if len <= 0 || start >= |s| then []
    else if start + len <= |s| then s[start..start + len]
    else s[start..]
  }

  /** String.prototype.endsWith. */
  predicate EndsWith(s: string, suffix: string) {
    |suffix| <= |s| && s[|s| - |suffix|..] == suffix
  }

  /** replace(/\\/g, '/'): every backslash becomes a forward slash. */
  function ForwardSlashes(s: string): (r: string)
    ensures |r| == |s|
    ensures forall i :: 0 <= i < |s| ==> r[i] == (if s[i] == '\\' then '/' else s[i])
    ensures '\\' !in r
  {
    if s == [] then [] else [if s[0] == '\\' then '/' else s[0]] + ForwardSlashes(s[1..])
  }

  /** Number.prototype.toString for a natural number, in decimal. */
  function DigitChar(d: nat): char
    requires d < 10
  {
    ('0' as int + d) as char
  }

  function DecimalString(n: nat): (r: string)
    ensures n < 10 ==> r == [DigitChar(n)]
    ensures 10 <= n < 100 ==> r == [DigitChar(n / 10), DigitChar(n % 10)]
    ensures |r| >= 1
  {
    if n < 10 then [DigitChar(n)] else DecimalString(n / 10) + [DigitChar(n % 10)]
  }
}
