/**
 * The JavaScript string built-ins the catalogue script relies on:
 * `split` on a one-character separator, `trim`, `toUpperCase`,
 * `toLowerCase` and `includes`.  Strings are sequences of characters;
 * the case maps are ASCII-only.
 */
module JsText {

  // ---------------------------------------------------------------------
  // split / join
  // ---------------------------------------------------------------------

  /** `s.split(sep)` for a one-character separator: the pieces between
      separators, in order; never empty (`"".split(",")` is `[""]`). */
  function Split(s: string, sep: char): (parts: seq<string>)
    ensures |parts| >= 1
    ensures forall i | 0 <= i < |parts| :: sep !in parts[i]
  {
    if |s| == 0 then [""]
    else
      var rest := Split(s[1..], sep);
      if s[0] == sep then [""] + rest
      else [[s[0]] + rest[0]] + rest[1..]
  }

  /** `parts.join(sep)`, the inverse of Split. */
  function Join(parts: seq<string>, sep: char): string
    requires |parts| >= 1
  {
    if |parts| == 1 then parts[0]
    else parts[0] + [sep] + Join(parts[1..], sep)
  }

  /** Joining the pieces back with the separator restores the text. */
  lemma {:induction false} JoinSplit(s: string, sep: char)
    ensures Join(Split(s, sep), sep) == s
  {
    if |s| > 0 {
      JoinSplit(s[1..], sep);
      var rest := Split(s[1..], sep);
      if s[0] != sep {
        if |rest| == 1 {
          assert Split(s, sep) == [[s[0]] + rest[0]];
        } else {
          assert Split(s, sep)[1..] == rest[1..];
        }
      } else {
        assert Split(s, sep)[1..] == rest;
      }
    }
  }

  /** Splitting a join of separator-free pieces gives the pieces back. */
  lemma {:induction false} SplitJoin(parts: seq<string>, sep: char)
    requires |parts| >= 1
    requires forall i | 0 <= i < |parts| :: sep !in parts[i]
    ensures Split(Join(parts, sep), sep) == parts
  {
    if |parts| == 1 {
      SplitNoSep(parts[0], sep);
    } else {
      var tail := Join(parts[1..], sep);
      SplitJoin(parts[1..], sep);
      SplitPrefix(parts[0], [sep] + tail, sep);
      assert parts[0] + [sep] + tail == parts[0] + ([sep] + tail);
      assert ([sep] + tail)[1..] == tail;
      var t := Split([sep] + tail, sep);
      assert t == [""] + parts[1..];
      assert Split(Join(parts, sep), sep) == [parts[0] + ""] + parts[1..];
      assert parts[0] + "" == parts[0];
    }
  }

  /** A separator-free text is a single piece. */
  lemma {:induction false} SplitNoSep(s: string, sep: char)
    requires sep !in s
    ensures Split(s, sep) == [s]
  {
    if |s| > 0 {
      assert sep !in s[1..];
      SplitNoSep(s[1..], sep);
      assert [s[0]] + s[1..] == s;
    }
  }

  /** A separator-free prefix glues onto the first piece of what follows it. */
  lemma {:induction false} SplitPrefix(a: string, b: string, sep: char)
    requires sep !in a
    ensures var t := Split(b, sep); Split(a + b, sep) == [a + t[0]] + t[1..]
  {
    if |a| > 0 {
      assert sep !in a[1..];
      SplitPrefix(a[1..], b, sep);
      var t := Split(b, sep);
      assert (a + b)[0] == a[0] && (a + b)[1..] == a[1..] + b;
      var rest := Split(a[1..] + b, sep);
      assert rest == [a[1..] + t[0]] + t[1..];
      assert Split(a + b, sep) == [[a[0]] + rest[0]] + rest[1..];
      assert [a[0]] + (a[1..] + t[0]) == a + t[0];
      assert rest[1..] == t[1..];
    } else {
      var t := Split(b, sep);
      assert a == [] && a + b == b && a + t[0] == t[0];
      assert [t[0]] + t[1..] == t;
    }
  }

  /** A text that ends with the separator has one extra, empty, last piece. */
  lemma {:induction false} SplitTrailingSep(s: string, sep: char)
    ensures Split(s + [sep], sep) == Split(s, sep) + [""]
  {
    if |s| == 0 {
      assert [sep][1..] == [];
    } else {
      SplitTrailingSep(s[1..], sep);
      assert (s + [sep])[1..] == s[1..] + [sep];
    }
  }

  // ---------------------------------------------------------------------
  // trim
  // ---------------------------------------------------------------------

  /** The WhiteSpace and LineTerminator code points of ECMAScript, which
      `trim` and `parseFloat` skip. */
  predicate IsJsSpace(c: char) {
    c == ' ' || c == '\t' || c == '\n' || c == '\r' || c == '\U{B}' || c == '\U{C}'
    || c == '\U{A0}' || c == '\U{1680}' || ('\U{2000}' <= c <= '\U{200A}')
    || c == '\U{2028}' || c == '\U{2029}' || c == '\U{202F}' || c == '\U{205F}'
    || c == '\U{3000}' || c == '\U{FEFF}'
  }

  /** `s.trimStart()`: `s` without its leading white space. */
  function TrimStart(s: string): (r: string)
    ensures |r| <= |s|
  {
    if |s| > 0 && IsJsSpace(s[0]) then TrimStart(s[1..]) else s
  }

  /** `s.trimEnd()`: `s` without its trailing white space. */
  function TrimEnd(s: string): (r: string)
    ensures |r| <= |s|
  {
    if |s| > 0 && IsJsSpace(s[|s| - 1]) then TrimEnd(s[..|s| - 1]) else s
  }

  /** `s.trim()`. */
  function Trim(s: string): (r: string)
    ensures |r| <= |s|
  {
    TrimEnd(TrimStart(s))
  }

  /** `sub` occurs in `s` starting at position `k`. */
  predicate SliceAt(s: string, sub: string, k: int) {
    0 <= k <= |s| - |sub| && s[k..k + |sub|] == sub
  }

  /** `r` is the slice of `s` left when only white space is cut from the
      two ends of `s`. */
  ghost predicate SpaceCut(s: string, r: string) {
    exists k ::
      && SliceAt(s, r, k)
      && (forall i | 0 <= i < k :: IsJsSpace(s[i]))
      && (forall i | k + |r| <= i < |s| :: IsJsSpace(s[i]))
  }

  /** trimStart removes a run of white space from the front and stops at
      the first other character. */
  lemma {:induction false} TrimStartSpec(s: string)
    ensures var r := TrimStart(s);
      && r == s[|s| - |r|..]
      && (forall i | 0 <= i < |s| - |r| :: IsJsSpace(s[i]))
      && (r == [] || !IsJsSpace(r[0]))
  {
    if |s| > 0 && IsJsSpace(s[0]) {
      TrimStartSpec(s[1..]);
    }
  }

  /** trimEnd removes a run of white space from the back and stops at the
      last other character. */
  lemma {:induction false} TrimEndSpec(s: string)
    ensures var r := TrimEnd(s);
      && r == s[..|r|]
      && (forall i | |r| <= i < |s| :: IsJsSpace(s[i]))
      && (r == [] || !IsJsSpace(r[|r| - 1]))
  {
    if |s| > 0 && IsJsSpace(s[|s| - 1]) {
      TrimEndSpec(s[..|s| - 1]);
    }
  }

  /** trim keeps one contiguous piece of `s`, cutting only white space
      around it, and the piece neither starts nor ends with white space. */
  lemma TrimSpec(s: string)
    ensures var r := Trim(s);
      && (r == [] || (!IsJsSpace(r[0]) && !IsJsSpace(r[|r| - 1])))
      && exists k :: SliceAt(s, r, k)
             && (forall i | 0 <= i < k :: IsJsSpace(s[i]))
             && (forall i | k + |r| <= i < |s| :: IsJsSpace(s[i]))
  {
    var t := TrimStart(s);
    var r := TrimEnd(t);
    TrimStartSpec(s);
    TrimEndSpec(t);
    var k := |s| - |t|;
    assert SliceAt(s, r, k);
    forall i | k + |r| <= i < |s| ensures IsJsSpace(s[i]) {
      assert s[i] == t[i - k];
    }
  }

  /** Trimming a trimmed text changes nothing. */
  lemma TrimIdempotent(s: string)
    ensures Trim(Trim(s)) == Trim(s)
  {
    var r := Trim(s);
    TrimSpec(s);
    if r != [] {
      assert TrimStart(r) == r;
      assert TrimEnd(r) == r;
    }
  }

  // ---------------------------------------------------------------------
  // case maps
  // ---------------------------------------------------------------------

  function UpperChar(c: char): char {
    if 'a' <= c <= 'z' then (c as int - 32) as char else c
  }

  function LowerChar(c: char): char {
    if 'A' <= c <= 'Z' then (c as int + 32) as char else c
  }

  /** `s.toUpperCase()`, on the ASCII letters: no lower-case letter is
      left, each one becomes the capital that lower-cases back to it, and
      every other character is kept. */
  function ToUpper(s: string): (r: string)
    ensures |r| == |s|
    ensures forall i | 0 <= i < |r| :: !('a' <= r[i] <= 'z')
    ensures forall i | 0 <= i < |s| :: if 'a' <= s[i] <= 'z' then LowerChar(r[i]) == s[i] else r[i] == s[i]
  {
    seq(|s|, i requires 0 <= i < |s| => UpperChar(s[i]))
  }

  /** `s.toLowerCase()`, on the ASCII letters: no capital is left, each
      one becomes the letter that upper-cases back to it, and every other
      character is kept. */
  function ToLower(s: string): (r: string)
    ensures |r| == |s|
    ensures forall i | 0 <= i < |r| :: !('A' <= r[i] <= 'Z')
    ensures forall i | 0 <= i < |s| :: if 'A' <= s[i] <= 'Z' then UpperChar(r[i]) == s[i] else r[i] == s[i]
  {
    seq(|s|, i requires 0 <= i < |s| => LowerChar(s[i]))
  }

  /** The visibility flag test `v.toUpperCase() === "TRUE"` accepts
      exactly the sixteen spellings of "true" in any mix of case. */
  lemma UpperIsTrue(v: string)
    ensures ToUpper(v) == "TRUE" <==>
      |v| == 4 && v[0] in "tT" && v[1] in "rR" && v[2] in "uU" && v[3] in "eE"
  {
    if ToUpper(v) == "TRUE" {
      assert UpperChar(v[0]) == 'T' && UpperChar(v[1]) == 'R';
      assert UpperChar(v[2]) == 'U' && UpperChar(v[3]) == 'E';
    }
  }

  /** Lower-casing forgets the case the text was typed in: an upper-cased
      text lower-cases to the same result as the original. */
  lemma {:induction false} LowerOfUpper(s: string)
    ensures ToLower(ToUpper(s)) == ToLower(s)
  {
    forall i | 0 <= i < |s| ensures ToLower(ToUpper(s))[i] == ToLower(s)[i] {
      assert ToUpper(s)[i] == UpperChar(s[i]);
    }
  }

  // ---------------------------------------------------------------------
  // includes
  // ---------------------------------------------------------------------

  /** `s.includes(sub)`: `sub` occurs in `s` at some position. */
  predicate Includes(s: string, sub: string) {
    exists k | 0 <= k <= |s| - |sub| :: SliceAt(s, sub, k)
  }

  /** `sub` is a prefix of `s`. */
  predicate StartsWith(s: string, sub: string) {
    |sub| <= |s| && s[..|sub|] == sub
  }

  /** A reference definition of `includes`: `sub` starts here or occurs in
      the rest of the text. */
  predicate Occurs(s: string, sub: string) {
    StartsWith(s, sub) || (|s| > 0 && Occurs(s[1..], sub))
  }

  /** `Includes` agrees with the position-by-position search, in both
      directions. */
  lemma IncludesOccurs(s: string, sub: string)
    ensures Includes(s, sub) <==> Occurs(s, sub)
  {
    if Includes(s, sub) {
      var k :| 0 <= k <= |s| - |sub| && SliceAt(s, sub, k);
      SliceOccurs(s, sub, k);
    }
    if Occurs(s, sub) {
      OccursSlice(s, sub);
    }
  }

  lemma {:induction false} SliceOccurs(s: string, sub: string, k: int)
    requires SliceAt(s, sub, k)
    ensures Occurs(s, sub)
  {
    if k > 0 {
      assert s[1..][k - 1..k - 1 + |sub|] == s[k..k + |sub|];
      SliceOccurs(s[1..], sub, k - 1);
    }
  }

  lemma {:induction false} OccursSlice(s: string, sub: string)
    requires Occurs(s, sub)
    ensures Includes(s, sub)
  {
    if StartsWith(s, sub) {
      assert SliceAt(s, sub, 0);
    } else {
      OccursSlice(s[1..], sub);
      var k :| 0 <= k <= |s| - 1 - |sub| && SliceAt(s[1..], sub, k);
      assert s[1..][k..k + |sub|] == s[k + 1..k + 1 + |sub|];
      assert SliceAt(s, sub, k + 1);
    }
  }

  /** Every text includes the empty text, so an empty search matches. */
  lemma IncludesEmpty(s: string)
    ensures Includes(s, "")
  {
    assert SliceAt(s, "", 0);
  }
}
