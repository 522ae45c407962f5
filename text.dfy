/**
 * The JavaScript string operations the parser, the CSV export and the slug rule rely on:
 * `trim`, `split`, `toUpperCase`/`toLowerCase` restricted to ASCII letters, and the regular
 * expression `/\s+/g` replaced by a single character.
 */
module Text {

  /**
   * The characters `trim` removes and `\s` matches: the WhiteSpace and LineTerminator code
   * points of ECMAScript (tab, line tabulation, form feed, space, no-break space, the
   * byte-order mark, the Unicode space separators, line feed, carriage return, and the line
   * and paragraph separators).
   */
  predicate IsSpace(c: char) {
    var n := c as int;
    (n <= 0x20 && CodeIn(n, AsciiSpaceCodes)) || (0xA0 <= n && CodeIn(n, WideSpaceCodes))
  }

  const AsciiSpaceCodes: seq<int> := [0x09, 0x0A, 0x0B, 0x0C, 0x0D, 0x20]

  const WideSpaceCodes: seq<int> := [0xA0, 0x1680, 0x2000, 0x2001, 0x2002, 0x2003, 0x2004, 0x2005,
    0x2006, 0x2007, 0x2008, 0x2009, 0x200A, 0x2028, 0x2029, 0x202F, 0x205F, 0x3000, 0xFEFF]

  /** `n` occurs in `codes`. */
  predicate CodeIn(n: int, codes: seq<int>) {
    codes != [] && (codes[0] == n || CodeIn(n, codes[1..]))
  }

  /** No character of `s` is a space. */
  predicate NoSpace(s: string) {
    forall i :: 0 <= i < |s| ==> !IsSpace(s[i])
  }

  /** The end of the run of spaces in `s` that starts at `i`. */
  function Leading(s: string, i: nat): (r: nat)
    requires i <= |s|
    ensures i <= r <= |s|
    ensures forall j :: i <= j < r ==> IsSpace(s[j])
    ensures r < |s| ==> !IsSpace(s[r])
    decreases |s| - i
  {
    if i < |s| && IsSpace(s[i]) then Leading(s, i + 1) else i
  }

  /** The start of the run of spaces in `s` that ends just before `j`. */
  function Trailing(s: string, j: nat): (r: nat)
    requires j <= |s|
    ensures r <= j
    ensures forall i :: r <= i < j ==> IsSpace(s[i])
    ensures r > 0 ==> !IsSpace(s[r - 1])
  {
    if j > 0 && IsSpace(s[j - 1]) then Trailing(s, j - 1) else j
  }

  /** `s` with its leading spaces removed (`trimStart`). */
  function TrimStart(s: string): (r: string)
    ensures |r| <= |s| && r == s[|s| - |r|..]
    ensures forall i :: 0 <= i < |s| - |r| ==> IsSpace(s[i])
    ensures r == [] || !IsSpace(r[0])
  {
    s[Leading(s, 0)..]
  }

  /** `s` with its trailing spaces removed (`trimEnd`). */
  function TrimEnd(s: string): (r: string)
    ensures |r| <= |s| && r == s[..|r|]
    ensures forall i :: |r| <= i < |s| ==> IsSpace(s[i])
    ensures r == [] || !IsSpace(r[|r| - 1])
  {
    s[..Trailing(s, |s|)]
  }

  /** `s.trim()`. */
  function Trim(s: string): string {
    TrimEnd(TrimStart(s))
  }

  /** A trimmed string neither starts nor ends with a space. */
  predicate IsTrimmed(s: string) {
    s == [] || (!IsSpace(s[0]) && !IsSpace(s[|s| - 1]))
  }

  /** The result of `trim` is a trimmed piece of its input, and only spaces were cut off. */
  lemma TrimSpec(s: string)
    ensures IsTrimmed(Trim(s))
    ensures var a := |s| - |TrimStart(s)|;
      && a + |Trim(s)| <= |s|
      && Trim(s) == s[a..a + |Trim(s)|]
      && (forall i :: 0 <= i < a ==> IsSpace(s[i]))
      && (forall i :: a + |Trim(s)| <= i < |s| ==> IsSpace(s[i]))
  {
    var t := TrimStart(s);
    TrimmedPiece(s, t, TrimEnd(t));
  }

  /**
   * The shape TrimSpec states, from the postconditions of `TrimStart` (giving `t`) and
   * `TrimEnd` (giving `u`) alone.
   */
  lemma TrimmedPiece(s: string, t: string, u: string)
    requires |t| <= |s| && t == s[|s| - |t|..]
    requires forall i :: 0 <= i < |s| - |t| ==> IsSpace(s[i])
    requires t == [] || !IsSpace(t[0])
    requires |u| <= |t| && u == t[..|u|]
    requires forall i :: |u| <= i < |t| ==> IsSpace(t[i])
    requires u == [] || !IsSpace(u[|u| - 1])
    ensures IsTrimmed(u)
    ensures var a := |s| - |t|;
      && a + |u| <= |s|
      && u == s[a..a + |u|]
      && (forall i :: 0 <= i < a ==> IsSpace(s[i]))
      && (forall i :: a + |u| <= i < |s| ==> IsSpace(s[i]))
  {
    var a := |s| - |t|;
    if u != [] {
      assert u[0] == t[0];
    }
    assert u == s[a..a + |u|];
    forall i | a + |u| <= i < |s| ensures IsSpace(s[i]) {
      assert s[i] == t[i - a];
    }
  }

  /** Trimming twice is trimming once. */
  lemma TrimIdempotent(s: string)
    ensures Trim(Trim(s)) == Trim(s)
  {
    TrimSpec(s);
  }

  /** A string without spaces is its own trim. */
  lemma TrimNoSpace(s: string)
    requires NoSpace(s)
    ensures Trim(s) == s
  {
  }

  /** Spaces before a string that does not start with one are all that `trimStart` removes. */
  lemma TrimStartPadded(spaces: string, w: string)
    requires forall i :: 0 <= i < |spaces| ==> IsSpace(spaces[i])
    requires w == [] || !IsSpace(w[0])
    ensures TrimStart(spaces + w) == w
  {
    var s := spaces + w;
    var r := TrimStart(s);
    var cut := |s| - |r|;
    if w != [] {
      assert s[|spaces|] == w[0];
    }
    if r != [] {
      assert s[cut] == r[0];
    }
    assert cut == |spaces|;
    assert s[|spaces|..] == w;
  }

  /** Spaces after a string that does not end with one are all that `trimEnd` removes. */
  lemma TrimEndPadded(w: string, spaces: string)
    requires forall i :: 0 <= i < |spaces| ==> IsSpace(spaces[i])
    requires w == [] || !IsSpace(w[|w| - 1])
    ensures TrimEnd(w + spaces) == w
  {
    var s := w + spaces;
    var r := TrimEnd(s);
    if w != [] {
      assert s[|w| - 1] == w[|w| - 1];
    }
    if r != [] {
      assert s[|r| - 1] == r[|r| - 1];
    }
    assert |r| == |w|;
    assert s[..|w|] == w;
  }

  /** Trimming a trimmed, non-empty string padded with spaces on both sides gives it back. */
  lemma TrimPadded(before: string, w: string, after: string)
    requires forall i :: 0 <= i < |before| ==> IsSpace(before[i])
    requires forall i :: 0 <= i < |after| ==> IsSpace(after[i])
    requires w != [] && IsTrimmed(w)
    ensures Trim(before + w + after) == w
  {
    assert before + w + after == before + (w + after);
    TrimStartPadded(before, w + after);
    TrimEndPadded(w, after);
  }

  predicate IsUpperAscii(c: char) { 'A' <= c <= 'Z' }
  predicate IsLowerAscii(c: char) { 'a' <= c <= 'z' }

  function UpperChar(c: char): char {
    if IsLowerAscii(c) then (c as int - 32) as char else c
  }

  function LowerChar(c: char): char {
    if IsUpperAscii(c) then (c as int + 32) as char else c
  }

  /** `toUpperCase`, on the ASCII letters. */
  function ToUpper(s: string): (r: string)
    ensures |r| == |s|
    ensures forall i :: 0 <= i < |s| ==> r[i] == UpperChar(s[i])
  {
    seq(|s|, i requires 0 <= i < |s| => UpperChar(s[i]))
  }

  /** `toLowerCase`, on the ASCII letters. */
  function ToLower(s: string): (r: string)
    ensures |r| == |s|
    ensures forall i :: 0 <= i < |s| ==> r[i] == LowerChar(s[i])
  {
    seq(|s|, i requires 0 <= i < |s| => LowerChar(s[i]))
  }

  /**
   * Upper-casing leaves no lower-case ASCII letter, changes only lower-case letters, keeps
   * spaces where they were, and is idempotent.
   */
  lemma ToUpperSpec(s: string)
    ensures forall i :: 0 <= i < |s| ==> !IsLowerAscii(ToUpper(s)[i])
    ensures forall i :: 0 <= i < |s| ==> (ToUpper(s)[i] == s[i] <==> !IsLowerAscii(s[i]))
    ensures forall i :: 0 <= i < |s| ==> (IsSpace(ToUpper(s)[i]) <==> IsSpace(s[i]))
    ensures ToUpper(ToUpper(s)) == ToUpper(s)
  {
  }

  /** Lower-casing leaves no upper-case ASCII letter and keeps spaces where they were. */
  lemma ToLowerSpec(s: string)
    ensures forall i :: 0 <= i < |s| ==> !IsUpperAscii(ToLower(s)[i])
    ensures forall i :: 0 <= i < |s| ==> (ToLower(s)[i] == s[i] <==> !IsUpperAscii(s[i]))
    ensures forall i :: 0 <= i < |s| ==> (IsSpace(ToLower(s)[i]) <==> IsSpace(s[i]))
  {
  }

  /** `s.split(sep)` for a one-character separator: always at least one piece. */
  function Split(s: string, sep: char): (r: seq<string>)
    ensures |r| >= 1
    ensures forall i :: 0 <= i < |r| ==> sep !in r[i]
  {
    if s == [] then [[]]
    else
      var p := Split(s[..|s| - 1], sep);
      if s[|s| - 1] == sep then p + [[]]
      else p[..|p| - 1] + [p[|p| - 1] + [s[|s| - 1]]]
  }

  /** `pieces.join(sep)`. */
  function Join(pieces: seq<string>, sep: string): string {
    if pieces == [] then []
    else if |pieces| == 1 then pieces[0]
    else Join(pieces[..|pieces| - 1], sep) + sep + pieces[|pieces| - 1]
  }

  lemma JoinAppendLast(pieces: seq<string>, sep: string, x: string)
    requires pieces != []
    ensures Join(pieces[..|pieces| - 1] + [pieces[|pieces| - 1] + x], sep) == Join(pieces, sep) + x
  {
    var n := |pieces|;
    var q := pieces[..n - 1] + [pieces[n - 1] + x];
    if n > 1 {
      assert q[..n - 1] == pieces[..n - 1];
    }
  }

  /** Joining the pieces with the separator gives back the string. */
  lemma {:induction false} SplitJoin(s: string, sep: char)
    ensures Join(Split(s, sep), [sep]) == s
  {
    if s != [] {
      var init := s[..|s| - 1];
      var p := Split(init, sep);
      SplitJoin(init, sep);
      if s[|s| - 1] == sep {
        assert (p + [[]])[..|p|] == p;
      } else {
        JoinAppendLast(p, [sep], [s[|s| - 1]]);
      }
      assert s == init + [s[|s| - 1]];
    }
  }

  /** A string without the separator is one piece. */
  lemma {:induction false} SplitWithout(s: string, sep: char)
    requires sep !in s
    ensures Split(s, sep) == [s]
  {
    if s != [] {
      var init := s[..|s| - 1];
      assert sep !in init by {
        forall i | 0 <= i < |init| ensures init[i] != sep {
          assert init[i] == s[i];
        }
      }
      SplitWithout(init, sep);
      assert s[|s| - 1] != sep;
      assert init + [s[|s| - 1]] == s;
    }
  }

  /** `s` without one trailing carriage return. */
  function DropCr(s: string): string {
    if s != [] && s[|s| - 1] == '\r' then s[..|s| - 1] else s
  }

  /**
   * `s.split(/\r?\n/)`: split at every line feed; a carriage return just before a line feed
   * belongs to the separator.
   */
  function Lines(s: string): (r: seq<string>)
    ensures |r| == |Split(s, '\n')|
  {
    var p := Split(s, '\n');
    seq(|p|, i requires 0 <= i < |p| => if i < |p| - 1 then DropCr(p[i]) else p[i])
  }

  /** `s.replace(/\s+/g, rep)`: every maximal run of spaces becomes one `rep`. */
  function ReplaceSpaceRuns(s: string, rep: char): (r: string)
    ensures !IsSpace(rep) ==> NoSpace(r)
    ensures |r| <= |s|
  {
    if s == [] then []
    else
      var prev := ReplaceSpaceRuns(s[..|s| - 1], rep);
      var c := s[|s| - 1];
      if !IsSpace(c) then prev + [c]
      else if |s| >= 2 && IsSpace(s[|s| - 2]) then prev
      else prev + [rep]
  }

  /** A string without spaces is left alone. */
  lemma {:induction false} ReplaceNoSpace(s: string, rep: char)
    requires NoSpace(s)
    ensures ReplaceSpaceRuns(s, rep) == s
  {
    if s != [] {
      ReplaceNoSpace(s[..|s| - 1], rep);
    }
  }

  /** A run of spaces between two words becomes exactly one `rep`. */
  lemma ReplaceBetweenWords(a: string, spaces: string, b: string, rep: char)
    requires NoSpace(a) && NoSpace(b) && spaces != [] && forall i :: 0 <= i < |spaces| ==> IsSpace(spaces[i])
    ensures ReplaceSpaceRuns(a + spaces + b, rep) == a + [rep] + b
  {
    ReplaceRun(a, spaces, rep);
    ReplaceAfterRun(a + spaces, b, a + [rep], rep);
  }

  lemma {:induction false} ReplaceRun(a: string, spaces: string, rep: char)
    requires NoSpace(a) && spaces != [] && forall i :: 0 <= i < |spaces| ==> IsSpace(spaces[i])
    ensures ReplaceSpaceRuns(a + spaces, rep) == a + [rep]
  {
    var s := a + spaces;
    assert s[..|s| - 1] == a + spaces[..|spaces| - 1];
    if |spaces| == 1 {
      ReplaceNoSpace(a, rep);
      assert s[..|s| - 1] == a;
    } else {
      ReplaceRun(a, spaces[..|spaces| - 1], rep);
      assert IsSpace(s[|s| - 2]);
    }
  }

  lemma {:induction false} ReplaceAfterRun(prefix: string, b: string, done: string, rep: char)
    requires ReplaceSpaceRuns(prefix, rep) == done
    requires NoSpace(b)
    ensures ReplaceSpaceRuns(prefix + b, rep) == done + b
  {
    if b != [] {
      var s := prefix + b;
      ReplaceAfterRun(prefix, b[..|b| - 1], done, rep);
      assert s[..|s| - 1] == prefix + b[..|b| - 1];
    } else {
      assert prefix + b == prefix;
    }
  }
}
