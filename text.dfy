/** The handful of string operations of the Rust standard library that the
    lock engine relies on: `trim`, `trim_start`, `trim_end`, `find`/`contains`
    for one character, and `lines`, together with the writer's inverse of
    `lines` (one `writeln!` per line).  Strings are sequences of characters,
    and every slice is taken in characters; Rust slices in bytes, which is
    the same as long as the characters before the slice point are ASCII. */
module Text {

  /** The Unicode `White_Space` property, which Rust's `trim` family uses. */
  predicate IsWhitespace(c: char) {
    var n := c as int;
    (0x09 <= n <= 0x0D) || n == 0x20 || n == 0x85 || n == 0xA0 || n == 0x1680
    || (0x2000 <= n <= 0x200A) || n == 0x2028 || n == 0x2029 || n == 0x202F
    || n == 0x205F || n == 0x3000
  }

  /** True when every character of `s` is white space (Rust: `s.trim() == ""`). */
  predicate IsBlank(s: string) {
    forall i :: 0 <= i < |s| ==> IsWhitespace(s[i])
  }

  /** `str::trim_start`: drops the leading white space (see `TrimStartShape`). */
  function TrimStart(s: string): (r: string)
    decreases |s|
  {
    if s != [] && IsWhitespace(s[0]) then TrimStart(s[1..]) else s
  }

  /** `str::trim_end`: drops the trailing white space (see `TrimEndShape`). */
  function TrimEnd(s: string): (r: string)
    decreases |s|
  {
    if s != [] && IsWhitespace(s[|s| - 1]) then TrimEnd(s[..|s| - 1]) else s
  }

  /** `TrimStart` keeps a suffix, drops only white space, and stops at a
      character that is not white space. */
  lemma {:induction false} TrimStartShape(s: string)
    ensures var r := TrimStart(s);
      && |r| <= |s| && r == s[|s| - |r|..]
      && (forall i :: 0 <= i < |s| - |r| ==> IsWhitespace(s[i]))
      && (r != [] ==> !IsWhitespace(r[0]))
    decreases |s|
  {
    if s != [] && IsWhitespace(s[0]) {
      TrimStartShape(s[1..]);
    }
  }

  /** `TrimEnd` keeps a prefix, drops only white space, and stops at a
      character that is not white space. */
  lemma {:induction false} TrimEndShape(s: string)
    ensures var r := TrimEnd(s);
      && |r| <= |s| && r == s[..|r|]
      && (forall i :: |r| <= i < |s| ==> IsWhitespace(s[i]))
      && (r != [] ==> !IsWhitespace(r[|r| - 1]))
    decreases |s|
  {
    if s != [] && IsWhitespace(s[|s| - 1]) {
      TrimEndShape(s[..|s| - 1]);
    }
  }

  /** `str::trim`: drops white space at both ends. */
  function Trim(s: string): string {
    TrimEnd(TrimStart(s))
  }

  /** `Trim` keeps a slice of its argument, and is empty exactly for blank text. */
  lemma TrimShape(s: string)
    ensures |Trim(s)| <= |s|
    ensures forall c :: c in Trim(s) ==> c in s
    ensures Trim(s) == [] <==> IsBlank(s)
  {
    var t := TrimStart(s);
    TrimStartShape(s);
    TrimEndShape(t);
    var r := TrimEnd(t);
    var a := |s| - |t|;
    assert r == s[a..a + |r|];
    assert forall c :: c in r ==> c in s;
    if r == [] {
      assert t == [];
    } else {
      assert r[0] == s[a];
    }
  }

  /** Position of the first `c` in `s`, or `|s|` when there is none
      (`str::find` for one character; `contains` is `FindChar(s, c) < |s|`). */
  function FindChar(s: string, c: char): (k: nat)
    ensures k <= |s|
    ensures forall j :: 0 <= j < k ==> s[j] != c
    ensures k < |s| ==> s[k] == c
    ensures k == |s| <==> c !in s
    decreases |s|
  {
    if s == [] then 0
    else if s[0] == c then 0
    else 1 + FindChar(s[1..], c)
  }

  /** Removes one trailing carriage return. */
  function StripCr(l: string): string {
    if l != [] && l[|l| - 1] == '\r' then l[..|l| - 1] else l
  }

  /** `str::lines`: the text split at each line feed, a carriage return right
      before a line feed removed, and no line after a final line feed. */
  function Lines(s: string): (ls: seq<string>)
    ensures forall i :: 0 <= i < |ls| ==> '\n' !in ls[i]
    decreases |s|
  {
    if s == [] then []
    else
      var k := FindChar(s, '\n');
      if k == |s| then [s]
      else
        assert forall j :: 0 <= j < |StripCr(s[..k])| ==> StripCr(s[..k])[j] == s[j];
        [StripCr(s[..k])] + Lines(s[k + 1..])
  }

  /** The text written by one `writeln!` per line. */
  function JoinLines(ls: seq<string>): string {
    if ls == [] then "" else ls[0] + "\n" + JoinLines(ls[1..])
  }

  /** A line that `Lines` gives back unchanged once it is written with a
      line feed after it. */
  predicate LineSafe(l: string) {
    '\n' !in l && (l == [] || l[|l| - 1] != '\r')
  }

  /** `StripCr` of every line. */
  function StripCrs(ls: seq<string>): (rs: seq<string>)
    ensures |rs| == |ls| && forall i :: 0 <= i < |ls| ==> rs[i] == StripCr(ls[i])
  {
    seq(|ls|, i requires 0 <= i < |ls| => StripCr(ls[i]))
  }

  lemma {:induction false} JoinLinesAppend(a: seq<string>, b: seq<string>)
    ensures JoinLines(a + b) == JoinLines(a) + JoinLines(b)
    decreases |a|
  {
    if a != [] {
      assert (a + b)[1..] == a[1..] + b;
      JoinLinesAppend(a[1..], b);
    } else {
      assert a + b == b;
    }
  }

  /** Writing lines and reading them back with `Lines` gives every line
      back, less one carriage return at its end. */
  lemma {:induction false} LinesOfJoinLines(ls: seq<string>)
    requires forall i :: 0 <= i < |ls| ==> '\n' !in ls[i]
    ensures Lines(JoinLines(ls)) == StripCrs(ls)
    decreases |ls|
  {
    if ls != [] {
      assert '\n' !in ls[0];
      assert JoinLines(ls) == ls[0] + "\n" + JoinLines(ls[1..]);
      LinesOfJoinLines(ls[1..]);
      LinesCons(ls[0], JoinLines(ls[1..]));
      assert StripCrs(ls) == [StripCr(ls[0])] + StripCrs(ls[1..]);
    }
  }

  /** Lines that are `LineSafe` come back exactly. */
  lemma StripCrsSafe(ls: seq<string>)
    requires forall i :: 0 <= i < |ls| ==> LineSafe(ls[i])
    ensures StripCrs(ls) == ls
  {
  }

  /** One written line in front of the rest of a text. */
  lemma LinesCons(l: string, rest: string)
    requires '\n' !in l
    ensures Lines(l + "\n" + rest) == [StripCr(l)] + Lines(rest)
  {
    var s := l + ("\n" + rest);
    assert l + "\n" + rest == s;
    FindCharAppend(l, "\n" + rest, '\n');
    var k := FindChar(s, '\n');
    assert k == |l|;
    assert s[..k] == l;
    assert s[k + 1..] == rest;
  }

  /** A carriage return at the end is white space, so trimming ignores it. */
  lemma TrimStripCr(c: string)
    ensures Trim(StripCr(c)) == Trim(c)
  {
    if c != [] && c[|c| - 1] == '\r' {
      var d := c[..|c| - 1];
      assert c == d + "\r";
      TrimEndBeforeBlank(d, "\r");
      TrimStartEndCommute(c);
      TrimStartEndCommute(d);
    }
  }

  /** A character that is not white space survives `TrimStart`. */
  lemma KeptByTrimStart(s: string, x: char)
    requires x in s && !IsWhitespace(x)
    ensures x in TrimStart(s)
  {
    TrimStartShape(s);
    var r := TrimStart(s);
    var j :| 0 <= j < |s| && s[j] == x;
    assert s[j] == r[j - (|s| - |r|)];
  }

  /** With a first character that is not white space, `TrimEnd` only
      touches the rest. */
  lemma TrimEndCons(a: char, r: string)
    requires !IsWhitespace(a)
    ensures TrimEnd([a] + r) == [a] + TrimEnd(r)
  {
    if IsBlank(r) {
      TrimEndBeforeBlank([a], r);
      BlankTrims(r);
    } else {
      NotBlankTrimEnd(r);
      TrimEndAppend([a], r);
    }
  }

  lemma {:induction false} FindCharAppend(a: string, b: string, c: char)
    requires c !in a
    ensures FindChar(a + b, c) == |a| + FindChar(b, c)
    decreases |a|
  {
    if a != [] {
      assert (a + b)[1..] == a[1..] + b;
      FindCharAppend(a[1..], b, c);
    } else {
      assert a + b == b;
    }
  }

  /** Trailing white space of a suffix does not reach into a prefix as long
      as the suffix holds something else. */
  lemma {:induction false} TrimEndAppend(a: string, b: string)
    requires TrimEnd(b) != []
    ensures TrimEnd(a + b) == a + TrimEnd(b)
    decreases |b|
  {
    var s := a + b;
    if IsWhitespace(b[|b| - 1]) {
      assert s[..|s| - 1] == a + b[..|b| - 1];
      TrimEndAppend(a, b[..|b| - 1]);
    }
  }

  /** Leading white space is dropped by `TrimStart`. */
  lemma {:induction false} TrimStartAfterBlank(w: string, s: string)
    requires IsBlank(w)
    ensures TrimStart(w + s) == TrimStart(s)
    decreases |w|
  {
    if w != [] {
      assert (w + s)[1..] == w[1..] + s;
      TrimStartAfterBlank(w[1..], s);
    } else {
      assert w + s == s;
    }
  }

  /** A string with no white space at either end is its own trim. */
  lemma TrimOfTrimmed(s: string)
    requires s == [] || (!IsWhitespace(s[0]) && !IsWhitespace(s[|s| - 1]))
    ensures TrimStart(s) == s && TrimEnd(s) == s && Trim(s) == s
  {
  }

  /** Blank text trims to nothing at either end. */
  lemma {:induction false} BlankTrims(s: string)
    requires IsBlank(s)
    ensures TrimStart(s) == [] && TrimEnd(s) == []
    decreases |s|
  {
    if s != [] {
      BlankTrims(s[1..]);
      BlankTrims(s[..|s| - 1]);
    }
  }

  /** Text that is not blank keeps something under `TrimEnd`. */
  lemma NotBlankTrimEnd(s: string)
    requires !IsBlank(s)
    ensures TrimEnd(s) != []
  {
    TrimEndShape(s);
  }

  lemma TrimEndIdempotent(s: string)
    ensures TrimEnd(TrimEnd(s)) == TrimEnd(s)
  {
    TrimEndShape(s);
  }

  /** Trimming the two ends commutes. */
  lemma {:induction false} TrimStartEndCommute(s: string)
    ensures TrimStart(TrimEnd(s)) == TrimEnd(TrimStart(s))
    decreases |s|
  {
    if s == [] {
    } else if !IsWhitespace(s[0]) {
      TrimEndShape(s);
      assert TrimEnd(s) != [] && TrimEnd(s)[0] == s[0];
    } else if IsBlank(s[1..]) {
      assert IsBlank(s) by {
        assert forall i :: 1 <= i < |s| ==> s[i] == s[1..][i - 1];
      }
      BlankTrims(s);
      BlankTrims(s[1..]);
    } else {
      NotBlankTrimEnd(s[1..]);
      assert s == [s[0]] + s[1..];
      TrimEndAppend([s[0]], s[1..]);
      assert ([s[0]] + TrimEnd(s[1..]))[1..] == TrimEnd(s[1..]);
      TrimStartEndCommute(s[1..]);
    }
  }

  /** Trailing white space is dropped by `TrimEnd`. */
  lemma {:induction false} TrimEndBeforeBlank(s: string, w: string)
    requires IsBlank(w)
    ensures TrimEnd(s + w) == TrimEnd(s)
    decreases |w|
  {
    if w != [] {
      assert (s + w)[..|s + w| - 1] == s + w[..|w| - 1];
      TrimEndBeforeBlank(s, w[..|w| - 1]);
    } else {
      assert s + w == s;
    }
  }
}
