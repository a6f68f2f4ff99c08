/** The line lexer: one `EntryLine` token per physical line of a file.
    A line whose trimmed form starts with `#` is commented; a commented line
    that still has the shape of a header or of `key = value` is *locked* data. */
module LineLexer {
  import opened Errors
  import opened Text

  datatype EntryLine =
    | Empty
    | Comment(text: string)
    | ProductionMarker
    | Header(name: string)
    | Option(key: string, value: string)
    | LockedHeader(name: string)
    | LockedOption(key: string, value: string)

  predicate StartsWithChar(s: string, c: char) {
    s != [] && s[0] == c
  }

  predicate EndsWithChar(s: string, c: char) {
    s != [] && s[|s| - 1] == c
  }

  /** Starts with `[` and ends with `]`; such a string has at least two characters. */
  predicate IsBracketed(s: string) {
    StartsWithChar(s, '[') && EndsWithChar(s, ']')
  }

  /** `splitn(2, '=')` followed by `trim_end` of the key and `trim_start` of
      the value: the split is at the FIRST `=`, so the value may hold more. */
  function SplitOption(s: string): (kv: (string, string))
    requires '=' in s
    ensures exists pre, post :: s == pre + "=" + post && '=' !in pre && kv == (TrimEnd(pre), TrimStart(post))
  {
    var k := FindChar(s, '=');
    assert s == s[..k] + "=" + s[k + 1..];
    (TrimEnd(s[..k]), TrimStart(s[k + 1..]))
  }

  /** Splitting `pre = post` where `pre` holds no `=` finds exactly `pre` and `post`. */
  lemma SplitOptionOf(pre: string, post: string)
    requires '=' !in pre
    ensures SplitOption(pre + "=" + post) == (TrimEnd(pre), TrimStart(post))
  {
    var s := pre + "=" + post;
    assert s == pre + ("=" + post);
    FindCharAppend(pre, "=" + post, '=');
    assert FindChar("=" + post, '=') == 0;
    var k := FindChar(s, '=');
    assert s[..k] == pre;
    assert s[k + 1..] == post;
  }

  /** The text of a commented line after the `#`, trimmed at both ends. */
  function CommentInner(line: string): string
    requires Trim(line) != []
  {
    Trim(Trim(line)[1..])
  }

  /** Where the text of a plain comment starts: after `# ` when the trimmed
      line starts that way, else after one character; the slice is taken
      from the line as it stands, leading white space included. */
  function CommentStart(line: string): (start: nat)
    requires Trim(line) != []
    ensures 1 <= start <= |line|
  {
    TrimShape(line);
    if |Trim(line)| >= 2 && Trim(line)[..2] == "# " then 2 else 1
  }

  /** `tokenize_commented`: total, with the precedence production marker,
      then locked header, then locked option, then plain comment. */
  function TokenizeCommented(line: string): (t: EntryLine)
    requires Trim(line) != []
    ensures t == ProductionMarker <==> CommentInner(line) == "production"
    ensures t.LockedHeader? <==> CommentInner(line) != "production" && IsBracketed(CommentInner(line))
    ensures t.LockedOption? <==> CommentInner(line) != "production" && !IsBracketed(CommentInner(line)) && '=' in CommentInner(line)
    ensures t.Comment? <==> CommentInner(line) != "production" && !IsBracketed(CommentInner(line)) && '=' !in CommentInner(line)
    ensures t.LockedHeader? ==> CommentInner(line) == "[" + t.name + "]"
    ensures t.LockedOption? ==> '=' in CommentInner(line) && (t.key, t.value) == SplitOption(CommentInner(line))
    ensures t.Comment? ==> line == line[..CommentStart(line)] + t.text
  {
    var inner := CommentInner(line);
    if inner == "production" then
      ProductionMarker
    else if IsBracketed(inner) then
      assert inner == "[" + inner[1..|inner| - 1] + "]";
      LockedHeader(inner[1..|inner| - 1])
    else if '=' in inner then
      var kv := SplitOption(inner);
      LockedOption(kv.0, kv.1)
    else
      var start := CommentStart(line);
      assert line == line[..start] + line[start..];
      Comment(line[start..])
  }

  /** `tokenize_uncommented`: the header and option tests look at the line
      as it stands (no trimming); a line of no known shape is an error. */
  function TokenizeUncommented(line: string): (r: Result<EntryLine>)
    ensures r.Err? <==> !IsBracketed(line) && '=' !in line && !IsBlank(line)
    ensures r.Err? ==> r.error == UnexpectedLine(line)
    ensures IsBracketed(line) ==> r.Ok? && r.value.Header? && line == "[" + r.value.name + "]"
    ensures !IsBracketed(line) && '=' in line ==> r.Ok? && r.value.Option? && (r.value.key, r.value.value) == SplitOption(line)
    ensures r == Ok(Empty) <==> !IsBracketed(line) && '=' !in line && IsBlank(line)
  {
    if IsBracketed(line) then
      assert line == "[" + line[1..|line| - 1] + "]";
      Ok(Header(line[1..|line| - 1]))
    else if '=' in line then
      var kv := SplitOption(line);
      Ok(Option(kv.0, kv.1))
    else if Trim(line) == "" then
      TrimShape(line);
      Ok(Empty)
    else
      TrimShape(line);
      Err(UnexpectedLine(line))
  }

  /** One line: commented lines go to the total classifier, the others may fail. */
  function TokenizeLine(line: string): (r: Result<EntryLine>)
    ensures StartsWithChar(Trim(line), '#') ==> r.Ok? && r.value == TokenizeCommented(line)
    ensures !StartsWithChar(Trim(line), '#') ==> r == TokenizeUncommented(line)
  {
    if StartsWithChar(Trim(line), '#') then Ok(TokenizeCommented(line)) else TokenizeUncommented(line)
  }

  /** The whole of `tokenize`: every line in order, stopping at the first bad one. */
  function TokenizeLines(lines: seq<string>): Result<seq<EntryLine>> {
    Collect(lines, TokenizeLine)
  }

  /** A commented line never makes `tokenize` fail. */
  lemma CommentedLinesNeverFail(lines: seq<string>)
    requires forall i :: 0 <= i < |lines| ==> StartsWithChar(Trim(lines[i]), '#')
    ensures TokenizeLines(lines).Ok?
    ensures |TokenizeLines(lines).value| == |lines|
  {
  }

  /** An uncommented line that is not bracketed, has no `=` and is not blank
      makes the whole of `tokenize` fail, whatever the other lines hold. */
  lemma UnexpectedLineFails(lines: seq<string>, k: nat)
    requires k < |lines|
    requires !StartsWithChar(Trim(lines[k]), '#')
    requires !IsBracketed(lines[k]) && '=' !in lines[k] && !IsBlank(lines[k])
    ensures TokenizeLines(lines).Err?
  {
    assert TokenizeLine(lines[k]).Err?;
  }

  /** The lines from `i0` up to `k` all tokenize, to the tokens `res`. */
  predicate TokenizedUpTo(lines: seq<string>, i0: nat, k: nat, res: seq<EntryLine>) {
    i0 <= k <= |lines| && |res| == k - i0
    && forall j :: i0 <= j < k ==> TokenizeLine(lines[j]) == Ok(res[j - i0])
  }

  /** Line `k` is the first line from `i0` on that does not tokenize. */
  predicate FirstBadLine(lines: seq<string>, i0: nat, k: nat) {
    i0 <= k < |lines| && TokenizeLine(lines[k]).Err?
    && forall j :: i0 <= j < k ==> TokenizeLine(lines[j]).Ok?
  }

  lemma TokenizedUpToSnoc(lines: seq<string>, i0: nat, k: nat, res: seq<EntryLine>, t: EntryLine)
    requires TokenizedUpTo(lines, i0, k, res) && k < |lines| && TokenizeLine(lines[k]) == Ok(t)
    ensures TokenizedUpTo(lines, i0, k + 1, res + [t])
  {
  }

  lemma TokenizeLinesStops(lines: seq<string>, i0: nat, k: nat, res: seq<EntryLine>)
    requires TokenizedUpTo(lines, i0, k, res) && k < |lines| && TokenizeLine(lines[k]).Err?
    ensures FirstBadLine(lines, i0, k)
    ensures TokenizeLines(lines[i0..]) == Err(UnexpectedLine(lines[k]))
  {
    var xs := lines[i0..];
    assert forall j :: 0 <= j < k - i0 ==> xs[j] == lines[i0 + j];
    assert xs[k - i0] == lines[k];
    CollectErr(xs, TokenizeLine, k - i0);
  }

  lemma TokenizeLinesAll(lines: seq<string>, i0: nat, res: seq<EntryLine>)
    requires TokenizedUpTo(lines, i0, |lines|, res)
    ensures TokenizeLines(lines[i0..]) == Ok(res)
  {
    var xs := lines[i0..];
    assert forall j :: 0 <= j < |xs| ==> xs[j] == lines[i0 + j];
    CollectOk(xs, TokenizeLine, res);
  }

  /** Rust's `EntryLineLexer`: the lines of one file and a cursor over them. */
  class EntryLineLexer {
    const lines: seq<string>
    var index: nat

    ghost predicate Valid()
      reads this
    {
      index <= |lines|
    }

    /** `EntryLineLexer::new`: splits the contents into lines. */
    constructor (contents: string)
      ensures Valid()
      ensures lines == Lines(contents) && index == 0
    {
      lines := Lines(contents);
      index := 0;
    }

    /** The line under the cursor, which then moves on; at the end it stays. */
    method NextLine() returns (line: Errors.Option<string>)
      requires Valid()
      modifies this
      ensures Valid()
      ensures old(index) < |lines| ==> line == Some(lines[old(index)]) && index == old(index) + 1
      ensures old(index) == |lines| ==> line == None && index == old(index)
    {
      if index < |lines| {
        line := Some(lines[index]);
        index := index + 1;
      } else {
        line := None;
      }
    }

    /** `tokenize`: one token per remaining line, in order; on a bad line
        it stops right after it and reports it. */
    method Tokenize() returns (r: Result<seq<EntryLine>>)
      requires Valid()
      modifies this
      ensures Valid()
      ensures r == TokenizeLines(lines[old(index)..])
      ensures r.Ok? ==> index == |lines| && |r.value| == |lines| - old(index)
      ensures r.Err? ==> old(index) < index && FirstBadLine(lines, old(index), index - 1)
                         && r.error == UnexpectedLine(lines[index - 1])
    {
      ghost var i0 := index;
      var res: seq<EntryLine> := [];
      while true
        invariant Valid() && TokenizedUpTo(lines, i0, index, res)
        decreases |lines| - index
      {
        var line := NextLine();
        if line.None? {
          break;
        }
        // the commented/uncommented dispatch of the loop body, with `?` on the latter
        var t := TokenizeLine(line.value);
        if t.Err? {
          TokenizeLinesStops(lines, i0, index - 1, res);
          return Err(t.error);
        }
        TokenizedUpToSnoc(lines, i0, index - 1, res, t.value);
        res := res + [t.value];
      }
      TokenizeLinesAll(lines, i0, res);
      return Ok(res);
    }
  }
}
