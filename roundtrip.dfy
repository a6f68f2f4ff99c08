/** Reading back what the writer writes.  Every line the writer emits has
    a shape the lexer recognises, so the written text lexes into a token
    list built block by block, which the parser groups back into one entry
    per block.  What comes back is the block as `ReadBlock` gives it: a
    carriage return at the end of a comment or a value is lost to `lines`,
    a blank comment gains a space, and a value loses white space that the
    lexer trims.  Comments, names and values that need none of this come
    back unchanged (`BlockOk`), and so do the config and credentials
    records and the profiles written from them. */
module RoundTrip {
  import opened Errors
  import opened Text
  import opened LineLexer
  import opened LineParser
  import opened AwsProfiles

  /** A comment whose line `# c` is read back as a comment: trimmed, it is
      not the production marker, not bracketed and holds no `=`. */
  predicate CommentShaped(c: string) {
    Trim(c) != "production" && !IsBracketed(Trim(c)) && '=' !in Trim(c)
  }

  /** A comment that the writer and the lexer carry through as a comment. */
  predicate CommentReadable(c: string) {
    '\n' !in c && CommentShaped(c)
  }

  /** A comment that comes back as the same comment once written as `# c`. */
  predicate CommentOk(c: string) {
    !IsBlank(c) && LineSafe(c) && CommentShaped(c)
  }

  /** An option key the writer can use: one that no trimming touches and
      that cannot be read as a comment, a header or part of a value. */
  predicate KeyOk(k: string) {
    k != [] && !IsWhitespace(k[0]) && !IsWhitespace(k[|k| - 1]) && k[0] != '#' && k[0] != '['
    && '=' !in k && '\n' !in k
  }

  /** A value on one line with no white space at either end. */
  predicate ValueOk(v: string) {
    '\n' !in v && (v == [] || (!IsWhitespace(v[0]) && !IsWhitespace(v[|v| - 1])))
  }

  /** A block that comes back exactly. */
  predicate BlockOk(b: Block) {
    && (forall i :: 0 <= i < |b.comments| ==> CommentOk(b.comments[i]))
    && '\n' !in b.header
    && (forall i :: 0 <= i < |b.options| ==> KeyOk(b.options[i].0) && ValueOk(b.options[i].1))
  }

  /** A block whose every line comes back as a line of the same kind. */
  predicate BlockReadable(b: Block) {
    && (forall i :: 0 <= i < |b.comments| ==> CommentReadable(b.comments[i]))
    && '\n' !in b.header
    && (forall i :: 0 <= i < |b.options| ==> KeyOk(b.options[i].0) && '\n' !in b.options[i].1)
  }

  /** What the lexer needs of the lines of a block to read them as the
      same kinds of line. */
  predicate BlockLexable(b: Block) {
    && (forall i :: 0 <= i < |b.comments| ==> CommentShaped(b.comments[i]))
    && (forall i :: 0 <= i < |b.options| ==> KeyOk(b.options[i].0))
  }

  /** The comment a line `# c` is read back as: a blank comment gains the
      space the writer put after the `#`. */
  function ReadComment(c: string): string {
    if IsBlank(c) then " " + c else c
  }

  /** The value an option line `k = v` is read back as: a plain line only
      loses the white space at the start of the value, a locked line is
      trimmed as a whole first. */
  function ReadValue(locked: bool, v: string): string {
    if locked then Trim(v) else TrimStart(v)
  }

  /** The token a header line is read as. */
  function HeaderToken(locked: bool, name: string): EntryLine {
    if locked then LockedHeader(name) else Header(name)
  }

  /** The token an option line is read as. */
  function OptionToken(locked: bool, kv: (string, string)): EntryLine {
    if locked then LockedOption(kv.0, kv.1) else Option(kv.0, kv.1)
  }

  // ---------------------------------------------------------------------
  // One line at a time

  /** The trimmed form and the inner text of a line written as `# c`. */
  lemma CommentedLine(c: string)
    requires !IsBlank(c)
    ensures Trim("# " + c) == "# " + TrimEnd(c)
    ensures CommentInner("# " + c) == Trim(c)
  {
    CommentedTrim(c);
    assert Trim("# " + c)[1..] == " " + TrimEnd(c);
    SpacedTrimEnd(c);
  }

  /** Trimming `# c` only trims the end of `c`. */
  lemma CommentedTrim(c: string)
    requires !IsBlank(c)
    ensures Trim("# " + c) == "# " + TrimEnd(c)
  {
    NotBlankTrimEnd(c);
    assert TrimStart("# " + c) == "# " + c;
    TrimEndAppend("# ", c);
  }

  /** A space before the end-trimmed text is trimmed away with the rest. */
  lemma SpacedTrimEnd(c: string)
    ensures Trim(" " + TrimEnd(c)) == Trim(c)
  {
    SpacedTrimStart(c);
    TrimEndIdempotent(TrimStart(c));
  }

  /** Trimming the start of the space and the end-trimmed text trims both ends. */
  lemma SpacedTrimStart(c: string)
    ensures TrimStart(" " + TrimEnd(c)) == Trim(c)
  {
    TrimStartAfterBlank(" ", TrimEnd(c));
    TrimStartEndCommute(c);
  }

  /** A comment line is read back as a comment: the comment it was written
      from, or, when that is blank, the comment with one more space. */
  lemma TokenizeComment(c: string)
    requires CommentShaped(c)
    ensures TokenizeLine("# " + c) == Ok(Comment(ReadComment(c)))
  {
    if IsBlank(c) {
      BlankCommentGrows(c);
    } else {
      var line := "# " + c;
      CommentedLine(c);
      var t := TokenizeCommented(line);
      assert t.Comment?;
      assert Trim(line)[..2] == "# ";
      assert CommentStart(line) == 2;
      assert line[..2] == "# ";
    }
  }

  /** `# production` is read back as the production marker. */
  lemma TokenizeProductionLine()
    ensures TokenizeLine("# production") == Ok(ProductionMarker)
  {
    assert !IsWhitespace("production"[0]);
    assert "# production" == "# " + "production";
    CommentedLine("production");
    TrimOfTrimmed("production");
  }

  /** A header line, locked or not, is read back as the header it names,
      whatever the name holds. */
  lemma TokenizeHeader(locked: bool, h: string)
    ensures TokenizeLine(LockPrefix(locked) + "[" + h + "]") == Ok(HeaderToken(locked, h))
  {
    var c := "[" + h + "]";
    TrimOfTrimmed(c);
    assert c[1..|c| - 1] == h;
    if locked {
      assert !IsBlank(c) by {
        assert !IsWhitespace(c[0]);
      }
      assert "# " + "[" + h + "]" == "# " + c;
      CommentedLine(c);
      assert c != "production" by {
        assert c[0] != "production"[0];
      }
      var t := TokenizeCommented("# " + c);
      assert c == "[" + t.name + "]";
      assert t.name == c[1..|c| - 1];
    } else {
      assert "" + "[" + h + "]" == c;
      var r := TokenizeUncommented(c);
      assert c == "[" + r.value.name + "]";
      assert r.value.name == c[1..|c| - 1];
    }
  }

  /** `k = v` splits back into `k` and `v` less its leading white space. */
  lemma OptionBodySplit(k: string, v: string)
    requires KeyOk(k)
    ensures '=' in k + " = " + v && SplitOption(k + " = " + v) == (k, TrimStart(v))
  {
    var body := k + " = " + v;
    assert body == (k + " ") + "=" + (" " + v);
    assert '=' !in k + " ";
    SplitOptionOf(k + " ", " " + v);
    TrimOfTrimmed(k);
    assert (k + " ")[..|k + " "| - 1] == k;
    TrimStartAfterBlank(" ", v);
  }

  /** `k = v` trimmed still starts with the key, holds the `=`, and splits
      back into `k` and the trimmed `v`. */
  lemma OptionBodyTrim(k: string, v: string)
    requires KeyOk(k)
    ensures var body := k + " = " + v;
      && !IsBlank(body) && TrimStart(body) == body
      && Trim(body) != [] && Trim(body)[0] == k[0]
      && '=' in Trim(body) && SplitOption(Trim(body)) == (k, Trim(v))
  {
    var body := k + " = " + v;
    assert !IsBlank(body) by {
      assert body[0] == k[0];
      assert !IsWhitespace(body[0]);
    }
    if IsBlank(v) {
      BlankValueTrim(k, v);
      BlankTrims(v);
      KeySplitsBack(k, "");
    } else {
      FilledValueTrim(k, v);
      SpacedTrimStart(v);
      KeySplitsBack(k, " " + TrimEnd(v));
    }
  }

  /** `k =` followed by any text splits back into `k` and that text with
      its start trimmed. */
  lemma KeySplitsBack(k: string, post: string)
    requires KeyOk(k)
    ensures var t := (k + " ") + "=" + post;
      && t != [] && t[0] == k[0] && '=' in t && SplitOption(t) == (k, TrimStart(post))
  {
    var t := (k + " ") + "=" + post;
    assert t[|k| + 1] == '=';
    KeyBeforeSpace(k);
    SplitOptionOf(k + " ", post);
  }

  /** A key followed by one space holds no `=`, and trimming drops the space. */
  lemma KeyBeforeSpace(k: string)
    requires KeyOk(k)
    ensures '=' !in k + " " && TrimEnd(k + " ") == k
  {
    TrimOfTrimmed(k);
    assert (k + " ")[..|k + " "| - 1] == k;
  }

  /** With a blank value, `k = v` trims to `k =`. */
  lemma BlankValueTrim(k: string, v: string)
    requires KeyOk(k) && IsBlank(v)
    ensures TrimStart(k + " = " + v) == k + " = " + v
    ensures Trim(k + " = " + v) == (k + " ") + "=" + ""
  {
    var body := k + " = " + v;
    assert body[0] == k[0];
    assert IsBlank(" " + v) by {
      assert forall i :: 1 <= i < |" " + v| ==> (" " + v)[i] == v[i - 1];
    }
    assert body == (k + " =") + (" " + v);
    TrimEndBeforeBlank(k + " =", " " + v);
    assert (k + " =")[|k + " ="| - 1] == '=';
    assert TrimEnd(k + " =") == k + " =";
  }

  /** With a value that is not blank, `k = v` trims only the end of `v`. */
  lemma FilledValueTrim(k: string, v: string)
    requires KeyOk(k) && !IsBlank(v)
    ensures TrimStart(k + " = " + v) == k + " = " + v
    ensures Trim(k + " = " + v) == (k + " ") + "=" + (" " + TrimEnd(v))
  {
    var body := k + " = " + v;
    assert body[0] == k[0];
    NotBlankTrimEnd(v);
    assert body == (k + " = ") + v;
    TrimEndAppend(k + " = ", v);
  }

  /** An option line, locked or not, is read back as an option of the same
      kind with its key, and with the value as `ReadValue` gives it. */
  lemma TokenizeOption(locked: bool, k: string, v: string)
    requires KeyOk(k)
    ensures TokenizeLine(OptionLine(LockPrefix(locked), (k, v))) == Ok(OptionToken(locked, (k, ReadValue(locked, v))))
  {
    if locked {
      TokenizeLockedOption(k, v);
    } else {
      TokenizeUnlockedOption(k, v);
    }
  }

  lemma TokenizeUnlockedOption(k: string, v: string)
    requires KeyOk(k)
    ensures TokenizeLine(OptionLine("", (k, v))) == Ok(Option(k, TrimStart(v)))
  {
    var body := k + " = " + v;
    assert OptionLine("", (k, v)) == body;
    assert !StartsWithChar(Trim(body), '#') && !IsBracketed(body) by {
      OptionBodyTrim(k, v);
    }
    assert '=' in body && SplitOption(body) == (k, TrimStart(v)) by {
      OptionBodySplit(k, v);
    }
  }

  lemma TokenizeLockedOption(k: string, v: string)
    requires KeyOk(k)
    ensures TokenizeLine(OptionLine("# ", (k, v))) == Ok(LockedOption(k, Trim(v)))
  {
    var body := k + " = " + v;
    var line := "# " + body;
    assert OptionLine("# ", (k, v)) == line;
    LockedBody(k, v);
    LockedOptionLine(line);
  }

  /** The trimmed form and the inner text of `# k = v`. */
  lemma LockedBody(k: string, v: string)
    requires KeyOk(k)
    ensures var body := k + " = " + v; var line := "# " + body;
      && StartsWithChar(Trim(line), '#') && CommentInner(line) == Trim(body)
      && Trim(body) != "production" && !IsBracketed(Trim(body)) && '=' in Trim(body)
      && SplitOption(Trim(body)) == (k, Trim(v))
  {
    var body := k + " = " + v;
    OptionBodyTrim(k, v);
    CommentedLine(body);
    assert '=' !in "production";
  }

  /** A commented line whose inner text holds `=` and reads as neither the
      marker nor a header is a locked option split at the first `=`. */
  lemma LockedOptionLine(line: string)
    requires StartsWithChar(Trim(line), '#')
    requires CommentInner(line) != "production" && !IsBracketed(CommentInner(line)) && '=' in CommentInner(line)
    ensures var kv := SplitOption(CommentInner(line));
      TokenizeLine(line) == Ok(LockedOption(kv.0, kv.1))
  {
  }

  /** The blank line between two records is read back as `Empty`. */
  lemma TokenizeSeparator()
    ensures TokenizeLine("") == Ok(Empty)
  {
  }

  /** A blank comment is NOT read back as itself: `# ` followed by blank
      text trims to `#`, so the comment text is taken from the second
      character on, and every rewrite adds one space to it. */
  lemma BlankCommentGrows(c: string)
    requires IsBlank(c)
    ensures TokenizeLine("# " + c) == Ok(Comment(" " + c))
  {
    var line := "# " + c;
    assert line == "#" + (" " + c);
    assert IsBlank(" " + c) by {
      assert forall i :: 1 <= i < |" " + c| ==> (" " + c)[i] == c[i - 1];
    }
    TrimEndBeforeBlank("#", " " + c);
    assert TrimEnd("#") == "#";
    assert TrimStart(line) == line;
    assert Trim(line) == "#";
    assert CommentInner(line) == "";
    assert CommentStart(line) == 1;
    assert line[1..] == " " + c;
  }

  // ---------------------------------------------------------------------
  // Blocks and files as tokens

  function CommentTokens(comments: seq<string>): (ts: seq<EntryLine>)
    ensures |ts| == |comments| && forall i :: 0 <= i < |comments| ==> ts[i] == Comment(comments[i])
  {
    seq(|comments|, i requires 0 <= i < |comments| => Comment(comments[i]))
  }

  function OptionTokens(locked: bool, options: seq<(string, string)>): (ts: seq<EntryLine>)
    ensures |ts| == |options| && forall i :: 0 <= i < |options| ==> ts[i] == OptionToken(locked, options[i])
  {
    seq(|options|, i requires 0 <= i < |options| => OptionToken(locked, options[i]))
  }

  /** The tokens the lines of one written block are read as. */
  function BlockTokens(b: Block): seq<EntryLine> {
    CommentTokens(b.comments) + (if b.isProduction then [ProductionMarker] else [])
    + [HeaderToken(b.isLocked, b.header)] + OptionTokens(b.isLocked, b.options)
  }

  /** The tokens of a written file: the blocks' tokens, an `Empty` between
      two consecutive blocks. */
  function FileTokens(bs: seq<Block>): seq<EntryLine>
    decreases |bs|
  {
    if bs == [] then []
    else BlockTokens(bs[0]) + (if |bs| > 1 then [Empty] else []) + FileTokens(bs[1..])
  }

  lemma Regroup<T>(a: seq<T>, b: seq<T>, c: seq<T>, d: seq<T>, e: seq<T>)
    ensures a + b + c + d + e == a + b + (c + d + e)
  {
  }

  lemma Regroup3<T>(a: seq<T>, b: seq<T>, c: seq<T>)
    ensures a + b + c == a + (b + c)
  {
  }

  /** `FileLines` read from the front: the first block, the separator if
      more blocks follow, then the lines of the others. */
  lemma {:induction false} FileLinesCons(b: Block, bs: seq<Block>)
    ensures FileLines([b] + bs) == BlockLines(b) + (if bs != [] then [""] else []) + FileLines(bs)
    decreases |bs|
  {
    var e: seq<string> := [];
    if bs == [] {
      assert [b] + bs == [b];
      assert [b][..0] == [];
      assert FileLines([b]) == e + e + BlockLines(b);
      assert e + e + BlockLines(b) == BlockLines(b);
      assert BlockLines(b) + e + e == BlockLines(b);
    } else {
      var init := bs[..|bs| - 1];
      var last := bs[|bs| - 1];
      assert ([b] + bs)[..|[b] + bs| - 1] == [b] + init;
      assert ([b] + bs)[|[b] + bs| - 1] == last;
      FileLinesCons(b, init);
      if init == [] {
        assert bs == [last];
        assert [last][..0] == [];
        assert FileLines(bs) == e + e + BlockLines(last);
        assert e + e + BlockLines(last) == BlockLines(last);
        assert FileLines([b] + init) == BlockLines(b) + e + e;
        assert BlockLines(b) + e + e == BlockLines(b);
      } else {
        Regroup(BlockLines(b), [""], FileLines(init), [""], BlockLines(last));
      }
    }
  }

  /** No line of a readable block holds a line feed. */
  lemma BlockLinesOneLine(b: Block)
    requires BlockReadable(b)
    ensures forall l :: l in BlockLines(b) ==> '\n' !in l
  {
    var prefix := LockPrefix(b.isLocked);
    var cl := CommentLines(b.comments);
    var ol := OptionLines(prefix, b.options);
    assert forall l :: l in cl ==> '\n' !in l by {
      forall i | 0 <= i < |cl| ensures '\n' !in cl[i] {
        assert cl[i] == "# " + b.comments[i];
      }
    }
    assert forall l :: l in ol ==> '\n' !in l by {
      forall i | 0 <= i < |ol| ensures '\n' !in ol[i] {
        assert ol[i] == prefix + b.options[i].0 + " = " + b.options[i].1;
      }
    }
    assert '\n' !in HeaderLine(b);
  }

  lemma {:induction false} FileLinesOneLine(bs: seq<Block>)
    requires forall i :: 0 <= i < |bs| ==> BlockReadable(bs[i])
    ensures forall l :: l in FileLines(bs) ==> '\n' !in l
    decreases |bs|
  {
    if bs != [] {
      FileLinesCons(bs[0], bs[1..]);
      assert [bs[0]] + bs[1..] == bs;
      BlockLinesOneLine(bs[0]);
      FileLinesOneLine(bs[1..]);
    }
  }

  /** The block that `lines` leaves of a written block: one carriage return
      gone from the end of each comment and of each value. */
  function CrBlock(b: Block): Block {
    b.(comments := StripCrs(b.comments), options := CrOptions(b.options))
  }

  function CrOptions(kvs: seq<(string, string)>): (rs: seq<(string, string)>)
    ensures |rs| == |kvs| && forall i :: 0 <= i < |kvs| ==> rs[i] == (kvs[i].0, StripCr(kvs[i].1))
  {
    seq(|kvs|, i requires 0 <= i < |kvs| => (kvs[i].0, StripCr(kvs[i].1)))
  }

  function CrBlocks(bs: seq<Block>): (rs: seq<Block>)
    ensures |rs| == |bs| && forall i :: 0 <= i < |bs| ==> rs[i] == CrBlock(bs[i])
  {
    seq(|bs|, i requires 0 <= i < |bs| => CrBlock(bs[i]))
  }

  lemma StripCrBehind(p: string, c: string)
    requires p != [] && p[|p| - 1] != '\r'
    ensures StripCr(p + c) == p + StripCr(c)
  {
    if c != [] && c[|c| - 1] == '\r' {
      assert (p + c)[..|p + c| - 1] == p + c[..|c| - 1];
    }
  }

  lemma StripCrsAppend(a: seq<string>, b: seq<string>)
    ensures StripCrs(a + b) == StripCrs(a) + StripCrs(b)
  {
  }

  /** `lines` takes a carriage return off the end of the comment and value lines. */
  lemma BlockLinesCr(b: Block)
    ensures StripCrs(BlockLines(b)) == BlockLines(CrBlock(b))
  {
    var c := CrBlock(b);
    var prefix := LockPrefix(b.isLocked);
    var cl := CommentLines(b.comments);
    var pl: seq<string> := if b.isProduction then ["# production"] else [];
    var hl := [HeaderLine(b)];
    var ol := OptionLines(prefix, b.options);
    assert StripCrs(cl) == CommentLines(c.comments) by {
      forall i | 0 <= i < |cl| ensures StripCr(cl[i]) == "# " + StripCr(b.comments[i]) {
        StripCrBehind("# ", b.comments[i]);
      }
    }
    assert StripCrs(pl) == pl;
    assert StripCrs(hl) == [HeaderLine(c)] by {
      var l := HeaderLine(b);
      assert l[|l| - 1] == ']';
    }
    assert StripCrs(ol) == OptionLines(prefix, c.options) by {
      forall i | 0 <= i < |ol| ensures StripCr(ol[i]) == OptionLine(prefix, c.options[i]) {
        var kv := b.options[i];
        assert ol[i] == (prefix + kv.0 + " = ") + kv.1;
        StripCrBehind(prefix + kv.0 + " = ", kv.1);
      }
    }
    StripCrsAppend(cl, pl);
    StripCrsAppend(cl + pl, hl);
    StripCrsAppend(cl + pl + hl, ol);
  }

  lemma {:induction false} FileLinesCr(bs: seq<Block>)
    ensures StripCrs(FileLines(bs)) == FileLines(CrBlocks(bs))
    decreases |bs|
  {
    if bs != [] {
      var init := bs[..|bs| - 1];
      var cs := CrBlocks(bs);
      assert cs[..|cs| - 1] == CrBlocks(init);
      FileLinesCr(init);
      BlockLinesCr(bs[|bs| - 1]);
      var sep: seq<string> := if |bs| > 1 then [""] else [];
      StripCrsAppend(FileLines(init), sep);
      StripCrsAppend(FileLines(init) + sep, BlockLines(bs[|bs| - 1]));
    }
  }

  /** The block the lexer reads from the lines written for `b`. */
  function LexedBlock(b: Block): Block {
    b.(comments := ReadComments(b.comments), options := ReadOptions(b.isLocked, b.options))
  }

  function ReadComments(cs: seq<string>): (rs: seq<string>)
    ensures |rs| == |cs| && forall i :: 0 <= i < |cs| ==> rs[i] == ReadComment(cs[i])
  {
    seq(|cs|, i requires 0 <= i < |cs| => ReadComment(cs[i]))
  }

  function ReadOptions(locked: bool, kvs: seq<(string, string)>): (rs: seq<(string, string)>)
    ensures |rs| == |kvs| && forall i :: 0 <= i < |kvs| ==> rs[i] == (kvs[i].0, ReadValue(locked, kvs[i].1))
  {
    seq(|kvs|, i requires 0 <= i < |kvs| => (kvs[i].0, ReadValue(locked, kvs[i].1)))
  }

  function LexedBlocks(bs: seq<Block>): (rs: seq<Block>)
    ensures |rs| == |bs| && forall i :: 0 <= i < |bs| ==> rs[i] == LexedBlock(bs[i])
  {
    seq(|bs|, i requires 0 <= i < |bs| => LexedBlock(bs[i]))
  }

  /** A block as it comes back once written, split into lines and lexed. */
  function ReadBlock(b: Block): Block {
    LexedBlock(CrBlock(b))
  }

  function ReadBlocks(bs: seq<Block>): (rs: seq<Block>)
    ensures |rs| == |bs| && forall i :: 0 <= i < |bs| ==> rs[i] == ReadBlock(bs[i])
  {
    seq(|bs|, i requires 0 <= i < |bs| => ReadBlock(bs[i]))
  }

  /** What `lines` leaves of a readable block is still lexed line by line. */
  lemma CrBlockLexable(b: Block)
    requires BlockReadable(b)
    ensures BlockLexable(CrBlock(b))
  {
    forall i | 0 <= i < |b.comments| ensures CommentShaped(StripCr(b.comments[i])) {
      TrimStripCr(b.comments[i]);
    }
  }

  /** A well-formed block comes back exactly. */
  lemma ReadBlockOk(b: Block)
    requires BlockOk(b)
    ensures BlockReadable(b) && ReadBlock(b) == b
  {
    assert StripCrs(b.comments) == b.comments;
    assert CrOptions(b.options) == b.options by {
      forall i | 0 <= i < |b.options| ensures StripCr(b.options[i].1) == b.options[i].1 {
        var v := b.options[i].1;
        assert ValueOk(v);
      }
    }
    assert CrBlock(b) == b;
    assert ReadComments(b.comments) == b.comments;
    assert ReadOptions(b.isLocked, b.options) == b.options by {
      forall i | 0 <= i < |b.options| ensures ReadValue(b.isLocked, b.options[i].1) == b.options[i].1 {
        TrimOfTrimmed(b.options[i].1);
      }
    }
  }
  /** The lines of a block lex into the tokens of the block the lexer reads. */
  lemma TokenizeBlock(b: Block)
    requires BlockLexable(b)
    ensures TokenizeLines(BlockLines(b)) == Ok(BlockTokens(LexedBlock(b)))
  {
    var r := LexedBlock(b);
    var cl := CommentLines(b.comments);
    var ct := CommentTokens(r.comments);
    forall i | 0 <= i < |cl| ensures TokenizeLine(cl[i]) == Ok(ct[i]) {
      TokenizeComment(b.comments[i]);
    }
    CollectOk(cl, TokenizeLine, ct);
    var pl: seq<string> := if b.isProduction then ["# production"] else [];
    var pt: seq<EntryLine> := if b.isProduction then [ProductionMarker] else [];
    TokenizeProductionLine();
    CollectOk(pl, TokenizeLine, pt);
    var hl := [HeaderLine(b)];
    var ht := [HeaderToken(b.isLocked, b.header)];
    TokenizeHeader(b.isLocked, b.header);
    CollectOk(hl, TokenizeLine, ht);
    var ol := OptionLines(LockPrefix(b.isLocked), b.options);
    var ot := OptionTokens(b.isLocked, r.options);
    forall i | 0 <= i < |ol| ensures TokenizeLine(ol[i]) == Ok(ot[i]) {
      TokenizeOption(b.isLocked, b.options[i].0, b.options[i].1);
    }
    CollectOk(ol, TokenizeLine, ot);
    CollectAppend(cl, pl, TokenizeLine, ct, pt);
    CollectAppend(cl + pl, hl, TokenizeLine, ct + pt, ht);
    CollectAppend(cl + pl + hl, ol, TokenizeLine, ct + pt + ht, ot);
  }

  /** The lines of a file lex into the tokens of the blocks the lexer reads. */
  lemma {:induction false} TokenizeFile(bs: seq<Block>)
    requires forall i :: 0 <= i < |bs| ==> BlockLexable(bs[i])
    ensures TokenizeLines(FileLines(bs)) == Ok(FileTokens(LexedBlocks(bs)))
    decreases |bs|
  {
    if bs == [] {
    } else {
      var rest := bs[1..];
      var rs := LexedBlocks(bs);
      assert rs[1..] == LexedBlocks(rest);
      FileLinesCons(bs[0], rest);
      assert [bs[0]] + rest == bs;
      TokenizeBlock(bs[0]);
      TokenizeFile(rest);
      var sl: seq<string> := if rest != [] then [""] else [];
      var st: seq<EntryLine> := if rest != [] then [Empty] else [];
      TokenizeSeparator();
      CollectOk(sl, TokenizeLine, st);
      CollectAppend(BlockLines(bs[0]), sl, TokenizeLine, BlockTokens(rs[0]), st);
      CollectAppend(BlockLines(bs[0]) + sl, FileLines(rest), TokenizeLine, BlockTokens(rs[0]) + st, FileTokens(rs[1..]));
    }
  }
  // ---------------------------------------------------------------------
  // Tokens back into entries

  /** The tokens a written block can start with. */
  predicate IsBlockStart(t: EntryLine) {
    t.Comment? || t.ProductionMarker? || t.Header? || t.LockedHeader?
  }

  lemma BlockTokensStart(b: Block)
    ensures BlockTokens(b) != [] && IsBlockStart(BlockTokens(b)[0])
  {
  }

  /** Options inserted into a map in order, a later key replacing an earlier one. */
  function MapOf(kvs: seq<(string, string)>): map<string, string>
    decreases |kvs|
  {
    if kvs == [] then map[]
    else MapOf(kvs[..|kvs| - 1])[kvs[|kvs| - 1].0 := kvs[|kvs| - 1].1]
  }

  /** The entry a written block is parsed back into. */
  function EntryOfBlock(b: Block): Entry {
    Entry(b.comments, b.isProduction, b.isLocked, b.header, MapOf(b.options))
  }

  function EntriesOfBlocks(bs: seq<Block>): (es: seq<Entry>)
    ensures |es| == |bs| && forall i :: 0 <= i < |bs| ==> es[i] == EntryOfBlock(bs[i])
  {
    seq(|bs|, i requires 0 <= i < |bs| => EntryOfBlock(bs[i]))
  }

  lemma {:induction false} CommentsInTokens(ts: seq<EntryLine>, lo: nat, cs: seq<string>)
    requires lo + |cs| <= |ts|
    requires forall j :: lo <= j < lo + |cs| ==> ts[j] == Comment(cs[j - lo])
    ensures CommentsIn(ts, lo, lo + |cs|) == cs
    decreases |cs|
  {
    if cs != [] {
      var init := cs[..|cs| - 1];
      CommentsInTokens(ts, lo, init);
      assert cs == init + [cs[|cs| - 1]];
    }
  }

  lemma {:induction false} OptionsMapTokens(ts: seq<EntryLine>, lo: nat, locked: bool, kvs: seq<(string, string)>)
    requires lo + |kvs| <= |ts|
    requires forall j :: lo <= j < lo + |kvs| ==> ts[j] == OptionToken(locked, kvs[j - lo])
    ensures OptionsMap(ts, lo, lo + |kvs|) == MapOf(kvs)
    decreases |kvs|
  {
    if kvs != [] {
      var init := kvs[..|kvs| - 1];
      OptionsMapTokens(ts, lo, locked, init);
    }
  }

  /** The position of the header among the tokens of a block. */
  function HeaderIndex(b: Block): nat {
    |b.comments| + (if b.isProduction then 1 else 0)
  }

  /** Where each kind of token sits among the tokens of a block. */
  lemma BlockTokensLayout(b: Block)
    ensures |BlockTokens(b)| == HeaderIndex(b) + 1 + |b.options|
    ensures forall j :: 0 <= j < |b.comments| ==> BlockTokens(b)[j] == Comment(b.comments[j])
    ensures b.isProduction ==> BlockTokens(b)[|b.comments|] == ProductionMarker
    ensures BlockTokens(b)[HeaderIndex(b)] == HeaderToken(b.isLocked, b.header)
  {
    var ct := CommentTokens(b.comments);
    var pt: seq<EntryLine> := if b.isProduction then [ProductionMarker] else [];
    var a2 := ct + pt + [HeaderToken(b.isLocked, b.header)];
    assert BlockTokens(b) == a2 + OptionTokens(b.isLocked, b.options);
    assert forall j :: 0 <= j < |ct| ==> BlockTokens(b)[j] == ct[j];
  }

  lemma BlockTokenOption(b: Block, j: nat)
    requires j < |b.options|
    ensures HeaderIndex(b) + 1 + j < |BlockTokens(b)|
    ensures BlockTokens(b)[HeaderIndex(b) + 1 + j] == OptionToken(b.isLocked, b.options[j])
  {
    var ct := CommentTokens(b.comments);
    var pt: seq<EntryLine> := if b.isProduction then [ProductionMarker] else [];
    var a2 := ct + pt + [HeaderToken(b.isLocked, b.header)];
    var ot := OptionTokens(b.isLocked, b.options);
    assert BlockTokens(b) == a2 + ot;
    assert |a2| == HeaderIndex(b) + 1;
    assert (a2 + ot)[|a2| + j] == ot[j];
  }

  /** `ts` holds the tokens `xs` from position `i` on. */
  predicate TokensAt(ts: seq<EntryLine>, i: nat, xs: seq<EntryLine>) {
    i + |xs| <= |ts| && forall j :: i <= j < i + |xs| ==> ts[j] == xs[j - i]
  }

  /** The comment tokens of a block laid out from `i`. */
  lemma BlockCommentsAt(ts: seq<EntryLine>, i: nat, b: Block)
    requires TokensAt(ts, i, BlockTokens(b))
    ensures forall j :: i <= j < i + |b.comments| ==> ts[j] == Comment(b.comments[j - i])
  {
    BlockTokensLayout(b);
    forall j | i <= j < i + |b.comments| ensures ts[j] == Comment(b.comments[j - i]) {
      assert ts[j] == BlockTokens(b)[j - i];
    }
  }

  /** The option tokens of a block laid out from `i`. */
  lemma BlockOptionsAt(ts: seq<EntryLine>, i: nat, b: Block)
    requires TokensAt(ts, i, BlockTokens(b))
    ensures var h := i + HeaderIndex(b);
      forall j :: h + 1 <= j < h + 1 + |b.options| ==> ts[j] == OptionToken(b.isLocked, b.options[j - (h + 1)])
  {
    var h := i + HeaderIndex(b);
    forall j | h + 1 <= j < h + 1 + |b.options| ensures ts[j] == OptionToken(b.isLocked, b.options[j - (h + 1)]) {
      BlockTokenOption(b, j - (h + 1));
      assert ts[j] == BlockTokens(b)[j - i];
    }
  }

  /** Where the tokens after a block's values end: past the blank line
      that separates it from the next block, or at the end. */
  function AfterBlock(ts: seq<EntryLine>, i: nat, b: Block): nat {
    var e := i + |BlockTokens(b)|;
    if e == |ts| then e else e + 1
  }

  /** The phases before the header stop at the header of a written block. */
  lemma BlockFiller(ts: seq<EntryLine>, i: nat, b: Block)
    requires TokensAt(ts, i, BlockTokens(b))
    ensures FillerEnd(ts, i) == i + |b.comments| && DataStart(ts, i) == i + HeaderIndex(b)
    ensures ts[i + HeaderIndex(b)] == HeaderToken(b.isLocked, b.header)
    ensures ts[i + |b.comments|].ProductionMarker? == b.isProduction
  {
    BlockTokensLayout(b);
    var m := i + |b.comments|;
    BlockCommentsAt(ts, i, b);
    SkipWhileAt(ts, i, m, IsFiller);
    if b.isProduction {
      SkipWhileAt(ts, m + 1, m + 1, IsFiller);
    }
  }

  /** The values of a written block run up to the next block. */
  lemma BlockValuesEnd(ts: seq<EntryLine>, i: nat, b: Block)
    requires TokensAt(ts, i, BlockTokens(b))
    requires var e := i + |BlockTokens(b)|;
      e == |ts| || (ts[e].Empty? && e + 1 < |ts| && IsBlockStart(ts[e + 1]))
    ensures var h := i + HeaderIndex(b);
      h < AfterBlock(ts, i, b) <= |ts|
      && ValuesEnd(ts, h + 1, b.isLocked) == AfterBlock(ts, i, b)
      && (AfterBlock(ts, i, b) < |ts| ==> IsBlockStart(ts[AfterBlock(ts, i, b)]))
  {
    BlockTokensLayout(b);
    BlockOptionsAt(ts, i, b);
    SkipWhileAt(ts, i + HeaderIndex(b) + 1, AfterBlock(ts, i, b), InValues(b.isLocked));
  }

  /** The comments and the values read from a written block are its own. */
  lemma BlockComments(ts: seq<EntryLine>, i: nat, b: Block)
    requires TokensAt(ts, i, BlockTokens(b))
    ensures i + HeaderIndex(b) <= |ts| && CommentsIn(ts, i, i + HeaderIndex(b)) == b.comments
  {
    BlockTokensLayout(b);
    var m := i + |b.comments|;
    var h := i + HeaderIndex(b);
    BlockCommentsAt(ts, i, b);
    CommentsInTokens(ts, i, b.comments);
    CommentsInNone(ts, m, h);
    CommentsInSplit(ts, i, m, h);
  }

  lemma BlockOptions(ts: seq<EntryLine>, i: nat, b: Block)
    requires TokensAt(ts, i, BlockTokens(b))
    requires var e := i + |BlockTokens(b)|;
      e == |ts| || (ts[e].Empty? && e + 1 < |ts| && IsBlockStart(ts[e + 1]))
    ensures i + HeaderIndex(b) < AfterBlock(ts, i, b) <= |ts|
    ensures OptionsMap(ts, i + HeaderIndex(b) + 1, AfterBlock(ts, i, b)) == MapOf(b.options)
  {
    BlockTokensLayout(b);
    var h := i + HeaderIndex(b);
    var e := i + |BlockTokens(b)|;
    BlockOptionsAt(ts, i, b);
    OptionsMapTokens(ts, h + 1, b.isLocked, b.options);
    if e < |ts| {
      OptionsMapSkipsEmpty(ts, h + 1, e);
    }
  }

  /** `parse_one` at the start of a written block gives the block's entry,
      and stops at the start of the next block (past the blank line), or at
      the end of the tokens. */
  lemma ParseOneBlock(ts: seq<EntryLine>, i: nat, b: Block)
    requires TokensAt(ts, i, BlockTokens(b))
    requires var e := i + |BlockTokens(b)|;
      e == |ts| || (ts[e].Empty? && e + 1 < |ts| && IsBlockStart(ts[e + 1]))
    ensures ParseOneAt(ts, i) == Step(Ok(Some(EntryOfBlock(b))), AfterBlock(ts, i, b))
  {
    BlockParts(ts, i, b);
    ReadEntryOf(ts, i, i + |b.comments|, i + HeaderIndex(b), AfterBlock(ts, i, b), b);
    ParseOneAtReadsEntry(ts, i);
  }

  /** The positions and the parts of a written block, as `ReadEntryOf` wants them. */
  lemma BlockParts(ts: seq<EntryLine>, i: nat, b: Block)
    requires TokensAt(ts, i, BlockTokens(b))
    requires var e := i + |BlockTokens(b)|;
      e == |ts| || (ts[e].Empty? && e + 1 < |ts| && IsBlockStart(ts[e + 1]))
    ensures var m, h, v := i + |b.comments|, i + HeaderIndex(b), AfterBlock(ts, i, b);
      && i <= m <= h < v <= |ts|
      && FillerEnd(ts, i) == m && DataStart(ts, i) == h
      && ts[h] == HeaderToken(b.isLocked, b.header)
      && ts[m].ProductionMarker? == b.isProduction
      && ValuesEnd(ts, h + 1, b.isLocked) == v && (v < |ts| ==> IsBlockStart(ts[v]))
      && CommentsIn(ts, i, h) == b.comments && OptionsMap(ts, h + 1, v) == MapOf(b.options)
  {
    BlockFiller(ts, i, b);
    BlockValuesEnd(ts, i, b);
    BlockComments(ts, i, b);
    BlockOptions(ts, i, b);
  }

  /** `ReadEntry` once the positions of the parts of an entry are known. */
  lemma ReadEntryOf(ts: seq<EntryLine>, i: nat, m: nat, h: nat, v: nat, b: Block)
    requires i <= m <= h < v <= |ts|
    requires FillerEnd(ts, i) == m && DataStart(ts, i) == h
    requires ts[h] == HeaderToken(b.isLocked, b.header)
    requires ts[m].ProductionMarker? == b.isProduction
    requires ValuesEnd(ts, h + 1, b.isLocked) == v && (v < |ts| ==> IsBlockStart(ts[v]))
    requires CommentsIn(ts, i, h) == b.comments && OptionsMap(ts, h + 1, v) == MapOf(b.options)
    ensures ReadEntry(ts, i) == Step(Ok(Some(EntryOfBlock(b))), v)
  {
    assert !ts[h].Empty?;
  }

  lemma OptionsMapSkipsEmpty(ts: seq<EntryLine>, lo: nat, hi: nat)
    requires lo <= hi < |ts| && ts[hi].Empty?
    ensures OptionsMap(ts, lo, hi + 1) == OptionsMap(ts, lo, hi)
  {
  }

  lemma Regroup4<T>(a: seq<T>, b: seq<T>, c: seq<T>, d: seq<T>)
    ensures a + (b + c + d) == a + b + c + d
    ensures a + (b + c + d) == a + b + (c + d)
  {
  }

  /** The middle of a concatenation is found at its offset. */
  lemma MiddleAt<T>(ts: seq<T>, a: seq<T>, b: seq<T>, c: seq<T>)
    requires ts == a + b + c
    ensures forall j :: |a| <= j < |a| + |b| ==> ts[j] == b[j - |a|]
  {
  }

  /** Parsing the tokens of written blocks, behind any tokens already
      consumed, gives one entry per block, in order, and reaches the end. */
  lemma {:induction false} ParseFileTokens(pre: seq<EntryLine>, bs: seq<Block>, acc: seq<Entry>)
    ensures ParseFrom(pre + FileTokens(bs), |pre|, acc)
      == Step(Ok(acc + EntriesOfBlocks(bs)), |pre + FileTokens(bs)|)
    decreases |bs|
  {
    var ts := pre + FileTokens(bs);
    if bs == [] {
      assert ts == pre;
      ParseOneAtReadsEntry(ts, |ts|);
      assert acc + EntriesOfBlocks(bs) == acc;
    } else {
      var b := bs[0];
      var rest := bs[1..];
      var bt := BlockTokens(b);
      var sep: seq<EntryLine> := if |bs| > 1 then [Empty] else [];
      var ft := FileTokens(rest);
      var pre2 := pre + bt + sep;
      assert FileTokens(bs) == bt + sep + ft;
      assert ts == pre2 + ft && ts == pre + bt + (sep + ft) by {
        Regroup4(pre, bt, sep, ft);
      }
      assert TokensAt(ts, |pre|, bt) by {
        MiddleAt(ts, pre, bt, sep + ft);
      }
      var e := |pre| + |bt|;
      if rest != [] {
        BlockTokensStart(rest[0]);
        assert ft[0] == BlockTokens(rest[0])[0];
        assert ts[e] == Empty && ts[e + 1] == ft[0];
      }
      ParseOneBlock(ts, |pre|, b);
      assert AfterBlock(ts, |pre|, b) == |pre2|;
      ParseFileTokens(pre2, rest, acc + [EntryOfBlock(b)]);
      EntriesOfBlocksCons(bs);
      Regroup3(acc, [EntryOfBlock(b)], EntriesOfBlocks(rest));
    }
  }

  lemma EntriesOfBlocksCons(bs: seq<Block>)
    requires bs != []
    ensures EntriesOfBlocks(bs) == [EntryOfBlock(bs[0])] + EntriesOfBlocks(bs[1..])
  {
  }

  /** Splitting the text of readable blocks into lines gives the lines of
      the blocks less their final carriage returns. */
  lemma FileLinesRead(bs: seq<Block>)
    requires forall i :: 0 <= i < |bs| ==> BlockReadable(bs[i])
    ensures Lines(JoinLines(FileLines(bs))) == FileLines(CrBlocks(bs))
  {
    var ls := FileLines(bs);
    FileLinesOneLine(bs);
    assert forall i :: 0 <= i < |ls| ==> '\n' !in ls[i] by {
      assert forall i :: 0 <= i < |ls| ==> ls[i] in ls;
    }
    LinesOfJoinLines(ls);
    FileLinesCr(bs);
  }

  /** The tokens of written blocks are parsed into the blocks' entries. */
  lemma ParseFileEntries(bs: seq<Block>)
    ensures ParseEntries(FileTokens(bs)) == Ok(EntriesOfBlocks(bs))
  {
    ParseFileTokens([], bs, []);
    assert [] + FileTokens(bs) == FileTokens(bs);
    assert [] + EntriesOfBlocks(bs) == EntriesOfBlocks(bs);
  }

  /** A file written from readable blocks is read back as the entries of
      the blocks as they come back, in order. */
  lemma FileEntriesRead(bs: seq<Block>)
    requires forall i :: 0 <= i < |bs| ==> BlockReadable(bs[i])
    ensures EntriesOf(JoinLines(FileLines(bs))) == Ok(EntriesOfBlocks(ReadBlocks(bs)))
  {
    var cbs := CrBlocks(bs);
    assert Lines(JoinLines(FileLines(bs))) == FileLines(cbs) by {
      FileLinesRead(bs);
    }
    assert TokenizeLines(FileLines(cbs)) == Ok(FileTokens(ReadBlocks(bs))) by {
      forall i | 0 <= i < |cbs| ensures BlockLexable(cbs[i]) {
        CrBlockLexable(bs[i]);
      }
      TokenizeFile(cbs);
      assert LexedBlocks(cbs) == ReadBlocks(bs);
    }
    assert ParseEntries(FileTokens(ReadBlocks(bs))) == Ok(EntriesOfBlocks(ReadBlocks(bs))) by {
      ParseFileEntries(ReadBlocks(bs));
    }
  }

  /** A file written from well-formed blocks is read back as exactly the
      blocks' entries, in order. */
  lemma FileEntries(bs: seq<Block>)
    requires forall i :: 0 <= i < |bs| ==> BlockOk(bs[i])
    ensures EntriesOf(JoinLines(FileLines(bs))) == Ok(EntriesOfBlocks(bs))
  {
    forall i | 0 <= i < |bs| ensures BlockReadable(bs[i]) && ReadBlock(bs[i]) == bs[i] {
      ReadBlockOk(bs[i]);
    }
    FileEntriesRead(bs);
    assert ReadBlocks(bs) == bs;
  }
}
