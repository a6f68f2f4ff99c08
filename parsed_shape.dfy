/** What a successful parse can give.  Every comment the lexer reads off a
    line of a file is again a comment once written as `# c`, every name and
    value is on one line, and every profile name is one that both headers
    give back; so whatever the files hold, the profiles of a successful
    parse are carried through a write and a second parse record by record
    (`ProfileRoundTrip.WriteThenParseRead`). */
module ParsedShape {
  import opened Errors
  import opened Text
  import opened LineLexer
  import opened LineParser
  import opened AwsProfiles
  import opened RoundTrip
  import opened ProfileRoundTrip

  /** A token whose text the writer puts back on a line of the same kind. */
  predicate TokenReadable(t: EntryLine) {
    match t
    case Comment(c) => CommentReadable(c)
    case Header(n) => '\n' !in n
    case LockedHeader(n) => '\n' !in n
    case Option(_, v) => '\n' !in v
    case LockedOption(_, v) => '\n' !in v
    case _ => true
  }

  predicate TokensReadable(ts: seq<EntryLine>) {
    forall i :: 0 <= i < |ts| ==> TokenReadable(ts[i])
  }

  /** An entry whose comments are readable and whose header and values are
      on one line. */
  predicate EntryReadable(e: Entry) {
    && CommentsReadable(e.comments)
    && '\n' !in e.header
    && forall k :: k in e.values ==> '\n' !in e.values[k]
  }

  predicate EntriesReadable(es: seq<Entry>) {
    forall i :: 0 <= i < |es| ==> EntryReadable(es[i])
  }

  // ---------------------------------------------------------------------
  // One line

  lemma TrimStartOneLine(s: string)
    requires '\n' !in s
    ensures '\n' !in TrimStart(s)
  {
    TrimStartShape(s);
  }

  /** The value split off a line is on one line. */
  lemma SplitValueOneLine(s: string)
    requires '=' in s && '\n' !in s
    ensures '\n' !in SplitOption(s).1
  {
    var k := FindChar(s, '=');
    var post := s[k + 1..];
    assert s == s[..k] + "=" + post;
    SplitOptionOf(s[..k], post);
    assert forall c :: c in post ==> c in s;
    TrimStartOneLine(post);
  }

  /** The inner text of a commented line is on one line. */
  lemma CommentInnerOneLine(line: string)
    requires Trim(line) != [] && '\n' !in line
    ensures '\n' !in CommentInner(line)
  {
    var t := Trim(line);
    TrimShape(line);
    assert forall c :: c in t[1..] ==> c in t;
    TrimShape(t[1..]);
  }

  /** A commented line is the white space before its `#`, the `#`, and the
      rest; its inner text is the trimmed rest, which also comes from
      trimming the end first. */
  lemma CommentedShape(line: string) returns (a: nat, r: string)
    requires StartsWithChar(Trim(line), '#')
    ensures a < |line| && line == line[..a] + "#" + r && IsBlank(line[..a])
    ensures Trim(line) == "#" + TrimEnd(r)
    ensures CommentInner(line) == Trim(r) == TrimStart(TrimEnd(r))
  {
    var ts := TrimStart(line);
    TrimStartShape(line);
    TrimEndShape(ts);
    a := |line| - |ts|;
    assert ts != [] && ts[0] == '#';
    r := ts[1..];
    assert ts == "#" + r;
    assert line == line[..a] + "#" + r;
    TrimEndCons('#', r);
    assert Trim(line) == "#" + TrimEnd(r);
    assert Trim(line)[1..] == TrimEnd(r);
    TrimStartEndCommute(r);
    TrimEndIdempotent(TrimStart(r));
  }

  /** Text after white space and a `#` is shaped like a comment when the
      trimmed text after the `#` has no `=`. */
  lemma HashTextShaped(w: string, r: string)
    requires IsBlank(w) && '=' !in TrimStart(TrimEnd(r))
    ensures CommentShaped(w + "#" + r)
  {
    assert w + "#" + r == w + ("#" + r);
    TrimStartAfterBlank(w, "#" + r);
    assert TrimStart("#" + r) == "#" + r;
    TrimEndCons('#', r);
    var t := Trim(w + "#" + r);
    assert t == "#" + TrimEnd(r);
    assert t != "production" && !IsBracketed(t);
    if '=' in t {
      assert '=' in TrimEnd(r);
      KeptByTrimStart(TrimEnd(r), '=');
    }
  }

  /** A comment text that starts after the `#` trims to the inner text. */
  lemma AfterHashText(line: string, a: nat, r: string)
    requires a < |line| && line == line[..a] + "#" + r && Trim(line) == "#" + TrimEnd(r)
    requires CommentStart(line) > a
    ensures Trim(line[CommentStart(line)..]) == Trim(r)
  {
    var start := CommentStart(line);
    if a == 0 {
      assert line == "#" + r;
      if start == 2 {
        assert Trim(line)[1] == ' ';
        TrimEndShape(r);
        assert r != [] && r[0] == ' ' && line[2..] == r[1..];
        assert TrimStart(r) == TrimStart(r[1..]);
      } else {
        assert line[1..] == r;
      }
    } else {
      assert line[2..] == r;
    }
  }

  /** A comment text that starts before the `#` keeps it, behind white space. */
  lemma BeforeHashText(line: string, a: nat, r: string, start: nat)
    requires a < |line| && line == line[..a] + "#" + r && IsBlank(line[..a]) && start <= a
    ensures IsBlank(line[start..a]) && line[start..] == line[start..a] + "#" + r
  {
    assert line[..a] == line[..start] + line[start..a];
    assert forall j :: 0 <= j < a - start ==> line[start..a][j] == line[..a][start + j];
  }

  /** The text of a plain comment token is a comment the writer puts back:
      trimmed, it is either the trimmed text after the `#` or that text
      with the `#` still in front, and neither reads as the production
      marker, a header or an option. */
  lemma CommentTextReadable(line: string)
    requires StartsWithChar(Trim(line), '#') && '\n' !in line
    requires TokenizeCommented(line).Comment?
    ensures CommentReadable(TokenizeCommented(line).text)
  {
    var start := CommentStart(line);
    var text := TokenizeCommented(line).text;
    assert text == line[start..];
    assert '\n' !in text by {
      assert forall j :: 0 <= j < |text| ==> text[j] == line[start + j];
    }
    var a, r := CommentedShape(line);
    if start > a {
      AfterHashText(line, a, r);
    } else {
      BeforeHashText(line, a, r, start);
      HashTextShaped(line[start..a], r);
    }
  }

  /** Every token the lexer makes of a line is readable. */
  lemma TokenizeLineReadable(line: string)
    requires '\n' !in line && TokenizeLine(line).Ok?
    ensures TokenReadable(TokenizeLine(line).value)
  {
    var t := TokenizeLine(line).value;
    if StartsWithChar(Trim(line), '#') {
      match t
      case Comment(_) =>
        CommentTextReadable(line);
      case LockedHeader(n) =>
        CommentInnerOneLine(line);
        assert forall c :: c in n ==> c in CommentInner(line) by {
          assert forall j :: 0 <= j < |n| ==> n[j] == CommentInner(line)[1 + j];
        }
      case LockedOption(_, _) =>
        CommentInnerOneLine(line);
        SplitValueOneLine(CommentInner(line));
      case _ =>
    } else {
      match t
      case Header(n) =>
        assert forall j :: 0 <= j < |n| ==> n[j] == line[1 + j];
      case Option(_, _) =>
        SplitValueOneLine(line);
      case _ =>
    }
  }

  lemma TokenizeLinesReadable(lines: seq<string>)
    requires (forall i :: 0 <= i < |lines| ==> '\n' !in lines[i]) && TokenizeLines(lines).Ok?
    ensures TokensReadable(TokenizeLines(lines).value)
  {
    var ts := TokenizeLines(lines).value;
    forall i | 0 <= i < |ts| ensures TokenReadable(ts[i]) {
      TokenizeLineReadable(lines[i]);
    }
  }

  // ---------------------------------------------------------------------
  // Entries

  lemma {:induction false} CommentsInReadable(ts: seq<EntryLine>, lo: nat, hi: nat)
    requires lo <= hi <= |ts| && TokensReadable(ts)
    ensures CommentsReadable(CommentsIn(ts, lo, hi))
    decreases hi - lo
  {
    if lo < hi {
      CommentsInReadable(ts, lo, hi - 1);
      assert TokenReadable(ts[hi - 1]);
    }
  }

  lemma {:induction false} OptionsMapReadable(ts: seq<EntryLine>, lo: nat, hi: nat)
    requires lo <= hi <= |ts| && TokensReadable(ts)
    ensures forall k :: k in OptionsMap(ts, lo, hi) ==> '\n' !in OptionsMap(ts, lo, hi)[k]
    decreases hi - lo
  {
    if lo < hi {
      OptionsMapReadable(ts, lo, hi - 1);
      assert TokenReadable(ts[hi - 1]);
    }
  }

  /** The entry `parse_one` reads from readable tokens is readable. */
  lemma ParseOneReadable(ts: seq<EntryLine>, i: nat)
    requires i <= |ts| && TokensReadable(ts)
    ensures var one := ParseOneAt(ts, i);
      one.result.Ok? && one.result.value.Some? ==> EntryReadable(one.result.value.value)
  {
    var one := ParseOneAt(ts, i);
    if one.result.Ok? && one.result.value.Some? {
      ParseOneEntry(ts, i);
      var h := DataStart(ts, i);
      EntryOfReadable(ts, i, h, one.next, one.result.value.value);
    }
  }

  lemma EntryOfReadable(ts: seq<EntryLine>, i: nat, h: nat, v: nat, e: Entry)
    requires i <= h < v <= |ts| && TokensReadable(ts) && (ts[h].Header? || ts[h].LockedHeader?)
    requires e.comments == CommentsIn(ts, i, h) && e.header == ts[h].name && e.values == OptionsMap(ts, h + 1, v)
    ensures EntryReadable(e)
  {
    CommentsInReadable(ts, i, h);
    OptionsMapReadable(ts, h + 1, v);
    assert TokenReadable(ts[h]);
  }

  /** Every entry parsed from readable tokens is readable. */
  lemma {:induction false} ParseFromReadable(ts: seq<EntryLine>, i: nat, acc: seq<Entry>)
    requires i <= |ts| && TokensReadable(ts) && EntriesReadable(acc)
    ensures ParseFrom(ts, i, acc).result.Ok? ==> EntriesReadable(ParseFrom(ts, i, acc).result.value)
    decreases |ts| - i
  {
    var one := ParseOneAt(ts, i);
    if one.result.Ok? && one.result.value.Some? {
      ParseOneReadable(ts, i);
      ParseFromReadable(ts, one.next, acc + [one.result.value.value]);
    }
  }

  /** Every entry read from the text of a file is readable. */
  lemma EntriesOfReadable(text: string)
    requires EntriesOf(text).Ok?
    ensures EntriesReadable(EntriesOf(text).value)
  {
    TokenizeLinesReadable(Lines(text));
    ParseFromReadable(TokenizeLines(Lines(text)).value, 0, []);
  }

  // ---------------------------------------------------------------------
  // Records and profiles

  lemma ConfigNameOk(header: string)
    requires ConfigName(header).Ok? && '\n' !in header
    ensures NameOk(ConfigName(header).value)
  {
    if header != "default" {
      assert forall j :: 0 <= j < |header| - 8 ==> header[8..][j] == header[8 + j];
    }
  }

  /** Every record `parse_config` gives is readable. */
  lemma ParsedConfigsReadable(text: string)
    requires ParseConfigText(text).Ok?
    ensures forall i :: 0 <= i < |ParseConfigText(text).value| ==> ConfigReadable(ParseConfigText(text).value[i])
  {
    var es := EntriesOf(text).value;
    var cs := ParseConfigText(text).value;
    EntriesOfReadable(text);
    forall i | 0 <= i < |cs| ensures ConfigReadable(cs[i]) {
      assert ConfigOf(es[i]) == Ok(cs[i]);
      ConfigNameOk(es[i].header);
    }
  }

  /** Every record `parse_credentials` gives is readable. */
  lemma ParsedCredentialsReadable(text: string)
    requires ParseCredentialsText(text).Ok?
    ensures forall i :: 0 <= i < |ParseCredentialsText(text).value| ==> CredentialReadable(ParseCredentialsText(text).value[i])
  {
    var es := EntriesOf(text).value;
    var ds := ParseCredentialsText(text).value;
    EntriesOfReadable(text);
    forall i | 0 <= i < |ds| ensures CredentialReadable(ds[i]) {
      assert CredentialOf(es[i]) == Ok(ds[i]);
    }
  }

  /** The record kept for a name is one of the records. */
  lemma {:induction false} ConfigsByNameIn(cs: seq<AwsConfig>, n: ProfileName)
    requires n in ConfigsByName(cs)
    ensures ConfigsByName(cs)[n] in cs
    decreases |cs|
  {
    var last := cs[|cs| - 1];
    if n != last.name {
      ConfigsByNameIn(cs[..|cs| - 1], n);
    }
  }

  lemma {:induction false} CredentialsByNameIn(ds: seq<AwsCredential>, n: ProfileName)
    requires n in CredentialsByName(ds)
    ensures CredentialsByName(ds)[n] in ds
    decreases |ds|
  {
    var last := ds[|ds| - 1];
    if n != last.name {
      CredentialsByNameIn(ds[..|ds| - 1], n);
    }
  }

  /** Merging readable records gives readable profiles. */
  lemma MergeReadable(cs: seq<AwsConfig>, ds: seq<AwsCredential>)
    requires Merge(cs, ds).Ok?
    requires forall i :: 0 <= i < |cs| ==> ConfigReadable(cs[i])
    requires forall i :: 0 <= i < |ds| ==> CredentialReadable(ds[i])
    ensures forall i :: 0 <= i < |Merge(cs, ds).value| ==> ProfileReadable(Merge(cs, ds).value[i])
  {
    MergeCases(cs, ds);
    var ns := MergeNames(cs, ds);
    var ps := Merge(cs, ds).value;
    var cm := ConfigsByName(cs);
    var dm := CredentialsByName(ds);
    forall i | 0 <= i < |ps| ensures ProfileReadable(ps[i]) {
      var n := ns[i];
      assert n in ConfigNames(cs) + CredentialNames(ds);
      assert n in cm && n in dm;
      ConfigsByNameIn(cs, n);
      CredentialsByNameIn(ds, n);
      var c := cm[n];
      var d := dm[n];
      assert ConfigReadable(c) && CredentialReadable(d);
      assert NameOk(n) by {
        var j :| 0 <= j < |cs| && cs[j].name == n;
      }
    }
  }

  /** Whatever the two files hold, the profiles of a successful parse are
      readable and no two share a name. */
  lemma ParsedReadable(configText: string, credentialsText: string)
    requires ParseProfiles(configText, credentialsText).Ok?
    ensures ProfilesReadable(ParseProfiles(configText, credentialsText).value)
  {
    ParsedConfigsReadable(configText);
    ParsedCredentialsReadable(credentialsText);
    MergeReadable(ParseConfigText(configText).value, ParseCredentialsText(credentialsText).value);
    ParsedNamesDistinct(configText, credentialsText);
  }
}
