/** The entry parser: a cursor over the token list that groups tokens into
    entries, one per profile record of a file.  Each phase of `parse_one` is
    specified by a function of the token list and the starting cursor that
    gives both the phase's result and the cursor it leaves behind; the
    methods of `EntryLineParser` advance the cursor token by token and are
    proved to compute those functions. */
module LineParser {
  import opened Errors
  import opened LineLexer

  /** One profile record of one file. */
  datatype Entry = Entry(
    comments: seq<string>,
    isProduction: bool,
    isLocked: bool,
    header: string,
    values: map<string, string>)

  /** A phase's outcome together with the cursor it leaves behind. */
  datatype Step<R> = Step(result: R, next: nat)

  predicate IsEmptyLine(t: EntryLine) {
    t.Empty?
  }

  /** Tokens that the phases before the header skip (comments are collected). */
  predicate IsFiller(t: EntryLine) {
    t.Empty? || t.Comment?
  }

  /** Tokens that `parse_values` consumes: blank lines, locked options in any
      entry, and unlocked options in an unlocked entry. */
  function InValues(locked: bool): EntryLine -> bool {
    (t: EntryLine) => t.Empty? || t.LockedOption? || (t.Option? && !locked)
  }

  /** The first position at or after `i` whose token fails `p`. */
  function SkipWhile(ts: seq<EntryLine>, i: nat, p: EntryLine -> bool): (k: nat)
    requires i <= |ts|
    ensures i <= k <= |ts|
    ensures forall j :: i <= j < k ==> p(ts[j])
    ensures k < |ts| ==> !p(ts[k])
    decreases |ts| - i
  {
    if i < |ts| && p(ts[i]) then SkipWhile(ts, i + 1, p) else i
  }

  function FillerEnd(ts: seq<EntryLine>, i: nat): nat
    requires i <= |ts|
  {
    SkipWhile(ts, i, IsFiller)
  }

  function ValuesEnd(ts: seq<EntryLine>, i: nat, locked: bool): nat
    requires i <= |ts|
  {
    SkipWhile(ts, i, InValues(locked))
  }

  /** The texts of the comment tokens in positions `lo` to `hi`, in order. */
  function CommentsIn(ts: seq<EntryLine>, lo: nat, hi: nat): seq<string>
    requires lo <= hi <= |ts|
    decreases hi - lo
  {
    if lo == hi then []
    else CommentsIn(ts, lo, hi - 1) + (if ts[hi - 1].Comment? then [ts[hi - 1].text] else [])
  }

  /** The map built by inserting the option tokens in positions `lo` to `hi`
      in order, so that a later key overwrites an earlier one. */
  function OptionsMap(ts: seq<EntryLine>, lo: nat, hi: nat): map<string, string>
    requires lo <= hi <= |ts|
    decreases hi - lo
  {
    if lo == hi then map[]
    else
      var m := OptionsMap(ts, lo, hi - 1);
      match ts[hi - 1]
      case Option(k, v) => m[k := v]
      case LockedOption(k, v) => m[k := v]
      case _ => m
  }

  /** `parse_is_production`: comments and blank lines up to the first other
      token; a production marker there is consumed. */
  function ScanIsProduction(ts: seq<EntryLine>, i: nat): (s: Step<Result<(seq<string>, bool)>>)
    requires i <= |ts|
    ensures i <= s.next <= |ts|
  {
    var k := FillerEnd(ts, i);
    if k == |ts| then Step(Err(EofScanningIsProduction), k)
    else if ts[k].ProductionMarker? then Step(Ok((CommentsIn(ts, i, k), true)), k + 1)
    else Step(Ok((CommentsIn(ts, i, k), false)), k)
  }

  /** `parse_is_locked`: the first token after comments and blank lines
      decides lockedness and is left in place. */
  function ScanIsLocked(ts: seq<EntryLine>, i: nat): (s: Step<Result<(seq<string>, bool)>>)
    requires i <= |ts|
    ensures i <= s.next <= |ts|
  {
    var k := FillerEnd(ts, i);
    if k == |ts| then Step(Err(EofScanningIsLocked), k)
    else if ts[k].ProductionMarker? then Step(Err(UnexpectedProductionMarker), k)
    else Step(Ok((CommentsIn(ts, i, k), ts[k].LockedHeader? || ts[k].LockedOption?)), k)
  }

  /** `parse_header`: the header token that matches the lockedness, consumed. */
  function ScanHeader(ts: seq<EntryLine>, i: nat, locked: bool): (s: Step<Result<(seq<string>, string)>>)
    requires i <= |ts|
    ensures i <= s.next <= |ts|
    ensures s.result.Ok? ==> i < s.next
  {
    var k := FillerEnd(ts, i);
    if k == |ts| then Step(Err(EofScanningHeader), k)
    else if ts[k].ProductionMarker? then Step(Err(ProductionMarkerInHeader), k)
    else if (ts[k].Header? && !locked) || (ts[k].LockedHeader? && locked) then
      Step(Ok((CommentsIn(ts, i, k), ts[k].name)), k + 1)
    else Step(Err(UnexpectedLineInHeader), k)
  }

  /** `parse_values`: options up to the first token that starts another entry
      (left in place) or the end of input; an unlocked option in a locked
      entry is an error. */
  function ScanValues(ts: seq<EntryLine>, i: nat, locked: bool): (s: Step<Result<(seq<string>, map<string, string>)>>)
    requires i <= |ts|
    ensures i <= s.next <= |ts|
  {
    var k := ValuesEnd(ts, i, locked);
    if k < |ts| && ts[k].Option? then Step(Err(UnexpectedLineInValues), k)
    else Step(Ok(([], OptionsMap(ts, i, k))), k)
  }

  /** `parse_one`: `None` once only blank lines remain, else one entry. */
  function ParseOneAt(ts: seq<EntryLine>, i: nat): (s: Step<Result<Errors.Option<Entry>>>)
    requires i <= |ts|
    ensures i <= s.next <= |ts|
    ensures s.result == Ok(None) <==> forall j :: i <= j < |ts| ==> ts[j].Empty?
    ensures s.result == Ok(None) ==> s.next == |ts|
    ensures s.result.Ok? && s.result.value.Some? ==> i < s.next
  {
    var k := SkipWhile(ts, i, IsEmptyLine);
    if k == |ts| then Step(Ok(None), k) else EntryAt(ts, k)
  }

  /** The four phases of `parse_one` once a token other than a blank line
      is under the cursor: production flag, lockedness, then the rest. */
  function EntryAt(ts: seq<EntryLine>, k: nat): (s: Step<Result<Errors.Option<Entry>>>)
    requires k <= |ts|
    ensures k <= s.next <= |ts|
    ensures s.result.Ok? ==> s.result.value.Some? && k < s.next
  {
    var p := ScanIsProduction(ts, k);
    if p.result.Err? then Step(Err(p.result.error), p.next)
    else
      var l := ScanIsLocked(ts, p.next);
      if l.result.Err? then Step(Err(l.result.error), l.next)
      else EntryBodyAt(ts, l.next, p.result.value.0 + l.result.value.0, p.result.value.1, l.result.value.1)
  }

  /** The header and values phases of `parse_one`, given the comments, the
      production flag and the lockedness found so far. */
  function EntryBodyAt(ts: seq<EntryLine>, j: nat, comments: seq<string>, isProduction: bool, locked: bool)
    : (s: Step<Result<Errors.Option<Entry>>>)
    requires j <= |ts|
    ensures j <= s.next <= |ts|
    ensures s.result.Ok? ==> s.result.value.Some? && j < s.next
  {
    var h := ScanHeader(ts, j, locked);
    if h.result.Err? then Step(Err(h.result.error), h.next)
    else
      var v := ScanValues(ts, h.next, locked);
      if v.result.Err? then Step(Err(v.result.error), v.next)
      else
        var all := comments + h.result.value.0 + v.result.value.0;
        Step(Ok(Some(Entry(all, isProduction, locked, h.result.value.1, v.result.value.1))), v.next)
  }

  /** `parse`: entries until `parse_one` gives `None`, or its first error. */
  function ParseFrom(ts: seq<EntryLine>, i: nat, acc: seq<Entry>): (s: Step<Result<seq<Entry>>>)
    requires i <= |ts|
    decreases |ts| - i
  {
    var one := ParseOneAt(ts, i);
    match one.result
    case Err(e) => Step(Err(e), one.next)
    case Ok(None) => Step(Ok(acc), one.next)
    case Ok(Some(e)) => ParseFrom(ts, one.next, acc + [e])
  }

  /** All entries of a token list. */
  function ParseEntries(ts: seq<EntryLine>): Result<seq<Entry>> {
    ParseFrom(ts, 0, []).result
  }

  /** A option token of either kind. */
  predicate IsOptionToken(t: EntryLine) {
    t.Option? || t.LockedOption?
  }

  /** `SkipWhile` stops at the first position that fails `p`. */
  lemma {:induction false} SkipWhileAt(ts: seq<EntryLine>, i: nat, k: nat, p: EntryLine -> bool)
    requires i <= k <= |ts|
    requires forall j :: i <= j < k ==> p(ts[j])
    requires k < |ts| ==> !p(ts[k])
    ensures SkipWhile(ts, i, p) == k
    decreases k - i
  {
    if i < k {
      SkipWhileAt(ts, i + 1, k, p);
    }
  }

  /** Leading blank lines do not change where the filler run ends. */
  lemma FillerEndAfterEmpty(ts: seq<EntryLine>, i: nat)
    requires i <= |ts|
    ensures FillerEnd(ts, SkipWhile(ts, i, IsEmptyLine)) == FillerEnd(ts, i)
  {
    var k := SkipWhile(ts, i, IsEmptyLine);
    var m := FillerEnd(ts, k);
    SkipWhileAt(ts, i, m, IsFiller);
  }

  lemma {:induction false} CommentsInSplit(ts: seq<EntryLine>, a: nat, b: nat, c: nat)
    requires a <= b <= c <= |ts|
    ensures CommentsIn(ts, a, c) == CommentsIn(ts, a, b) + CommentsIn(ts, b, c)
    decreases c - b
  {
    if b < c {
      CommentsInSplit(ts, a, b, c - 1);
    }
  }

  lemma {:induction false} CommentsInNone(ts: seq<EntryLine>, a: nat, b: nat)
    requires a <= b <= |ts|
    requires forall j :: a <= j < b ==> !ts[j].Comment?
    ensures CommentsIn(ts, a, b) == []
    decreases b - a
  {
    if a < b {
      CommentsInNone(ts, a, b - 1);
    }
  }

  /** The keys of the collected values are exactly the keys of the option
      tokens in the range. */
  lemma {:induction false} OptionsMapKeys(ts: seq<EntryLine>, lo: nat, hi: nat, k: string)
    requires lo <= hi <= |ts|
    ensures k in OptionsMap(ts, lo, hi) <==> exists j :: lo <= j < hi && IsOptionToken(ts[j]) && ts[j].key == k
    decreases hi - lo
  {
    if lo < hi {
      OptionsMapKeys(ts, lo, hi - 1, k);
      if k in OptionsMap(ts, lo, hi - 1) {
        var j :| lo <= j < hi - 1 && IsOptionToken(ts[j]) && ts[j].key == k;
        assert lo <= j < hi;
      }
    }
  }

  /** A later option with the same key overwrites an earlier one: the value
      kept is that of the last option token with the key. */
  lemma {:induction false} OptionsMapLastWins(ts: seq<EntryLine>, lo: nat, hi: nat, j: nat)
    requires lo <= j < hi <= |ts| && IsOptionToken(ts[j])
    requires forall l :: j < l < hi ==> !(IsOptionToken(ts[l]) && ts[l].key == ts[j].key)
    ensures ts[j].key in OptionsMap(ts, lo, hi)
    ensures OptionsMap(ts, lo, hi)[ts[j].key] == ts[j].value
    decreases hi - lo
  {
    if j < hi - 1 {
      OptionsMapLastWins(ts, lo, hi - 1, j);
    }
  }

  /** `is_production` is true exactly when a production marker appears in the
      leading run of comments and blank lines; the marker is then consumed. */
  lemma ScanIsProductionTrue(ts: seq<EntryLine>, i: nat)
    requires i <= |ts|
    ensures (ScanIsProduction(ts, i).result.Ok? && ScanIsProduction(ts, i).result.value.1) <==>
            exists k :: i <= k < |ts| && ts[k].ProductionMarker? && forall j :: i <= j < k ==> IsFiller(ts[j])
    ensures ScanIsProduction(ts, i).result.Ok? && ScanIsProduction(ts, i).result.value.1 ==>
            ts[ScanIsProduction(ts, i).next - 1].ProductionMarker?
  {
    var m := FillerEnd(ts, i);
    if k :| i <= k < |ts| && ts[k].ProductionMarker? && forall j :: i <= j < k ==> IsFiller(ts[j]) {
      SkipWhileAt(ts, i, k, IsFiller);
    }
  }

  /** Where the data of the entry that starts at `i` begins: past the blank
      lines, the leading comments, the production marker if there is one,
      and the comments after it.  In a well-formed entry the header is here. */
  function DataStart(ts: seq<EntryLine>, i: nat): (h: nat)
    requires i <= |ts|
    ensures i <= h <= |ts|
  {
    var m := FillerEnd(ts, i);
    if m < |ts| && ts[m].ProductionMarker? then FillerEnd(ts, m + 1) else m
  }

  /** What `parse_one` does, read straight off the token list rather than
      phase by phase: the first token after the leading run that is not a
      comment, a blank line or the one production marker must be a header;
      it names the entry and fixes its lockedness, and the values are the
      options after it up to the first token that is neither a blank line
      nor an option the entry accepts. */
  function ReadEntry(ts: seq<EntryLine>, i: nat): Step<Result<Errors.Option<Entry>>>
    requires i <= |ts|
  {
    var m := FillerEnd(ts, i);
    var h := DataStart(ts, i);
    if forall j :: i <= j < |ts| ==> ts[j].Empty? then Step(Ok(None), |ts|)
    else if m == |ts| then Step(Err(EofScanningIsProduction), m)
    else if h == |ts| then Step(Err(EofScanningIsLocked), h)
    else if ts[h].ProductionMarker? then Step(Err(UnexpectedProductionMarker), h)
    else if IsOptionToken(ts[h]) then Step(Err(UnexpectedLineInHeader), h)
    else
      var locked := ts[h].LockedHeader?;
      var v := ValuesEnd(ts, h + 1, locked);
      if v < |ts| && ts[v].Option? then Step(Err(UnexpectedLineInValues), v)
      else Step(Ok(Some(Entry(CommentsIn(ts, i, h), ts[m].ProductionMarker?, locked, ts[h].name, OptionsMap(ts, h + 1, v)))), v)
  }

  /** The phase-by-phase `parse_one` agrees with the direct reading. */
  lemma ParseOneAtReadsEntry(ts: seq<EntryLine>, i: nat)
    requires i <= |ts|
    ensures ParseOneAt(ts, i) == ReadEntry(ts, i)
  {
    var k := SkipWhile(ts, i, IsEmptyLine);
    if k < |ts| {
      assert !ts[k].Empty?;
      EntryAtReadsEntry(ts, i);
    }
  }

  lemma EntryAtReadsEntry(ts: seq<EntryLine>, i: nat)
    requires i <= |ts| && SkipWhile(ts, i, IsEmptyLine) < |ts|
    ensures EntryAt(ts, SkipWhile(ts, i, IsEmptyLine)) == ReadEntry(ts, i)
  {
    var k := SkipWhile(ts, i, IsEmptyLine);
    assert !ts[k].Empty? && i <= k;
    assert !(forall j :: i <= j < |ts| ==> ts[j].Empty?);
    var m := FillerEnd(ts, i);
    var h := DataStart(ts, i);
    if m < |ts| && h < |ts| && !ts[h].ProductionMarker? {
      EntryAtHeader(ts, i);
    } else {
      PhasesBeforeHeader(ts, i);
      if m < |ts| {
        var p := ScanIsProduction(ts, k);
        var l := ScanIsLocked(ts, p.next);
        assert l.next == h;
      }
    }
  }

  /** The case of `EntryAtReadsEntry` where a token that may be a header
      follows the comments and the marker. */
  lemma EntryAtHeader(ts: seq<EntryLine>, i: nat)
    requires i <= |ts| && SkipWhile(ts, i, IsEmptyLine) < |ts|
    requires FillerEnd(ts, i) < |ts| && DataStart(ts, i) < |ts| && !ts[DataStart(ts, i)].ProductionMarker?
    ensures EntryAt(ts, SkipWhile(ts, i, IsEmptyLine)) == ReadEntry(ts, i)
  {
    var k := SkipWhile(ts, i, IsEmptyLine);
    var m := FillerEnd(ts, i);
    var h := DataStart(ts, i);
    var locked := ts[h].LockedHeader? || ts[h].LockedOption?;
    assert EntryAt(ts, k) == EntryBodyAt(ts, h, CommentsIn(ts, i, h), ts[m].ProductionMarker?, locked) by {
      PhasesBeforeHeader(ts, i);
      var p := ScanIsProduction(ts, k);
      var l := ScanIsLocked(ts, p.next);
      assert l.next == h;
      assert l == Step(Ok((CommentsIn(ts, p.next, h), locked)), h);
    }
    ReadEntryAtHeader(ts, i);
  }

  /** `ReadEntry` where a token that may be a header follows the comments
      and the marker: the header and values phases from there. */
  lemma ReadEntryAtHeader(ts: seq<EntryLine>, i: nat)
    requires i <= |ts| && FillerEnd(ts, i) < |ts| && DataStart(ts, i) < |ts| && !ts[DataStart(ts, i)].ProductionMarker?
    ensures var m := FillerEnd(ts, i); var h := DataStart(ts, i);
      ReadEntry(ts, i)
        == EntryBodyAt(ts, h, CommentsIn(ts, i, h), ts[m].ProductionMarker?, ts[h].LockedHeader? || ts[h].LockedOption?)
  {
    var m := FillerEnd(ts, i);
    var h := DataStart(ts, i);
    assert !ts[m].Empty?;
    assert !IsFiller(ts[h]);
    EntryBodyAtCases(ts, h, CommentsIn(ts, i, h), ts[m].ProductionMarker?);
  }

  /** `parse_header` and `parse_values` from a token that is not a comment,
      a blank line or a marker, with the lockedness that token gives. */
  lemma EntryBodyAtCases(ts: seq<EntryLine>, h: nat, comments: seq<string>, isProduction: bool)
    requires h < |ts| && !IsFiller(ts[h]) && !ts[h].ProductionMarker?
    ensures var locked := ts[h].LockedHeader? || ts[h].LockedOption?;
      var s := EntryBodyAt(ts, h, comments, isProduction, locked);
      var v := ValuesEnd(ts, h + 1, locked);
      && (IsOptionToken(ts[h]) ==> s == Step(Err(UnexpectedLineInHeader), h))
      && (!IsOptionToken(ts[h]) && v < |ts| && ts[v].Option? ==> s == Step(Err(UnexpectedLineInValues), v))
      && (!IsOptionToken(ts[h]) && !(v < |ts| && ts[v].Option?) ==>
            s == Step(Ok(Some(Entry(comments, isProduction, locked, ts[h].name, OptionsMap(ts, h + 1, v)))), v))
  {
    var locked := ts[h].LockedHeader? || ts[h].LockedOption?;
    assert FillerEnd(ts, h) == h;
    CommentsInNone(ts, h, h);
    if !IsOptionToken(ts[h]) {
      var hd := ScanHeader(ts, h, locked);
      assert hd == Step(Ok(([], ts[h].name)), h + 1);
      var v := ScanValues(ts, h + 1, locked);
      assert comments + hd.result.value.0 + [] == comments;
    }
  }

  /** The phases of `parse_one` before the header: after the blank lines,
      `parse_is_production` covers the leading run and the marker, and
      `parse_is_locked` the comments up to `DataStart`. */
  lemma PhasesBeforeHeader(ts: seq<EntryLine>, i: nat)
    requires i <= |ts|
    requires SkipWhile(ts, i, IsEmptyLine) < |ts|
    ensures var m := FillerEnd(ts, i); var h := DataStart(ts, i);
      var p := ScanIsProduction(ts, SkipWhile(ts, i, IsEmptyLine));
      && (m == |ts| ==> p.result == Err(EofScanningIsProduction))
      && (m < |ts| ==>
           && p.result == Ok((CommentsIn(ts, i, m), ts[m].ProductionMarker?))
           && p.next == (if ts[m].ProductionMarker? then m + 1 else m)
           && FillerEnd(ts, p.next) == h
           && CommentsIn(ts, i, m) + CommentsIn(ts, p.next, h) == CommentsIn(ts, i, h))
  {
    var k := SkipWhile(ts, i, IsEmptyLine);
    FillerEndAfterEmpty(ts, i);
    var m := FillerEnd(ts, i);
    var h := DataStart(ts, i);
    CommentsInNone(ts, i, k);
    CommentsInSplit(ts, i, k, m);
    assert FillerEnd(ts, k) == m;
    assert CommentsIn(ts, i, m) == CommentsIn(ts, k, m);
    if m < |ts| {
      if ts[m].ProductionMarker? {
        CommentsInSplit(ts, i, m, m + 1);
        CommentsInSplit(ts, i, m + 1, h);
      } else {
        CommentsInSplit(ts, i, m, h);
      }
    }
  }

  /** `parse_one` gives an entry exactly when the token at `DataStart` is a
      header and the values after it are not cut short by an unlocked option
      in a locked entry.  The entry is then read off the tokens: its comments
      are the comment texts before the header in order, it is production iff
      the leading run holds a marker, its lockedness is that of the header
      token, its values are the options up to the first token that is not a
      blank line or an accepted option, and the cursor stops there. */
  lemma ParseOneEntry(ts: seq<EntryLine>, i: nat)
    requires i <= |ts|
    ensures var s := ParseOneAt(ts, i); var h := DataStart(ts, i);
      (s.result.Ok? && s.result.value.Some?) <==>
        (h < |ts| && (ts[h].Header? || ts[h].LockedHeader?)
         && !(ValuesEnd(ts, h + 1, ts[h].LockedHeader?) < |ts| && ts[ValuesEnd(ts, h + 1, ts[h].LockedHeader?)].Option?))
    ensures var s := ParseOneAt(ts, i); var h := DataStart(ts, i);
      s.result.Ok? && s.result.value.Some? ==>
        && h < |ts|
        && s.next == ValuesEnd(ts, h + 1, ts[h].LockedHeader?)
        && s.result.value.value == Entry(
             CommentsIn(ts, i, h),
             FillerEnd(ts, i) < |ts| && ts[FillerEnd(ts, i)].ProductionMarker?,
             ts[h].LockedHeader?,
             ts[h].name,
             OptionsMap(ts, h + 1, s.next))
  {
    ParseOneAtReadsEntry(ts, i);
    var h := DataStart(ts, i);
    if h < |ts| && (ts[h].Header? || ts[h].LockedHeader?) {
      assert exists j :: i <= j < |ts| && !ts[j].Empty? by {
        assert !ts[h].Empty?;
      }
    }
  }

  /** The ways `parse_one` fails.  An entry with content but no header is
      cut off at the end of input; a second production marker before the
      header, an option before the header, and an unlocked option among the
      values of a locked entry are errors.  Two messages of the engine can
      never come out of `parse_one`, because the header phase always starts
      at a token that is neither a comment, a blank line nor a marker. */
  lemma ParseOneErrors(ts: seq<EntryLine>, i: nat)
    requires i <= |ts|
    ensures var s := ParseOneAt(ts, i); var h := DataStart(ts, i);
      && (h == |ts| && FillerEnd(ts, i) == |ts| && (exists j :: i <= j < |ts| && !ts[j].Empty?) ==>
            s.result == Err(EofScanningIsProduction))
      && (h == |ts| && FillerEnd(ts, i) < |ts| ==> s.result == Err(EofScanningIsLocked))
      && (h < |ts| && ts[h].ProductionMarker? ==> s.result == Err(UnexpectedProductionMarker))
      && (h < |ts| && IsOptionToken(ts[h]) ==> s.result == Err(UnexpectedLineInHeader))
      && (h < |ts| && (ts[h].Header? || ts[h].LockedHeader?)
          && ValuesEnd(ts, h + 1, ts[h].LockedHeader?) < |ts| && ts[ValuesEnd(ts, h + 1, ts[h].LockedHeader?)].Option? ==>
            ts[h].LockedHeader? && s.result == Err(UnexpectedLineInValues))
      && s.result != Err(ProductionMarkerInHeader)
      && s.result != Err(EofScanningHeader)
  {
    ParseOneAtReadsEntry(ts, i);
    var m := FillerEnd(ts, i);
    var h := DataStart(ts, i);
    if h < |ts| || m < |ts| {
      var j := if h < |ts| then h else m;
      assert !ts[j].Empty?;
    }
  }

  /** Rust's `EntryLineParser`: the tokens of one file and a cursor over them. */
  class EntryLineParser {
    const lines: seq<EntryLine>
    var index: nat

    ghost predicate Valid()
      reads this
    {
      index <= |lines|
    }

    constructor (lines: seq<EntryLine>)
      ensures Valid()
      ensures this.lines == lines && index == 0
    {
      this.lines := lines;
      index := 0;
    }

    /** The token under the cursor, if any. */
    function PeekLine(): (r: Errors.Option<EntryLine>)
      requires Valid()
      reads this
      ensures r.Some? <==> index < |lines|
      ensures r.Some? ==> r.value == lines[index]
    {
      if index < |lines| then Some(lines[index]) else None
    }

    /** The token under the cursor, which then moves on; at the end it stays. */
    method NextLine() returns (r: Errors.Option<EntryLine>)
      requires Valid()
      modifies this
      ensures Valid()
      ensures r == old(PeekLine())
      ensures index == if old(index) < |lines| then old(index) + 1 else old(index)
    {
      r := PeekLine();
      if index < |lines| {
        index := index + 1;
      }
    }

    function IsFinished(): (b: bool)
      requires Valid()
      reads this
      ensures b <==> PeekLine().None?
    {
      index == |lines|
    }

    method SkipEmptyLine()
      requires Valid()
      modifies this
      ensures Valid()
      ensures index == SkipWhile(lines, old(index), IsEmptyLine)
    {
      while PeekLine() == Some(Empty)
        invariant Valid() && old(index) <= index
        invariant SkipWhile(lines, index, IsEmptyLine) == SkipWhile(lines, old(index), IsEmptyLine)
        decreases |lines| - index
      {
        var _ := NextLine();
      }
    }

    method ParseIsProduction() returns (r: Result<(seq<string>, bool)>)
      requires Valid()
      modifies this
      ensures Valid()
      ensures r == ScanIsProduction(lines, old(index)).result
      ensures index == ScanIsProduction(lines, old(index)).next
    {
      var comments: seq<string> := [];
      while PeekLine().Some?
        invariant Valid() && old(index) <= index
        invariant FillerEnd(lines, index) == FillerEnd(lines, old(index))
        invariant comments == CommentsIn(lines, old(index), index)
        decreases |lines| - index
      {
        var line := PeekLine().value;
        match line
        case Empty =>
          var _ := NextLine();
        case Comment(comment) =>
          var _ := NextLine();
          comments := comments + [comment];
        case ProductionMarker =>
          var _ := NextLine();
          return Ok((comments, true));
        case _ =>
          return Ok((comments, false));
      }
      return Err(EofScanningIsProduction);
    }

    method ParseIsLocked() returns (r: Result<(seq<string>, bool)>)
      requires Valid()
      modifies this
      ensures Valid()
      ensures r == ScanIsLocked(lines, old(index)).result
      ensures index == ScanIsLocked(lines, old(index)).next
    {
      var comments: seq<string> := [];
      while PeekLine().Some?
        invariant Valid() && old(index) <= index
        invariant FillerEnd(lines, index) == FillerEnd(lines, old(index))
        invariant comments == CommentsIn(lines, old(index), index)
        decreases |lines| - index
      {
        var line := PeekLine().value;
        match line
        case Empty =>
          var _ := NextLine();
        case Comment(comment) =>
          var _ := NextLine();
          comments := comments + [comment];
        case ProductionMarker =>
          return Err(UnexpectedProductionMarker);
        case LockedHeader(_) =>
          return Ok((comments, true));
        case LockedOption(_, _) =>
          return Ok((comments, true));
        case Header(_) =>
          return Ok((comments, false));
        case Option(_, _) =>
          return Ok((comments, false));
      }
      return Err(EofScanningIsLocked);
    }

    method ParseHeader(isLocked: bool) returns (r: Result<(seq<string>, string)>)
      requires Valid()
      modifies this
      ensures Valid()
      ensures r == ScanHeader(lines, old(index), isLocked).result
      ensures index == ScanHeader(lines, old(index), isLocked).next
    {
      var comments: seq<string> := [];
      while PeekLine().Some?
        invariant Valid() && old(index) <= index
        invariant FillerEnd(lines, index) == FillerEnd(lines, old(index))
        invariant comments == CommentsIn(lines, old(index), index)
        decreases |lines| - index
      {
        var line := PeekLine().value;
        if line.Empty? {
          var _ := NextLine();
        } else if line.Comment? {
          var _ := NextLine();
          comments := comments + [line.text];
        } else if line.ProductionMarker? {
          return Err(ProductionMarkerInHeader);
        } else if line.Header? && !isLocked {
          var _ := NextLine();
          return Ok((comments, line.name));
        } else if line.LockedHeader? && isLocked {
          var _ := NextLine();
          return Ok((comments, line.name));
        } else {
          return Err(UnexpectedLineInHeader);
        }
      }
      return Err(EofScanningHeader);
    }

    method ParseValues(isLocked: bool) returns (r: Result<(seq<string>, map<string, string>)>)
      requires Valid()
      modifies this
      ensures Valid()
      ensures r == ScanValues(lines, old(index), isLocked).result
      ensures index == ScanValues(lines, old(index), isLocked).next
    {
      var values: map<string, string> := map[];
      while PeekLine().Some?
        invariant Valid() && old(index) <= index
        invariant ValuesEnd(lines, index, isLocked) == ValuesEnd(lines, old(index), isLocked)
        invariant values == OptionsMap(lines, old(index), index)
        decreases |lines| - index
      {
        var line := PeekLine().value;
        if line.Empty? {
          var _ := NextLine();
        } else if line.Option? && !isLocked {
          var _ := NextLine();
          values := values[line.key := line.value];
        } else if line.LockedOption? {
          var _ := NextLine();
          values := values[line.key := line.value];
        } else if line.ProductionMarker? || line.Comment? || line.Header? || line.LockedHeader? {
          return Ok(([], values));
        } else {
          return Err(UnexpectedLineInValues);
        }
      }
      return Ok(([], values));
    }

    method ParseOne() returns (r: Result<Errors.Option<Entry>>)
      requires Valid()
      modifies this
      ensures Valid()
      ensures r == ParseOneAt(lines, old(index)).result
      ensures index == ParseOneAt(lines, old(index)).next
    {
      SkipEmptyLine();
      if IsFinished() {
        return Ok(None);
      }
      var production := ParseIsProduction();
      if production.Err? {
        return Err(production.error);
      }
      var locked := ParseIsLocked();
      if locked.Err? {
        return Err(locked.error);
      }
      var isLocked := locked.value.1;
      var header := ParseHeader(isLocked);
      if header.Err? {
        return Err(header.error);
      }
      var values := ParseValues(isLocked);
      if values.Err? {
        return Err(values.error);
      }
      var allComments := production.value.0 + locked.value.0 + header.value.0 + values.value.0;
      return Ok(Some(Entry(allComments, production.value.1, isLocked, header.value.1, values.value.1)));
    }

    method Parse() returns (r: Result<seq<Entry>>)
      requires Valid()
      modifies this
      ensures Valid()
      ensures r == ParseFrom(lines, old(index), []).result
      ensures index == ParseFrom(lines, old(index), []).next
    {
      var entries: seq<Entry> := [];
      while true
        invariant Valid()
        invariant ParseFrom(lines, index, entries) == ParseFrom(lines, old(index), [])
        decreases |lines| - index
      {
        var one := ParseOne();
        match one
        case Err(e) =>
          return Err(e);
        case Ok(None) =>
          return Ok(entries);
        case Ok(Some(entry)) =>
          entries := entries + [entry];
      }
    }
  }
}
