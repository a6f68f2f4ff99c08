/** The profile store: `~/.aws/config` and `~/.aws/credentials` read into
    profiles and written back.  Each file is lexed and parsed into entries;
    config entries and credentials entries are merged by profile name; and
    the writer turns profiles back into the lines the lexer reads, a `# `
    in front of the header and every option line marking a locked profile. */
module AwsProfiles {
  import opened Errors
  import opened Text
  import opened LineLexer
  import opened LineParser

  /** A profile name; `default` is the one profile that the config file
      writes without the `profile ` prefix. */
  datatype ProfileName = Default | Named(name: string)

  /** `ProfileName::from`. */
  function FromString(s: string): (p: ProfileName)
    ensures p.Default? <==> s == "default"
    ensures ToString(p) == s
  {
    if s == "default" then Default else Named(s)
  }

  /** `Display` for `ProfileName`. */
  function ToString(p: ProfileName): string {
    match p
    case Default => "default"
    case Named(n) => n
  }

  /** A name survives display and `from` unless it is `Named("default")`,
      which `from` never builds. */
  lemma FromToString(p: ProfileName)
    ensures FromString(ToString(p)) == p <==> p != Named("default")
  {
  }

  datatype AwsProfile = AwsProfile(
    configComments: seq<string>,
    credentialsComments: seq<string>,
    isProduction: bool,
    isLocked: bool,
    name: ProfileName,
    region: Errors.Option<string>,
    output: Errors.Option<string>,
    awsAccessKeyId: string,
    awsSecretAccessKey: string)

  datatype AwsConfig = AwsConfig(
    comments: seq<string>,
    isProduction: bool,
    isLocked: bool,
    name: ProfileName,
    region: Errors.Option<string>,
    output: Errors.Option<string>)

  datatype AwsCredential = AwsCredential(
    comments: seq<string>,
    isProduction: bool,
    isLocked: bool,
    name: ProfileName,
    awsAccessKeyId: string,
    awsSecretAccessKey: string)

  /** `HashMap::get(..).cloned()`. */
  function Lookup(m: map<string, string>, k: string): (r: Errors.Option<string>)
    ensures r.Some? <==> k in m
    ensures r.Some? ==> r.value == m[k]
  {
    if k in m then Some(m[k]) else None
  }

  /** The name in a config header: `default`, or `profile ` followed by the
      name (which may itself be `default`); anything else is an error. */
  function ConfigName(header: string): (r: Result<ProfileName>)
    ensures r.Ok? <==> header == "default" || (|header| >= 8 && header[..8] == "profile ")
    ensures r.Ok? && header == "default" ==> r.value == Default
    ensures r.Ok? && header != "default" ==> r.value == FromString(header[8..])
    ensures r.Err? ==> r.error == UnexpectedConfigHeader(header)
  {
    ProfilePrefixSplit(header);
    if header == "default" then Ok(Default)
    else
      // `splitn(2, ' ')`: the text before the first space, and the rest
      var k := FindChar(header, ' ');
      if k < |header| && header[..k] == "profile" then
        Ok(FromString(header[k + 1..]))
      else
        Err(UnexpectedConfigHeader(header))
  }

  /** The first word of a header is `profile` exactly when the header starts with `profile `. */
  lemma ProfilePrefixSplit(header: string)
    ensures var k := FindChar(header, ' ');
      (k < |header| && header[..k] == "profile") <==> (|header| >= 8 && header[..8] == "profile ")
    ensures |header| >= 8 && header[..8] == "profile " ==> FindChar(header, ' ') == 7
  {
    var k := FindChar(header, ' ');
    if k < |header| && header[..k] == "profile" {
      ProfileWordStarts(header);
    }
    if |header| >= 8 && header[..8] == "profile " {
      StartsProfileWord(header);
    }
  }

  lemma ProfileWordStarts(header: string)
    requires FindChar(header, ' ') < |header| && header[..FindChar(header, ' ')] == "profile"
    ensures |header| >= 8 && header[..8] == "profile "
  {
    var k := FindChar(header, ' ');
    assert k == |header[..k]| == 7;
    SliceSnoc(header, 7);
  }

  lemma SliceSnoc<T>(s: seq<T>, n: nat)
    requires n < |s|
    ensures s[..n + 1] == s[..n] + [s[n]]
  {
  }

  lemma StartsProfileWord(header: string)
    requires |header| >= 8 && header[..8] == "profile "
    ensures FindChar(header, ' ') == 7 && header[..7] == "profile"
  {
    var p := header[..8];
    assert forall j :: 0 <= j < 8 ==> header[j] == p[j];
    assert p[7] == ' ' && forall j :: 0 <= j < 7 ==> p[j] != ' ';
    assert FindChar(header, ' ') == 7;
    assert forall j :: 0 <= j < 7 ==> header[..7][j] == "profile"[j];
  }

  /** One config entry as a config record. */
  function ConfigOf(e: Entry): (r: Result<AwsConfig>)
    ensures r.Err? <==> ConfigName(e.header).Err?
    ensures r.Err? ==> r.error == ConfigName(e.header).error
    ensures r.Ok? ==> r.value == AwsConfig(e.comments, e.isProduction, e.isLocked, ConfigName(e.header).value,
                                             Lookup(e.values, "region"), Lookup(e.values, "output"))
  {
    var name :- ConfigName(e.header);
    Ok(AwsConfig(e.comments, e.isProduction, e.isLocked, name, Lookup(e.values, "region"), Lookup(e.values, "output")))
  }

  /** One credentials entry as a credentials record; both keys are required,
      the access key id being looked for first. */
  function CredentialOf(e: Entry): (r: Result<AwsCredential>)
    ensures r.Err? <==> "aws_access_key_id" !in e.values || "aws_secret_access_key" !in e.values
    ensures "aws_access_key_id" !in e.values ==> r == Err(MissingAccessKeyId)
    ensures "aws_access_key_id" in e.values && "aws_secret_access_key" !in e.values ==> r == Err(MissingSecretAccessKey)
    ensures r.Ok? ==> r.value == AwsCredential(e.comments, e.isProduction, e.isLocked, FromString(e.header),
                                                 e.values["aws_access_key_id"], e.values["aws_secret_access_key"])
  {
    if "aws_access_key_id" !in e.values then Err(MissingAccessKeyId)
    else if "aws_secret_access_key" !in e.values then Err(MissingSecretAccessKey)
    else Ok(AwsCredential(e.comments, e.isProduction, e.isLocked, FromString(e.header),
                          e.values["aws_access_key_id"], e.values["aws_secret_access_key"]))
  }

  /** The entries of a file's text: lexed, then parsed. */
  function EntriesOf(text: string): Result<seq<Entry>> {
    var tokens :- TokenizeLines(Lines(text));
    ParseEntries(tokens)
  }

  /** `parse_config` on a config file holding `text`. */
  function ParseConfigText(text: string): Result<seq<AwsConfig>> {
    var entries :- EntriesOf(text);
    Collect(entries, ConfigOf)
  }

  /** `parse_credentials` on a credentials file holding `text`. */
  function ParseCredentialsText(text: string): Result<seq<AwsCredential>> {
    var entries :- EntriesOf(text);
    Collect(entries, CredentialOf)
  }

  predicate Distinct(xs: seq<ProfileName>) {
    forall i, j :: 0 <= i < j < |xs| ==> xs[i] != xs[j]
  }

  /** The elements of `xs` in order, each only at its first occurrence
      (what pushing onto a list guarded by a `HashSet` gives). */
  function Dedup(xs: seq<ProfileName>): (ds: seq<ProfileName>)
    ensures forall x :: x in ds <==> x in xs
    ensures Distinct(ds)
    decreases |xs|
  {
    if xs == [] then []
    else
      var d := Dedup(xs[..|xs| - 1]);
      assert forall x :: x in xs <==> x in xs[..|xs| - 1] || x == xs[|xs| - 1];
      if xs[|xs| - 1] in d then d else d + [xs[|xs| - 1]]
  }

  /** The position of the first occurrence of `x` in `xs`. */
  function FirstIndex(xs: seq<ProfileName>, x: ProfileName): (k: nat)
    requires x in xs
    ensures k < |xs| && xs[k] == x && forall j :: 0 <= j < k ==> xs[j] != x
  {
    if xs[0] == x then 0 else 1 + FirstIndex(xs[1..], x)
  }

  lemma FirstIndexPrefix(xs: seq<ProfileName>, n: nat, x: ProfileName)
    requires n <= |xs| && x in xs[..n]
    ensures FirstIndex(xs, x) == FirstIndex(xs[..n], x)
  {
    var k := FirstIndex(xs[..n], x);
    assert xs[k] == x;
    var k' := FirstIndex(xs, x);
    assert k' <= k;
    assert xs[..n][k'] == x;
  }

  /** `Dedup` keeps the order of first occurrences. */
  lemma {:induction false} DedupOrder(xs: seq<ProfileName>, i: nat, j: nat)
    requires i < j < |Dedup(xs)|
    ensures FirstIndex(xs, Dedup(xs)[i]) < FirstIndex(xs, Dedup(xs)[j])
    decreases |xs|
  {
    var p := xs[..|xs| - 1];
    var d := Dedup(p);
    var ds := Dedup(xs);
    assert ds[i] in d;
    FirstIndexPrefix(xs, |xs| - 1, ds[i]);
    if j < |d| {
      assert ds[j] in d;
      FirstIndexPrefix(xs, |xs| - 1, ds[j]);
      DedupOrder(p, i, j);
    } else {
      assert ds[j] == xs[|xs| - 1] && ds[j] !in p;
      assert FirstIndex(xs, ds[j]) == |xs| - 1;
    }
  }

  /** Names seen first keep their place: deduplicating `a + b` starts with
      the deduplicated `a`. */
  lemma {:induction false} DedupPrefix(a: seq<ProfileName>, b: seq<ProfileName>)
    ensures |Dedup(a)| <= |Dedup(a + b)| && Dedup(a + b)[..|Dedup(a)|] == Dedup(a)
    decreases |b|
  {
    if b == [] {
      assert a + b == a;
    } else {
      var b' := b[..|b| - 1];
      assert (a + b)[..|a + b| - 1] == a + b';
      DedupPrefix(a, b');
    }
  }

  /** Elements already present add nothing. */
  lemma {:induction false} DedupAbsorbs(a: seq<ProfileName>, b: seq<ProfileName>)
    requires forall x :: x in b ==> x in a
    ensures Dedup(a + b) == Dedup(a)
    decreases |b|
  {
    if b == [] {
      assert a + b == a;
    } else {
      var b' := b[..|b| - 1];
      assert (a + b)[..|a + b| - 1] == a + b';
      DedupAbsorbs(a, b');
      assert b[|b| - 1] in a;
    }
  }

  /** A list with no repeats is its own deduplication. */
  lemma {:induction false} DedupDistinct(xs: seq<ProfileName>)
    requires Distinct(xs)
    ensures Dedup(xs) == xs
    decreases |xs|
  {
    if xs != [] {
      var p := xs[..|xs| - 1];
      DedupDistinct(p);
      assert xs[|xs| - 1] !in p;
      assert p + [xs[|xs| - 1]] == xs;
    }
  }

  function ConfigNames(cs: seq<AwsConfig>): (ns: seq<ProfileName>)
    ensures |ns| == |cs| && forall i :: 0 <= i < |cs| ==> ns[i] == cs[i].name
  {
    seq(|cs|, i requires 0 <= i < |cs| => cs[i].name)
  }

  function CredentialNames(ds: seq<AwsCredential>): (ns: seq<ProfileName>)
    ensures |ns| == |ds| && forall i :: 0 <= i < |ds| ==> ns[i] == ds[i].name
  {
    seq(|ds|, i requires 0 <= i < |ds| => ds[i].name)
  }

  /** Config records by name; a later record with the same name replaces an
      earlier one, as collecting into a `HashMap` does. */
  function ConfigsByName(cs: seq<AwsConfig>): (m: map<ProfileName, AwsConfig>)
    ensures forall n :: n in m <==> n in ConfigNames(cs)
    decreases |cs|
  {
    if cs == [] then map[]
    else
      var last := cs[|cs| - 1];
      assert forall n :: n in ConfigNames(cs) <==> n in ConfigNames(cs[..|cs| - 1]) || n == last.name;
      ConfigsByName(cs[..|cs| - 1])[last.name := last]
  }

  function CredentialsByName(ds: seq<AwsCredential>): (m: map<ProfileName, AwsCredential>)
    ensures forall n :: n in m <==> n in CredentialNames(ds)
    decreases |ds|
  {
    if ds == [] then map[]
    else
      var last := ds[|ds| - 1];
      assert forall n :: n in CredentialNames(ds) <==> n in CredentialNames(ds[..|ds| - 1]) || n == last.name;
      CredentialsByName(ds[..|ds| - 1])[last.name := last]
  }

  /** The record kept for a name is the last one with that name. */
  lemma {:induction false} ConfigsByNameLast(cs: seq<AwsConfig>, i: nat)
    requires i < |cs|
    requires forall j :: i < j < |cs| ==> cs[j].name != cs[i].name
    ensures cs[i].name in ConfigsByName(cs) && ConfigsByName(cs)[cs[i].name] == cs[i]
    decreases |cs|
  {
    if i < |cs| - 1 {
      ConfigsByNameLast(cs[..|cs| - 1], i);
    }
  }

  lemma {:induction false} CredentialsByNameLast(ds: seq<AwsCredential>, i: nat)
    requires i < |ds|
    requires forall j :: i < j < |ds| ==> ds[j].name != ds[i].name
    ensures ds[i].name in CredentialsByName(ds) && CredentialsByName(ds)[ds[i].name] == ds[i]
    decreases |ds|
  {
    if i < |ds| - 1 {
      CredentialsByNameLast(ds[..|ds| - 1], i);
    }
  }

  /** The profile made of one config record and one credentials record. */
  function Merged(name: ProfileName, c: AwsConfig, d: AwsCredential): AwsProfile {
    AwsProfile(c.comments, d.comments, c.isProduction || d.isProduction, c.isLocked || d.isLocked,
               name, c.region, c.output, d.awsAccessKeyId, d.awsSecretAccessKey)
  }

  /** One name of the merge: both sides must have it, config checked first. */
  function MergeOne(name: ProfileName, cm: map<ProfileName, AwsConfig>, dm: map<ProfileName, AwsCredential>)
    : (r: Result<AwsProfile>)
    ensures r.Err? <==> name !in cm || name !in dm
    ensures name !in cm ==> r == Err(ConfigNotFound(ToString(name)))
    ensures name in cm && name !in dm ==> r == Err(CredentialsNotFound(ToString(name)))
    ensures r.Ok? ==> r.value.name == name
                      && r.value.isProduction == (cm[name].isProduction || dm[name].isProduction)
                      && r.value.isLocked == (cm[name].isLocked || dm[name].isLocked)
  {
    if name !in cm then Err(ConfigNotFound(ToString(name)))
    else if name !in dm then Err(CredentialsNotFound(ToString(name)))
    else Ok(Merged(name, cm[name], dm[name]))
  }

  function MergeWith(cm: map<ProfileName, AwsConfig>, dm: map<ProfileName, AwsCredential>)
    : ProfileName -> Result<AwsProfile>
  {
    name => MergeOne(name, cm, dm)
  }

  /** The names of the merge: config names, then credentials names, each once. */
  function MergeNames(cs: seq<AwsConfig>, ds: seq<AwsCredential>): seq<ProfileName> {
    Dedup(ConfigNames(cs) + CredentialNames(ds))
  }

  /** The merge of `AwsFile::parse`. */
  function Merge(cs: seq<AwsConfig>, ds: seq<AwsCredential>): Result<seq<AwsProfile>> {
    Collect(MergeNames(cs, ds), MergeWith(ConfigsByName(cs), CredentialsByName(ds)))
  }

  /** `AwsFile::parse` on the two texts: config errors come first. */
  function ParseProfiles(configText: string, credentialsText: string): Result<seq<AwsProfile>> {
    var cs :- ParseConfigText(configText);
    var ds :- ParseCredentialsText(credentialsText);
    Merge(cs, ds)
  }

  /** A merge succeeds exactly when every name has both a config and a
      credentials record; the profiles then come in merge-name order, with
      the flags of both sides or-ed together. */
  lemma MergeCases(cs: seq<AwsConfig>, ds: seq<AwsCredential>)
    ensures Merge(cs, ds).Ok? <==> forall n :: n in ConfigNames(cs) <==> n in CredentialNames(ds)
    ensures Merge(cs, ds).Ok? ==>
      var ns := MergeNames(cs, ds); var ps := Merge(cs, ds).value;
      && |ps| == |ns|
      && forall i :: 0 <= i < |ns| ==> ps[i] == Merged(ns[i], ConfigsByName(cs)[ns[i]], CredentialsByName(ds)[ns[i]])
  {
    var ns := MergeNames(cs, ds);
    var cm := ConfigsByName(cs);
    var dm := CredentialsByName(ds);
    var f := MergeWith(cm, dm);
    assert forall n :: n in ns <==> n in ConfigNames(cs) + CredentialNames(ds);
    var r := Collect(ns, f);
    if forall n :: n in ConfigNames(cs) <==> n in CredentialNames(ds) {
      forall i | 0 <= i < |ns| ensures f(ns[i]).Ok? {
        var n := ns[i];
        assert n in ConfigNames(cs) + CredentialNames(ds);
        assert n in ConfigNames(cs) && n in CredentialNames(ds);
        assert n in cm && n in dm;
      }
    } else {
      var n :| !(n in ConfigNames(cs) <==> n in CredentialNames(ds));
      var i := FirstIndex(ns, n);
      assert !MergeOne(ns[i], cm, dm).Ok?;
    }
    if r.Ok? {
      forall i | 0 <= i < |ns|
        ensures r.value[i] == Merged(ns[i], cm[ns[i]], dm[ns[i]])
      {
        assert f(ns[i]) == Ok(r.value[i]);
      }
    }
  }

  /** How a profile is written: a run of comments, the production line, a
      header line and option lines, the last two prefixed `# ` when locked. */
  datatype Block = Block(comments: seq<string>, isProduction: bool, isLocked: bool, header: string, options: seq<(string, string)>)

  function LockPrefix(locked: bool): string {
    if locked then "# " else ""
  }

  function CommentLines(comments: seq<string>): (ls: seq<string>)
    ensures |ls| == |comments| && forall i :: 0 <= i < |comments| ==> ls[i] == "# " + comments[i]
  {
    seq(|comments|, i requires 0 <= i < |comments| => "# " + comments[i])
  }

  function OptionLine(prefix: string, kv: (string, string)): string {
    prefix + kv.0 + " = " + kv.1
  }

  function OptionLines(prefix: string, options: seq<(string, string)>): (ls: seq<string>)
    ensures |ls| == |options| && forall i :: 0 <= i < |options| ==> ls[i] == OptionLine(prefix, options[i])
  {
    seq(|options|, i requires 0 <= i < |options| => OptionLine(prefix, options[i]))
  }

  function HeaderLine(b: Block): string {
    LockPrefix(b.isLocked) + "[" + b.header + "]"
  }

  function BlockLines(b: Block): seq<string> {
    CommentLines(b.comments) + (if b.isProduction then ["# production"] else [])
    + [HeaderLine(b)] + OptionLines(LockPrefix(b.isLocked), b.options)
  }

  /** The lines of a file: the blocks in order, one blank line between two
      consecutive blocks and none before the first. */
  function FileLines(bs: seq<Block>): seq<string>
    decreases |bs|
  {
    if bs == [] then []
    else FileLines(bs[..|bs| - 1]) + (if |bs| > 1 then [""] else []) + BlockLines(bs[|bs| - 1])
  }

  /** The header a config record is written with. */
  function ConfigHeader(name: ProfileName): string {
    match name
    case Default => "default"
    case Named(n) => "profile " + n
  }

  function ConfigBlock(c: AwsConfig): Block {
    Block(c.comments, c.isProduction, c.isLocked, ConfigHeader(c.name),
          (if c.region.Some? then [("region", c.region.value)] else [])
          + (if c.output.Some? then [("output", c.output.value)] else []))
  }

  function CredentialBlock(d: AwsCredential): Block {
    Block(d.comments, d.isProduction, d.isLocked, ToString(d.name),
          [("aws_access_key_id", d.awsAccessKeyId), ("aws_secret_access_key", d.awsSecretAccessKey)])
  }

  function ConfigOfProfile(p: AwsProfile): AwsConfig {
    AwsConfig(p.configComments, p.isProduction, p.isLocked, p.name, p.region, p.output)
  }

  function CredentialOfProfile(p: AwsProfile): AwsCredential {
    AwsCredential(p.credentialsComments, p.isProduction, p.isLocked, p.name, p.awsAccessKeyId, p.awsSecretAccessKey)
  }

  function ConfigBlocks(cs: seq<AwsConfig>): (bs: seq<Block>)
    ensures |bs| == |cs| && forall i :: 0 <= i < |cs| ==> bs[i] == ConfigBlock(cs[i])
  {
    seq(|cs|, i requires 0 <= i < |cs| => ConfigBlock(cs[i]))
  }

  function CredentialBlocks(ds: seq<AwsCredential>): (bs: seq<Block>)
    ensures |bs| == |ds| && forall i :: 0 <= i < |ds| ==> bs[i] == CredentialBlock(ds[i])
  {
    seq(|ds|, i requires 0 <= i < |ds| => CredentialBlock(ds[i]))
  }

  function ConfigsOf(ps: seq<AwsProfile>): (cs: seq<AwsConfig>)
    ensures |cs| == |ps| && forall i :: 0 <= i < |ps| ==> cs[i] == ConfigOfProfile(ps[i])
  {
    seq(|ps|, i requires 0 <= i < |ps| => ConfigOfProfile(ps[i]))
  }

  function CredentialsOf(ps: seq<AwsProfile>): (ds: seq<AwsCredential>)
    ensures |ds| == |ps| && forall i :: 0 <= i < |ps| ==> ds[i] == CredentialOfProfile(ps[i])
  {
    seq(|ps|, i requires 0 <= i < |ps| => CredentialOfProfile(ps[i]))
  }

  /** The text `write_config` leaves in the config file. */
  function ConfigText(cs: seq<AwsConfig>): string {
    JoinLines(FileLines(ConfigBlocks(cs)))
  }

  /** The text `write_credentials` leaves in the credentials file. */
  function CredentialsText(ds: seq<AwsCredential>): string {
    JoinLines(FileLines(CredentialBlocks(ds)))
  }

  lemma JoinLinesSnoc(ls: seq<string>, l: string)
    ensures JoinLines(ls + [l]) == JoinLines(ls) + l + "\n"
  {
    JoinLinesAppend(ls, [l]);
    assert JoinLines([l]) == l + "\n" + JoinLines([]);
  }

  /** The header line of a configuration record, spelled out. */
  lemma ConfigHeaderLine(c: AwsConfig)
    ensures c.name.Default? ==> HeaderLine(ConfigBlock(c)) == LockPrefix(c.isLocked) + "[default]"
    ensures c.name.Named? ==> HeaderLine(ConfigBlock(c)) == LockPrefix(c.isLocked) + "[profile " + c.name.name + "]"
  {
    assert "[" + "profile " == "[profile ";
    assert "[" + "default" + "]" == "[default]";
  }

  /** Regrouping the lines of a record written one after the other. */
  lemma RegroupConfig<T>(a: seq<T>, b: seq<T>, c: seq<T>, h: T, d: seq<T>, e: seq<T>)
    ensures a + b + c + [h] + d + e == a + (b + c + [h] + d + e)
  {
  }

  lemma RegroupCredential<T>(a: seq<T>, b: seq<T>, c: seq<T>, x: T, y: T, z: T)
    ensures a + b + c + [x] + [y] + [z] == a + (b + c + [x, y, z])
  {
    assert [x] + [y] + [z] == [x, y, z];
  }

  lemma FileLinesSnoc(bs: seq<Block>, b: Block)
    ensures FileLines(bs + [b]) == FileLines(bs) + (if bs != [] then [""] else []) + BlockLines(b)
  {
    assert (bs + [b])[..|bs|] == bs;
  }

  /** The lines of one config record, spelled out. */
  lemma ConfigBlockLines(c: AwsConfig)
    ensures var prefix := LockPrefix(c.isLocked);
      BlockLines(ConfigBlock(c))
        == CommentLines(c.comments) + (if c.isProduction then ["# production"] else [])
           + [HeaderLine(ConfigBlock(c))]
           + (if c.region.Some? then [prefix + "region = " + c.region.value] else [])
           + (if c.output.Some? then [prefix + "output = " + c.output.value] else [])
  {
    var prefix := LockPrefix(c.isLocked);
    var b := ConfigBlock(c);
    var ro := (if c.region.Some? then [prefix + "region = " + c.region.value] else [])
              + (if c.output.Some? then [prefix + "output = " + c.output.value] else []);
    var ls := OptionLines(prefix, b.options);
    assert |ls| == |ro|;
    forall k | 0 <= k < |ls| ensures ls[k] == ro[k] {
      var kv := b.options[k];
      if kv.0 == "region" {
        assert "region" + " = " == "region = ";
        assert ls[k] == prefix + ("region" + " = ") + kv.1;
      } else {
        assert "output" + " = " == "output = ";
        assert ls[k] == prefix + ("output" + " = ") + kv.1;
      }
    }
    assert ls == ro;
  }

  /** The lines of one credentials record, spelled out. */
  lemma CredentialBlockLines(d: AwsCredential)
    ensures var prefix := LockPrefix(d.isLocked);
      BlockLines(CredentialBlock(d))
        == CommentLines(d.comments) + (if d.isProduction then ["# production"] else [])
           + [prefix + "[" + ToString(d.name) + "]",
              prefix + "aws_access_key_id = " + d.awsAccessKeyId,
              prefix + "aws_secret_access_key = " + d.awsSecretAccessKey]
  {
    var prefix := LockPrefix(d.isLocked);
    var ls := OptionLines(prefix, CredentialBlock(d).options);
    assert "aws_access_key_id" + " = " == "aws_access_key_id = ";
    assert "aws_secret_access_key" + " = " == "aws_secret_access_key = ";
    assert ls[0] == prefix + ("aws_access_key_id" + " = ") + d.awsAccessKeyId;
    assert ls[1] == prefix + ("aws_secret_access_key" + " = ") + d.awsSecretAccessKey;
    assert ls == [prefix + "aws_access_key_id = " + d.awsAccessKeyId, prefix + "aws_secret_access_key = " + d.awsSecretAccessKey];
  }

  /** Rust's `AwsFile`, with the two open files replaced by their text. */
  class AwsFile {
    var config: string
    var credentials: string

    /** `AwsFile::open`: the two files as they are on disk. */
    constructor (config: string, credentials: string)
      ensures this.config == config && this.credentials == credentials
    {
      this.config := config;
      this.credentials := credentials;
    }

    method ParseConfig() returns (r: Result<seq<AwsConfig>>)
      ensures r == ParseConfigText(config)
    {
      var lexer := new EntryLineLexer(config);
      var lines := lexer.Tokenize();
      assert lexer.lines[0..] == lexer.lines;
      if lines.Err? {
        return Err(lines.error);
      }
      var parser := new EntryLineParser(lines.value);
      var entries := parser.Parse();
      if entries.Err? {
        return Err(entries.error);
      }
      return Collect(entries.value, ConfigOf);
    }

    method ParseCredentials() returns (r: Result<seq<AwsCredential>>)
      ensures r == ParseCredentialsText(credentials)
    {
      var lexer := new EntryLineLexer(credentials);
      var lines := lexer.Tokenize();
      assert lexer.lines[0..] == lexer.lines;
      if lines.Err? {
        return Err(lines.error);
      }
      var parser := new EntryLineParser(lines.value);
      var entries := parser.Parse();
      if entries.Err? {
        return Err(entries.error);
      }
      return Collect(entries.value, CredentialOf);
    }

    /** `AwsFile::parse`: both files, then the merge by name. */
    method Parse() returns (r: Result<seq<AwsProfile>>)
      ensures r == ParseProfiles(config, credentials)
    {
      var configs := ParseConfig();
      if configs.Err? {
        return Err(configs.error);
      }
      var configNames := ConfigNames(configs.value);
      var configMap := ConfigsByName(configs.value);
      var creds := ParseCredentials();
      if creds.Err? {
        return Err(creds.error);
      }
      var credentialNames := CredentialNames(creds.value);
      var credentialMap := CredentialsByName(creds.value);
      var names := MergeNameList(configNames + credentialNames);
      var profiles := MergeByName(names, configMap, credentialMap);
      return profiles;
    }

    /** The `for` loop of `parse` that lists each name once, in first-seen order. */
    static method MergeNameList(all: seq<ProfileName>) returns (names: seq<ProfileName>)
      ensures names == Dedup(all)
    {
      names := [];
      var inserted: set<ProfileName> := {};
      for i := 0 to |all|
        invariant names == Dedup(all[..i])
        invariant forall n :: n in inserted <==> n in names
      {
        assert all[..i + 1][..i] == all[..i];
        if all[i] !in inserted {
          inserted := inserted + {all[i]};
          names := names + [all[i]];
        }
      }
      assert all[..|all|] == all;
    }

    /** The `map`/`collect` of `parse`: each name takes its records out of
        both maps, failing at the first name one of them lacks. */
    static method MergeByName(names: seq<ProfileName>, configMap: map<ProfileName, AwsConfig>,
                              credentialMap: map<ProfileName, AwsCredential>)
      returns (r: Result<seq<AwsProfile>>)
      requires Distinct(names)
      ensures r == Collect(names, MergeWith(configMap, credentialMap))
    {
      var f := MergeWith(configMap, credentialMap);
      var config := configMap;
      var credentials := credentialMap;
      var profiles: seq<AwsProfile> := [];
      for j := 0 to |names|
        invariant |profiles| == j
        invariant forall k :: 0 <= k < j ==> f(names[k]) == Ok(profiles[k])
        invariant forall n :: n in config ==> n in configMap && config[n] == configMap[n]
        invariant forall k :: j <= k < |names| ==> (names[k] in config <==> names[k] in configMap)
        invariant forall n :: n in credentials ==> n in credentialMap && credentials[n] == credentialMap[n]
        invariant forall k :: j <= k < |names| ==> (names[k] in credentials <==> names[k] in credentialMap)
      {
        var name := names[j];
        if name !in config {
          CollectErr(names, f, j);
          return Err(ConfigNotFound(ToString(name)));
        }
        var conf := config[name];
        config := config - {name};
        if name !in credentials {
          CollectErr(names, f, j);
          return Err(CredentialsNotFound(ToString(name)));
        }
        var cred := credentials[name];
        credentials := credentials - {name};
        profiles := profiles + [Merged(name, conf, cred)];
      }
      CollectOk(names, f, profiles);
      return Ok(profiles);
    }

    /** `AwsFile::write`: each profile split into its config record and its
        credentials record, the config file rewritten first. */
    method Write(profiles: seq<AwsProfile>)
      modifies this
      ensures config == ConfigText(ConfigsOf(profiles))
      ensures credentials == CredentialsText(CredentialsOf(profiles))
    {
      var configs := ConfigsOf(profiles);
      var creds := CredentialsOf(profiles);
      WriteConfig(configs);
      WriteCredentials(creds);
    }

    /** `writeln!`: one line and a line feed after what is written so far. */
    static method WriteLine(text: string, ghost written: seq<string>, line: string) returns (text': string)
      requires text == JoinLines(written)
      ensures text' == JoinLines(written + [line])
    {
      JoinLinesSnoc(written, line);
      text' := text + line + "\n";
    }

    /** `write_config`: the file is truncated, then every record is written,
        a blank line before each but the first. */
    method WriteConfig(cs: seq<AwsConfig>)
      modifies this
      ensures config == ConfigText(cs)
      ensures credentials == old(credentials)
    {
      ghost var blocks := ConfigBlocks(cs);
      ghost var written: seq<string> := [];
      var text := "";
      var first := true;
      for i := 0 to |cs|
        invariant first <==> i == 0
        invariant written == FileLines(blocks[..i])
        invariant text == JoinLines(written)
        invariant credentials == old(credentials)
      {
        if !first {
          text := WriteLine(text, written, "");
          written := written + [""];
        }
        first := false;
        text := WriteConfigRecord(text, written, cs[i]);
        written := written + BlockLines(blocks[i]);
        FileLinesSnoc(blocks[..i], blocks[i]);
        assert blocks[..i + 1] == blocks[..i] + [blocks[i]];
      }
      assert blocks[..|cs|] == blocks;
      config := text;
    }

    /** The body of the loop of `write_config`: one record's lines. */
    static method WriteConfigRecord(text: string, ghost written: seq<string>, conf: AwsConfig) returns (text': string)
      requires text == JoinLines(written)
      ensures text' == JoinLines(written + BlockLines(ConfigBlock(conf)))
    {
      text' := WriteComments(text, written, conf.comments);
      ghost var w := written + CommentLines(conf.comments);
      ghost var prod: seq<string> := if conf.isProduction then ["# production"] else [];
      if conf.isProduction {
        text' := WriteLine(text', w, "# production");
      } else {
        assert w + prod == w;
      }
      w := w + prod;
      var lockedPrefix := if conf.isLocked then "# " else "";
      var header := match conf.name
        case Named(name) => lockedPrefix + "[profile " + name + "]"
        case Default => lockedPrefix + "[default]";
      ConfigHeaderLine(conf);
      text' := WriteLine(text', w, header);
      w := w + [header];
      ghost var region: seq<string> := if conf.region.Some? then [lockedPrefix + "region = " + conf.region.value] else [];
      if conf.region.Some? {
        text' := WriteLine(text', w, lockedPrefix + "region = " + conf.region.value);
      } else {
        assert w + region == w;
      }
      w := w + region;
      ghost var output: seq<string> := if conf.output.Some? then [lockedPrefix + "output = " + conf.output.value] else [];
      if conf.output.Some? {
        text' := WriteLine(text', w, lockedPrefix + "output = " + conf.output.value);
      } else {
        assert w + output == w;
      }
      w := w + output;
      ConfigBlockLines(conf);
      assert lockedPrefix == LockPrefix(conf.isLocked);
      RegroupConfig(written, CommentLines(conf.comments), prod, header, region, output);
    }

    /** The comment loop shared by both writers: one `# ` line per comment. */
    static method WriteComments(text: string, ghost written: seq<string>, comments: seq<string>) returns (text': string)
      requires text == JoinLines(written)
      ensures text' == JoinLines(written + CommentLines(comments))
    {
      text' := text;
      assert written + CommentLines(comments[..0]) == written;
      for j := 0 to |comments|
        invariant text' == JoinLines(written + CommentLines(comments[..j]))
      {
        ghost var w := written + CommentLines(comments[..j]);
        text' := WriteLine(text', w, "# " + comments[j]);
        assert w + ["# " + comments[j]] == written + CommentLines(comments[..j + 1]);
      }
      assert comments[..|comments|] == comments;
    }

    /** `write_credentials`: the file is truncated, then every record is
        written, a blank line before each but the first. */
    method WriteCredentials(ds: seq<AwsCredential>)
      modifies this
      ensures credentials == CredentialsText(ds)
      ensures config == old(config)
    {
      ghost var blocks := CredentialBlocks(ds);
      ghost var written: seq<string> := [];
      var text := "";
      var first := true;
      for i := 0 to |ds|
        invariant first <==> i == 0
        invariant written == FileLines(blocks[..i])
        invariant text == JoinLines(written)
        invariant config == old(config)
      {
        if !first {
          text := WriteLine(text, written, "");
          written := written + [""];
        }
        first := false;
        text := WriteCredentialRecord(text, written, ds[i]);
        written := written + BlockLines(blocks[i]);
        FileLinesSnoc(blocks[..i], blocks[i]);
        assert blocks[..i + 1] == blocks[..i] + [blocks[i]];
      }
      assert blocks[..|ds|] == blocks;
      credentials := text;
    }

    /** The body of the loop of `write_credentials`: one record's lines. */
    static method WriteCredentialRecord(text: string, ghost written: seq<string>, cred: AwsCredential) returns (text': string)
      requires text == JoinLines(written)
      ensures text' == JoinLines(written + BlockLines(CredentialBlock(cred)))
    {
      text' := WriteComments(text, written, cred.comments);
      ghost var w := written + CommentLines(cred.comments);
      ghost var prod: seq<string> := if cred.isProduction then ["# production"] else [];
      if cred.isProduction {
        text' := WriteLine(text', w, "# production");
      } else {
        assert w + prod == w;
      }
      w := w + prod;
      var lockedPrefix := if cred.isLocked then "# " else "";
      var header := lockedPrefix + "[" + ToString(cred.name) + "]";
      text' := WriteLine(text', w, header);
      w := w + [header];
      var keyLine := lockedPrefix + "aws_access_key_id = " + cred.awsAccessKeyId;
      text' := WriteLine(text', w, keyLine);
      w := w + [keyLine];
      var secretLine := lockedPrefix + "aws_secret_access_key = " + cred.awsSecretAccessKey;
      text' := WriteLine(text', w, secretLine);
      w := w + [secretLine];
      CredentialBlockLines(cred);
      assert lockedPrefix == LockPrefix(cred.isLocked);
      ghost var cl := CommentLines(cred.comments);
      assert BlockLines(CredentialBlock(cred)) == cl + prod + [header, keyLine, secretLine];
      assert w == written + cl + prod + [header] + [keyLine] + [secretLine];
      RegroupCredential(written, cl, prod, header, keyLine, secretLine);
    }
  }
}
