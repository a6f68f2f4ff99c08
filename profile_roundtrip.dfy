/** Profiles written by `AwsFile::write` and parsed again by `AwsFile::parse`
    come back with the same names, flags and order, and with comments and
    values as the lexer reads them (`ReadProfiles`); well-formed profiles
    come back unchanged. */
module ProfileRoundTrip {
  import opened Errors
  import opened Text
  import opened LineParser
  import opened AwsProfiles
  import opened RoundTrip

  /** A name that a config header and a credentials header both give back:
      on one line, and never the `Named("default")` that `from` does not build. */
  predicate NameOk(n: ProfileName) {
    n.Named? ==> n.name != "default" && '\n' !in n.name
  }

  predicate CommentsOk(cs: seq<string>) {
    forall i :: 0 <= i < |cs| ==> CommentOk(cs[i])
  }

  predicate OptionalValueOk(v: Errors.Option<string>) {
    v.Some? ==> ValueOk(v.value)
  }

  predicate ConfigOk(c: AwsConfig) {
    CommentsOk(c.comments) && NameOk(c.name) && OptionalValueOk(c.region) && OptionalValueOk(c.output)
  }

  predicate CredentialOk(d: AwsCredential) {
    CommentsOk(d.comments) && NameOk(d.name) && ValueOk(d.awsAccessKeyId) && ValueOk(d.awsSecretAccessKey)
  }

  predicate ProfileOk(p: AwsProfile) {
    ConfigOk(ConfigOfProfile(p)) && CredentialOk(CredentialOfProfile(p))
  }

  function ProfileNames(ps: seq<AwsProfile>): (ns: seq<ProfileName>)
    ensures |ns| == |ps| && forall i :: 0 <= i < |ps| ==> ns[i] == ps[i].name
  {
    seq(|ps|, i requires 0 <= i < |ps| => ps[i].name)
  }

  /** Profiles the writer and the parser agree on: each well-formed, no
      name twice. */
  predicate ProfilesOk(ps: seq<AwsProfile>) {
    (forall i :: 0 <= i < |ps| ==> ProfileOk(ps[i])) && Distinct(ProfileNames(ps))
  }

  predicate CommentsReadable(cs: seq<string>) {
    forall i :: 0 <= i < |cs| ==> CommentReadable(cs[i])
  }

  predicate OptionalOneLine(v: Errors.Option<string>) {
    v.Some? ==> '\n' !in v.value
  }

  /** A config record whose every line is read back as a line of the same
      kind, though not always with the same text. */
  predicate ConfigReadable(c: AwsConfig) {
    CommentsReadable(c.comments) && NameOk(c.name) && OptionalOneLine(c.region) && OptionalOneLine(c.output)
  }

  predicate CredentialReadable(d: AwsCredential) {
    CommentsReadable(d.comments) && NameOk(d.name) && '\n' !in d.awsAccessKeyId && '\n' !in d.awsSecretAccessKey
  }

  predicate ProfileReadable(p: AwsProfile) {
    ConfigReadable(ConfigOfProfile(p)) && CredentialReadable(CredentialOfProfile(p))
  }

  /** Profiles the writer and the parser carry through record by record:
      each readable, no name twice.  Every successful parse gives such
      profiles (`ParsedShape.ParsedReadable`). */
  predicate ProfilesReadable(ps: seq<AwsProfile>) {
    (forall i :: 0 <= i < |ps| ==> ProfileReadable(ps[i])) && Distinct(ProfileNames(ps))
  }

  // ---------------------------------------------------------------------
  // What comes back

  /** The comments of a record as they are read back. */
  function ReadCommentTexts(cs: seq<string>): seq<string> {
    ReadComments(StripCrs(cs))
  }

  /** A value as it is read back from a line of the given lockedness. */
  function ReadValueText(locked: bool, v: string): string {
    ReadValue(locked, StripCr(v))
  }

  function ReadOptional(locked: bool, v: Errors.Option<string>): Errors.Option<string> {
    if v.Some? then Some(ReadValueText(locked, v.value)) else None
  }

  /** A config record as `parse_config` reads it back from the text
      `write_config` wrote for it: name, flags and which values are present
      are kept, comments and values come back as the lexer reads them. */
  function ReadConfig(c: AwsConfig): AwsConfig {
    c.(comments := ReadCommentTexts(c.comments),
       region := ReadOptional(c.isLocked, c.region),
       output := ReadOptional(c.isLocked, c.output))
  }

  function ReadCredential(d: AwsCredential): AwsCredential {
    d.(comments := ReadCommentTexts(d.comments),
       awsAccessKeyId := ReadValueText(d.isLocked, d.awsAccessKeyId),
       awsSecretAccessKey := ReadValueText(d.isLocked, d.awsSecretAccessKey))
  }

  function ReadProfile(p: AwsProfile): AwsProfile {
    p.(configComments := ReadCommentTexts(p.configComments),
       credentialsComments := ReadCommentTexts(p.credentialsComments),
       region := ReadOptional(p.isLocked, p.region),
       output := ReadOptional(p.isLocked, p.output),
       awsAccessKeyId := ReadValueText(p.isLocked, p.awsAccessKeyId),
       awsSecretAccessKey := ReadValueText(p.isLocked, p.awsSecretAccessKey))
  }

  function ReadConfigs(cs: seq<AwsConfig>): (rs: seq<AwsConfig>)
    ensures |rs| == |cs| && forall i :: 0 <= i < |cs| ==> rs[i] == ReadConfig(cs[i])
  {
    seq(|cs|, i requires 0 <= i < |cs| => ReadConfig(cs[i]))
  }

  function ReadCredentials(ds: seq<AwsCredential>): (rs: seq<AwsCredential>)
    ensures |rs| == |ds| && forall i :: 0 <= i < |ds| ==> rs[i] == ReadCredential(ds[i])
  {
    seq(|ds|, i requires 0 <= i < |ds| => ReadCredential(ds[i]))
  }

  function ReadProfiles(ps: seq<AwsProfile>): (rs: seq<AwsProfile>)
    ensures |rs| == |ps| && forall i :: 0 <= i < |ps| ==> rs[i] == ReadProfile(ps[i])
  {
    seq(|ps|, i requires 0 <= i < |ps| => ReadProfile(ps[i]))
  }

  /** Reading back keeps the names and both flags of every profile. */
  lemma ReadProfilesKeep(ps: seq<AwsProfile>)
    ensures var rs := ReadProfiles(ps);
      && ProfileNames(rs) == ProfileNames(ps)
      && (forall i :: 0 <= i < |ps| ==> rs[i].isLocked == ps[i].isLocked && rs[i].isProduction == ps[i].isProduction)
  {
  }

  /** A well-formed record is read back exactly. */
  lemma ConfigOkRead(c: AwsConfig)
    requires ConfigOk(c)
    ensures ConfigReadable(c) && ReadConfig(c) == c
  {
    CommentsOkRead(c.comments);
    ValueOkRead(c.isLocked, c.region);
    ValueOkRead(c.isLocked, c.output);
  }

  lemma CredentialOkRead(d: AwsCredential)
    requires CredentialOk(d)
    ensures CredentialReadable(d) && ReadCredential(d) == d
  {
    CommentsOkRead(d.comments);
    ValueOkRead(d.isLocked, Some(d.awsAccessKeyId));
    ValueOkRead(d.isLocked, Some(d.awsSecretAccessKey));
  }

  lemma ProfileOkRead(p: AwsProfile)
    requires ProfileOk(p)
    ensures ProfileReadable(p) && ReadProfile(p) == p
  {
    ConfigOkRead(ConfigOfProfile(p));
    CredentialOkRead(CredentialOfProfile(p));
  }

  lemma CommentsOkRead(cs: seq<string>)
    requires CommentsOk(cs)
    ensures CommentsReadable(cs) && ReadCommentTexts(cs) == cs
  {
    assert StripCrs(cs) == cs;
  }

  lemma ValueOkRead(locked: bool, v: Errors.Option<string>)
    requires OptionalValueOk(v)
    ensures OptionalOneLine(v) && ReadOptional(locked, v) == v
  {
    if v.Some? {
      TrimOfTrimmed(v.value);
    }
  }

  // ---------------------------------------------------------------------
  // One record
  /** A config header names the profile it was written for. */
  lemma ConfigHeaderName(n: ProfileName)
    requires NameOk(n)
    ensures ConfigName(ConfigHeader(n)) == Ok(n)
  {
    if n.Named? {
      var h := ConfigHeader(n);
      assert h[..8] == "profile " && h[8..] == n.name;
    }
  }

  lemma ConfigBlockReadable(c: AwsConfig)
    requires ConfigReadable(c)
    ensures BlockReadable(ConfigBlock(c))
  {
    var b := ConfigBlock(c);
    assert '\n' !in b.header by {
      if c.name.Named? {
        assert b.header == "profile " + c.name.name;
      }
    }
  }

  lemma CredentialBlockReadable(d: AwsCredential)
    requires CredentialReadable(d)
    ensures BlockReadable(CredentialBlock(d))
  {
    assert KeyOk("aws_access_key_id") && KeyOk("aws_secret_access_key");
  }

  /** The block read back for a config record is the block of the record
      read back. */
  lemma ConfigBlockRead(c: AwsConfig)
    ensures ReadBlock(ConfigBlock(c)) == ConfigBlock(ReadConfig(c))
  {
    var b := ConfigBlock(c);
    var r: seq<(string, string)> := if c.region.Some? then [("region", c.region.value)] else [];
    var o: seq<(string, string)> := if c.output.Some? then [("output", c.output.value)] else [];
    assert b.options == r + o;
    assert ReadOptions(c.isLocked, CrOptions(r + o)) == ConfigBlock(ReadConfig(c)).options;
  }

  lemma CredentialBlockRead(d: AwsCredential)
    ensures ReadBlock(CredentialBlock(d)) == CredentialBlock(ReadCredential(d))
  {
    var b := CredentialBlock(d);
    assert ReadOptions(d.isLocked, CrOptions(b.options)) == CredentialBlock(ReadCredential(d)).options;
  }
  /** The values written for a config record, looked up again. */
  lemma ConfigOptionsMap(c: AwsConfig)
    ensures var m := MapOf(ConfigBlock(c).options);
      Lookup(m, "region") == c.region && Lookup(m, "output") == c.output
  {
    var r: seq<(string, string)> := if c.region.Some? then [("region", c.region.value)] else [];
    var o: seq<(string, string)> := if c.output.Some? then [("output", c.output.value)] else [];
    assert ConfigBlock(c).options == r + o;
    if c.region.Some? && c.output.Some? {
      assert (r + o)[..1] == r;
    }
  }

  /** Writing a config record and reading its entry gives the record back. */
  lemma ConfigReadBack(c: AwsConfig)
    requires NameOk(c.name)
    ensures ConfigOf(EntryOfBlock(ConfigBlock(c))) == Ok(c)
  {
    ConfigHeaderName(c.name);
    ConfigOptionsMap(c);
  }

  /** Writing a credentials record and reading its entry gives the record back. */
  lemma CredentialReadBack(d: AwsCredential)
    requires NameOk(d.name)
    ensures CredentialOf(EntryOfBlock(CredentialBlock(d))) == Ok(d)
  {
    var kvs := CredentialBlock(d).options;
    var first := [("aws_access_key_id", d.awsAccessKeyId)];
    assert kvs[..1] == first && first[..0] == [];
    assert MapOf(first) == map["aws_access_key_id" := d.awsAccessKeyId];
    assert "aws_access_key_id" != "aws_secret_access_key";
    assert MapOf(kvs) == map["aws_access_key_id" := d.awsAccessKeyId, "aws_secret_access_key" := d.awsSecretAccessKey];
    FromToString(d.name);
  }

  // ---------------------------------------------------------------------
  // One file

  /** `parse_config` reads the text `write_config` wrote back as the
      records as they come back, in order. */
  lemma ConfigFileRead(cs: seq<AwsConfig>)
    requires forall i :: 0 <= i < |cs| ==> ConfigReadable(cs[i])
    ensures ParseConfigText(ConfigText(cs)) == Ok(ReadConfigs(cs))
  {
    var bs := ConfigBlocks(cs);
    forall i | 0 <= i < |bs| ensures BlockReadable(bs[i]) {
      ConfigBlockReadable(cs[i]);
    }
    FileEntriesRead(bs);
    var es := EntriesOfBlocks(ReadBlocks(bs));
    var rs := ReadConfigs(cs);
    forall i | 0 <= i < |es| ensures ConfigOf(es[i]) == Ok(rs[i]) {
      ConfigBlockRead(cs[i]);
      ConfigReadBack(rs[i]);
    }
    CollectOk(es, ConfigOf, rs);
  }

  /** `parse_credentials` reads the text `write_credentials` wrote back as
      the records as they come back, in order. */
  lemma CredentialFileRead(ds: seq<AwsCredential>)
    requires forall i :: 0 <= i < |ds| ==> CredentialReadable(ds[i])
    ensures ParseCredentialsText(CredentialsText(ds)) == Ok(ReadCredentials(ds))
  {
    var bs := CredentialBlocks(ds);
    forall i | 0 <= i < |bs| ensures BlockReadable(bs[i]) {
      CredentialBlockReadable(ds[i]);
    }
    FileEntriesRead(bs);
    var es := EntriesOfBlocks(ReadBlocks(bs));
    var rs := ReadCredentials(ds);
    forall i | 0 <= i < |es| ensures CredentialOf(es[i]) == Ok(rs[i]) {
      CredentialBlockRead(ds[i]);
      CredentialReadBack(rs[i]);
    }
    CollectOk(es, CredentialOf, rs);
  }

  /** `parse_config` reads the text `write_config` wrote. */
  lemma ConfigFileRoundTrip(cs: seq<AwsConfig>)
    requires forall i :: 0 <= i < |cs| ==> ConfigOk(cs[i])
    ensures ParseConfigText(ConfigText(cs)) == Ok(cs)
  {
    forall i | 0 <= i < |cs| ensures ConfigReadable(cs[i]) && ReadConfig(cs[i]) == cs[i] {
      ConfigOkRead(cs[i]);
    }
    ConfigFileRead(cs);
    assert ReadConfigs(cs) == cs;
  }

  /** `parse_credentials` reads the text `write_credentials` wrote. */
  lemma CredentialFileRoundTrip(ds: seq<AwsCredential>)
    requires forall i :: 0 <= i < |ds| ==> CredentialOk(ds[i])
    ensures ParseCredentialsText(CredentialsText(ds)) == Ok(ds)
  {
    forall i | 0 <= i < |ds| ensures CredentialReadable(ds[i]) && ReadCredential(ds[i]) == ds[i] {
      CredentialOkRead(ds[i]);
    }
    CredentialFileRead(ds);
    assert ReadCredentials(ds) == ds;
  }

  // ---------------------------------------------------------------------
  // Both files

  /** Both halves of split profiles carry the profiles' names, in order. */
  lemma SplitNames(ps: seq<AwsProfile>)
    ensures ConfigNames(ConfigsOf(ps)) == ProfileNames(ps)
    ensures CredentialNames(CredentialsOf(ps)) == ProfileNames(ps)
  {
  }

  /** The merge names of split distinct-named profiles are their names. */
  lemma MergeNamesOfSplit(ps: seq<AwsProfile>)
    requires Distinct(ProfileNames(ps))
    ensures MergeNames(ConfigsOf(ps), CredentialsOf(ps)) == ProfileNames(ps)
  {
    var ns := ProfileNames(ps);
    SplitNames(ps);
    DedupAbsorbs(ns, ns);
    DedupDistinct(ns);
  }

  /** The records kept for the name of profile `i` are its two halves. */
  lemma ByNameOfSplit(ps: seq<AwsProfile>, i: nat)
    requires Distinct(ProfileNames(ps)) && i < |ps|
    ensures var n := ps[i].name;
      && n in ConfigsByName(ConfigsOf(ps)) && ConfigsByName(ConfigsOf(ps))[n] == ConfigOfProfile(ps[i])
      && n in CredentialsByName(CredentialsOf(ps)) && CredentialsByName(CredentialsOf(ps))[n] == CredentialOfProfile(ps[i])
  {
    var ns := ProfileNames(ps);
    assert forall j :: i < j < |ps| ==> ns[j] != ns[i];
    ConfigsByNameLast(ConfigsOf(ps), i);
    CredentialsByNameLast(CredentialsOf(ps), i);
  }

  /** Splitting distinct-named profiles and merging them again gives them back. */
  lemma MergeOfSplit(ps: seq<AwsProfile>)
    requires Distinct(ProfileNames(ps))
    ensures Merge(ConfigsOf(ps), CredentialsOf(ps)) == Ok(ps)
  {
    var cs := ConfigsOf(ps);
    var ds := CredentialsOf(ps);
    var ns := ProfileNames(ps);
    SplitNames(ps);
    MergeNamesOfSplit(ps);
    assert ConfigNames(cs) == CredentialNames(ds);
    MergeCases(cs, ds);
    var r := Merge(cs, ds);
    assert r.Ok? && |r.value| == |ps|;
    forall i | 0 <= i < |ps| ensures r.value[i] == ps[i] {
      ByNameOfSplit(ps, i);
    }
    assert r.value == ps;
  }

  /** The double round trip in general: profiles written and parsed again
      come back as `ReadProfiles` gives them, with names, flags and order
      kept. */
  lemma WriteThenParseRead(ps: seq<AwsProfile>)
    requires ProfilesReadable(ps)
    ensures ParseProfiles(ConfigText(ConfigsOf(ps)), CredentialsText(CredentialsOf(ps))) == Ok(ReadProfiles(ps))
  {
    var rs := ReadProfiles(ps);
    var cs := ConfigsOf(ps);
    var ds := CredentialsOf(ps);
    assert ParseConfigText(ConfigText(cs)) == Ok(ConfigsOf(rs)) by {
      forall i | 0 <= i < |cs| ensures ConfigReadable(cs[i]) {
        assert ProfileReadable(ps[i]);
      }
      ConfigFileRead(cs);
      SplitRead(ps);
    }
    assert ParseCredentialsText(CredentialsText(ds)) == Ok(CredentialsOf(rs)) by {
      forall i | 0 <= i < |ds| ensures CredentialReadable(ds[i]) {
        assert ProfileReadable(ps[i]);
      }
      CredentialFileRead(ds);
      SplitRead(ps);
    }
    assert Merge(ConfigsOf(rs), CredentialsOf(rs)) == Ok(rs) by {
      ReadProfilesKeep(ps);
      MergeOfSplit(rs);
    }
    ParseProfilesOf(ConfigText(cs), CredentialsText(ds), ConfigsOf(rs), CredentialsOf(rs));
  }

  /** `parse` of two texts that parse is the merge of their records. */
  lemma ParseProfilesOf(configText: string, credentialsText: string, cs: seq<AwsConfig>, ds: seq<AwsCredential>)
    requires ParseConfigText(configText) == Ok(cs) && ParseCredentialsText(credentialsText) == Ok(ds)
    ensures ParseProfiles(configText, credentialsText) == Merge(cs, ds)
  {
  }

  /** Reading back commutes with splitting profiles into their two records. */
  lemma SplitRead(ps: seq<AwsProfile>)
    ensures ConfigsOf(ReadProfiles(ps)) == ReadConfigs(ConfigsOf(ps))
    ensures CredentialsOf(ReadProfiles(ps)) == ReadCredentials(CredentialsOf(ps))
  {
  }

  /** The double round trip: `parse(write(P)) == P` for well-formed profiles. */
  lemma WriteThenParse(ps: seq<AwsProfile>)
    requires ProfilesOk(ps)
    ensures ParseProfiles(ConfigText(ConfigsOf(ps)), CredentialsText(CredentialsOf(ps))) == Ok(ps)
  {
    forall i | 0 <= i < |ps| ensures ProfileReadable(ps[i]) && ReadProfile(ps[i]) == ps[i] {
      ProfileOkRead(ps[i]);
    }
    WriteThenParseRead(ps);
    assert ReadProfiles(ps) == ps;
  }
  /** The profiles of a successful parse never share a name. */
  lemma ParsedNamesDistinct(configText: string, credentialsText: string)
    requires ParseProfiles(configText, credentialsText).Ok?
    ensures Distinct(ProfileNames(ParseProfiles(configText, credentialsText).value))
  {
    var cs := ParseConfigText(configText).value;
    var ds := ParseCredentialsText(credentialsText).value;
    MergeCases(cs, ds);
    var ns := MergeNames(cs, ds);
    assert ProfileNames(Merge(cs, ds).value) == ns;
  }
}
