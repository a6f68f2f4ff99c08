# aws-unlock lock engine, modelled in Dafny

aws-unlock keeps AWS profiles *locked* by commenting them out in the two
files of the AWS command line tools, `~/.aws/config` and `~/.aws/credentials`.
It unlocks chosen profiles for a while and locks them again afterwards. This
project models the text-based engine behind that and proves properties about
it. The engine has four parts, one module each:

- `LineLexer` (`line_lexer.dfy`) is the line lexer. It turns every physical
  line into one `EntryLine` token. A line whose trimmed form starts with `#`
  is commented. A commented line that still has the shape of a header or of
  `key = value` is read as *locked* data.
- `LineParser` (`line_parser.dfy`) is the entry parser. It is a cursor over
  the token list that groups tokens into `Entry` records: comments, the
  production flag, the lock flag, the header and the values.
- `AwsProfiles` (`aws_profile.dfy`) is the profile store. It maps entry
  headers to `ProfileName`s, turns entries into config and credentials
  records, and merges the two files by profile name into `AwsProfile`s. It
  also writes profiles back as text. A `# ` in front of the header line and
  every option line marks a locked profile, and a `# production` line marks
  a production profile.
- `AwsLock` (`aws_lock.dfy`) is the lock status change. `modify_lock_status`
  reads both files, checks the targets, sets the lock flag on every target
  profile and rewrites both files. `AwsLockGuard` unlocks its targets when
  it is made and locks them again when it is released.

Three supporting modules complete it:

- `Errors` (`errors.dfy`) has the error values, `Option`, and `Result`.
  `Result` supports `:-` and collecting a sequence of results.
- `Text` (`text.dfy`) has the string functions of the Rust standard library
  that the engine uses: `trim` over the Unicode `White_Space` set, `find`
  and `contains` for one character, `lines`, and the writer's
  one-`writeln!`-per-line output.
- `RoundTrip` (`roundtrip.dfy`) and `ProfileRoundTrip`
  (`profile_roundtrip.dfy`) prove what parsing what the writer wrote gives
  back. Names, flags, keys and order always come back. Comments and values
  come back as the lexer reads them (`ReadProfiles`): `lines` drops a final
  carriage return, a blank comment gains a space, and the lexer trims
  values. Well-formed profiles come back unchanged. The proof goes line by
  line, then block by block, file by file, and for both files together.
- `ParsedShape` (`parsed_shape.dfy`) proves that every successful parse,
  whatever the files hold, gives profiles of the shape the general round
  trip needs. So unlocking and releasing again is described for every
  input (`AwsLock.UnlockThenRelease`).

Each function of the source that changes state keeps that form here:

- The lexer and the parser are classes with a cursor field.
- Their loops are Dafny loops. Each loop is proved to compute a declarative
  function of the token list (`ScanIsProduction`, `ScanValues`,
  `ParseOneAt`, `ParseFrom`, ...), and the properties of the source are
  proved about those functions.
- `AwsFile` stands for the two open files. Its two fields hold their text.
  The writers rebuild each text from nothing, as the source truncates each
  file before writing.
- `modify_lock_status` sets the lock flags in a loop that is proved to
  compute `SetLockStatus`. It then rewrites the store. Its whole effect,
  error or new file contents, is tied to `LockOutcome`, a function of the
  two old texts.

Decisions where the source leaves a choice or does not compile as written:

- `aws_lock.rs` types the targets as `Option<String>` but looks them up in
  a map keyed by `ProfileName` (`src/aws_lock.rs:10`,
  `src/aws_lock.rs:38-48`). The model types the targets as `ProfileName`.
  `Default` stands for `None`, which the error message prints as `default`
  (`src/aws_lock.rs:56`).
- `modify_lock_status` opens the two files itself. In the model the store
  it works on is an `AwsFile` parameter.
- The guard's `Drop` is the explicit method `AwsLockGuard.Release`. A ghost
  flag records that it runs once. `AwsLockGuard.Lock` only calls it.
- Merging needs both a config record and a credentials record for every
  name. A name found in only one file is an error (`src/aws_profile.rs:148-155`).
- Profiles have no session token or security token fields
  (`src/aws_profile.rs:41-68`).
- A production profile is only marked. Nothing asks for confirmation
  before one is unlocked (`src/aws_lock.rs:14-17`).

## Model

| member | source | states |
|---|---|---|
| Errors.Collect | src/aws_profile.rs:179-201 | collecting results in order: Ok exactly when every element succeeds, then one value per element in order; otherwise the error of the first failing element |
| Text.TrimShape | src/line_lexer.rs:49 | `trim` keeps a part of its argument, and gives "" exactly when every character is white space |
| Text.TrimStartShape | src/line_lexer.rs:84 | `trim_start` keeps a suffix, removes only white space, and stops at the first other character |
| Text.TrimEndShape | src/line_lexer.rs:83 | `trim_end` keeps a prefix, removes only white space, and stops at the last other character |
| Text.FindChar | src/line_lexer.rs:55 | the position of the first occurrence of a character, or the length when it does not occur (`contains` is a position below the length) |
| Text.Lines | src/line_lexer.rs:22 | `lines`: no line it gives holds a line feed |
| Text.LinesOfJoinLines | src/line_lexer.rs:22 | splitting text written one line and one line feed at a time gives back those lines, each less one final carriage return, when none holds a line feed |
| Text.StripCrsSafe | src/line_lexer.rs:22 | lines that do not end in a carriage return lose nothing to `lines` |
| LineLexer.SplitOption | src/line_lexer.rs:57-64 | the option split is at the FIRST `=`: key = the part before it with trailing white space removed, value = everything after it with leading white space removed (so the value may hold `=`) |
| LineLexer.SplitOptionOf | src/line_lexer.rs:78-84 | for a key part with no `=`, `key_part = value_part` splits into exactly the trimmed key part and the trimmed value part |
| LineLexer.CommentStart | src/line_lexer.rs:67 | the comment text starts after 2 characters when the trimmed line starts with `# `, else after 1, and this slice is taken from the untrimmed line |
| LineLexer.TokenizeCommented | src/line_lexer.rs:48-70 | the commented-line classifier is total; inner text `production` gives the marker, else bracketed text gives a locked header with the text between the brackets, else text holding `=` gives a locked option split at the first `=`, else a comment (each case exactly, both directions) |
| LineLexer.TokenizeUncommented | src/line_lexer.rs:72-91 | on the untrimmed line: bracketed gives a header with exactly the text between the brackets (tested before `=`, so `[a=b]` is a header), else `=` gives an option, else blank gives `Empty`; failure, with the line, happens exactly when none of these holds |
| LineLexer.TokenizeLine | src/line_lexer.rs:29-33 | a line whose trimmed form starts with `#` always tokenizes, with the commented classifier; every other line goes to the uncommented one |
| LineLexer.CommentedLinesNeverFail | src/line_lexer.rs:29-30 | lines that are all commented never make `tokenize` fail, and give one token per line |
| LineLexer.UnexpectedLineFails | src/line_lexer.rs:88-90 | one uncommented line that is not bracketed, has no `=` and is not blank makes the whole `tokenize` fail, whatever the other lines hold |
| LineLexer.TokenizeLinesStops | src/line_lexer.rs:32 | at the first line that fails, `tokenize` stops with that line's error, and every earlier line succeeded |
| LineLexer.TokenizeLinesAll | src/line_lexer.rs:28-36 | when every line succeeds, the result is exactly the tokens collected, in line order |
| LineLexer.EntryLineLexer.constructor | src/line_lexer.rs:21-24 | the lexer holds the lines of the contents and its cursor is at the start |
| LineLexer.EntryLineLexer.NextLine | src/line_lexer.rs:39-45 | gives the line under the cursor and moves it on by one; at the end it gives `None` and the cursor stays |
| LineLexer.EntryLineLexer.Tokenize | src/line_lexer.rs:26-37 | result = tokenizing the remaining lines; on success one token per line and the cursor at the end; on failure the cursor is just past the first bad line, every earlier line succeeded, and the error names that line |
| LineParser.SkipWhile | src/line_parser.rs:173-177 | the first position at or after the start whose token fails the test: all tokens before it pass, it is within bounds |
| LineParser.ParseOneAt | src/line_parser.rs:30-56 | `parse_one` gives `None` exactly when only `Empty` tokens remain, and then the cursor is at the end; every entry consumes at least one token, so `parse` terminates |
| LineParser.OptionsMapKeys | src/line_parser.rs:150-161 | the keys of the collected values are exactly the keys of the option tokens (either kind) that were consumed |
| LineParser.OptionsMapLastWins | src/line_parser.rs:150-161 | a later option with the same key overwrites an earlier one: the value kept is that of the last option with that key |
| LineParser.ScanIsProductionTrue | src/line_parser.rs:58-81 | `is_production` is true exactly when a production marker appears in the leading run of comments and blank lines, and that marker is consumed |
| LineParser.ParseOneAtReadsEntry | src/line_parser.rs:30-56 | the phase-by-phase `parse_one` equals `ReadEntry`, a direct reading of the same entry off the token list |
| LineParser.ParseOneEntry | src/line_parser.rs:30-56 | `parse_one` gives an entry exactly when the first token that is not filler or the marker is a header and no unlocked option cuts a locked entry short. That entry's comments are the comment texts before the header, in order, and nothing from the values. It is production exactly when the leading run has a marker. Its lockedness is that of the header. Its values are the options up to the first token that is neither blank nor accepted, where the cursor stops |
| LineParser.ParseOneErrors | src/line_parser.rs:58-140 | how `parse_one` fails. End of input before a header fails (`is_production` or `is_locked` phase). A second production marker fails, and so does an option before any header. An unlocked option inside a locked entry (only there) fails. The two messages of `parse_header` about a marker and about end of input can never come out |
| LineParser.EntryLineParser.constructor | src/line_parser.rs:22-24 | the parser holds the tokens and its cursor is at the start |
| LineParser.EntryLineParser.PeekLine | src/line_parser.rs:183-185 | the token under the cursor, `None` exactly at the end |
| LineParser.EntryLineParser.NextLine | src/line_parser.rs:187-193 | gives the token under the cursor; the cursor moves on by one, and stays at the end; it never passes the number of tokens |
| LineParser.EntryLineParser.IsFinished | src/line_parser.rs:179-181 | true exactly when no token is under the cursor |
| LineParser.EntryLineParser.SkipEmptyLine | src/line_parser.rs:173-177 | the cursor moves to the first token at or after it that is not `Empty` |
| LineParser.EntryLineParser.ParseIsProduction | src/line_parser.rs:58-81 | the loop computes `ScanIsProduction`: comments up to the first non-filler token, a marker there consumed and reported, end of input an error |
| LineParser.EntryLineParser.ParseIsLocked | src/line_parser.rs:83-106 | the loop computes `ScanIsLocked`: a locked header or option gives true, an unlocked one false, neither consumed; a marker or end of input is an error |
| LineParser.EntryLineParser.ParseHeader | src/line_parser.rs:108-140 | the loop computes `ScanHeader`: the header whose lockedness matches is consumed and named; a marker, any other token or end of input is an error |
| LineParser.EntryLineParser.ParseValues | src/line_parser.rs:142-171 | the loop computes `ScanValues`: blank lines, locked options and (in an unlocked entry) options are consumed into the map; a comment, header or marker ends it unconsumed; an unlocked option in a locked entry is an error; end of input is success |
| LineParser.EntryLineParser.ParseOne | src/line_parser.rs:30-56 | the four phases in order compute `ParseOneAt`, result and cursor |
| LineParser.EntryLineParser.Parse | src/line_parser.rs:26-28 | repeated `parse_one` until `None` or the first error computes `ParseFrom` from the cursor |
| AwsProfiles.FromString | src/aws_profile.rs:18-29 | `from` gives `Default` exactly for `"default"`, and displaying the result gives the string back |
| AwsProfiles.FromToString | src/aws_profile.rs:18-38 | `from(display(p)) == p` exactly when `p` is not `Named("default")`, the one name `from` never builds |
| AwsProfiles.Lookup | src/aws_profile.rs:190-191 | `get(..).cloned()`: `Some` of the value exactly when the key is present |
| AwsProfiles.ConfigName | src/aws_profile.rs:182-188 | a config header names a profile exactly when it is `default` or starts with `profile ` (first space at position 7); the name is then `Default` or `from` of the rest, so `profile default` is `Default`; any other header is an error naming it |
| AwsProfiles.ProfilePrefixSplit | src/aws_profile.rs:185-186 | the first word of `splitn(2, ' ')` is `profile` exactly when the header starts with `profile ` |
| AwsProfiles.ConfigOf | src/aws_profile.rs:181-199 | a config entry becomes a record with its comments, flags, header name and the `region`/`output` values if present; it fails exactly when the header does |
| AwsProfiles.CredentialOf | src/aws_profile.rs:214-237 | a credentials entry fails exactly when a key is missing (the access key id looked for first, each with its own error); otherwise the record has `from` of the header and both values |
| AwsProfiles.Dedup | src/aws_profile.rs:138-144 | the merged name list holds exactly the names of its input, none twice |
| AwsProfiles.DedupOrder | src/aws_profile.rs:138-144 | the merged names come in the order of their first occurrence |
| AwsProfiles.DedupPrefix | src/aws_profile.rs:138-144 | config names keep their place: the list for config names followed by credentials names starts with the list for the config names |
| AwsProfiles.DedupAbsorbs | src/aws_profile.rs:138-144 | names already seen add nothing |
| AwsProfiles.DedupDistinct | src/aws_profile.rs:138-144 | a list without repeats is its own merged name list |
| AwsProfiles.ConfigsByName | src/aws_profile.rs:126-129 | the config map has exactly the names of the config records as keys |
| AwsProfiles.ConfigsByNameLast | src/aws_profile.rs:126-129 | the record kept for a name is the last config record with that name |
| AwsProfiles.CredentialsByName | src/aws_profile.rs:133-136 | the credentials map has exactly the names of the credentials records as keys |
| AwsProfiles.CredentialsByNameLast | src/aws_profile.rs:133-136 | the record kept for a name is the last credentials record with that name |
| AwsProfiles.MergeOne | src/aws_profile.rs:148-166 | one name fails exactly when either map lacks it, the config side checked first; otherwise the profile has that name and the OR of both sides' production and lock flags |
| AwsProfiles.MergeCases | src/aws_profile.rs:146-168 | the merge succeeds exactly when the config names and the credentials names are the same set; the profiles then come in merged-name order, each made of the two records for its name |
| AwsProfiles.ConfigHeaderLine | src/aws_profile.rs:292-297 | the config header line is `[default]` or `[profile <name>]`, behind the lock prefix |
| AwsProfiles.ConfigBlockLines | src/aws_profile.rs:282-305 | one config record is written as `# c` per comment, `# production` if set, the header line, then `region = ` and `output = ` lines only when present, the last three prefixed `# ` exactly when locked |
| AwsProfiles.CredentialBlockLines | src/aws_profile.rs:322-342 | one credentials record is written as `# c` per comment, `# production` if set, then `[name]`, `aws_access_key_id = ` and `aws_secret_access_key = ` lines prefixed `# ` exactly when locked |
| AwsProfiles.AwsFile.constructor | src/aws_profile.rs:97-114 | the store holds the two files' text |
| AwsProfiles.AwsFile.ParseConfig | src/aws_profile.rs:171-202 | lexing, parsing and converting the config text gives `ParseConfigText` of it |
| AwsProfiles.AwsFile.ParseCredentials | src/aws_profile.rs:204-240 | lexing, parsing and converting the credentials text gives `ParseCredentialsText` of it |
| AwsProfiles.AwsFile.Parse | src/aws_profile.rs:123-169 | `parse` gives `ParseProfiles` of the two texts: config errors first, then credentials errors, then the merge |
| AwsProfiles.AwsFile.MergeNameList | src/aws_profile.rs:138-144 | the `HashSet`-guarded loop builds exactly `Dedup` of the config names followed by the credentials names |
| AwsProfiles.AwsFile.MergeByName | src/aws_profile.rs:146-168 | removing each name's records from the two maps gives the collected merge, with the error of the first name either map lacks |
| AwsProfiles.AwsFile.Write | src/aws_profile.rs:242-269 | both files are replaced by the text of the profiles' config records and credentials records |
| AwsProfiles.AwsFile.WriteConfig | src/aws_profile.rs:271-309 | the config file is replaced by `ConfigText` of the records and the credentials file is unchanged |
| AwsProfiles.AwsFile.WriteConfigRecord | src/aws_profile.rs:282-305 | the loop body appends exactly the lines of one config record |
| AwsProfiles.AwsFile.WriteComments | src/aws_profile.rs:282-284 | one `# c` line per comment, in order |
| AwsProfiles.AwsFile.WriteCredentials | src/aws_profile.rs:311-346 | the credentials file is replaced by `CredentialsText` of the records and the config file is unchanged |
| AwsProfiles.AwsFile.WriteCredentialRecord | src/aws_profile.rs:322-342 | the loop body appends exactly the lines of one credentials record |
| RoundTrip.CommentedLine | src/line_lexer.rs:49 | a line written as `# c` (c not blank) trims to `# ` + c without trailing white space, and its inner text is `trim(c)` |
| RoundTrip.TokenizeComment | src/line_lexer.rs:48-69 | a comment line `# c` is read back as a comment for every `c` that, trimmed, is not `production`, not bracketed and has no `=`: as `c` itself, or with one more leading space when `c` is blank |
| RoundTrip.TokenizeProductionLine | src/aws_profile.rs:287 | `# production` is read back as the production marker |
| RoundTrip.TokenizeHeader | src/aws_profile.rs:290-297 | a header line, locked or not, is read back as the header token of that lockedness holding exactly the name between the brackets |
| RoundTrip.OptionBodySplit | src/line_lexer.rs:78-85 | `k = v` splits back into exactly `k` and `v` less its leading white space, for a key without `=` or surrounding white space and any value |
| RoundTrip.OptionBodyTrim | src/line_lexer.rs:49-64 | trimming `k = v` keeps the `=` and splits back into `k` and the trimmed `v`, for any value, blank ones included |
| RoundTrip.KeySplitsBack | src/line_lexer.rs:57-64 | `k =` followed by any text holds the `=` and splits back into `k` and that text with its start trimmed |
| RoundTrip.TokenizeOption | src/aws_profile.rs:299-305 | an option line, locked or not, is read back as the option token of that lockedness with the same key; the value loses its leading white space, and on a locked line its trailing white space too |
| RoundTrip.TokenizeUnlockedOption | src/line_lexer.rs:76-85 | `k = v` is read back as `Option(k, trim_start(v))` |
| RoundTrip.TokenizeLockedOption | src/line_lexer.rs:55-64 | `# k = v` is read back as `LockedOption(k, trim(v))` |
| RoundTrip.LockedBody | src/line_lexer.rs:49-64 | for `# k = v` the trimmed text after `#` is neither the production marker nor a header, holds the `=`, and splits into `k` and the trimmed `v` |
| RoundTrip.LockedOptionLine | src/line_lexer.rs:49-64 | a commented line whose inner text is not the marker, not bracketed and holds `=` is read as a locked option split at its first `=` |
| RoundTrip.TokenizeSeparator | src/aws_profile.rs:277-279 | the blank line between records is read back as `Empty` |
| RoundTrip.BlankCommentGrows | src/line_lexer.rs:67-68 | a blank comment is NOT read back as itself: `# ` followed by blank text comes back with one more leading space |
| RoundTrip.BlockLinesOneLine | src/aws_profile.rs:282-305 | no line written for a record with one-line comments, header and values holds a line feed |
| RoundTrip.FileLinesOneLine | src/aws_profile.rs:276-306 | no line written for a file of such records holds a line feed |
| RoundTrip.BlockLinesCr | src/line_lexer.rs:22 | `lines` takes one final carriage return off each comment and value line of a record, and leaves its other lines as written |
| RoundTrip.FileLinesCr | src/line_lexer.rs:22 | the same for all lines of a file, the blank separator lines included |
| RoundTrip.CrBlockLexable | src/line_lexer.rs:48-69 | losing a final carriage return does not change how a comment is classified |
| RoundTrip.ReadBlockOk | src/aws_profile.rs:282-305 | a well-formed record is read back unchanged |
| RoundTrip.TokenizeBlock | src/aws_profile.rs:282-305 | the lines of a record whose comments have a comment's shape lex into its comment tokens, the marker, the header token and the option tokens, in that order, with comments and values as the lexer reads them |
| RoundTrip.TokenizeFile | src/aws_profile.rs:276-306 | the lines of a file of such records lex into the records' tokens with one `Empty` between two records |
| RoundTrip.CommentsInTokens | src/line_parser.rs:66-70 | a run of comment tokens is collected as exactly its texts, in order |
| RoundTrip.OptionsMapTokens | src/line_parser.rs:150-161 | a run of option tokens is collected as the options inserted in order |
| RoundTrip.ParseOneBlock | src/line_parser.rs:30-56 | `parse_one` at the start of a written record gives that record's entry and stops at the start of the next record, or at the end |
| RoundTrip.ParseFileTokens | src/line_parser.rs:26-28 | `parse` over the tokens of written records, behind any tokens already consumed, gives one entry per record, in order, and reaches the end |
| RoundTrip.FileLinesRead | src/line_lexer.rs:22 | the text written for records with one-line comments, header and values splits back into the written lines, comment and value lines less one final carriage return |
| RoundTrip.ParseFileEntries | src/line_parser.rs:26-28 | the tokens of written records parse into exactly the records' entries |
| RoundTrip.FileEntriesRead | src/aws_profile.rs:175-177 | lexing and parsing the text written for such records gives one entry per record, in order, each with the record's header, flags and keys and its comments and values as read back |
| RoundTrip.FileEntries | src/aws_profile.rs:175-177 | lexing and parsing the text written for well-formed records gives exactly their entries, in order |
| ProfileRoundTrip.ConfigHeaderName | src/aws_profile.rs:182-188 | the header the config writer emits for a name is read back as that name |
| ProfileRoundTrip.ConfigOptionsMap | src/aws_profile.rs:190-191 | the `region` and `output` written for a record are looked up again as the record's values, absent ones as `None` |
| ProfileRoundTrip.ConfigReadBack | src/aws_profile.rs:181-199 | the entry of a written config record converts back to that record |
| ProfileRoundTrip.CredentialReadBack | src/aws_profile.rs:214-237 | the entry of a written credentials record converts back to that record |
| ProfileRoundTrip.ReadProfilesKeep | src/aws_profile.rs:242-269 | reading back keeps every profile's name, lock flag and production flag, in order |
| ProfileRoundTrip.ConfigOkRead | src/aws_profile.rs:282-305 | a well-formed config record is readable and comes back unchanged |
| ProfileRoundTrip.CredentialOkRead | src/aws_profile.rs:322-342 | a well-formed credentials record is readable and comes back unchanged |
| ProfileRoundTrip.ProfileOkRead | src/aws_profile.rs:242-269 | a well-formed profile is readable and comes back unchanged |
| ProfileRoundTrip.ConfigBlockRead | src/aws_profile.rs:282-305 | the block read back for a config record is the block of the record as read back: header, flags and which values are present kept |
| ProfileRoundTrip.CredentialBlockRead | src/aws_profile.rs:322-342 | the same for a credentials record |
| ProfileRoundTrip.ConfigFileRead | src/aws_profile.rs:271-309 | `parse_config` of the text `write_config` wrote for readable records gives them back as read back, in order |
| ProfileRoundTrip.CredentialFileRead | src/aws_profile.rs:311-346 | `parse_credentials` of the text `write_credentials` wrote for readable records gives them back as read back, in order |
| ProfileRoundTrip.ConfigFileRoundTrip | src/aws_profile.rs:271-309 | `parse_config` of the text `write_config` wrote gives back the records |
| ProfileRoundTrip.CredentialFileRoundTrip | src/aws_profile.rs:311-346 | `parse_credentials` of the text `write_credentials` wrote gives back the records |
| ProfileRoundTrip.SplitNames | src/aws_profile.rs:243-264 | both halves of split profiles carry the profiles' names in profile order |
| ProfileRoundTrip.MergeNamesOfSplit | src/aws_profile.rs:138-144 | the merged names of the split halves of distinct-named profiles are their names, in order |
| ProfileRoundTrip.ByNameOfSplit | src/aws_profile.rs:126-136 | the records the maps keep for a profile's name are that profile's two halves |
| ProfileRoundTrip.MergeOfSplit | src/aws_profile.rs:146-168 | merging the split halves of distinct-named profiles gives the profiles back |
| ProfileRoundTrip.SplitRead | src/aws_profile.rs:243-264 | reading back commutes with splitting profiles into their config and credentials records |
| ProfileRoundTrip.ParseProfilesOf | src/aws_profile.rs:123-169 | when both files parse, parsing the pair is merging the two parsed record lists |
| ProfileRoundTrip.WriteThenParseRead | src/aws_profile.rs:242-269 | `parse(write(P)) == ReadProfiles(P)` for readable profiles with distinct names: same names, flags and order, comments and values as the lexer reads them |
| ProfileRoundTrip.WriteThenParse | src/aws_profile.rs:242-269 | `parse(write(P)) == P` for well-formed profiles with distinct names |
| ProfileRoundTrip.ParsedNamesDistinct | src/aws_profile.rs:138-144 | the profiles of a successful parse never share a name |
| ParsedShape.SplitValueOneLine | src/line_lexer.rs:57-64 | the value split off a line holds no line feed |
| ParsedShape.CommentInnerOneLine | src/line_lexer.rs:49 | the inner text of a commented line holds no line feed |
| ParsedShape.CommentedShape | src/line_lexer.rs:29-49 | a commented line is white space, `#` and a rest; it trims to `#` and the rest less trailing white space, and its inner text is the trimmed rest |
| ParsedShape.HashTextShaped | src/line_lexer.rs:65-68 | a comment text that still holds the `#` is shaped like a comment once written again when the inner text has no `=` |
| ParsedShape.AfterHashText | src/line_lexer.rs:65-68 | a comment text that starts after the `#` trims to the inner text |
| ParsedShape.BeforeHashText | src/line_lexer.rs:65-68 | a comment text that starts before the `#` is white space, the `#` and the rest |
| ParsedShape.CommentTextReadable | src/line_lexer.rs:48-69 | the text of every comment token the lexer makes is on one line and is read back as a comment once written as `# c` |
| ParsedShape.TokenizeLineReadable | src/line_lexer.rs:29-91 | every token the lexer makes of a line is readable: comments as above, names and values without a line feed |
| ParsedShape.TokenizeLinesReadable | src/line_lexer.rs:26-37 | every token of a tokenized file is readable |
| ParsedShape.CommentsInReadable | src/line_parser.rs:66-70 | comments collected from readable tokens are readable |
| ParsedShape.OptionsMapReadable | src/line_parser.rs:150-161 | values collected from readable tokens hold no line feed |
| ParsedShape.EntryOfReadable | src/line_parser.rs:30-56 | an entry assembled from the comments, the header and the options of readable tokens is readable |
| ParsedShape.ParseOneReadable | src/line_parser.rs:30-56 | the entry `parse_one` reads from readable tokens has readable comments and a header and values without a line feed |
| ParsedShape.ParseFromReadable | src/line_parser.rs:26-28 | every entry `parse` gives from readable tokens is readable |
| ParsedShape.EntriesOfReadable | src/aws_profile.rs:175-177 | every entry read from a file's text is readable |
| ParsedShape.ConfigNameOk | src/aws_profile.rs:182-188 | a config header that names a profile gives a name that both writers' headers give back |
| ParsedShape.ParsedConfigsReadable | src/aws_profile.rs:171-202 | every record `parse_config` gives is readable |
| ParsedShape.ParsedCredentialsReadable | src/aws_profile.rs:204-240 | every record `parse_credentials` gives is readable |
| ParsedShape.ConfigsByNameIn | src/aws_profile.rs:126-129 | the config record kept for a name is one of the config records |
| ParsedShape.CredentialsByNameIn | src/aws_profile.rs:133-136 | the credentials record kept for a name is one of the credentials records |
| ParsedShape.MergeReadable | src/aws_profile.rs:146-168 | merging readable records gives readable profiles |
| ParsedShape.ParsedReadable | src/aws_profile.rs:123-169 | whatever the two files hold, the profiles of a successful parse are readable and no two share a name |
| AwsLock.ProfileIndices | src/aws_lock.rs:38-42 | the index map has exactly the profiles' names as keys, and each name maps to a position holding a profile of that name |
| AwsLock.ProfileIndicesDistinct | src/aws_lock.rs:38-42 | with distinct names each profile's name maps to that profile's own position |
| AwsLock.ProfileIndicesOfNames | src/aws_lock.rs:38-42 | the index map depends only on the names, in order, so changing lock flags does not change it |
| AwsLock.UnknownTargets | src/aws_lock.rs:46-49 | the absent targets are exactly the targets naming no profile |
| AwsLock.DisplayNames | src/aws_lock.rs:54-57 | the error lists each absent target as it displays, `default` for the default profile |
| AwsLock.SetLockStatusEffect | src/aws_lock.rs:62-66 | a profile's lock flag becomes `lock` exactly when a target names it and is otherwise kept; no other field of any profile changes, and no profile is added, dropped or moved |
| AwsLock.SetLockStatusNames | src/aws_lock.rs:63-65 | the names stay as they are, so absent targets create nothing |
| AwsLock.SetLockStatusTwice | src/aws_lock.rs:63-66 | a second change of the same targets overrides the first |
| AwsLock.SetLockStatusIdempotent | src/aws_lock.rs:63-66 | applying the same flag twice gives the same profiles as applying it once |
| AwsLock.SetLockStatusKeepsOk | src/aws_lock.rs:62-69 | changing lock flags keeps profiles well-formed, so they still come back exactly |
| AwsLock.LockOutcomeCases | src/aws_lock.rs:30-73 | a change fails with the parse error when a file does not parse. When absent targets are an error, it fails exactly when some target names no profile, and the error then lists exactly the absent targets, as displayed. Otherwise it gives the profiles with the flags set |
| AwsLock.LockOutcomeTargets | src/aws_lock.rs:62-69 | after a successful change every present target has the requested lock flag, every other profile is exactly as parsed, and only lock flags differ |
| AwsLock.SetLockStatusKeepsReadable | src/aws_lock.rs:62-69 | changing lock flags keeps profiles readable |
| AwsLock.UnlockReadLock | src/aws_lock.rs:14-28 | unlocking, reading back and locking again keeps every profile, name, order and production flag, locks every target and leaves every other lock flag as it was |
| AwsLock.UnlockThenRelease | src/aws_lock.rs:14-28 | for every input on which the unlock succeeds, the release reads back what the unlock wrote (comments and values as the lexer reads them), keeps every profile, name, order and production flag, locks every target, and leaves every other profile's lock flag as first parsed |
| AwsLock.UnlockThenReleaseExact | src/aws_lock.rs:14-28 | when the first parse gives well-formed profiles, the release reads back exactly what the unlock wrote and leaves every target locked and everything else as first parsed |
| AwsLock.SetTargets | src/aws_lock.rs:62-66 | the loop over the targets, setting the flag at each present one's index, computes `SetLockStatus` |
| AwsLock.ModifyLockStatus | src/aws_lock.rs:30-73 | on error the result is that error and nothing is written; otherwise both files hold the text of `LockOutcome`'s profiles |
| AwsLock.AwsLockGuard.constructor | src/aws_lock.rs:16 | a guard over a store and its targets, not yet released |
| AwsLock.AwsLockGuard.Unlock | src/aws_lock.rs:14-17 | `unlock` is the change with absent targets an error and flag false; a guard comes back exactly when it succeeded, and on failure nothing is written |
| AwsLock.AwsLockGuard.Release | src/aws_lock.rs:24-28 | the drop is the change with absent targets skipped and flag true, its result discarded; it runs once |
| AwsLock.AwsLockGuard.Lock | src/aws_lock.rs:19-21 | `lock` does nothing but run the drop |

## Left out

- File input and output: `home_dir`, opening, `seek`, `set_len`, `read_to_string`, `writeln!` failures and `flush` (`src/aws_profile.rs:97-121`). The two files are text held by `AwsFile`, and writing replaces that text.
- The seek at `src/aws_profile.rs:206` rewinds the config file rather than the credentials file before reading credentials. An in-memory store has no file position, so the model always reads the whole credentials text.
- `src/timer.rs` (asynchronous timer, wall clock, task cancellation) and `src/main.rs` (argument parsing and printing) are not part of this model.
- Rust `Drop` timing, unwinding and panics. The drop is the explicit `AwsLockGuard.Release`.
- The wording of error messages. Each failure site has its own `Error` constructor. `UnknownProfiles` carries the displayed names but not the quotes and commas of the message.
- Strings are sequences of characters, and slices are taken in characters. Rust slices in bytes. The two agree wherever the slice point is found by looking for an ASCII character (`#`, a space, a bracket, `=`).
- LineLexer.CommentStart: counts the start of a plain comment's text in characters, where Rust counts bytes from the start of the untrimmed line (`src/line_lexer.rs:67-68`). They differ when white space that is not ASCII comes before the `#`. For `\u{00A0}# x` the engine gives the comment `# x` and the model gives ` x`. For `\u{3000}#x` the engine panics, because the slice falls inside a character, and the model gives `#x`.
- `str::lines` is modelled literally: lines end at a line feed, a carriage return right before it is removed, and there is no line after a final line feed.
- ProfileRoundTrip.WriteThenParse: exact only for well-formed profiles. Their comments are not blank, stay on one line, have no `=`, do not read as `production` or a bracketed header once trimmed, and do not end in a carriage return. Their values have no white space at either end and no line feed. Their names are on one line and not `Named("default")`. For every other profile a parse can give, `WriteThenParseRead` states what comes back instead.
- RoundTrip.BlankCommentGrows: a blank comment drifts by one leading space on every rewrite (`# ` plus blank text goes back to the second character on), so such profiles do not survive a write and a parse unchanged.
- AwsLock.SetLockStatusEffect: stated for profiles with distinct names. With repeated names the index map keeps only the last position of a name, and an earlier profile of that name would keep its flag. `parse` never gives repeated names (`ParsedNamesDistinct`), so `LockOutcomeTargets` needs no such condition.
