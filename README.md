# kvakk-git-tools: platform detection and git-file validation

kvakk-git-tools sets up and checks the git configuration of Statistics
Norway's analysts. This Dafny project models the decision-making core of
four scripts:

- **Platform detection** (`ssb_gitconfig.py`). Three kinds of signal are
  combined:
  - the operating system `platform.system()` reports;
  - the `DAPLA_REGION` and `SESSIONNAME` environment variables;
  - whether the production host `sl-jupyter-p.ssb.no` answers a ping, and,
    only if it does not, whether the administrative host `aw-dc04.ssb.no`
    does.

  The signals are classified into one of seven platform names. Dapla,
  prod-linux and prod-windows-citrix are supported; the rest are not.
- **The platform's choices in `set_base_config` and `main`**: the
  recommended file to copy, the clone command and its SSL options, the
  username substitution, and the abort on an unsupported platform.
- **`.gitconfig` validation** (`validate_ssb_gitconfig.py`). Both texts are
  split on `"\n"` and compared as lists of raw lines. If the lists differ, the
  local lines that the recommended file does not hold must be exactly a
  `[user]` header, a `name` line and an `email` line.
- **`.gitignore` / `.gitattributes` validation**
  (`validate_ssb_local_git_files.py`):
  - a `readline` loop right-strips every line and drops comment lines;
  - every kept recommended line must then appear among the kept local lines.
- **The legacy standalone script** (`ssb-gitconfig/ssb-gitconfig.py`). It
  has its own detection:
  - `LOCAL_USER_PATH` marks Dapla;
  - three independent OS tests;
  - a different ping timeout.

  It makes its choices directly from the signals.

What the model takes as inputs:
- The environment, the OS name and the ping replies are parameters.
- A `Platform` class's constructor sets its fields step by step, as
  `__init__` does, and is proved equal to a pure `Detect` function.
- File contents are given as decoded text.
- "The file exists" is a boolean.
- A missing file is the `FileMissing` error, whose message is the one the
  source raises.

Modules:
- `Wrappers`: `Option`, `Result`.
- `FileErrors`: the missing-file error.
- `PyText`: the Python string operations used, with their Python meaning. These are:
  - `in`;
  - `startswith`;
  - `rstrip()` over the `str.isspace` set;
  - `split` with a one-character separator, which keeps empty pieces.
- `PlatformSignals`: the seven signals and the combinations a detection can produce.
- `SsbGitconfig`, `ValidateSsbGitconfig`, `ValidateSsbLocalGitFiles`,
  `LegacySsbGitconfig`: one per source file.

Two consequences of the code are worth stating:
- `.gitconfig` validation compares raw lines, not sections or keys, and
  passes a file that differs from the recommended one only when the local
  lines the recommended file lacks are exactly the three user lines.
  `AppendedLinesDecide` shows that any extra line the recommended file lacks
  makes the file fail unless the extra lines are the user block, and
  `DeletedLinesUndetected` shows that deleting recommended lines goes
  unnoticed as long as the user block is present, while
  `DeletedLinesAloneRejected` shows that a file that only lacks recommended
  lines has an empty residue and fails. `AppendedLinesDecide` and
  `DeletedLinesUndetected` are stated for texts without a final newline; the
  `...Terminated` variants state the same for newline-terminated files,
  where `split` yields a final empty piece.
- `is_unsupported` lists four names, so only dapla, prod-linux and
  prod-windows-citrix are supported.

## Model

| member | source | states |
|---|---|---|
| SsbGitconfig.PlatformName.Value | kvakk_git_tools/ssb_gitconfig.py:62-71 | each platform's enum string maps back to that same platform, so the seven strings are distinct |
| SsbGitconfig.PlatformName.IsUnsupported | kvakk_git_tools/ssb_gitconfig.py:132-139 | membership in the fixed unsupported list holds exactly for the names other than dapla, prod-linux and prod-windows-citrix |
| SsbGitconfig.PlatformName.IsSupported | kvakk_git_tools/ssb_gitconfig.py:141-142 | supported exactly for dapla, prod-linux and prod-windows-citrix |
| SsbGitconfig.FromValueSound | kvakk_git_tools/ssb_gitconfig.py:62-71 | an enum string that the lookup accepts belongs to the member it returns |
| SsbGitconfig.PingCommand | kvakk_git_tools/ssb_gitconfig.py:30-44 | six arguments with one packet; `-n`/`-w` on Windows, `-c`/`-W` elsewhere; timeout "1" on Linux and "1000" on every other system |
| SsbGitconfig.Detect | kvakk_git_tools/ssb_gitconfig.py:77-105 | at most one OS flag, set by an if/elif chain. Dapla exactly for region DAPLA_LAB or BIP, and then no pings. Otherwise the production host is pinged, and the administrative host only when production is silent. Each zone flag is its ping's reply. citrix means not Dapla and SESSIONNAME contains "ICA". The result is always a consistent combination |
| SsbGitconfig.Platform.constructor | kvakk_git_tools/ssb_gitconfig.py:77-105 | the fields, set step by step, and the hosts pinged in order equal `Detect` on the same inputs |
| SsbGitconfig.Classify | kvakk_git_tools/ssb_gitconfig.py:115-130 | for each of the seven names, exactly the signal combinations `name()` maps to it under its priority order |
| SsbGitconfig.ClassifyConsistent | kvakk_git_tools/ssb_gitconfig.py:115-130 | on consistent signals: prod+linux is prod-linux; prod+windows is citrix or vdi according to citrix; a production-zone Mac is unknown; dapla is dapla; adm+windows is adm-windows; adm+mac is adm-mac; no zone at all is unknown |
| SsbGitconfig.DetectedName | kvakk_git_tools/ssb_gitconfig.py:77-130 | from inputs to names. A reachable production host on Linux gives prod-linux. Only the administrative host reachable, on Windows, gives adm-windows. Neither host reachable gives unknown, which is unsupported. A Dapla region gives dapla |
| SsbGitconfig.SourceConfigFile | kvakk_git_tools/ssb_gitconfig.py:218-222 | when testing, the Dapla file; otherwise a file whose name stands for the detected platform |
| SsbGitconfig.CloneOptions | kvakk_git_tools/ssb_gitconfig.py:224-228 | SSL verification is off exactly for prod-windows-citrix and prod-linux, which are the supported platforms other than Dapla; every other platform clones branch 2.2.3 |
| SsbGitconfig.CloneCommand | kvakk_git_tools/ssb_gitconfig.py:230-234 | `git clone <repo url>` followed by the options |
| SsbGitconfig.ReplacesUsername | kvakk_git_tools/ssb_gitconfig.py:243-246 | the username is substituted exactly on prod-windows-citrix, which is supported and clones with SSL verification off |
| SsbGitconfig.ConfigFileName | kvakk_git_tools/ssb_gitconfig.py:220 | `gitconfig-<value>`: the platform can be read back from the file name |
| SsbGitconfig.ConfigFileNamesDistinct | kvakk_git_tools/ssb_gitconfig.py:220 | distinct platforms select distinct recommended files |
| SsbGitconfig.ConfigFileToCopy | kvakk_git_tools/ssb_gitconfig.py:260-267 | aborts with status 1 exactly when not testing and the platform is unsupported. Outside testing, only a supported platform's own file is copied. When testing, the Dapla file is copied |
| FileErrors.FileError.Message | kvakk_git_tools/validate_ssb_gitconfig.py:41 | `File: <path> does not exist!`: the path sits between the fixed prefix and suffix and can be read back from the message |
| PyText.Contains | kvakk_git_tools/validate_ssb_gitconfig.py:78 | Python's substring `in`: true exactly when the substring occurs at some index |
| PyText.StartsWith | kvakk_git_tools/validate_ssb_local_git_files.py:11 | `startswith`: true exactly when the prefix occurs at index 0 |
| ValidateSsbGitconfig.RecommendedConfigPath | kvakk_git_tools/validate_ssb_gitconfig.py:43-45 | a resource under `recommended/` whose file name stands for the platform, recovered by the name's inverse |
| PyText.RStrip | kvakk_git_tools/validate_ssb_local_git_files.py:10 | the result is a prefix of the input and does not end in whitespace |
| PyText.RStripRemovesWhitespaceOnly | kvakk_git_tools/validate_ssb_local_git_files.py:10 | every character removed by `rstrip()` is whitespace |
| PyText.Split | kvakk_git_tools/validate_ssb_gitconfig.py:56-57 | at least one piece, no piece holds the separator, and joining the pieces gives back the text |
| PyText.SplitJoin | kvakk_git_tools/validate_ssb_gitconfig.py:56-57 | splitting joined separator-free lines gives the lines back |
| ValidateSsbGitconfig.Residue | kvakk_git_tools/validate_ssb_gitconfig.py:61 | the residue is no longer than the local line list |
| ValidateSsbGitconfig.ResidueMembers | kvakk_git_tools/validate_ssb_gitconfig.py:61 | a line is in the residue exactly when the local file has it and the recommended file does not |
| ValidateSsbGitconfig.ResidueKeepsOrderAndRepetitions | kvakk_git_tools/validate_ssb_gitconfig.py:61 | the residue is an ordered subsequence of the local lines, and keeps every repetition of each line the recommended file lacks |
| ValidateSsbGitconfig.ResidueOfAbsentLines | kvakk_git_tools/validate_ssb_gitconfig.py:61 | local lines that are all absent from the reference are kept whole |
| ValidateSsbGitconfig.ResidueOfPresentLines | kvakk_git_tools/validate_ssb_gitconfig.py:61 | local lines that are all present in the reference leave nothing |
| ValidateSsbGitconfig.ResidueAppend | kvakk_git_tools/validate_ssb_gitconfig.py:61 | the residue of a concatenation is the concatenation of the residues |
| ValidateSsbGitconfig.ResidueAgrees | kvakk_git_tools/validate_ssb_gitconfig.py:61 | two references that agree on which local lines they hold give the same residue |
| ValidateSsbGitconfig.VerifyConfigurationDifference | kvakk_git_tools/validate_ssb_gitconfig.py:65-81 | true exactly for three lines containing `[user]`, a tab and `name =`, and a tab and `email =`, in that order |
| ValidateSsbGitconfig.ValidatePlatformGitConfig | kvakk_git_tools/validate_ssb_gitconfig.py:23-62 | an unsupported platform gives false before the file is looked at; a missing file on a supported platform is the missing-file error; otherwise the verdict is true exactly when the texts are equal or the residue is the user block |
| ValidateSsbGitconfig.MissingFileMessage | tests/test_validate_gitconfig.py:74-84 | a missing `fake/file/path/no_file.fake` on Dapla is the missing-file error for that path, and its message is "File: ", then the path, then " does not exist!" |
| ValidateSsbGitconfig.RecommendedFileValidates | tests/test_validate_gitconfig.py:18-38 | a platform's recommended file validated against itself gives exactly whether the platform is supported |
| ValidateSsbGitconfig.EmptyFileRejected | tests/test_validate_gitconfig.py:63-71 | an empty local file fails against a non-empty recommended file on a supported platform |
| ValidateSsbGitconfig.DeletedLinesAloneRejected | kvakk_git_tools/validate_ssb_gitconfig.py:56-75 | a local file whose lines all occur in the recommended file but which differs from it fails: its residue is empty, not the user block |
| ValidateSsbGitconfig.AppendedLinesDecide | kvakk_git_tools/validate_ssb_gitconfig.py:56-81 | for a local text with no final newline: lines appended to the recommended file's lines decide the verdict alone, and it passes exactly when they form the user block |
| ValidateSsbGitconfig.AppendedLinesDecideTerminated | kvakk_git_tools/validate_ssb_gitconfig.py:56-81 | for newline-terminated files: non-empty lines the recommended file lacks, added after its last line and before the final newline, decide the verdict alone, and it passes exactly when they form the user block |
| ValidateSsbGitconfig.DeletedLinesUndetected | kvakk_git_tools/validate_ssb_gitconfig.py:56-81 | for a local text with no final newline: any selection of recommended lines followed by a user block passes |
| ValidateSsbGitconfig.DeletedLinesUndetectedTerminated | kvakk_git_tools/validate_ssb_gitconfig.py:56-81 | for newline-terminated files: any selection of recommended lines followed by a user block and the final newline passes |
| ValidateSsbGitconfig.ReferenceLinesMissingLocallyIgnored | kvakk_git_tools/validate_ssb_gitconfig.py:56-62 | once the texts differ, recommended lines that the local file lacks do not affect the verdict |
| ValidateSsbLocalGitFiles.ReadLine | kvakk_git_tools/validate_ssb_local_git_files.py:9 | `readline()` returns a prefix of the unread text, and returns nothing only at the end |
| ValidateSsbLocalGitFiles.ReadLineFirstLine | kvakk_git_tools/validate_ssb_local_git_files.py:9 | with a newline in the text, the line read ends in the first newline and holds no other; without one, it is the whole rest of the text |
| ValidateSsbLocalGitFiles.Lines | kvakk_git_tools/validate_ssb_local_git_files.py:9 | the successive `readline()` results before the end: no more lines than characters |
| ValidateSsbLocalGitFiles.LinesNonEmpty | kvakk_git_tools/validate_ssb_local_git_files.py:9 | every line read before the end is non-empty, so the `while line` loop stops only at the end of the file |
| ValidateSsbLocalGitFiles.LinesConcat | kvakk_git_tools/validate_ssb_local_git_files.py:9 | the lines read, concatenated, give back the text |
| ValidateSsbLocalGitFiles.ReadLocalGitFile | kvakk_git_tools/validate_ssb_local_git_files.py:6-13 | the readline loop returns the stripped, non-comment lines of the text, in order |
| ValidateSsbLocalGitFiles.StrippedLines | kvakk_git_tools/validate_ssb_local_git_files.py:10 | one stripped line per line read |
| ValidateSsbLocalGitFiles.KeptLinesFilter | kvakk_git_tools/validate_ssb_local_git_files.py:6-13 | the kept lines are an ordered subsequence of the stripped lines holding each stripped line that does not start with `#` exactly as often as it occurs, and no line that does |
| ValidateSsbLocalGitFiles.KeptLinesClean | kvakk_git_tools/validate_ssb_local_git_files.py:10-12 | no kept line ends in whitespace or starts with `#` |
| ValidateSsbLocalGitFiles.KeptLine | kvakk_git_tools/validate_ssb_local_git_files.py:10-12 | one raw line contributes at most one line: nothing when it starts with `#` after stripping, otherwise a prefix of it that is not a comment |
| ValidateSsbLocalGitFiles.KeptLines | kvakk_git_tools/validate_ssb_local_git_files.py:9-12 | at most one kept line per raw line |
| ValidateSsbLocalGitFiles.GitFileLines | kvakk_git_tools/validate_ssb_local_git_files.py:6-13 | the list read from a file holds at most one line per character, and none from an empty file |
| ValidateSsbLocalGitFiles.LocalFilesValid | kvakk_git_tools/validate_ssb_local_git_files.py:57-61 | both local files are valid exactly when every kept recommended line of each file occurs among the kept lines of the local file |
| ValidateSsbLocalGitFiles.ReadLineOfLine | kvakk_git_tools/validate_ssb_local_git_files.py:9 | reading a text that begins with one complete line returns that line and continues after it |
| ValidateSsbLocalGitFiles.ReaderExample | kvakk_git_tools/validate_ssb_local_git_files.py:6-13 | on `"#x\n\n #\ny \n"` the reader keeps `""`, `" #"` and `"y"`. An indented `#` is not a comment, and blank lines are kept |
| ValidateSsbLocalGitFiles.AllPresent | kvakk_git_tools/validate_ssb_local_git_files.py:57-61 | `all(line in local ...)`: true exactly when every recommended line occurs among the local lines |
| ValidateSsbLocalGitFiles.ValidateLocalGitFiles | kvakk_git_tools/validate_ssb_local_git_files.py:28-61 | a missing `.gitignore` is reported first, then a missing `.gitattributes`; with both present, the verdict is that both kept-line containments hold |
| ValidateSsbLocalGitFiles.AllPresentMonotone | kvakk_git_tools/validate_ssb_local_git_files.py:57-61 | containment survives adding local lines |
| ValidateSsbLocalGitFiles.ReadLineAppend | kvakk_git_tools/validate_ssb_local_git_files.py:9 | text after the first newline does not change the line read |
| ValidateSsbLocalGitFiles.LinesAppend | kvakk_git_tools/validate_ssb_local_git_files.py:9 | after a newline-terminated text, reading continues line by line in the appended text |
| ValidateSsbLocalGitFiles.KeptLinesAppend | kvakk_git_tools/validate_ssb_local_git_files.py:6-13 | the filter distributes over concatenation |
| ValidateSsbLocalGitFiles.AppendingLinesKeepsValid | kvakk_git_tools/validate_ssb_local_git_files.py:28-61 | appending lines to valid, newline-terminated local files keeps them valid |
| ValidateSsbLocalGitFiles.RecommendedFilesValidate | kvakk_git_tools/validate_ssb_local_git_files.py:28-61 | the recommended files themselves validate |
| LegacySsbGitconfig.PingCommand | ssb-gitconfig/ssb-gitconfig.py:24-38 | six arguments with one packet; Windows flags on Windows; timeout "1000" on Windows and "1" on every other system |
| LegacySsbGitconfig.PingCommandsDiffer | ssb-gitconfig/ssb-gitconfig.py:31 | the two scripts ping alike exactly on Linux and Windows |
| LegacySsbGitconfig.Detect | ssb-gitconfig/ssb-gitconfig.py:59-86 | one OS flag per matching name. Dapla exactly when LOCAL_USER_PATH is set, and then no pings. Otherwise the same ping order and citrix test as the packaged script. The result is always consistent |
| LegacySsbGitconfig.Platform.constructor | ssb-gitconfig/ssb-gitconfig.py:59-86 | the fields and pings, set step by step, equal the legacy `Detect` |
| LegacySsbGitconfig.CloneOptions | ssb-gitconfig/ssb-gitconfig.py:175-179 | SSL verification is off exactly on the production zone under Linux, or under Windows with Citrix; otherwise there are no options |
| LegacySsbGitconfig.CloneCommand | ssb-gitconfig/ssb-gitconfig.py:181-185 | the options sit between `git` and `clone <repo url>` |
| LegacySsbGitconfig.SourceConfigFile | ssb-gitconfig/ssb-gitconfig.py:195-209 | the table row by row, each row applying when none above it does: production zone with Linux gives prod-linux; with Windows and Citrix, prod-windows-citrix; Dapla gives dapla; administrative zone with Windows gives prod-windows-citrix, with macOS adm-mac. When no row matches, it aborts with status 1 outside testing and gives prod-linux when testing |
| LegacySsbGitconfig.ReplacesUsername | ssb-gitconfig/ssb-gitconfig.py:213-215 | the username is substituted exactly on the production zone under Windows with Citrix, which also clones with SSL verification off |
| LegacySsbGitconfig.VdiNeverConfigured | ssb-gitconfig/ssb-gitconfig.py:195-209 | a production-zone Windows machine without Citrix aborts, or gets the Linux file when testing, with no SSL options and no substitution |
| LegacySsbGitconfig.AdmZoneConfigured | ssb-gitconfig/ssb-gitconfig.py:201-204 | administrative-zone Windows gets the Citrix file, without substitution or SSL options, and an administrative-zone Mac gets its own file |
| LegacySsbGitconfig.AgreesWithPackagedScript | ssb-gitconfig/ssb-gitconfig.py:175-215 | on the same seven signals (the scripts detect Dapla from different variables, so one machine can give them different signals), where the packaged script supports the platform and neither is testing, both pick the same file name (each in its own clone's `recommended` directory), the same substitution, and agree on turning SSL verification off; on Dapla the packaged script clones branch 2.2.3 while the legacy one passes no options |

## Left out

- Running `ping`, `git clone` and `git config`: the commands are modelled as argument lists, and the ping replies are inputs.
- File I/O: copying the recommended file, the temporary directory and its Windows read-only workaround, `.gitconfig` backup with a timestamp, and `replace_text_in_file`. Only the choice of file and whether the username is substituted are modelled. The returned, right-stripped `.gitattributes` text is not modelled.
- `main`'s name and email handling (reading them from git, prompting, the test defaults) and `set_name_email`: these are I/O with no decision beyond "use what was found".
- Command-line parsing, `run`, `check_python_version`, the package-installed test and the `--validate` exit codes: these are process plumbing.
- Reading the recommended files with `pkg_resources` or `importlib.resources`, and the Python-version branch between them: the recommended texts are inputs.
- Text decoding and universal-newline translation when files are opened: the validators receive the decoded text.
- `validate_git_config` and `validate_local_git_files`, the entry points that build the home or working-directory paths: the paths are inputs.
- The `ssb-gitconfig/src/` prototypes are not part of this model.
- ValidateSsbGitconfig.ValidatePlatformGitConfig: receives the platform's name rather than a `Platform` object, because only `name()` and `is_unsupported()` are consulted.
- ValidateSsbGitconfig.MissingFileMessage: gives the expected message as three literal parts joined together, not as the single literal the test compares against, because the direct 48-character literal comparison is expensive for the solver.
