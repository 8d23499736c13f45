# git-exercises: the verification base

The exercise server judges a push to an exercise branch. It turns the branch
name into the name of a rule-set, builds a case for the pushed revision
range, and runs that rule-set's checks. The checks use a small toolkit:
`ensure` and the commit-count and file-count checks built on it. This
project models that base (`AbstractVerification.php`) in three modules:

- `Failures` (failures.dfy): a failure is either a violated check that
  carries a `printf`-style template and its ordered arguments, or a usage
  error for an unknown exercise. `Result` replaces PHP's exceptions, and
  `WellFormed` states that a failure's arguments match its template's
  placeholders in number, order and kind.
- `Naming` (naming.dfy): `ucfirst`, `basename`, the `-(.?)` camel-casing
  rewrite, and the exercise name built from them.
  `feature/intro-to-loops` becomes `IntroToLoops`.
- `Verification` (verification.dfy): the git layer is a value of
  `GitService` with one function per query. The registry of rule-sets is a
  map from exercise name to `RuleSet`. This module holds the checks,
  `getCommiterName`, the factory and `verify`.

The rewrite is modelled exactly as the regular expression behaves, not as
the common "split on dashes, capitalise each word, join" reading. The two
agree exactly on the names without two dashes in a row
(`CamelIsSplitIffNoDoubleDash`). On `a--b` the code gives `a-b` and the split
reading gives `aB` (`CamelDiffersFromSplitOnDoubleDash`). For the same
reason, normalising is idempotent exactly on the branches whose last
component has no double dash (`NormalizeIdempotentIffNoDoubleDash`).
`a--b` normalises to `A-b`, and normalising that again gives `AB`. In the
pattern, `.` does not match a line feed, so a dash before a line feed is
dropped on its own.

## Model

| member | source | states |
|---|---|---|
| Verification.Ensure | AbstractVerification.php:35-40 | succeeds exactly when the condition holds; otherwise fails with a verification failure carrying exactly the given template and arguments |
| Verification.EnsureCommitsCount | AbstractVerification.php:42-47 | fails exactly when the number of commits in the range differs from `count`, with the commits template and arguments `[count, received]`; on success returns the range's commits unchanged and in order, as a single item exactly when `count` is 1 |
| Verification.CommitsMessageConversions | AbstractVerification.php:45 | the commits-count template has exactly two `%d` placeholders |
| Verification.CommitsFailureWellFormed | AbstractVerification.php:45 | a failed commits-count check carries one integer argument per placeholder of its template |
| Verification.ShortHash | AbstractVerification.php:52 | `substr($id, 0, 7)`: a prefix of the id of length at most 7, exactly 7 for long ids, the whole id for short ones |
| Verification.EnsureFilesCount | AbstractVerification.php:49-54 | fails exactly when the number of files the commit changes differs from `count`, with the files template and arguments `[short hash, count, received]`; on success returns the changed paths in listing order, as a single item exactly when `count` is 1 |
| Verification.FilesMessageConversions | AbstractVerification.php:52 | the files-count template has placeholders `%s`, `%d`, `%d` in that order |
| Verification.FilesFailureWellFormed | AbstractVerification.php:52 | a failed files-count check carries a string and two integers, matching its template's placeholders |
| Verification.Commits | AbstractVerification.php:61-64 | no `ensures`: the git layer's listing for the case's old and new revisions, used as is by `EnsureCommitsCount` |
| Verification.Filenames | AbstractVerification.php:66-69 | as many names as the git layer lists changed files for the commit, and the i-th name is the i-th listed path |
| Verification.Keys | AbstractVerification.php:66-69 | `array_keys`: as many keys as entries, and the i-th key is the i-th entry's key |
| Verification.GetCommiterName | AbstractVerification.php:56-59 | asks the git layer about the given commit id; with no id, an empty id or `"0"` it asks about the case's new revision |
| Verification.CommiterNameDefaultsToNewRev | AbstractVerification.php:56-59 | asking with no commit id gives the same answer as asking with the new revision explicitly |
| Verification.Factory | AbstractVerification.php:76-84 | fails with the "Wrong excercise." usage error (never a verification failure) exactly when the normalised branch name is not registered; otherwise returns the case of that registered name holding exactly the given old and new revisions |
| Verification.FactoryOfPath | AbstractVerification.php:78 | a branch `dir/slug` resolves exactly as `slug` does |
| Verification.FactoryResolvesOwnName | AbstractVerification.php:76-84 | when the branch has no double dash, the exercise name of a resolved case resolves again to the same exercise, for any revisions |
| Verification.FactoryExample | AbstractVerification.php:76-84 | `dir/intro-to-loops` resolves to `IntroToLoops` when that is registered, and to the usage error otherwise |
| Verification.Verify | AbstractVerification.php:18-21 | no `ensures`: forwards to the registered `doVerify` hook; `VerifyResolvedCase` states what it returns for a resolved case |
| Verification.VerifyResolvedCase | AbstractVerification.php:18-21 | verifying a resolved case runs the hook registered under its normalised name, on the case built from the given revisions |
| Naming.Upper | AbstractVerification.php:89 | ASCII upper-casing: `a`..`z` move to `A`..`Z`, every other character is kept |
| Naming.UcFirst | AbstractVerification.php:78 | `ucfirst`: same length, first character upper-cased, the rest unchanged |
| Naming.TrimTrailingSlashes | AbstractVerification.php:78 | a prefix of the input that does not end in `/`, and only slashes were removed |
| Naming.AfterLastSlash | AbstractVerification.php:78 | a slash-free suffix of the input, preceded in the input by a slash unless it is all of it |
| Naming.Basename | AbstractVerification.php:78 | `basename` never holds a slash and leaves a slash-free name unchanged |
| Naming.AfterLastSlashOfPath | AbstractVerification.php:78 | the part after the last slash of `dir/word` is `word` |
| Naming.BasenameOfPath | AbstractVerification.php:78 | the basename of `dir/word` is `word` for a nonempty slash-free `word` |
| Naming.DashToCamelCase | AbstractVerification.php:86-91 | no `ensures`, so that examples on literals stay cheap; described by `CamelOfPlainPrefix`, `CamelOfDashPair`, `CamelShortens`, `DashSurvivesIffDoubleDash` and `CamelIsSplitIffNoDoubleDash` |
| Naming.CamelOfPlainPrefix | AbstractVerification.php:86-91 | a dash-free prefix passes through the rewrite unchanged |
| Naming.CamelOfDashPair | AbstractVerification.php:88-90 | a dash and the character after it become that character upper-cased |
| Naming.CamelOfDashHead | AbstractVerification.php:88-90 | a leading dash followed by another character is replaced by that character upper-cased |
| Naming.CamelWithoutDashIsIdentity | AbstractVerification.php:86-91 | a name without a dash is left unchanged |
| Naming.CamelShortens | AbstractVerification.php:86-91 | the rewrite never lengthens a name, and strictly shortens any name holding a dash |
| Naming.DashSurvivesIffDoubleDash | AbstractVerification.php:86-91 | the result holds a dash if and only if the input holds two dashes in a row |
| Naming.CamelKeepsOut | AbstractVerification.php:86-91 | a character absent from the input that is not an upper-case letter is absent from the result |
| Naming.CamelIsSplitAndCapitalize | AbstractVerification.php:86-91 | on names without a double dash, the rewrite equals splitting on dashes, capitalising every word after the first and joining |
| Naming.CamelJoinHasNoDash | AbstractVerification.php:86-91 | the split-and-capitalise reading never yields a dash, whatever the name |
| Naming.CamelIsSplitIffNoDoubleDash | AbstractVerification.php:86-91 | the rewrite equals the split-and-capitalise reading if and only if the name has no two dashes in a row |
| Naming.CamelDiffersFromSplitOnDoubleDash | AbstractVerification.php:86-91 | on `a--b` the rewrite (`a-b`) differs from the split-and-capitalise reading (`aB`) |
| Naming.CamelExample | AbstractVerification.php:86-91 | `intro-to-loops` becomes `introToLoops` |
| Naming.NormalizeName | AbstractVerification.php:78 | no `ensures`, so that examples on literals stay cheap; described by `NormalizeOfPath`, `NormalizedNameHasNoSlash` and `NormalizeIdempotentIffNoDoubleDash` |
| Naming.NormalizeOfPath | AbstractVerification.php:78 | the name of `dir/slug` is `slug` camel-cased with its first letter upper-cased |
| Naming.NormalizeExample | AbstractVerification.php:78 | `dir/intro-to-loops` names `IntroToLoops`, whatever `dir` is |
| Naming.NormalizeShortExamples | AbstractVerification.php:78 | `a-b-c` names `ABC`, and the empty branch names the empty string |
| Naming.NormalizedNameHasNoSlash | AbstractVerification.php:78-79 | the rule-set name never holds a slash |
| Naming.UcFirstIdempotent | AbstractVerification.php:78 | applying `ucfirst` twice is the same as applying it once |
| Naming.NormalizeIdempotent | AbstractVerification.php:78 | normalising a normalised name changes nothing when the basename holds no double dash |
| Naming.NormalizeIdempotentIffNoDoubleDash | AbstractVerification.php:78 | normalising a normalised name changes nothing if and only if the branch's last component has no two dashes in a row |
| Naming.NormalizeNotIdempotentOnDoubleDash | AbstractVerification.php:78 | `a--b` normalises to `A-b`, which normalises again to `AB` |

## Left out

- The hint file lookup (`getHints`) is filesystem I/O and is not modelled.
- `getShortInfo` and `doVerify` are abstract hooks. They are fields of
  `RuleSet` with no behaviour of their own, and `verify` returns what
  `doVerify` returns.
- Loading the rule-set class with `@include`, `class_exists` and `new` is
  replaced by a lookup in the registry map. `class_exists` accepts any class
  already loaded and ignores case, so in the source a branch such as
  `git-utils` or `std-class` builds a `GitUtils` or `stdClass` object
  instead of failing with "Wrong excercise."; the model does not capture
  this, and its registry also matches names case-sensitively.
- The bodies of the `GitUtils` queries (commit listing, changed files,
  commit author) are foreign shell calls. Their answers are the functions
  of a `GitService` value.
- `getFileContent` only forwards to the git layer and has nothing to state
  of its own. It is not modelled.
- Counts are integers, so PHP's loose `==` between a count and a
  non-integer is not modelled.
- PHP turns integer-like array keys into integers. Changed paths are kept
  as strings.
- ShortHash: strings are sequences of characters, while PHP strings are
  bytes. `ShortHash` takes the first 7 characters where `substr` takes the
  first 7 bytes, so the two differ on an id holding non-ASCII characters.
  The rewrite, `basename` and `ucfirst` give the same result on valid UTF-8
  either way, because `-`, `/` and line feed are ASCII and only `a`-`z`
  change.
- `ucfirst` is ASCII only: locale-dependent upper-casing is not modelled.
  `basename` treats only `/` as a separator, so its Windows and
  multibyte-locale behaviour is not modelled.
- Rendering a failure's message (`vsprintf`) is not modelled. The
  template language covers `%d`, `%s` and `%%` only, with no flags or
  widths.
- A thrown exception unwinding out of a rule-set's own checks becomes an
  `Err` value from the hook. What happens to it after `verify` returns is
  not modelled.
