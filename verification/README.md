# Verified model of typst-d2-mcp

A Dafny model of the parts of the server where a mistake is silent: the scanner that finds `#d2` calls in
Typst source and the splicer that replaces them, the parser and printer of template signatures, the OAuth
authorization server and namespace store with their migrations, and what that state does to files (package
views, publish staging, the sweeper, tenant directories).

Loops and objects that update state are methods and classes here too, each proved equal to a function of
its inputs or old state; what the program promises is then proved about those functions, for every input
and every run. `dafny verify dfyconfig.toml` checks the project.

## How it is laid out

| files | what they hold |
|---|---|
| `text`, `lexing`, `machine`, `scanner` | the scanner: `ScanMachine.Run` is an explicit stack machine, `Scanning.Scanner` the recursive in-place scanner, proved to emit the same |
| `raw_block`, `d2grammar`, `typst_grammar`, `found_calls` | what raw blocks, diagrams and documents are by grammar, and that the scanner finds exactly the calls a document holds |
| `blocks`, `preprocessor`, `drawing` | what every emitted block looks like, the replacement of the blocks, and what can be read off a replacement |
| `shifting`, `silence`, `rescan`, `import_line`, `insertion` | why the preprocessed document contains no call any more, with the import line that is added to it |
| `signature`, `roundtrip`, `declarations`, `param_grammar`, `let_grammar` | parameter lists, printing them and reading them back, `#let` declarations, and both by grammar |
| `oauth`, `accounts`, `oauth_flow`, `oauth_runs`, `oauth_times`, `handlers`, `flow_completes`, `backfill` | the OAuth tables and transactions, all interleavings of requests, what holds in every run, and that a visit in order ends with a key |
| `decimal`, `names`, `namespaces`, `namespace_runs`, `namespace_acts` | namespace names, roles, what each change does, and what every run keeps |
| `migrations`, `migration_runs` | schema migrations with a crash at any database call |
| `paths`, `workspace`, `sweeper`, `links`, `publish`, `publish_runs` | paths and the disk as a map, tenant directories, the sweeper, symbolic links, package views, publishing |

## How the source is represented

- A Go string is a `string` whose characters are its bytes. White space is ASCII; the Unicode spaces that
  Go's `strings` package also trims are not.
- A transaction is one atomic step. `/token` is split into its read, its guarded update and the insert of
  the key; `/authorize` and the callback into one step per transaction, with any other request in between.
- Random ids are arguments of a step. A step whose id was drawn before changes nothing. SHA-256 is a
  function of which nothing is known but that hexadecimal digests are. Time is an integer.
- The journal of `OAuthFlow` and the origins of `NamespaceRuns` remember what happened; no step of the
  server reads them, except to reject an id that is not new.
- Where a query may return any of several users with one login, `Pick` chooses. Nothing is assumed of it, except in `NamespaceActs`
  that it takes one of the rows that match.
- The disk is a map from paths to files, directories, links and other entries. A listing or a directory walk
  is an argument that is required to list what is there.
- Rendering a diagram, parsing its options and compiling a template are function or Boolean arguments.

## Where the code differs from what it says

- A call that cannot be extracted leaves the cursor where skipping stopped, not just after the name as the
  comment says (`internal/preprocessor/scan.go:310-314`): on `#d2(` it is left at the end
  (`ScanMachine.UnclosedCall`), and it stays after the name exactly when no delimiter follows
  (`ScanMachine.CursorStaysExactly`).
- `addBasedImport` puts its line past the newline after the last import line. When the document ends within
  that line there is no such newline, and it slices one byte past the end
  (`internal/preprocessor/preprocessor.go:228-229`): `Preprocessing.OutsideExactly` says when,
  `Insertion.UnfinishedImport` is such a document.
- `letDeclarations` skips one byte after a name it refuses, so a declaration that begins there is missed, as in
  `#let a#let f(x)` (`Declarations.MissedDeclaration`). `Declarations.FoundExactly` says which are found; at the
  start of a line every one is that stands in no other's parameters (`Declarations.LineStartsAreFound`).
- A trailing doubled comma hides a positional `body` from `isDocumentTemplate` that `parseParams` still
  reports (`RoundTrip.DoubledCommaHidesBody`); `RoundTrip.TemplateAsWritten` says exactly when they agree.
- The sweeper looks live links up by directory name, but they are stored by user id. So in a directory named
  by `DirName` an aged file is saved exactly by a live link that serves it, whose user id is its own directory
  name and whose path does not climb (`Sweeping.OtherwiseTheyAreLost`); no link shelters anything in the
  directory that a GitHub account has under that name (`Sweeping.AccountFilesAreNotSheltered`), and
  `Sweeping.ServedAndPurged` is a file that a live link serves and the pass deletes. A directory that still has
  its old name, the id, does find its links: `Sweeping.SavedExactly` says for directories of any name what
  is saved.
- Deleting a user deletes the directory named by the id. For a GitHub account that is the old name of its
  workspace, and everything there goes (`Workspace.OldDirectoryIsRemoved`); of the workspace under its name from
  `DirName` every file stays (`Workspace.RemovalNeedsThePlainName`, `Workspace.AccountFilesOutliveTheAccount`).
- `DirName` is not injective on all ids: `gh:1` and `gh-1-` with eight digits of its hash share a directory
  (`Workspace.FirstAccountCollides`). `Workspace.DirNamesCollideExactly` says which ids do; those the server
  mints do not (`Workspace.DirNamesDiffer`).
- A publish whose copying fails leaves a partial version that is then immutable: with two files of which the
  second is not copied, the version never holds what was shipped, and every retry is refused
  (`PublishRuns.OnePublishCutShort`, `PublishRuns.ShortCopiesAreForGood`). `PublishRuns.PublishShips` says
  exactly when a version is whole.

## Model

| member | source | states |
|---|---|---|
| Lexing.StringEnd | internal/preprocessor/scan.go:271-286 | an escape may carry the cursor one byte past the end, and never further |
| Lexing.OpaqueEnd | internal/preprocessor/scan.go:122-131 | comments, strings and raw text are passed whole and always advance the cursor |
| Lexing.ParenEnd | internal/preprocessor/scan.go:394-426 | an accepted option list ends just past a closing parenthesis inside the text |
| Lexing.SingleRawBlock | internal/preprocessor/scan.go:486-510 | the code of a raw-block argument is a slice of the arguments |
| ScanMachine.TryD2 | internal/preprocessor/scan.go:315-378 | every attempt at a call makes progress and stays in the text |
| ScanMachine.CursorStaysExactly | internal/preprocessor/scan.go:310-378 | the cursor stays just after the name exactly when neither delimiter follows, so never on a call that is recognised and not extracted |
| ScanMachine.UnclosedCall | internal/preprocessor/scan.go:310-327 | an input on which a failing call leaves the cursor elsewhere |
| ScanMachine.Act | internal/preprocessor/scan.go:121-169 | every turn of the scan advances; one byte past the end is the worst |
| Scanning.Scanner.SkipString | internal/preprocessor/scan.go:271-286 | the loop ends where `StringEnd` says |
| Scanning.Scanner.SkipOpaque | internal/preprocessor/scan.go:122-131 | the shared cases of the two scanning loops, `peek` only within the text |
| Scanning.Scanner.SkipBalancedParens | internal/preprocessor/scan.go:394-426 | true exactly when the group closes, with the cursor just past it |
| Scanning.Scanner.SkipD2Brackets | internal/preprocessor/scan.go:442-478 | true exactly when the diagram block closes, with the cursor just past it |
| Scanning.Scanner.TryD2At | internal/preprocessor/scan.go:315-378 | emits, reports or ignores as the attempt says, and leaves the cursor there |
| Scanning.Scanner.MarkupHash | internal/preprocessor/scan.go:175-196 | handles a hash as the machine does, down to the region it may open |
| Scanning.Scanner.CodeIdent | internal/preprocessor/scan.go:200-211 | a name in code is a call only when it is exactly d2 |
| Scanning.Scanner.ScanRegion | internal/preprocessor/scan.go:119-171 | the recursive region scan emits, with what its callers still will, what the stack machine emits |
| Scanning.ScanD2Calls | internal/preprocessor/scan.go:110-114 | the recursive scanner emits exactly the blocks and skip sites of the stack machine, in order |
| FoundCalls.EveryCallIsFound | internal/preprocessor/scan.go:105-171 | in every legal document nested below the cap the blocks found are exactly its calls, wherever they stand, with span, options, code and mode, in order; reported are exactly the places where a diagram is missing or the last call is left open |
| FoundCalls.CallIsTried | internal/preprocessor/scan.go:315-378 | a call written out by grammar is emitted with its options and its diagram or the code of its raw block, or reported when the diagram is missing |
| FoundCalls.OptionsArePassed | internal/preprocessor/scan.go:394-426 | parentheses nested in an option list, with strings, comments and raw text among them, leave the depth where it was |
| FoundCalls.CallInArguments | internal/preprocessor/scan.go:200-211 | the call in `#fig(d2[x])` is found, with its code |
| RawBlocks.RawExactly | internal/preprocessor/scan.go:486-496 | a code is extracted exactly when the arguments are one raw block, closed by the first fence after the opening one, with only white space around it |
| RawBlocks.RawReadsBack | internal/preprocessor/scan.go:497-510 | from a raw block whose text is written as a first line that is blank or a language tag and then the code, or as the code alone, exactly the code is read |
| RawBlocks.EveryBody | internal/preprocessor/scan.go:497-510 | every text without a fence can be written so |
| RawBlocks.RawCodeExactly | internal/preprocessor/scan.go:486-510 | so a code is what is read exactly when the arguments hold it |
| Blocks.RunIsOrderly | internal/preprocessor/scan.go:105-114 | on every input blocks are in bounds, ordered and disjoint, each spans a d2 call from its name to its close, and its code is a slice inside |
| Blocks.DepthIsCapped | internal/preprocessor/scan.go:79-82 | nesting never exceeds the cap |
| Blocks.CapIsInvisible | internal/preprocessor/scan.go:160-165 | below the cap the capped scan equals any larger one |
| D2Grammar.ItemsArePassed | internal/preprocessor/scan.go:449-476 | legal D2 text leaves the bracket depth where it was |
| D2Grammar.AcceptedIsLegal | internal/preprocessor/scan.go:449-476 | what the skipper accepts is legal D2 text |
| D2Grammar.SkipperDecidesGrammar | internal/preprocessor/scan.go:428-478 | the skipper accepts exactly the balanced blocks of the grammar and stops at their only possible end |
| Preprocessing.LineColIncreases | internal/preprocessor/preprocessor.go:134-141 | a later offset has a later position |
| Preprocessing.LineColLeadsBack | internal/preprocessor/preprocessor.go:132-141 | the reported line and column lead back to the offset |
| Preprocessing.ScanSpans | internal/preprocessor/preprocessor.go:113-116 | the scanner's blocks are spans the loop may cut at |
| Preprocessing.ReplaceBackward | internal/preprocessor/preprocessor.go:95-116 | replacing last to first equals joining untouched gaps and pieces first to last |
| Preprocessing.SplicedExactly | internal/preprocessor/preprocessor.go:95-116 | each piece stands where its call stood, moved by what the earlier ones added, every byte outside the calls is kept, and there is nothing else |
| Preprocessing.RenderForward | internal/preprocessor/preprocessor.go:104-112 | rendering goes in document order and stops at the first diagram that cannot be drawn |
| Preprocessing.OutsideExactly | internal/preprocessor/preprocessor.go:221-229 | the import line has no place exactly when the text ends within an import line |
| Preprocessing.PlaceExactly | internal/preprocessor/preprocessor.go:221-233 | the line goes to the top of a text without imports, and otherwise to the start of the line after the last of them |
| Preprocessing.LineReads | internal/preprocessor/preprocessor.go:213 | the line as it reads |
| Preprocessing.Preprocess | internal/preprocessor/preprocessor.go:71-122 | the first skip site refuses, the first broken diagram is the one named, otherwise gaps and pieces are joined and the import line is added, or has no place |
| Silence.TypstImageFits | internal/preprocessor/preprocessor.go:187-209 | what stands for a diagram can be scanned without a finding, two or three levels below the cap |
| Drawings.PieceExactly | internal/preprocessor/preprocessor.go:187-209 | a replacement is a hash in markup only, a padding call if one is asked for, an image of the drawing, the format, and the width unless it is none or intrinsic |
| Drawings.HashExactly | internal/preprocessor/preprocessor.go:205-208 | it begins with a hash exactly in markup |
| Drawings.FirstStringIsDrawing | internal/preprocessor/preprocessor.go:187-197 | its first string is the drawing, where neither the drawing nor the padding holds a quote or a backslash |
| Drawings.DrawingsDiffer | internal/preprocessor/preprocessor.go:187-197 | two drawings never give one replacement |
| Drawings.ProcessedCarriesDrawings | internal/preprocessor/preprocessor.go:71-122 | what is returned carries the drawing of every call, in the order of the calls |
| Rescan.PiecePasses | internal/preprocessor/preprocessor.go:187-209 | scanning over such a piece emits nothing and ends in the same mode and depth |
| Rescan.SpliceIsQuiet | internal/preprocessor/preprocessor.go:104-116 | replacing every call by pieces that pass leaves no call |
| Rescan.PreprocessedDocumentIsQuiet | internal/preprocessor/preprocessor.go:71-116 | with every call replaced, and before an import line is added, the document contains no call and no skip site |
| ImportLine.LineIsPassed | internal/preprocessor/preprocessor.go:213 | in markup and in code alike the import line reports nothing and opens nothing |
| ImportLine.LineSplitsString | internal/preprocessor/preprocessor.go:213 | inside a string it closes the string and opens it again, and reports nothing |
| Insertion.LineAnywhereIsQuiet | internal/preprocessor/preprocessor.go:221-233 | a document without calls has none with the import line at the start of any line, even inside a comment, a string or raw text |
| Insertion.ReturnedIsQuiet | internal/preprocessor/preprocessor.go:71-122 | so whatever is returned contains no call and no skip site, and nothing is returned only when the import line has no place |
| Insertion.UnfinishedImport | internal/preprocessor/preprocessor.go:221-229 | a document with a call for which the import line has no place |
| Signature.SkipQuoted | cmd/typst-d2-mcp/exports.go:289-297 | the string loop ends at the closing quote, or past an unterminated string |
| Signature.StringIsNotSplit | cmd/typst-d2-mcp/exports.go:288-297 | nothing is cut inside a string |
| Signature.SplitTopLevel | cmd/typst-d2-mcp/exports.go:283-314 | the loop cuts at the commas outside every bracket and string and drops a blank end |
| Signature.CutTopLevel | cmd/typst-d2-mcp/exports.go:118-143 | the cut is at the first separator outside every bracket and string |
| ParamGrammar.SplitReadsParts | cmd/typst-d2-mcp/exports.go:283-314 | a list of parts, of bytes, strings and groups in the three kinds of brackets, without a bare comma in any, is split into exactly its parts, but for a blank last one |
| ParamGrammar.CutIsFirst | cmd/typst-d2-mcp/exports.go:118-143 | the cut is at the first separator that stands outside every group and string |
| ParamGrammar.NothingIsCut | cmd/typst-d2-mcp/exports.go:118-143 | and there is none where no such separator stands |
| Signature.ParseParams | cmd/typst-d2-mcp/exports.go:83-100 | the parts that are not blank, in order, named where a colon is outside brackets and strings |
| ParamGrammar.NamedIsRead | cmd/typst-d2-mcp/exports.go:91-97 | a part with a bare colon is a name, before the first one, and its default, both trimmed |
| ParamGrammar.PositionalIsRead | cmd/typst-d2-mcp/exports.go:98 | a part without one is positional, as it is written |
| ParamGrammar.ListIsRead | cmd/typst-d2-mcp/exports.go:83-100 | a list of legal parts is read part by part, the blank ones dropped |
| ParamGrammar.WordsAreKept | cmd/typst-d2-mcp/exports.go:147-149 | collapsing keeps the words and puts one space between two of them |
| Signature.SignatureOf | cmd/typst-d2-mcp/exports.go:103-113 | the parameters as they would be written |
| RoundTrip.CollapseKeepsShape | cmd/typst-d2-mcp/exports.go:147-149 | collapsing white space moves no bracket, string or separator to another level |
| RoundTrip.ParsePrintParse | cmd/typst-d2-mcp/exports.go:83-149 | parsing a printed signature gives back the parameters, for every string |
| RoundTrip.TemplateAsPrinted | cmd/typst-d2-mcp/exports.go:243-250 | on a printed signature the template test is exactly that the last parameter is the positional body |
| RoundTrip.TemplateAsWritten | cmd/typst-d2-mcp/exports.go:243-250 | on any list it also needs that no blank part comes last |
| RoundTrip.DoubledCommaHidesBody | cmd/typst-d2-mcp/exports.go:243-250 | an input where the test and the parser disagree |
| Declarations.BalancedParens | cmd/typst-d2-mcp/exports.go:254-278 | the loop finds the first close |
| Declarations.CloseExactly | cmd/typst-d2-mcp/exports.go:252-278 | that is the end of the shortest text that closes every parenthesis and string it opens, and none is found exactly when there is none |
| LetGrammar.GroupIsRead | cmd/typst-d2-mcp/exports.go:252-278 | a group of bytes, strings and groups is read up to its own close, and one that the text ends in is not read |
| LetGrammar.WrittenStands | cmd/typst-d2-mcp/exports.go:204-239 | a declaration that is written out stands in the text, with its name and exactly the parameters between its parentheses |
| Declarations.LetDeclarations | cmd/typst-d2-mcp/exports.go:204-239 | the loop collects the declarations that the search finds one after the other |
| Declarations.DeclarationsStandInOrder | cmd/typst-d2-mcp/exports.go:201-239 | each declaration stands in the source as reported, with a public name and a closed group, and none overlaps another |
| Declarations.FoundExactly | cmd/typst-d2-mcp/exports.go:201-239 | a declaration is reported exactly when it stands in the source so and the search comes to it |
| Declarations.LineStartsAreFound | cmd/typst-d2-mcp/exports.go:201-239 | at the start of a line every declaration is reported that stands in no other's parameters |
| Declarations.MissedDeclaration | cmd/typst-d2-mcp/exports.go:218-225 | a declaration that is not reported |
| OAuth.Store.RegisterClient | internal/authdb/oauth.go:94-122 | inserts the client, or changes nothing |
| OAuth.Store.CreateAuthorizeSession | internal/authdb/oauth.go:156-177 | inserts a session of a known client, or changes nothing |
| OAuth.Store.ConsumeAuthorizeSession | internal/authdb/oauth.go:182-217 | the session is gone either way and returned only when it has not expired |
| OAuth.Store.UpsertGitHubUser | internal/authdb/authdb.go:67-93 | the account's row is refreshed, or a new one inserted, never a second one |
| OAuth.Store.MintAuthorizationCode | internal/authdb/oauth.go:221-242 | inserts an unused code of a known client and user, or changes nothing |
| OAuth.Store.ConsumeAuthorizationCode | internal/authdb/oauth.go:249-303 | an unused, unexpired code is marked together with its client's use, or nothing changes |
| OAuth.Store.IssueAPIKey | internal/authdb/authdb.go:98-112 | inserts a key of a known user, or changes nothing |
| OAuth.Store.DeleteUnusedClients | internal/authdb/gc.go:172-184 | exactly the unused old clients go, with their sessions and codes |
| OAuth.Store.DeleteUser | internal/authdb/admin.go:335-388 | the users of that login go with their keys and codes, and the invite |
| Accounts.DeletionExactly | internal/authdb/admin.go:335-388 | exactly the users go whose login is spelled so but for case and surrounding space, with exactly their codes and keys |
| Accounts.LowerExactly | internal/authdb/admin.go:45-47 | two logins are one exactly when they differ in letter case only |
| Accounts.TrimExactly | internal/authdb/admin.go:45-47 | trimming takes the white space at both ends and nothing else |
| Handlers.ServeRegister | internal/auth/oauth.go:86-141 | registers exactly a non-empty list of valid redirect URIs of a public client, and says which of the two was wrong |
| Handlers.RegisterExactly | internal/auth/oauth.go:86-141 | the client is stored with its redirect URIs, created now and unused, exactly for such a list; otherwise nothing changes |
| Handlers.ServeAuthorize | internal/auth/oauth.go:148-210 | the handler is the two steps of the flow in a row; it answers with a session exactly when one was stored, and with each error exactly where its check is the first to fail |
| Handlers.AuthorizeExactly | internal/auth/oauth.go:148-210 | a session is stored exactly for a client and one of its registered redirect URIs, the response type code, a challenge and S256; it carries that grant and lives ten minutes; otherwise nothing changes |
| Handlers.ServeToken | internal/auth/oauth.go:216-270 | the handler is the three steps of the flow in a row, answers with a key exactly when one was stored, and with each error exactly where its check is the first to fail |
| Handlers.TokenExactly | internal/auth/oauth.go:236-255 | a key is given for exactly the complete forms that match a redeemable code, to the account behind it |
| Handlers.TokenSpends | internal/auth/oauth.go:241-253 | a complete form spends the code whether it matches or not, and without a redeemable code nothing changes |
| Handlers.ServeCallback | internal/auth/github.go:182-269 | the handler is the steps of the flow in a row, answers with a code exactly when one was stored, and refuses a dead session and an account that is not let in |
| Handlers.CallbackExactly | internal/auth/github.go:182-249 | a code is given for exactly a live session and an admitted account, to that account, with the session's grant and for a minute; the session is gone either way |
| Handlers.OpenDeploymentLetsAllIn | internal/auth/github.go:83-113 | where nobody is configured every account with a live session gets a code, unless the invite lookup fails |
| Handlers.ClosedDeploymentLetsIn | internal/auth/github.go:83-113 | where somebody is, exactly the configured logins do, and the invited ones if the lookup works |
| FlowCompletes.VisitEndsWithKey | internal/auth/oauth.go:86-270 | from every reachable state a visit whose requests are in order and in time ends with its key for its account, whatever other requests do between its ten steps |
| OAuthFlow.MintNoted | internal/auth/github.go:230-249 | a code minted from a session that was taken keeps codes and sessions one to one |
| OAuthFlow.IssueNoted | internal/auth/oauth.go:246-255 | a key issued after both checks keeps keys and codes one to one |
| OAuthFlow.MarkTables | internal/authdb/oauth.go:277-302 | the guarded update keeps used codes and used clients in step |
| OAuthFlow.PendingKept | internal/auth/oauth.go:216-270 | requests between two transactions are not disturbed by what others do |
| OAuthFlow.CallbackTakeKeeps | internal/authdb/oauth.go:182-217 | only one request ever takes a session |
| OAuthFlow.TokenMarkKeeps | internal/authdb/oauth.go:276-285 | only one request ever redeems a code |
| OAuthFlow.TokenIssueKeeps | internal/auth/oauth.go:246-255 | the key step keeps everything, whatever happened since the code was marked |
| OAuthFlow.StepKeepsInv | internal/auth/oauth.go:148-270 | every transaction of every request, and every administrative act, keeps the invariant |
| OAuthRuns.NothingDangles | internal/authdb/migrate.go:85-98 | sessions, codes and keys never point at missing clients or users |
| OAuthRuns.KeyTracesBack | internal/auth/oauth.go:216-270 | each key comes from one redeemed code and one authorize request: registered redirect URI, matching form, verifier hashing to the challenge, and a login let in at a callback on the invites as they were then |
| OAuthRuns.KeyOpensItsAccount | internal/auth/github.go:225-241 | a stored key opens the row of the GitHub account that signed in |
| OAuthRuns.KeysAreApart | internal/authdb/oauth.go:244-285 | no two keys come from one code or from one authorize request |
| OAuthRuns.RedeemedOnce | internal/authdb/oauth.go:276-285 | a code is redeemed at most once however the reads and guarded updates interleave |
| OAuthRuns.RunKeepsService | internal/authdb/oauth.go:286-299 | the client of a redeemed code stays registered and used for ever |
| OAuthRuns.NoClientInServiceIsPruned | internal/authdb/gc.go:159-184 | such a client is never among those a prune lists or deletes |
| OAuthRuns.ListedButRedeemed | internal/sweeper/sweeper.go:275-296 | a client already listed survives the delete when a code of its is redeemed in between |
| OAuthRuns.CodeWasLetIn | internal/auth/github.go:214-249 | each code is for a login that some callback step let in on the stored invites of that moment |
| OAuthRuns.InvitesStand | internal/authdb/admin.go:232-264 | the stored invites are those made and not taken back since, by a revocation or a deletion |
| OAuthRuns.OnlyTheInvitedGetKeys | internal/auth/github.go:83-113 | on a closed deployment a key belongs to a configured login, or to one whose invitation stood when its callback asked |
| OAuthTimes.KeysAreMadeInTime | internal/authdb/oauth.go:182-274 | behind each key a session was stored, then taken within its lifetime, then a code minted, then read within its own for the form of the key |
| OAuthTimes.PruneSparesExactly | internal/authdb/gc.go:159-184 | in every run a prune spares exactly the clients a code was ever redeemed for and those registered at the cutoff or later |
| Backfill.BackfillFindsEveryUse | internal/authdb/migrate.go:302-311 | after the backfill a client is unused exactly when none of its codes was redeemed; a use it finds is dated by the latest of their expiries |
| Backfill.NoUseIsDatedTooEarly | internal/authdb/migrate.go:303-307 | so no use is dated before any redemption, codes being redeemed before they expire |
| Backfill.PruneAfterBackfill | internal/authdb/migrate.go:290-311 | the first prune after it spares every client with a redeemed code |
| Names.PatternIsWalk | internal/authdb/namespaces.go:70-77 | the name pattern as a regular expression and as one pass agree |
| Names.ClaimableExactly | internal/authdb/namespaces.go:70-97 | a name can be claimed exactly when it has 2 to 39 bytes, matches the pattern, is neither house nor preview and does not begin with gh- |
| Decimal.PrintIsRead | internal/authdb/namespaces.go:101-103 | the printed number reads as the number |
| Names.DerivedNames | internal/authdb/namespaces.go:85-103 | derived names are distinct and none can be claimed |
| Namespaces.Registry.EnsurePersonalNamespace | internal/authdb/namespaces.go:133-174 | the account's namespace exists afterwards with its name and owner, or nothing changed |
| Namespaces.Registry.AddName | internal/authdb/namespaces.go:240-273 | the new name is the primary one, or nothing changed at all |
| Namespaces.Registry.CreateOrg | internal/authdb/orgs.go:61-87 | a namespace with one primary name, or nothing |
| Namespaces.Registry.DeleteOrg | internal/authdb/orgs.go:91-102 | the namespace goes with all its names and members |
| Namespaces.Registry.AddOrgMember | internal/authdb/orgs.go:139-170 | one new member of that role, or nothing |
| Namespaces.Registry.WouldStrandNamespace | internal/authdb/orgs.go:281-301 | computes the guard |
| Namespaces.Registry.RemoveOrgMember | internal/authdb/orgs.go:173-200 | one member less, or nothing |
| Namespaces.Registry.SetOrgMemberRole | internal/authdb/orgs.go:247-277 | that member's role, or nothing |
| Namespaces.Registry.AllowedNamespaces | cmd/typst-d2-mcp/namespaces.go:54-71 | the loop collects the built-in and, for a caller who signed in, the names of their namespaces |
| NamespaceRuns.StrandsExactly | internal/authdb/orgs.go:281-301 | the guard refuses exactly the only owner |
| NamespaceActs.AddedExactly | internal/authdb/orgs.go:139-170 | a member is added, in the role named and under every name of the namespace, exactly where role and namespace exist and the account is no member yet; nobody else's role changes; each refusal says which |
| NamespaceActs.RemovedExactly | internal/authdb/orgs.go:173-200 | a member is removed exactly where there is one that is not the only owner; nobody else's role changes |
| NamespaceActs.RoleIsSetExactly | internal/authdb/orgs.go:247-277 | a member has the role named afterwards exactly where there is one, and the only owner is not made a member; nobody else's role changes |
| NamespaceActs.StrangersAreRefused | internal/authdb/orgs.go:139-200 | a login that nobody has is refused, and nothing changes |
| NamespaceActs.ProvisionedExactly | internal/authdb/namespaces.go:133-174 | who signs in owns a namespace whose primary name is their derived one, with no other member, unless the name is there already; all else is as it was |
| NamespaceActs.CreatedExactly | internal/authdb/orgs.go:61-87 | an organisation is created, without members, exactly under a claimable name that is free |
| NamespaceActs.RenamedExactly | internal/authdb/namespaces.go:240-273 | a name is added exactly where it is claimable and free; it is the primary one now, and the old ones lead where they led |
| NamespaceActs.DeletedExactly | internal/authdb/orgs.go:91-102 | a deletion takes the namespace, all its names and all its members, and nothing else |
| NamespaceActs.ForgottenExactly | internal/authdb/admin.go:335-388 | exactly the accounts go that sign in with the login; memberships stay |
| NamespaceRuns.OnePrimaryName | internal/authdb/namespaces.go:240-273 | names and members belong to live namespaces, each of which has exactly one primary name |
| NamespaceRuns.OwnersAreNeverLost | internal/authdb/orgs.go:30-39 | a namespace with an owner has one until it is deleted |
| NamespaceRuns.RunKeepsOwned | internal/authdb/namespaces.go:125-174 | a namespace provisioned for an account has an owner as long as it lives |
| NamespaceRuns.NamesStayBound | internal/authdb/namespaces.go:235-273 | a name points at the same namespace as long as that lives |
| NamespaceRuns.ReservedNamesStayFree | internal/authdb/namespaces.go:79-103 | house and preview are never stored, every stored gh- name is the derived name of its namespace's account, and points nowhere else |
| NamespaceRuns.AllowedExactly | cmd/typst-d2-mcp/namespaces.go:39-71 | a caller may import house and, signed in, exactly the names of the namespaces they are in |
| Migrations.Store.ApplyMigration | internal/authdb/migrate.go:387-410 | all statements and the row, or nothing, wherever it fails |
| Migrations.Store.RunMigrations | internal/authdb/migrate.go:334-383 | the loop applies what is newer than the database, or refuses a newer database |
| MigrationRuns.OpenAt | internal/authdb/migrate.go:334-383 | an Open moves up by whole revisions, succeeds only at its latest, and refuses a newer database untouched |
| MigrationRuns.WholeRevisionsOnly | internal/authdb/migrate.go:334-410 | after any binaries and any crashes the database holds a prefix of whole revisions, each run once, the first only baselined on a legacy database |
| MigrationRuns.CrashesLeaveNoTrace | internal/authdb/migrate.go:385-410 | an Open that lives long enough ends as if there had been no crash |
| Paths.JoinFollowsClean | internal/workspace/workspace.go:109-110 | joining and cleaning a relative path agree |
| Paths.RelLeadsBack | internal/workspace/workspace.go:111-117 | the relative path climbs exactly when the target is not below the base |
| Workspace.SanitiseSegment | internal/workspace/dirname.go:47-68 | the loop replaces exactly the unsafe characters |
| Workspace.DirNameIsPlain | internal/workspace/dirname.go:31-42 | a directory name is one safe path segment for every id |
| Workspace.DirNameExactly | internal/workspace/dirname.go:31-68 | a plain id names its directory itself; any other is spelled with hyphens for its unsafe bytes, then a hyphen and eight digits of its hash |
| Workspace.DirNamesDiffer | internal/workspace/dirname.go:31-42 | distinct minted ids have distinct directories, whatever the hash |
| Workspace.DirNamesCollideExactly | internal/workspace/dirname.go:31-42 | two ids share a directory exactly when one is unsafe and the other is its directory name, or both are unsafe and agree in safe form and eight digits of the hash |
| Workspace.FirstAccountCollides | internal/workspace/dirname.go:31-42 | whatever the hash, gh:1 shares its directory with an id spelled like it |
| Workspace.ResolveStaysBelow | internal/workspace/workspace.go:102-119 | accepted paths are exactly the relative ones that end below the root |
| Workspace.TenantsShareNoPath | internal/workspace/workspace.go:226-238 | no path is reachable for two tenants |
| Workspace.TenantFactory.Resolver | internal/workspace/workspace.go:226-238 | migrates the old directory and makes the new one, which is the root, or fails |
| Workspace.TenantFactory.MigrateLegacyDir | internal/workspace/workspace.go:248-268 | renames only when nothing is found at the new place, and fails when a dead link is in the way |
| Workspace.MigrationKeepsFiles | internal/workspace/workspace.go:248-268 | where nothing was, every file is at the same place under the new name and none is left under the old one |
| Workspace.MigrationTouchesNothingElse | internal/workspace/workspace.go:248-268 | all other files stay |
| Workspace.OpeningLosesNoFile | internal/workspace/workspace.go:226-268 | every file stays where it is or moves along with the old directory; what the workspace held already stays |
| Workspace.OpeningLeavesOthersAlone | internal/workspace/workspace.go:226-238 | opening a workspace never touches another tenant's, under its new name or its old one |
| Workspace.RemovalNeedsThePlainName | internal/web/handlers_admin.go:333-350 | deleting a user's directory removes their workspace exactly when it is named by the id |
| Workspace.AccountsAreRenamed | internal/workspace/dirname.go:31-42 | no GitHub account's directory is named by its id |
| Workspace.OldDirectoryIsRemoved | internal/web/handlers_admin.go:333-350 | deleting an account is not refused, and deletes what is under its old directory name and nothing else |
| Workspace.AccountFilesOutliveTheAccount | internal/web/handlers_admin.go:333-350 | so every file under the account's directory name of today stays |
| Sweeping.BytesAreConserved | internal/sweeper/sweeper.go:189-258 | bytes before are bytes recorded and bytes deleted |
| Sweeping.MeasuredIsLeft | internal/sweeper/sweeper.go:189-258 | the recorded usage is the size of what is left |
| Sweeping.SweepIsPurge | internal/sweeper/sweeper.go:220-242 | exactly the aged, unprotected files outside fonts are deleted |
| Sweeping.SecondPassDeletesNothing | internal/sweeper/sweeper.go:189-258 | a second pass at the same time deletes nothing |
| Sweeping.ZeroTtlDeletesNothing | internal/sweeper/sweeper.go:47-50 | a TTL of zero deletes nothing |
| Sweeping.ShelteredFilesSurvive | internal/sweeper/sweeper.go:143-171 | a file with a link that resolves survives every pass when its directory is named by the user id and the path does not climb |
| Sweeping.SavedExactly | internal/sweeper/sweeper.go:163-171 | in a directory of any name an aged file is purged unless a link that resolves has that name as its user id and leads to the file without climbing |
| Sweeping.OtherwiseTheyAreLost | internal/sweeper/sweeper.go:170-171 | for every table of links, an aged file in a directory named by `DirName` is purged exactly when no sheltered link that resolves serves it |
| Sweeping.SweptExactly | internal/sweeper/sweeper.go:131-258 | a whole pass, expired links deleted first, takes a file exactly where it is in a directory under the root, not among the fonts, older than a TTL that is not zero, and no link that resolves keeps it |
| Sweeping.GoneAreCounted | internal/sweeper/sweeper.go:131-258 | the number of files that a pass reports is the number that are gone, over all directories |
| Sweeping.UsageIsLeft | internal/sweeper/sweeper.go:189-258 | each recorded usage is the size of what is left in that directory after the whole pass |
| Sweeping.AllBytesAreConserved | internal/sweeper/sweeper.go:131-258 | over all directories the bytes before are those left and those reported deleted |
| Sweeping.AccountFilesAreNotSheltered | internal/authdb/gc.go:57-80 | among minted ids no link shelters anything in a GitHub account's directory under its name from `DirName` |
| Sweeping.ServedAndPurged | internal/sweeper/sweeper.go:163-171 | a file that a live link serves and the pass deletes |
| Sweeping.Sweeper.Purge | internal/sweeper/sweeper.go:197-243 | the walk deletes, counts and measures as `Sweep` says |
| Sweeping.Sweeper.PruneEmptyDirs | internal/sweeper/sweeper.go:312-328 | no empty directory is left below the root of the workspace, and only empty ones went |
| Sweeping.Sweeper.SweepUser | internal/sweeper/sweeper.go:189-258 | purge, prune, and record what was measured |
| Sweeping.Sweeper.SweepClients | internal/sweeper/sweeper.go:275-296 | deletes the stale clients, or nothing without a TTL |
| Sweeping.Sweeper.SweepOnce | internal/sweeper/sweeper.go:131-183 | links, then clients, then the directories under the root if one is set: of all files on the disk exactly those go that are doomed in the directory they are in; every user's usage is that of their own pass; the totals are the sums |
| Links.ThroughLink | cmd/typst-d2-mcp/publish.go:310-316 | a path through a link leads into what the link points at |
| Links.InstallStaysBelow | cmd/typst-d2-mcp/publish.go:389-420 | installing where no link is changes nothing elsewhere, but for directories on the way |
| Links.InstallShips | cmd/typst-d2-mcp/publish.go:389-420 | installed where nothing was, the tree is the shipped one |
| Links.CopiedHoldsLanded | cmd/typst-d2-mcp/publish.go:389-420 | when a copy fails, the tree is what landed, whole files and the bytes of a torn one |
| Publishing.Stage.PackageView | cmd/typst-d2-mcp/namespaces.go:91-139 | the loop makes the view |
| Publishing.ViewShowsExactly | cmd/typst-d2-mcp/namespaces.go:102-118 | the view shows exactly the permitted names whose namespace has a directory, and changes nothing outside |
| Publishing.FontsAreShown | cmd/typst-d2-mcp/namespaces.go:97-137 | the caller's fonts are shown under the view exactly when there are any, and its namespaces lie where the compiler looks |
| Publishing.Stage.InstallPackage | cmd/typst-d2-mcp/publish.go:389-420 | the loop copies file after file, each after its directory, stops at the first copy that fails, and leaves what is there |
| Publishing.Stage.StageCandidate | cmd/typst-d2-mcp/publish.go:306-327 | the loop stages the candidate beside links to what the namespace holds, as far as the copying gets |
| Publishing.StagingStaysInView | cmd/typst-d2-mcp/publish.go:306-327 | staging changes nothing but the name's directory in the view, and the candidate is where the compile looks |
| Publishing.SiblingsAreLinked | cmd/typst-d2-mcp/publish.go:313-322 | beside the candidate stand exactly the other published packages of the namespace, as links |
| Publishing.CheckLeavesNoTrace | cmd/typst-d2-mcp/publish.go:265-327 | view and staging are gone without a trace once the view is removed |
| Publishing.LeftLinkLeadsIntoStore | cmd/typst-d2-mcp/publish.go:310-316 | had the link not been removed, the candidate would land in the live store |
| PublishRuns.OwnersMayPublishExactly | cmd/typst-d2-mcp/publish.go:159-185 | a caller who signed in may publish under exactly the names of the namespaces they own, house apart |
| PublishRuns.PublishExactly | cmd/typst-d2-mcp/publish.go:68-142 | a publish is accepted, for the namespace behind the name, exactly when package and version are well formed, the caller owns that namespace, the files are at most 4 MiB with a manifest among them, nothing is at the place yet, and the candidate compiles; otherwise nothing changes |
| PublishRuns.PackageExactly | cmd/typst-d2-mcp/publish.go:48-49 | a package name is words of lower-case letters and digits with a hyphen between two of them |
| PublishRuns.VersionExactly | cmd/typst-d2-mcp/publish.go:50-52 | a version is three numbers with dots between them |
| PublishRuns.BytesAdd | cmd/typst-d2-mcp/publish.go:108-116 | the size of a package is the sum of its files' |
| PublishRuns.StepWritesAtTarget | cmd/typst-d2-mcp/publish.go:124-142 | it writes only where nothing was |
| PublishRuns.OnlyOwnersCreate | cmd/typst-d2-mcp/publish.go:90-142 | a version appears only by a publish of a then-owner |
| PublishRuns.PublishedNeverChanges | cmd/typst-d2-mcp/publish.go:124-142 | a published version is never altered in any run of publishes and namespace changes |
| PublishRuns.HouseIsNeverWritten | cmd/typst-d2-mcp/publish.go:159-162 | no run writes into the built-in namespace |
| PublishRuns.PublishShips | cmd/typst-d2-mcp/publish.go:140-142 | an accepted publish puts exactly the shipped files in place if and only if no byte of a copy is lost |
| PublishRuns.ShortCopiesAreForGood | cmd/typst-d2-mcp/publish.go:124-142 | after a short copy no later run has the shipped files in place, and every retry is refused |
| PublishRuns.OnePublishCutShort | cmd/typst-d2-mcp/publish.go:389-400 | a publish that is accepted and cut short |

## Left out

- FoundCalls.EveryCallIsFound: speaks of documents whose groups close, but for a last comment or call. Of documents with groups left open or nested past the cap, what is proved is what `Blocks`, `Scanning` and `Rescan` say of every input.
- FlowCompletes.VisitEndsWithKey: in between no other request is about the same account, session or code, and the administrator leaves accounts and invites alone and prunes no registration as young.
- Drawings.FirstStringIsDrawing: a padding that holds a string of its own has that as the first one; `Drawings.PieceExactly` says what stands where in any case.
- Workspace.OpeningLosesNoFile: of an old directory that is neither above nor below the new one.
- Declarations.LetDeclarations: without the doc comments above the declarations, which do not decide what is declared.
- OAuth.Store.RegisterClient: without the client name and the stored auth method, which no later step reads.
- OAuth.Store.CreateAuthorizeSession: without scope and client state, which are only carried along, and the default challenge method, which its caller never leaves out.
- OAuth.Store.MintAuthorizationCode: without scope and the default challenge method, for the same reasons.
- OAuth.Store.UpsertGitHubUser: without the e-mail, and without provisioning the namespace, which is a step of its own in `NamespaceRuns`.
- OAuth.Store.IssueAPIKey: stores the key where the source stores its hash; keys are fresh either way.
- OAuth.Store.DeleteUser: without download links, compile counters, usage and budget rows, which no modelled step shares.
- Namespaces.Registry.EnsurePersonalNamespace: look-up and insert are one step; a name that appears in between makes the insert fail on its key and changes nothing, as here.
- Workspace.SanitiseSegment: one dash per byte where the source writes one per rune; ids are ASCII here.
- Sweeping.Sweeper.SweepOnce: no user's pass fails.
- Publishing.Stage.PackageView: no link fails, so there is nothing to clean up.
- Backfill.BackfillFindsEveryUse: speaks of expiry times; redemption times come in by an argument of `Backfill.NoUseIsDatedTooEarly`.
- Running d2 and typst, parsing call options, base64 and looking for an import line that is there already: foreign processes and regular expressions, which are arguments here; the base64 text is assumed to use its alphabet.
- Unicode white space in `TrimSpace` and `Fields`, and non-ASCII identities: strings are bytes and white space is ASCII.
- Comments above a declaration and the sorting of exports.
- HTTP, JSON, HTML, MCP, sessions and cookies, metrics, quotas, budgets, audit rows, listings: I/O, or simple.
- Failures of the database in the OAuth and namespace steps: a failed transaction is one that does not happen.
- Scope, client name, state and e-mail, which the OAuth flow only carries along.
- Legacy databases in the namespace runs: they start from a fresh one, so names that migrations carried over are not covered.
- Binaries that know no revision at all: `MigrationRuns` needs at least one.
- Files in the way of `os.MkdirAll`, failing removals, renames and directory creations, and files that change while they are walked or copied.
- Chains of links: a link target is taken to be a real path.
- Concurrent publishes of one version and concurrent Opens of one database, which the code does not order.
- Collecting the files of a package: they are an argument, with their contents.
