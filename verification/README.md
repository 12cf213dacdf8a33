# SSH-Hunt core, verified

SSH-Hunt is a multiplayer game played through a simulated shell. This project models the five
pieces of its state and parsing logic on which the rest relies, and proves what they keep.

- **Filesystem** (`Paths`, `VfsTree`, `VfsStore`, `VfsLaws`, `VfsEffects`, `VfsCopyTree`,
  `VfsListing`). The tree is one sorted map from absolute path strings to nodes, and every tree
  operation is a string-prefix test. The strings are modelled for real; the laws relate them to
  component lists. `VfsStore.Vfs` is the object with its map edited in place.
- **Shell** (`Tokens`, `Parser`, `RoundTrip`, `Quoting`, `Commands`, `Chaining`, `Shell`,
  `ShellEngine`, `ShellLaws`, `ShellEffects`). Tokenizer, parser and executor. A command is any
  function of the context, its arguments and its input.
- **World** (`World`, `WorldService`, and the laws in `Frames`, `Money`, `Auctions`, `Offers`,
  `Listings`, `SafeIntervals`, `Accounts`, `Duels`, `LongDuels`, `Strikes`, `Ledger`, `Seeds`,
  `Gate`, `Records`). Each locked section of the service is one atomic step, and `mode_switch` is
  three. A run is any sequence of steps, so every theorem about runs holds under every
  interleaving of sessions. `WorldService.Service` is the object whose methods refine the steps,
  so that its calls make up such a run (`WorldService.Service.CallExtendsRun`).
- **Text builtins** (`Escapes`, `Translate`): the escape chain of `echo -e` and `printf`, and `tr`.
- **Command limiter** (`Limiter`): the sliding window of each session.

`Base` and `Text` hold shared vocabulary. Integers are mathematical. Fresh identifiers, clock
readings, dice, and the amount of a style reward are parameters of the steps; dice are only
assumed to fall in the range they are rolled from.

## What the proofs found

- Moving a file onto itself deletes it (`VfsLaws.MvExact`, `VfsLaws.MvOntoItselfDeletes`).
- `mkdir_p` succeeds when the final path is already a file; only files above it make it fail
  (`VfsLaws.MkdirPAllOrNothing`, `VfsLaws.MkdirPMakesDirIff`).
- `copy_tree` of a directory breaks the tree invariant exactly when the destination is not `/` and
  has no directory as parent, when a copied file replaces a non-empty directory, or when something
  other than an empty directory is copied from elsewhere onto `/`. Every other call keeps it:
  copies of single files, and calls that fail (`VfsCopyTree.CopyTreeKeepsIffSafeFor`). Over whole
  runs, those calls are the only ones that ever break it (`VfsCopyTree.RunKeepsIffSafe`).
- Tokens lose their quoting, so quotes protect a text exactly when it is neither empty nor an
  operator (`Chaining.QuotesProtectIff`, `Chaining.EmptyQuotesVanish`).
- Nor are values split: `$NAME` gives its value as one argument, blanks and all, quoted or not, but
  a value that is an operator acts as one, and an empty one gives no argument
  (`Quoting.VariableLine`).
- A `;`, `&&` or `||` between blanks separates exactly when the line before it ends in a command,
  leaves no redirect pending, and does not end in a backslash that escapes the blank
  (`Chaining.LineSplitsIffSettled`); `a | > f ; b` gives the redirect to `b`
  (`Chaining.RedirectOutlivesChain`).
- The parse/print round trip holds on exactly the lines that parsing can return
  (`RoundTrip.ParsedLinesExactly`).
- The escape chain misreads its own sentinel: it decodes correctly exactly on strings without NUL
  (`Escapes.MultiPassIsSinglePass`).
- Buyout prices are not checked for sign, and each negative price can put a player into debt
  (`Money.SafePriceIffFair`, `Money.NegativePriceMakesDebt`).
- The first successor of an NPC carries the third name of its pool, not the second as the
  successor lists in `README.md:235-241` have it. The documented order holds exactly in the first
  generation and from the length of the pool on (`Ledger.SecondNameIsSkipped`,
  `Seeds.ShippedOrder`). The model follows the code.
- A defence raised against an NPC softens the blow of the same call, and no later one
  (`Strikes.RoundExact`).
- The listing limiter restarts its window, so k times thirty seconds can hold 3k + 2 listings
  (`SafeIntervals.BoundReached`). It keeps to 3k exactly when no window of the seller is open
  that can still fill up inside (`SafeIntervals.SafeIffNoOpenWindow`).
- Each username has at most one account, so the choice of an account by key in `login` never
  decides anything (`Accounts.OneAccountPerName`).

## Model

| member | source | states |
|---|---|---|
| Paths.NormalizePath | ssh-hunt/crates/vfs/src/lib.rs:433-462 | the loop over a growing stack resolves a path against a working directory, and rejects only the empty path |
| Paths.NormalizeIsNormal | ssh-hunt/crates/vfs/src/lib.rs:433-462 | every result is absolute and has no empty, `.` or `..` component |
| Paths.NormalizeIdempotent | ssh-hunt/crates/vfs/src/lib.rs:433-462 | normalising a result again, from any directory, changes nothing; the fixed points are exactly the normal paths |
| Paths.NormalizeComposes | ssh-hunt/crates/vfs/src/lib.rs:433-462 | resolving relative `q` from the normal form of `p` equals resolving `p/q` at once |
| Paths.NormalizeMoves | ssh-hunt/crates/vfs/src/lib.rs:433-462 | from any directory a name leads one level down, `..` one level up except from the root, `.` nowhere, and an absolute path away from it; with composition this says what every path means |
| Paths.ParentNames | ssh-hunt/crates/vfs/src/lib.rs:425-431 | cutting a normal path at its last slash drops exactly its last component, and the parent is normal again |
| Paths.PrefixIsAncestor | ssh-hunt/crates/vfs/src/lib.rs:214-216 | between normal paths, "starts with the path and a slash" holds if and only if the components are a proper prefix, so `/ab` is not below `/a` |
| Paths.DirPrefixIsAncestor | ssh-hunt/crates/vfs/src/lib.rs:346-355 | the listing prefix, with its special case for `/`, selects exactly the proper descendants, and what follows it is the remaining components |
| VfsStore.Vfs.constructor | ssh-hunt/crates/vfs/src/lib.rs:81-95 | the fresh filesystem is the well-formed tree holding only `/` |
| VfsStore.Vfs.EnsureDir | ssh-hunt/crates/vfs/src/lib.rs:98-121 | refines the tree operation below: an existing key is accepted whatever its kind, a missing or non-directory parent is an error; keeps the invariant |
| VfsStore.Vfs.MkdirP | ssh-hunt/crates/vfs/src/lib.rs:123-138 | the segment loop computes the operation whose fate `VfsLaws.MkdirPAllOrNothing` states, and keeps the invariant |
| VfsStore.Vfs.Touch | ssh-hunt/crates/vfs/src/lib.rs:140-166 | an existing node is left alone, a new file needs an existing directory as parent; keeps the invariant |
| VfsStore.Vfs.WriteFile | ssh-hunt/crates/vfs/src/lib.rs:168-192 | touches and then replaces or extends the content of a file, refusing directories; keeps the invariant |
| VfsStore.Vfs.ReadFile | ssh-hunt/crates/vfs/src/lib.rs:194-204 | the content of an existing file, or which error |
| VfsStore.Vfs.Remove | ssh-hunt/crates/vfs/src/lib.rs:206-218 | the filter over string prefixes computes the operation that `VfsLaws.RemoveExact` characterises, and keeps the invariant |
| VfsStore.Vfs.Copy | ssh-hunt/crates/vfs/src/lib.rs:220-239 | reads one file and writes it elsewhere; fate and effect in `VfsLaws.CopyFate` |
| VfsStore.Vfs.Mv | ssh-hunt/crates/vfs/src/lib.rs:241-244 | copy and then remove; fate and effect in `VfsLaws.MvExact` |
| VfsStore.Vfs.CopyTree | ssh-hunt/crates/vfs/src/lib.rs:248-278 | inserting a snapshot key by key yields the whole set of copies at once, none overwriting another; laws in `VfsCopyTree` |
| VfsStore.Vfs.Chmod | ssh-hunt/crates/vfs/src/lib.rs:325-334 | only the mode of an existing node changes; keeps the invariant |
| VfsStore.Vfs.Ls | ssh-hunt/crates/vfs/src/lib.rs:336-365 | the prefix scan computes the listing that `VfsListing.LsExact` characterises |
| VfsStore.Vfs.LsNodes | ssh-hunt/crates/vfs/src/lib.rs:290-322 | the prefix scan computes the listing that `VfsListing.LsNodesExact` characterises |
| VfsStore.Vfs.Find | ssh-hunt/crates/vfs/src/lib.rs:379-410 | the prefix scan keeps exactly the subtree whose base names pass the pattern, in key order |
| VfsLaws.ApplyKeepsWellFormed | ssh-hunt/crates/vfs/src/lib.rs:98-244 | one call of `ensure_dir`, `mkdir_p`, `touch`, `write_file`, `remove`, `copy`, `mv` or `chmod`, on any arguments and whether it succeeds or fails, keeps: keys normal, `/` a directory, every other key's parent an existing directory, `node.path` equal to its key |
| VfsLaws.RunKeepsWellFormed | ssh-hunt/crates/vfs/src/lib.rs:98-244 | the same over any sequence of calls |
| VfsLaws.ReachableWellFormed | ssh-hunt/crates/vfs/src/lib.rs:81-95 | every tree reachable from the fresh one is well-formed |
| VfsLaws.AncestorsAreDirs | ssh-hunt/crates/vfs/src/lib.rs:98-121 | parent closure followed to the top: every proper ancestor of an existing key is a directory |
| VfsLaws.RemoveExact | ssh-hunt/crates/vfs/src/lib.rs:206-218 | succeeds if and only if the key exists and is not `/`; then exactly the component-wise subtree is gone, all else is unchanged and look-alike siblings survive; on error nothing changes |
| VfsLaws.MkdirPAllOrNothing | ssh-hunt/crates/vfs/src/lib.rs:123-138 | succeeds if and only if no proper ancestor of the target is a file; an error from anywhere in the loop leaves the tree unchanged; success adds a directory at each missing prefix and nothing else |
| VfsLaws.MkdirPLeavesDirs | ssh-hunt/crates/vfs/src/lib.rs:123-138 | after success every proper prefix is a directory |
| VfsLaws.MkdirPMakesDirIff | ssh-hunt/crates/vfs/src/lib.rs:98-138 | and the target is a directory if and only if it was not a file before |
| VfsLaws.MkdirPAcceptsFile | ssh-hunt/crates/vfs/src/lib.rs:100-102 | a reachable tree with a file on which `mkdir_p` reports success and changes nothing |
| VfsLaws.CopyFate | ssh-hunt/crates/vfs/src/lib.rs:220-239 | succeeds if and only if the source is a file and the destination writable; then only the destination differs and holds the source's content |
| VfsLaws.MvExact | ssh-hunt/crates/vfs/src/lib.rs:241-244 | when a move succeeds the file is at the destination and nowhere else, provided the two paths differ; moving a file onto itself deletes it; a failed move changes nothing |
| VfsEffects.WriteExact | ssh-hunt/crates/vfs/src/lib.rs:168-192 | a write succeeds if and only if the key is a file, or is absent below a directory; it then holds the old content and the data, or the data alone, a new file belongs to the writer, nothing else changes; otherwise which error, and no effect |
| VfsEffects.ReadAfterWrite | ssh-hunt/crates/vfs/src/lib.rs:168-204 | after a successful write, reading the file gives the old content and the data, or the data alone, and reading any other path gives what it gave |
| VfsEffects.AppendsAddUp | ssh-hunt/crates/vfs/src/lib.rs:168-204 | after any number of appends a file reads as its old content and then every piece in order |
| VfsEffects.CopyWrites | ssh-hunt/crates/vfs/src/lib.rs:220-239 | `copy` is a write by the system of what the source holds, with the errors of the source first |
| VfsEffects.TouchExact | ssh-hunt/crates/vfs/src/lib.rs:140-166 | `touch` makes an empty file of the caller's, or changes nothing, and when |
| VfsEffects.ChmodExact | ssh-hunt/crates/vfs/src/lib.rs:325-334 | `chmod` changes the mode of an existing node and nothing else |
| VfsEffects.EmptyPathRefused | ssh-hunt/crates/vfs/src/lib.rs:433-436 | every operation refuses the empty path, with no effect |
| VfsCopyTree.CopyTreeMerges | ssh-hunt/crates/vfs/src/lib.rs:248-278 | whatever stands at the destination, `copy_tree` of a directory puts each node of its subtree where the destination's path replaces its own, over what is there, and changes nothing else; of a file it is `copy` |
| VfsCopyTree.CopiesExact | ssh-hunt/crates/vfs/src/lib.rs:265-276 | the keys built by string surgery are exactly the destination's subtree, each the counterpart of a source key with its path rewritten |
| VfsLaws.MvOntoItselfDeletes | ssh-hunt/crates/vfs/src/lib.rs:241-244 | a reachable tree with a file that moving it onto itself deletes, with success reported |
| VfsCopyTree.CopyTreeKeepsIffSafe | ssh-hunt/crates/vfs/src/lib.rs:248-278 | copying a directory keeps the tree invariant if and only if a condition on the tree before the call holds: directory parent, no file landing on a non-empty directory, `/` handled apart |
| VfsCopyTree.CopyTreeKeepsIffSafeFor | ssh-hunt/crates/vfs/src/lib.rs:248-278 | for any working directory and any two arguments, a call of `copy_tree` keeps the tree invariant if and only if it fails on the paths, its source is missing or a file, or that condition holds |
| VfsCopyTree.RunKeepsIffSafe | ssh-hunt/crates/vfs/src/lib.rs:98-278 | over any sequence of these calls from the fresh tree, every tree passed through is well-formed if and only if each `copy_tree` was safe in this sense when it was made |
| VfsCopyTree.CopyTreeOrphans | ssh-hunt/crates/vfs/src/lib.rs:265-276 | a reachable tree that a copy to a place without a parent directory breaks |
| VfsCopyTree.CopyTreeExact | ssh-hunt/crates/vfs/src/lib.rs:248-278 | into an absent place under a directory, the new subtree is node for node the old one, all else is unchanged, and the invariant holds, even when copying a directory into itself |
| VfsCopyTree.CopyThenRemoveMoves | ssh-hunt/crates/vfs/src/lib.rs:206-278 | outside the source, copying and then removing the source is an exact tree move |
| VfsListing.LsExact | ssh-hunt/crates/vfs/src/lib.rs:336-365 | `ls` of a directory of a well-formed tree is strictly sorted, and holds a name if and only if some key of the tree has the directory's components and that name |
| VfsListing.LsNodesExact | ssh-hunt/crates/vfs/src/lib.rs:290-322 | `ls_nodes` of it is exactly the nodes at the keys one component below, once each and in key order |
| VfsListing.ListingOfFile | ssh-hunt/crates/vfs/src/lib.rs:290-365 | of a file both give the file itself, of a missing path both the same error |
| VfsListing.LsAgreesWithLsNodes | ssh-hunt/crates/vfs/src/lib.rs:290-365 | wherever a working directory and a path lead to a directory of a well-formed tree, the names `ls` gathers from all descendants are the base names of the children `ls_nodes` keeps, in the same order |
| VfsListing.FindExact | ssh-hunt/crates/vfs/src/lib.rs:379-410 | `find` returns each key of the component-wise subtree whose last component passes the pattern exactly once, sorted |
| Tokens.Tokenize | ssh-hunt/crates/shell/src/lib.rs:333-400 | the character loop with its quote flags, escapes and expansion computes the state-machine scan that the parser laws are about |
| Quoting.TokensAreMeaning | ssh-hunt/crates/shell/src/lib.rs:333-400 | every line written in a grammar of quoted, escaped and variable pieces, blanks and operators is read as the grammar means it, in every environment |
| Quoting.ReadableIffFits | ssh-hunt/crates/shell/src/lib.rs:333-400 | the tokenizer accepts exactly the lines that the grammar writes, whatever the environment holds, and any other line for an open quote |
| Quoting.ScanVariable | ssh-hunt/crates/shell/src/lib.rs:352-363 | outside single quotes `$NAME` joins the pending word with the value bound to the name, or with nothing |
| Quoting.VariableLine | ssh-hunt/crates/shell/src/lib.rs:237-400 | `a $NAME` and `a "$NAME"` both give `a` the value as one argument if and only if it is neither empty nor an operator, an empty or unbound one gives no argument, and in single quotes the name stands for itself |
| Tokens.TokensNonEmpty | ssh-hunt/crates/shell/src/lib.rs:333-400 | no token is ever empty |
| Parser.ParseLine | ssh-hunt/crates/shell/src/lib.rs:237-331 | the token loop with its pending words, redirects and segments computes the recursive parse |
| Parser.ParsedLinesGood | ssh-hunt/crates/shell/src/lib.rs:237-331 | every successful parse starts with an unconditional segment and has non-empty pipelines, non-empty words that are no operators, and non-empty redirect targets |
| Commands.CommandFromParts | ssh-hunt/crates/shell/src/lib.rs:252-312 | words and redirects in any order make the command of the words in order with the last redirect of each kind |
| Commands.ParseFailsIff | ssh-hunt/crates/shell/src/lib.rs:265-312 | tokens fail to parse exactly at a pipe with no word since the last separator, a chain operator with neither word nor pipe since the last one, or a redirect at the end |
| RoundTrip.ParseOfPrint | ssh-hunt/crates/shell/src/lib.rs:237-400 | parsing the canonical print of any such line, in any environment, returns that line |
| RoundTrip.PrintIsNormalForm | ssh-hunt/crates/shell/src/lib.rs:237-400 | printing what was parsed is an idempotent normal form that parses to the same line everywhere |
| RoundTrip.ParsedLinesExactly | ssh-hunt/crates/shell/src/lib.rs:237-400 | the printable lines are exactly the lines that some input parses to |
| RoundTrip.QuotedOperatorIsOperator | ssh-hunt/crates/shell/src/lib.rs:272-312 | an operator in quotes, set off by blanks, yields the same tokens as the bare operator, so quoting does not protect it |
| Chaining.SplitsIffSettled | ssh-hunt/crates/shell/src/lib.rs:245-299 | for every token list that parses and each of the three chain operators, whatever follows the operator parses as if it stood alone, its segments appended with the first chained by that operator, if and only if the list ends in a command and leaves no redirect pending |
| Chaining.LineSplitsIffSettled | ssh-hunt/crates/shell/src/lib.rs:237-400 | the same on typed lines, in any environment: an operator between blanks separates two lines, whatever the second is, if and only if the first ends in a command, leaves no redirect pending, and does not end in a backslash that escapes the blank |
| Chaining.WordSettles | ssh-hunt/crates/shell/src/lib.rs:308-312 | a word at its end settles a line, so a chain operator after it separates |
| Chaining.RedirectOutlivesChain | ssh-hunt/crates/shell/src/lib.rs:252-268 | on whole lines of any words, a redirect written after a trailing pipe goes to the command beyond the `;` |
| Chaining.QuotesProtectIff | ssh-hunt/crates/shell/src/lib.rs:272-312 | a quoted text between two words is an ordinary argument if and only if it is neither empty nor one of the operators |
| Chaining.EmptyQuotesVanish | ssh-hunt/crates/shell/src/lib.rs:333-400 | in the line `a '' b` the empty quotes vanish and `a` gets the single argument `b` |
| ShellEngine.ExecutionContext.constructor | ssh-hunt/crates/shell/src/lib.rs:101-120 | a new context shows exit status 0 in `$?` |
| ShellEngine.Engine.Execute | ssh-hunt/crates/shell/src/lib.rs:145-191 | the loop over segments with its carried result computes the recursive run, and keeps `$?` the decimal of `last_exit` |
| ShellEngine.Engine.ExecutePipeline | ssh-hunt/crates/shell/src/lib.rs:193-234 | the loop over commands with its stdin buffer computes the composition of the stages, stopping at the first redirect error |
| ShellEngine.Engine.RunStage | ssh-hunt/crates/shell/src/lib.rs:202-231 | one command: input redirect, call or 127, output redirect relative to the directory the command left |
| ShellEffects.UnknownCommand | ssh-hunt/crates/shell/src/lib.rs:193-216 | a line of one unregistered command answers with the message and status 127, shown in `$?`, and leaves the context otherwise alone |
| ShellEffects.UnknownThen | ssh-hunt/crates/shell/src/lib.rs:160-216 | after an unregistered command `&&` skips the next pipeline, `||` and `;` run it from there |
| ShellEffects.AssignmentIff | ssh-hunt/crates/shell/src/lib.rs:145-171 | a line is an assignment if and only if, white space around it aside, it is an identifier, an equals sign and a value without white space |
| ShellEffects.AssignmentEffect | ssh-hunt/crates/shell/src/lib.rs:145-171 | an assignment binds exactly that name to exactly that value and shows status 0 |
| ShellEffects.AssignThenUse | ssh-hunt/crates/shell/src/lib.rs:145-400 | a command typed afterwards with `$NAME` is given that value as one argument |
| ShellEffects.OutputRedirect | ssh-hunt/crates/shell/src/lib.rs:217-228 | an output redirect leaves the output in the file, in place of its content or after it, and nothing in the pipe; if the file cannot be written the pipeline stops with status 1, though the command has run |
| ShellEffects.InputRedirect | ssh-hunt/crates/shell/src/lib.rs:202-208 | an input redirect hands over the file's content instead of the pipe's; without such a file the command does not run and the pipeline stops with status 1 |
| ShellEffects.StoppedStageEnds | ssh-hunt/crates/shell/src/lib.rs:193-234 | nothing runs after a stage that stopped, and its result is the pipeline's |
| ShellEffects.TwoStages | ssh-hunt/crates/shell/src/lib.rs:193-234 | the second command of a pipe gets the context and output the first leaves, and its result and exit code are the pipeline's |
| ShellEffects.NewSession | ssh-hunt/crates/shell/src/lib.rs:101-120 | what each variable of a new session reads as |
| ShellLaws.FlatLoopIsAndOrEvaluation | ssh-hunt/crates/shell/src/lib.rs:160-188 | the flat loop equals recursive left-associative AND-OR evaluation of the segments grouped at `;` (section 2.9.3 of the POSIX.1-2017 Shell Command Language) |
| ShellLaws.ExecuteIsAndOrEvaluation | ssh-hunt/crates/shell/src/lib.rs:145-191 | so does every typed line that is no assignment |
| ShellLaws.FlattenGroup | ssh-hunt/crates/shell/src/lib.rs:245-299 | the grouping loses nothing: flattening it gives the segments back |
| ShellLaws.ExecuteStatus | ssh-hunt/crates/shell/src/lib.rs:145-191 | whatever the commands do to `$?`, a line that runs leaves `$?` and `last_exit` at its result's exit code, and any other line leaves the context alone |
| ShellLaws.SessionStatus | ssh-hunt/crates/shell/src/lib.rs:101-191 | over every session and any commands, `$?` is the decimal of the last exit code |
| ShellLaws.StatusTellsCodesApart | ssh-hunt/crates/shell/src/lib.rs:160-188 | two sessions show the same `$?` if and only if they ended with the same exit code, whatever they ran |
| ShellLaws.RedirectIsRelative | ssh-hunt/crates/shell/src/lib.rs:218-223 | writing to the pre-normalised path from `/` is writing relative to the working directory, on every path |
| ShellLaws.PipeIsTemporaryFile | ssh-hunt/crates/shell/src/lib.rs:193-234 | replacing a pipe at any boundary by `> f ; ... < f` gives the same result and context, and the filesystem differs at `f` only, for commands that depend on arguments and input |
| ShellLaws.PlainPipeIsTemporaryFile | ssh-hunt/crates/shell/src/lib.rs:193-234 | without redirects that needs nothing but a writable `f` |
| Escapes.MultiPassIsSinglePass | ssh-hunt/crates/ssh_hunt_server/src/builtins.rs:312-318 | the five chained replacements through the NUL sentinel equal one left-to-right decoder if and only if the string holds no NUL |
| Escapes.DecodeEscape | ssh-hunt/crates/ssh_hunt_server/src/builtins.rs:312-318 | decoding undoes escaping of backslash, newline, tab and return on every string |
| Escapes.MultiPassEscape | ssh-hunt/crates/ssh_hunt_server/src/builtins.rs:336-341 | so does the chained form, exactly on NUL-free strings |
| Escapes.UntouchedIff | ssh-hunt/crates/ssh_hunt_server/src/builtins.rs:312-318 | the chain leaves a text as it is if and only if it holds neither NUL nor one of the four escapes |
| Escapes.EchoPlain | ssh-hunt/crates/ssh_hunt_server/src/builtins.rs:303-326 | without options `echo` prints its words joined by blanks and a line end; `-n` anywhere takes the line end away |
| Escapes.EchoPrintsEscaped | ssh-hunt/crates/ssh_hunt_server/src/builtins.rs:303-326 | `echo -n -e` of an escaped text prints that text if and only if it holds no NUL and is neither `-n` nor `-e` |
| Translate.ExpandSet | ssh-hunt/crates/ssh_hunt_server/src/builtins.rs:779-801 | the index loop with its range case computes the recursive expansion |
| Translate.ExpandIsMeaning | ssh-hunt/crates/ssh_hunt_server/src/builtins.rs:779-801 | every set written as ranges and single characters expands to what they stand for, and `Translate.SetItems` writes every set so |
| Translate.RangeExact | ssh-hunt/crates/ssh_hunt_server/src/builtins.rs:787-793 | a range holds exactly the characters between its ends, once each and in order, surrogates left out |
| Translate.TrExact | ssh-hunt/crates/ssh_hunt_server/src/builtins.rs:842-852 | a character of the first set becomes the one at its last position there in the second set, if that reaches so far, and every other character stays |
| Translate.TrInverse | ssh-hunt/crates/ssh_hunt_server/src/builtins.rs:842-852 | for equally long sets, the first without repeats, `tr B A` undoes `tr A B` on every string if and only if B rearranges A without repeats |
| Translate.Rot13Involution | ssh-hunt/crates/ssh_hunt_server/src/builtins.rs:779-852 | `tr 'A-Za-z' 'N-ZA-Mn-za-m'` applied twice is the identity on every string |
| Limiter.Session.EnforceRateLimit | ssh-hunt/crates/ssh_hunt_server/src/main.rs:2142-2158 | popping expired entries and pushing the new one computes the window step that the laws below are about |
| Limiter.WindowExact | ssh-hunt/crates/ssh_hunt_server/src/main.rs:2142-2158 | on every monotone run the deque is exactly the accepted commands of the last closed second, in order |
| Limiter.RefusedIffBurst | ssh-hunt/crates/ssh_hunt_server/src/main.rs:2142-2158 | a command is refused if and only if `burst` commands were accepted in the closed second before it |
| Limiter.NoSecondExceedsBurst | ssh-hunt/crates/ssh_hunt_server/src/main.rs:2142-2158 | no closed one-second interval ever holds more than `burst` accepted commands |
| WorldService.Service.constructor | ssh-hunt/crates/world/src/lib.rs:1237-1271 | a new service is in the initial state of the step machine, where every run begins |
| WorldService.Service.CallExtendsRun | ssh-hunt/crates/world/src/lib.rs:1237-1271 | if the service's state ends a run and a call is one enabled step, its new state ends the run extended by that call; with the refinements below, every theorem about runs holds of the object |
| WorldService.Service.Login | ssh-hunt/crates/world/src/lib.rs:1273-1335 | the search through the name's accounts, creation and key recording refine the login step |
| WorldService.Service.RegisterKey | ssh-hunt/crates/world/src/lib.rs:1428-1456 | refines the key registration step; a malformed key line is refused before anything is looked up |
| WorldService.Service.CompleteMission | ssh-hunt/crates/world/src/lib.rs:1967-2018 | refines the mission step |
| WorldService.Service.BanForever | ssh-hunt/crates/world/src/lib.rs:1392-1426 | refines the ban step |
| WorldService.Service.SetTier | ssh-hunt/crates/world/src/lib.rs:1382-1390 | refines the tier step |
| WorldService.Service.ClaimDailyReward | ssh-hunt/crates/world/src/lib.rs:2141-2174 | the streak update in place refines the daily claim step |
| WorldService.Service.StyleBonus | ssh-hunt/crates/world/src/lib.rs:2176-2217 | the counter reset and the early return refine the style step |
| WorldService.Service.CreateListing | ssh-hunt/crates/world/src/lib.rs:2219-2278 | the window entry edited in place, fee and insertion refine the listing step |
| WorldService.Service.PlaceBid | ssh-hunt/crates/world/src/lib.rs:2280-2308 | refines the bid step |
| WorldService.Service.Buyout | ssh-hunt/crates/world/src/lib.rs:2310-2341 | removal and the two wallet edits refine the sale step |
| WorldService.Service.StartDuel | ssh-hunt/crates/world/src/lib.rs:2481-2499 | refines the start of a duel between players |
| WorldService.Service.TakeTurn | ssh-hunt/crates/world/src/lib.rs:2512-2562 | the edits through the attacker's and defender's halves of the record compute the turn |
| WorldService.Service.DuelAction | ssh-hunt/crates/world/src/lib.rs:2501-2600 | turn, removal, payment and death refine the duel step |
| WorldService.Service.StartNpcDuel | ssh-hunt/crates/world/src/lib.rs:1561-1596 | refines the start of a duel against an NPC |
| WorldService.Service.NpcDuelAction | ssh-hunt/crates/world/src/lib.rs:1599-1814 | both halves of the round and both endings refine the NPC duel step |
| WorldService.Service.Succeed | ssh-hunt/crates/world/src/lib.rs:1680-1756 | reward, ledger entry and in-place succession refine the defeat of an NPC |
| WorldService.Service.NpcDuelSolveBonus | ssh-hunt/crates/world/src/lib.rs:1817-1849 | refines the shell challenge step |
| WorldService.Service.ModeSwitchRead | ssh-hunt/crates/world/src/lib.rs:2436-2451 | the first locked section of `mode_switch` |
| WorldService.Service.ModeSwitchGate | ssh-hunt/crates/world/src/lib.rs:2453-2455 | the second locked section, the gate |
| WorldService.Service.NetcityGateOpen | ssh-hunt/crates/world/src/lib.rs:2094-2139 | the chain of early returns objects exactly when one of the gate's five demands fails |
| WorldService.Service.ModeSwitchInstall | ssh-hunt/crates/world/src/lib.rs:2458-2467 | the third locked section |
| WorldService.Service.ModeSwitchPlain | ssh-hunt/crates/world/src/lib.rs:2430-2479 | a switch to any other mode takes the last lock only |
| Money.MoneyConserved | ssh-hunt/crates/world/src/lib.rs:2141-2341 | at every point of every run, wallets plus burned fees and taxes equal 500 per player plus minted rewards, for prices of either sign and for buying one's own listing |
| Money.FairRunsHaveNoDebts | ssh-hunt/crates/world/src/lib.rs:2219-2341 | while no negative buyout price is asked, no wallet is ever negative |
| Money.SafePriceIffFair | ssh-hunt/crates/world/src/lib.rs:2219-2233 | a buyout price is safe to accept if and only if it is not negative, the sign check that listing lacks |
| Money.NegativePriceMakesDebt | ssh-hunt/crates/world/src/lib.rs:2310-2341 | for each negative price, six concrete calls end with a player in debt |
| Auctions.BidsReplay | ssh-hunt/crates/world/src/lib.rs:2280-2308 | over any run the accepted bids on a listing strictly rise, in time and above the starting price, and the listing's highest bid and bidder are those of the last |
| Auctions.SaleMovesPrice | ssh-hunt/crates/world/src/lib.rs:2310-2341 | a sale takes exactly the listing away and moves the price from buyer to seller less the tax, all other records unchanged; buying one's own listing costs the tax |
| Offers.ListingExact | ssh-hunt/crates/world/src/lib.rs:2219-2278 | a listing succeeds if and only if the price is at least 25, the seller can pay 10 and no window of theirs is full; it then stands as asked, for twelve hours |
| Offers.MarketReplays | ssh-hunt/crates/world/src/lib.rs:2219-2341 | over any run a listing stands exactly if a call made it and none has sold it, and is as that call and the accepted bids make it |
| Offers.BidAcceptedIff | ssh-hunt/crates/world/src/lib.rs:2280-2308 | a bid is accepted if and only if the listing stands, at most twelve hours have passed since it was made, the bid is above the last accepted one or else the starting price, and the bidder can pay |
| Offers.SoldIff | ssh-hunt/crates/world/src/lib.rs:2310-2341 | a sale goes through, at the price asked, if and only if the listing stands, has a price to buy it at once, and the buyer can pay it |
| Auctions.SoldOnce | ssh-hunt/crates/world/src/lib.rs:2310-2341 | over any run no listing is sold twice |
| Listings.WindowsSpaced | ssh-hunt/crates/world/src/lib.rs:2246-2255 | between any two points of any run, whatever the clock reads, a seller's windows open more than thirty seconds apart and hold at most three listings each |
| Listings.AnyClockBound | ssh-hunt/crates/world/src/lib.rs:2246-2255 | on any clock, a seller whose attempts read times in a closed interval makes at most three listings for each thirty seconds begun in it |
| Listings.AnyIntervalBound | ssh-hunt/crates/world/src/lib.rs:2246-2255 | if the seller's clock readings go back by at most `skew`, a closed interval of k times thirty seconds holds at most two listings more than three for each window that fits into it widened by the skew on either side; on a clock that never goes back that is 3k + 2, and 3k once k exceeds the ticks of thirty seconds |
| SafeIntervals.SafeIffNoOpenWindow | ssh-hunt/crates/world/src/lib.rs:2246-2255 | at any point of any run before an interval of k times thirty seconds, every continuation keeps to 3k listings in it if and only if the seller has no window open that is short of three, reaches into the interval, and opened at least k ticks before it |
| SafeIntervals.OpenOverflows | ssh-hunt/crates/world/src/lib.rs:2246-2255 | from every such state, the run that goes on to make 3k listings and as many more as that window still takes |
| SafeIntervals.BoundReached | ssh-hunt/crates/world/src/lib.rs:2246-2255 | for every k from 1 to the ticks of thirty seconds, a run with exactly 3k + 2 listings in k times thirty seconds |
| Accounts.OneAccountPerName | ssh-hunt/crates/world/src/lib.rs:1273-1335 | in every reachable state each name ever logged in has exactly one account, so the search by key never has a choice to make |
| Accounts.LoginEffect | ssh-hunt/crates/world/src/lib.rs:1273-1335 | therefore a known name always gets its own account whatever keys it offers, gaining those keys as observed, and only an unknown name creates one |
| Accounts.DailyRewardExact | ssh-hunt/crates/world/src/lib.rs:2141-2174 | at any point of any run a claim pays if and only if the player exists and has not been paid for that day, and pays 50 plus 15 for each day of the unbroken run it completes, up to seven |
| Accounts.AtMostFiveStyleRewards | ssh-hunt/crates/world/src/lib.rs:2176-2217 | at most five style rewards are paid for a day each time the player's requests turn to that day, so at most five on any day while the days never go back |
| Accounts.StyleRewardExact | ssh-hunt/crates/world/src/lib.rs:2176-2217 | a style request by an existing player is paid in full if fewer than five in a row for its day came before it, and with nothing otherwise |
| Records.StepRecord | ssh-hunt/crates/world/src/lib.rs:1273-2600 | each call does to each player's name, tier, mode, deaths, ban, wallet, keys and missions exactly what its answer says, the tax on a sale being three hundredths of the price truncated toward zero |
| Records.AccountAnswers | ssh-hunt/crates/world/src/lib.rs:1382-2018 | registrations, completions, bans and tier changes succeed exactly for players who exist, with a valid key, and for a mission there is, and are refused without effect otherwise |
| Records.NewRecord | ssh-hunt/crates/world/src/lib.rs:1304-1318 | only a login under a name not seen before makes a record, with 500 in the wallet and nothing done yet |
| Records.RecordReplays | ssh-hunt/crates/world/src/lib.rs:1273-2600 | over any run a player's completed missions, registered keys, wallet, deaths, tier, mode and ban are what the calls since the account exists, and their answers, make them |
| Records.ObservedReplays | ssh-hunt/crates/world/src/lib.rs:1320-1328 | over any run the keys an account has observed are those that logins under its name presented |
| Frames.StepOnlyFortunes | ssh-hunt/crates/world/src/lib.rs:1599-2600 | whatever market, duel and NPC calls do to a player's record, only the wallet, the deaths, which never fall, and a ban, which is never lifted, differ |
| Duels.ScaledDamageRange | ssh-hunt/crates/world/src/lib.rs:505-518 | an NPC's scaled damage range is never empty and at most 50, its scaled health between 1 and 300 |
| Duels.RunInRange | ssh-hunt/crates/world/src/lib.rs:1599-1814 | in every reachable state duels between players keep both sides in 1..100, NPC duels keep the player in 1..100 and the NPC in 1..300, and every NPC can be fought |
| Duels.FinisherWins | ssh-hunt/crates/world/src/lib.rs:2501-2600 | whoever strikes the last blow is the winner named, the other participant the loser |
| Duels.DuelOutcome | ssh-hunt/crates/world/src/lib.rs:2563-2590 | a finished duel is gone, the named winner has 40 more, the named loser one death more and on a hardcore account's third death a ban, and nothing else differs |
| Duels.NpcDuelOutcome | ssh-hunt/crates/world/src/lib.rs:1680-1801 | winning pays that NPC's reward; losing costs a life and leaves NPCs and history alone |
| Strikes.StartExact | ssh-hunt/crates/world/src/lib.rs:2481-2499 | a duel between players begins if and only if both exist and neither is banned, both at full health with no defence up |
| Strikes.StrikeExact | ssh-hunt/crates/world/src/lib.rs:2501-2600 | an attack takes exactly its roll and a script exactly 10 plus its name's length modulo 17 from the other side, half of it if that side's defence is up; a blow brings both defences down, and the duel goes on if and only if both sides have health left |
| Strikes.HealthReplays | ssh-hunt/crates/world/src/lib.rs:2481-2600 | at any point of any run a duel's health is a hundred less what each side suffered, and a defence is up exactly when the calls so far say so |
| Strikes.DuelEndsExactly | ssh-hunt/crates/world/src/lib.rs:2563-2590 | a duel ends with the call that brings what one side suffered to a hundred, and with no other |
| Strikes.FourBlowsAtLeast | ssh-hunt/crates/world/src/lib.rs:2501-2600 | no duel ends before one side has struck four times |
| Strikes.StartNpcExact | ssh-hunt/crates/world/src/lib.rs:1561-1596 | a duel against an NPC begins if and only if there is such an NPC, the player at a hundred and the NPC at its scaled health |
| Strikes.RoundExact | ssh-hunt/crates/world/src/lib.rs:1599-1801 | a round takes exactly the player's blow from the NPC and, if both stand, exactly the NPC's from the player; a ready bonus adds the NPC's bonus to one blow and is spent; a defence raised by the player softens the NPC's blow of the same call |
| Strikes.SolveExact | ssh-hunt/crates/world/src/lib.rs:1817-1849 | a solved challenge readies the bonus of the player's own duel and changes nothing else |
| Strikes.NpcHealthReplays | ssh-hunt/crates/world/src/lib.rs:1561-1849 | at any point of any run both health values of an NPC duel, its defence and its bonus are what the calls so far make them, from the NPC's scaled health at the start |
| Strikes.NpcDuelEndsExactly | ssh-hunt/crates/world/src/lib.rs:1599-1801 | it ends, won, with the round in which the NPC has suffered all it began with, lost, with the one in which the player has suffered a hundred, and with no other |
| Duels.DuelIsBounded | ssh-hunt/crates/world/src/lib.rs:2501-2600 | over any run a duel between players takes at most 39 blows, whatever the dice and interleaving, and pays at most once |
| LongDuels.DuelBoundReached | ssh-hunt/crates/world/src/lib.rs:2501-2600 | a run in which a duel lasts through 19 blows on either side and then ends and pays with the 39th |
| Duels.NpcDuelIsBounded | ssh-hunt/crates/world/src/lib.rs:1599-1814 | a duel against an NPC takes at most 60 of the player's blows and ends at most once |
| LongDuels.NpcDuelBoundReached | ssh-hunt/crates/world/src/lib.rs:1599-1814 | a run in which a duel against an NPC ends with the player's 60th blow |
| Ledger.RunChronicled | ssh-hunt/crates/world/src/lib.rs:1680-1756 | in every reachable state, with any number of duels side by side, the entries under a role alternate defeat of g and succession to g + 1, `generation == times_defeated + 1`, and the name is the pool's for that generation |
| Ledger.VictoryExact | ssh-hunt/crates/world/src/lib.rs:1680-1756 | a won duel records the defeat with the player's display name and, for an NPC with successors, the succession to the next generation under the pool's name for it |
| Ledger.ReplayRebuilds | ssh-hunt/crates/protocol/src/lib.rs:148-156 | folding the append-only history restricted to a role rebuilds that NPC's current name and generation |
| Ledger.HistoryAppendOnly | ssh-hunt/crates/world/src/lib.rs:1680-1756 | every earlier history is a prefix of every later one |
| Ledger.StrengthFollowsLedger | README.md:225-227 | a successor's health is the seed's plus five for each recorded defeat, capped at 300, and its damage follows too |
| Ledger.SecondNameIsSkipped | ssh-hunt/crates/world/src/lib.rs:1722-1728 | for pools of distinct names, a role's holder carries the documented name if and only if it is the first or its generation has reached the pool's length; in between it carries the next name, so of three names or more nobody carries the second |
| Ledger.BossesNeverChange | README.md:233-233 | NPCs without successors keep name, generation and strength for good |
| Seeds.SeedTableGood | ssh-hunt/crates/world/src/lib.rs:548-967 | the seed table's rows have pairwise distinct roles, non-empty pools of distinct names and sane numbers, which is what runs start from |
| Seeds.ShippedOrder | README.md:235-241 | so with the shipped table the documented successor order holds in exactly those generations |
| Gate.NetCityImpliesQualified | ssh-hunt/crates/world/src/lib.rs:2430-2479 | in every reachable state, with switches interleaved in any way, a player in NetCity has KEYS VAULT and a starter mission complete and a registered key that a login presented |
| Gate.EntryIsSound | ssh-hunt/crates/world/src/lib.rs:2094-2139 | a mode becomes NetCity only in the third section of a switch that passed the gate, for that player, who then qualifies and is not banned |
| Gate.StepAdvances | ssh-hunt/crates/world/src/lib.rs:1326-1328 | whatever is called, registered and observed keys and completed missions only grow and bans stay, and only that third section lets anyone in |
| Records.ModeAnswers | ssh-hunt/crates/world/src/lib.rs:2430-2479 | when each section of a mode switch succeeds, if and only if: bans stop the first and the third, the gate's demands are asked in the second with the keys read in the first |
| Records.QualifiedIff | ssh-hunt/crates/world/src/lib.rs:2094-2139 | over any run a player qualifies if and only if the calls so far completed KEYS VAULT and a starter mission, and registered a key that a login under the name presented |
| Records.CanEnter | ssh-hunt/crates/world/src/lib.rs:2430-2479 | from any point of any run, whoever exists and is not banned can still end up in NetCity, where those missions exist |
| Records.NewPlayerEnters | ssh-hunt/crates/world/src/lib.rs:1273-2479 | a run that takes a new player from nothing into NetCity |
| Gate.SwitchAloneIffQualified | ssh-hunt/crates/world/src/lib.rs:2430-2479 | left alone, a switch succeeds if and only if the player qualifies and is not banned, and then changes that player's mode only |

## Left out

- ShellLaws.PipeIsTemporaryFile: assumes that the stages before the cut meet no redirect error and that no redirect after the cut names the file; otherwise the two forms genuinely differ.
- Ledger.RunChronicled: an NPC with successors but an empty name pool, which the seed table never has, makes the original panic; here it simply has no successor.
- WorldService.Service.StyleBonus: the amount is a parameter; the floating-point scaling of the score is not part of this model.
- WorldService.Service.constructor: the NPC table and the mission codes are parameters; the table itself is in Seeds, the mission texts are not part of this model.
- WorldService.Service.CompleteMission: reputation, the set of active missions and mail are not part of this model, since no modelled decision reads them.
- WorldService.Service.StartNpcDuel: callsigns arrive in upper case; the original upper-cases them.
- WorldService.Service.NpcDuelAction: the NPC's choice to defend or strike is nondeterministic instead of a weighted roll.
- VfsStore.Vfs.Find: the pattern is any test on base names; the translation of globs, and the error for a bad one, are not part of this model, and neither are `glob`, `grep -E` and the syntax of public-key lines, which rest on a regular-expression library.
- Translate.Rot13Involution: the option handling, `-d` and `-s` of `tr` are not part of this model.
- Escapes.MultiPassEscape: the `%` directives of `printf` are not part of this model.
- Timestamps in filesystem metadata.
- Handlers are functions of the context value, arguments and input; real commands may also consult the world.
- Achievements, campaign and tutorial progress, and listing item and quantity, none of which any modelled decision reads.
- Overflow of fixed-width integers.
- Persistence: the database writes at the end of some operations, and their errors, are not part of this model.
- SSH transport, terminal handling, chat relay, configuration, administration tools, the script engine, the terminal interface, and all other builtins.
