# drshell in Dafny

A model of the core of drshell, a small interactive Unix shell written in Rust. It
covers how the shell turns one submitted line into running processes, and the state it
keeps between lines:

- **Line splitter** (`Input`, input.rs). The line is word-split by shlex. Redirect
  operators are pulled out together with the file that follows each one. The remaining
  words are cut at `|` into stages. Each kind of malformed line has its own error.
- **Redirect resolver and sink encoding** (`Operators`, operators.rs). The last stdout
  operator and the last stderr operator win. An operator is encoded as a
  `drshell -o <kind> <file>` sink process and decoded back in that process. The sink
  either truncates or appends, then copies its stdin into the file.
- **Command compiler** (`Commands`, commands.rs). This is the builtin grammar that turns a
  stage into a `Cmd`. Each `Cmd` is re-encoded as a process: the external program itself,
  or `drshell -c <words>` for a builtin. The history requests are dispatched here too.
- **Pipeline assembly** (`Pipelines`, pipline.rs). The `Cmds` builder collects the
  stages and sinks. `Pipeline::pipe` wires the stdio of the stages and sinks and spawns
  them in order. `wait` and `kill` run over the children.
- **History** (`HistoryLog`, commands/history.rs). An append-only log has a recall
  cursor that the Up and Down keys move. History also has a listing, a history-file
  format, and the selection `append_to_file` would write.
- **Read-eval steps** (`Shell`, main.rs). A recalled line replaces the typed one and is
  saved. Every stage is parsed. A lone command runs directly; anything else becomes a
  pipeline.
- **Smaller pieces**:
  - `Args`: `-c`/`-o` argument dispatch (args.rs);
  - `Completion`: tab completion (rustyline/cmp.rs);
  - `ChangeDir`: `cd` with its remembered previous directory (commands/cd.rs);
  - `TypeCmd`: the `type` builtin (commands/type.rs);
  - `Echo`: the `echo` builtin (commands/echo.rs).

Everything the shell learns from the operating system is an input of the model:

- the shlex word splitter (`string -> Option<seq<string>>`);
- the PATH test and PATH lookup;
- the executable and file-name lists used by completion;
- `HOME`, the current directory, and whether `set_current_dir` succeeds;
- whether each spawn or kill succeeds (`nat -> bool`, by attempt number);
- the contents of a history file;
- the lines read from stdin, and whether reading ends at end of input or on an error.

Where the source changes state, the model does too:

- `HistoryLog.HistoryStore` is the global log and cursor;
- `Pipelines.Cmds` and `Pipelines.Pipeline` are the builder and the child list;
- `ChangeDir.CdState` holds `LAST_DIR`.

The loops of the source are methods with loop invariants. Each is proved equal to a
specification function, and the functions carry the properties.

Two places where the model follows the code rather than a natural reading:

- `parse_opt` decodes the kind name `redirect_stderr` as `RedirectStdout`
  (operators.rs:104). `Operators.SinkArgsRoundTrip` states this. The sink behaves the
  same either way, because both kinds truncate and the sink only reads its stdin.
  `Args.SinkRunsOperator` proves that.
- The history cursor, as written, does not always recall the entry it just displayed.
  See "## Findings". The class keeps the behaviour as written. Corrected step functions
  are defined and proved beside it.

## Model

| member | source | states |
|---|---|---|
| Util.TrimEnd | src/drshell/input.rs:22 | the result is a prefix of the line that does not end in Unicode whitespace, and only whitespace was removed |
| Util.ConcatSnoc | src/drshell/commands/echo.rs:4-21 | copying one more line appends it to the output (used by the stdin copy loops) |
| Util.AppendLines | src/drshell/operators.rs:145-166 | the read loop appends every line read, in order, to what was there (shared by the sink and by `echo`) |
| Numbers.FormatNat | src/drshell/commands.rs:233 | `usize::to_string` gives at least one digit, with no leading zero |
| Numbers.FormatNatValue | src/drshell/commands.rs:233 | the digits of `to_string` denote the number |
| Numbers.FormatInt | src/drshell/commands.rs:208 | `i32::to_string` starts with a minus sign exactly for negative numbers, and is otherwise all digits |
| Numbers.ParseI32 | src/drshell/commands.rs:76 | `parse::<i32>` gives only values in the i32 range |
| Numbers.ParseUsize | src/drshell/commands.rs:113 | `parse::<usize>` gives only values up to the 64-bit usize maximum |
| Numbers.ParseFormatI32 | src/drshell/commands.rs:72-81 | every i32 written by `to_string` parses back to itself |
| Numbers.ParseFormatUsize | src/drshell/commands.rs:111-120 | every usize written by `to_string` parses back to itself |
| Operators.FindLastOpt | src/drshell/operators.rs:28-45 | the result is the last operator on the stream, and None exactly when the stream has no operator |
| Operators.Truncates | src/drshell/operators.rs:117-144 | an operator empties its file exactly when its kind name starts with `redirect_` |
| Operators.FindLastOpts | src/drshell/operators.rs:48-59 | the stdout pick and the stderr pick are each the last operator on their own stream |
| Operators.LaterOperatorWins | src/drshell/operators.rs:28-59 | an operator added last becomes the pick for its stream and leaves the other stream's pick unchanged |
| Operators.ResolveExample | src/drshell/operators.rs:28-59 | `[RedirectStdout a, AppendStdout b, RedirectStderr c]` resolves to `(AppendStdout b, RedirectStderr c)` |
| Operators.GenerateOpt | src/drshell/operators.rs:61-91 | the argument-pushing method builds the sink process `drshell -o <kind> <file>` |
| Operators.ParseOpt | src/drshell/operators.rs:93-114 | NoOpt exactly for no words; WrongOpt exactly for an unknown name, with or without a file; NofileName exactly for a known name with a missing or empty file; otherwise the file is the second word and later words are ignored; `redirect_stderr` decodes as RedirectStdout of that file, and every other name decodes as its own kind |
| Operators.SinkArgsRoundTrip | src/drshell/operators.rs:61-114 | decoding the arguments of a sink with a non-empty file recovers the file and the truncate decision, and recovers the operator itself exactly when it is not RedirectStderr |
| Operators.OperatorAction | src/drshell/operators.rs:116-167 | the file ends as its initial contents followed by every stdin line in order; a read error adds one diagnostic and stops the copy |
| Input.RedirectOfTable | src/drshell/input.rs:48-59 | the operator table: `>`/`1>` redirect stdout, `2>` redirect stderr, `>>`/`1>>` append stdout, `2>>` append stderr, and nothing else is an operator |
| Input.Scan | src/drshell/input.rs:43-66 | every piece read is a word that is not an operator, or an operator with the next token as its file |
| Input.ScanTokens | src/drshell/input.rs:43-66 | the pieces read give back the token list, so no token is lost or reordered |
| Input.ScanUnique | src/drshell/input.rs:43-66 | the reading into pieces is the only well-formed one for the token list |
| Input.ScanWithoutOperators | src/drshell/input.rs:43-66 | a list without operators passes to the words unchanged, with no operators |
| Input.ScanStepOperator | src/drshell/input.rs:47-59 | an operator consumes the very next token as its file, whatever that token is, and adds its operator in order |
| Input.ScanStepWord | src/drshell/input.rs:60-62 | a non-operator token goes to the words in order |
| Input.ScanExample | src/drshell/input.rs:43-66 | `echo a b > out.txt` reads as the words `echo a b` and the operator RedirectStdout("out.txt") |
| Input.WalkWords | src/drshell/input.rs:43-66 | the iterator loop produces exactly the words and the operators of the reading |
| Input.SplitOperators | src/drshell/input.rs:21-68 | shlex failure gives ShlexError; no tokens gives NoInput; a trailing `>`, `1>` or `2>` gives NoRedirectArg and a trailing `>>`, `1>>` or `2>>` gives NoAppendArg; otherwise the words and the operators of the reading |
| Input.GoodStagesInit | src/drshell/input.rs:100-123 | dropping the last stage keeps the others well formed |
| Input.CountPipesAppend | src/drshell/input.rs:75-80 | pipes in a concatenation are counted by parts |
| Input.CountPipesNone | src/drshell/input.rs:82-83 | a list without `|` has no pipes |
| Input.JoinPipesCount | src/drshell/input.rs:100-123 | there is one pipe fewer than there are stages |
| Input.JoinPipesWellPlaced | src/drshell/input.rs:85-97 | joining non-empty, pipe-free stages gives a list whose pipes are neither first, last nor adjacent |
| Input.LastPipe | src/drshell/input.rs:100-123 | the position of the last `|`: a pipe, with none after it |
| Input.JoinPipesLastPipe | src/drshell/input.rs:100-123 | the last pipe of a join comes right after the join of all stages but the last |
| Input.JoinPipesUnique | src/drshell/input.rs:100-123 | a token list is the join of only one list of well-formed stages |
| Input.PipeIndicesDecide | src/drshell/input.rs:85-97 | the checks on the pipe positions (first, last, adjacent) hold exactly when the pipes are well placed |
| Input.CollectPipes | src/drshell/input.rs:75-80 | the loop collects exactly the positions of `|`, in increasing order |
| Input.CheckPipes | src/drshell/input.rs:85-97 | the flagged pipe placement is exactly the badly placed one |
| Input.CutAtPipes | src/drshell/input.rs:100-123 | the cut loop gives non-empty, pipe-free stages that rejoin with `|` to the input |
| Input.SplitCmds | src/drshell/input.rs:70-126 | no tokens gives NoInput; badly placed pipes give NoPipCmd; otherwise the stages rejoin to the input with one stage more than there are pipes; with no pipe, the single stage is the list |
| Input.SplitInput | src/drshell/input.rs:128-136 | the result is the operator pass and then the pipe pass, with every error of either |
| Input.SplitExample | src/drshell/input.rs:128-136 | `echo a b > out.txt` has the one stage `[echo, a, b]` |
| Input.SplitFailMessage | src/drshell/input.rs:138-155 | every split failure except NoInput is reported |
| Commands.ParseCmd | src/drshell/commands.rs:57-130 | NoCommand exactly for no words; a builtin followed by `-h` asks for help; bare `exit` is Exit(0); `exit n` is ExitArgsError exactly when n is not an i32, else Exit(n); bare `type` and bare `cd` are TypeArgsError and CdArgsError; bare `history` shows everything; `history x` is HistoryArgsError exactly when a `-r`/`-w` has no file or x is not a usize; `history -r f …` and `history -w f …` read from and write to f whatever follows; `history n` with n a usize in any form Rust accepts (`007`, `+5`) shows that many entries; an external Cmd exactly for a non-builtin name on PATH, carrying all the words; NotCommand exactly for a non-builtin name not on PATH; Never never; every result is producible |
| Commands.ParseCmdTokens | src/drshell/commands.rs:57-130 | the words of a producible Cmd parse back to it |
| Commands.ReparseTokens | src/drshell/commands.rs:57-130 | re-parsing the words of a parsed Cmd gives the same result |
| Commands.ExtraArgumentsIgnored | src/drshell/commands.rs:72-97 | `pwd` and `lsbuiltin` ignore trailing words that do not start with the help flag |
| Commands.ArgumentExtraIgnored | src/drshell/commands.rs:72-97 | `exit`, `type` and `cd` ignore every word after a first argument that is not the help flag, a later `-h` included |
| Commands.HistoryAppendRejected | src/drshell/commands.rs:100-118 | `history -a <file>` is a HistoryArgsError, so no request reaches `append_to_file` |
| Commands.GenerateCmd | src/drshell/commands.rs:185-253 | the argument-building method gives the process for the Cmd |
| Commands.PushBuiltin | src/drshell/commands.rs:198-250 | the pushes for a builtin add its name and then its arguments, in the form the parser reads |
| Commands.PushEach | src/drshell/commands.rs:185-205 | the push loops add every word, in order |
| Commands.GenerateCmdParsesBack | src/drshell/commands.rs:185-253 | an external Cmd runs its own words; a builtin runs as `drshell -c <words>`, and those words parse back to the same Cmd |
| Commands.CmdParseFailMessage | src/drshell/commands.rs:132-152 | every failure except NoCommand and Never is reported; NotCommand reports `<name>: command not found` |
| Commands.ServeApi | src/drshell/commands.rs:255-267 | only InputHistory answers, with the recalled entry; every other request does its own history step and nothing else |
| HistoryLog.PreviousIndex | src/drshell/commands/history.rs:72-79 | the entry shown is in the log; outside a reversal it is the entry under the cursor; after a Down it lies strictly below the cursor or is the oldest entry (the step sizes, 1 from the newest entry and 2 otherwise, are stated by HistoryLog.ReversalAsWritten) |
| HistoryLog.AfterPrevious | src/drshell/commands/history.rs:89-95 | after Up the cursor is browsing, with direction Up, inside the log |
| HistoryLog.NextIndex | src/drshell/commands/history.rs:106-109 | the entry shown is in the log; outside a reversal it is the entry under the cursor; after an Up it lies strictly above the cursor or is the newest entry (the step sizes, 1 from the oldest entry and 2 otherwise, are stated by HistoryLog.ReversalAsWritten) |
| HistoryLog.AfterNext | src/drshell/commands/history.rs:119-125 | after Down the cursor is browsing, with direction Down, inside the log |
| HistoryLog.SerialiseSnoc | src/drshell/commands/history.rs:163-166 | the buffer grows by each entry followed by a newline |
| HistoryLog.LineEnd | src/drshell/commands/history.rs:154-156 | the first newline of a text, or its end |
| HistoryLog.StripCr | src/drshell/commands/history.rs:154-156 | a line loses at most one trailing carriage return |
| HistoryLog.Lines | src/drshell/commands/history.rs:154-156 | no line read from a file holds a newline, and only empty text gives no lines |
| HistoryLog.ReadBackWritten | src/drshell/commands/history.rs:154-166 | reading back a written history file gives the same entries, provided none holds a newline or ends in a carriage return |
| HistoryLog.AppendStartUnique | src/drshell/commands/history.rs:187-193 | the append selection is determined by the log |
| HistoryLog.WordCount | src/drshell/commands/history.rs:189 | the word count is 0 exactly for blank text and never exceeds the length |
| HistoryLog.HistoryStore.constructor | src/drshell/commands/history.rs:27-33 | the log starts empty with the initial cursor |
| HistoryLog.HistoryStore.SaveHistory | src/drshell/commands/history.rs:51-62 | the line, untrimmed, is appended and the cursor is reset to the newest entry, not browsing, direction Up |
| HistoryLog.HistoryStore.DisplayPreviousCmd | src/drshell/commands/history.rs:64-96 | an empty log is left alone; otherwise the text of the entry PreviousIndex picks is printed and the cursor becomes AfterPrevious; the log is unchanged |
| HistoryLog.HistoryStore.DisplayNextCmd | src/drshell/commands/history.rs:98-126 | an empty log is left alone; otherwise the text of the entry NextIndex picks is printed and the cursor becomes AfterNext; the log is unchanged |
| HistoryLog.HistoryStore.InputHistory | src/drshell/commands/history.rs:128-137 | the entry under the cursor while browsing, none otherwise |
| HistoryLog.HistoryStore.Listing | src/drshell/commands/history.rs:35-49 | the listing loop prints the last min(limit, length) entries, oldest first, each with its 1-based index |
| HistoryLog.HistoryStore.WriteBuffer | src/drshell/commands/history.rs:159-182 | the buffer is every entry followed by a newline |
| HistoryLog.HistoryStore.ReadFromFile | src/drshell/commands/history.rs:139-157 | the lines of the file are appended and the cursor is untouched; a missing file adds nothing |
| HistoryLog.HistoryStore.AppendBuffer | src/drshell/commands/history.rs:184-215 | the buffer is the log from just after the newest older `history -a <file>` entry onwards, in order |
| HistoryLog.StepsKeepFit | src/drshell/commands/history.rs:55-133 | every step keeps the cursor on an entry of a non-empty log |
| HistoryLog.TraceExample | src/drshell/commands/history.rs:51-126 | on `[e0,e1,e2]` just after saving e2, three Ups show e2, e1, e0, a fourth shows e0, and a Down then shows e1 |
| HistoryLog.ReversalAsWritten | src/drshell/commands/history.rs:72-125 | after a reversal the cursor shows the neighbour of the last shown entry, except at entry 1 going up and entry len-2 going down, where it shows that entry again |
| HistoryLog.RecallNotShown | src/drshell/commands/history.rs:81-137 | after one Up the line recalled for running is the second newest entry, not the newest one that was displayed |
| HistoryLog.CorrectedRecallIsShown | src/drshell/commands/history.rs:128-137 | with the corrected steps, the entry submitted is the one on screen |
| HistoryLog.CorrectedReversal | src/drshell/commands/history.rs:72-125 | with the corrected steps, Up then Down (and Down then Up) away from the ends returns to the entry shown before |
| HistoryLog.CorrectedWalkBack | src/drshell/commands/history.rs:64-96 | with the corrected steps, k Up presses from a fresh cursor show the k-th newest entry, then stop at the oldest |
| HistoryLog.UpPresses | src/drshell/commands/history.rs:64-96 | the cursor after k corrected Up presses stays inside the log |
| HistoryLog.UpPressesPos | src/drshell/commands/history.rs:89-95 | after k corrected Up presses the cursor is browsing on entry len-k, floored at 0 |
| Pipelines.Cmds.constructor | src/drshell/pipline.rs:10-16 | a builder starts with no stages and no redirects |
| Pipelines.Cmds.AddCmd | src/drshell/pipline.rs:18-20 | a stage is appended in order and the redirects are unchanged |
| Pipelines.Cmds.AddRedirectStdout | src/drshell/pipline.rs:22-24 | the stdout sink replaces any earlier one; nothing else changes |
| Pipelines.Cmds.AddRedirectStderr | src/drshell/pipline.rs:26-28 | the stderr sink replaces any earlier one; nothing else changes |
| Pipelines.Cmds.TakeRedirectStdout | src/drshell/pipline.rs:30-32 | the stdout sink is returned and none is left; nothing else changes |
| Pipelines.Cmds.TakeRedirectStderr | src/drshell/pipline.rs:34-36 | the stderr sink is returned and none is left; nothing else changes |
| Pipelines.Plan | src/drshell/pipline.rs:52-108 | no stage gives no process, even with redirects set; otherwise one process per stage plus one per redirect |
| Pipelines.PlanShape | src/drshell/pipline.rs:65-105 | stages in order, then the stdout sink, then the stderr sink; the first stage inherits stdin and stage k reads stage k-1's stdout; non-last stages pipe stdout; the last stage pipes stdout exactly with a stdout sink and stderr exactly with a stderr sink; each sink reads that stream of the last stage |
| Pipelines.PlanIndex | src/drshell/pipline.rs:52-108 | each process of the plan is the one for its position |
| Pipelines.PlanReadsCaptured | src/drshell/pipline.rs:80-105 | every process that reads another's output reads an earlier stage whose stream is piped, so the taken pipe always exists |
| Pipelines.PlanCapturedIsRead | src/drshell/pipline.rs:65-105 | every piped stream of a stage is read by some process |
| Pipelines.PlanNoSharedPipe | src/drshell/pipline.rs:65-105 | no two processes read the same pipe |
| Pipelines.FirstFailureFrom | src/drshell/pipline.rs:116-121 | the first failing attempt from i on: every earlier one succeeds and it fails |
| Pipelines.FirstFailure | src/drshell/pipline.rs:116-121 | the number of successful attempts before the first failure |
| Pipelines.FirstFailureStep | src/drshell/pipline.rs:65-105 | one more attempt either succeeds and extends the run or is the first failure |
| Pipelines.Pipeline.constructor | src/drshell/pipline.rs:48-50 | a pipeline starts with no children |
| Pipelines.Pipeline.Pipe | src/drshell/pipline.rs:52-108 | the children become the plan up to the first failed spawn; ok exactly when every process spawned; an empty builder spawns nothing and succeeds; otherwise both sinks are taken out of the builder and its last stage is popped |
| Pipelines.Pipeline.Spawn | src/drshell/pipline.rs:65-105 | a child is kept exactly when its spawn succeeds; it is the next process of the plan, and a failure is the first failure |
| Pipelines.Pipeline.SpawnAll | src/drshell/pipline.rs:65-105 | the stages and then the sinks are spawned in plan order, stopping at the first failure |
| Pipelines.Pipeline.SpawnSinks | src/drshell/pipline.rs:93-105 | after all stages, the stdout sink and then the stderr sink are spawned, stopping at the first failure |
| Pipelines.Pipeline.SpawnInit | src/drshell/pipline.rs:65-74 | the stage loop spawns the non-last stages in order, stopping at the first failure, and threads the previous stdout |
| Pipelines.Pipeline.Wait | src/drshell/pipline.rs:110-114 | every child is waited on, in order |
| Pipelines.Pipeline.Kill | src/drshell/pipline.rs:116-121 | children are killed in order up to the first failed kill; ok exactly when all were killed |
| Shell.HandleHistoryWithLine | src/main.rs:83-91 | the line run is the recalled entry or the typed line; it is saved exactly when non-empty, a blank line included |
| Shell.ParseAll | src/main.rs:93-109 | Ok gives one Cmd per stage in order; Err is the failure of the first stage that fails |
| Shell.ParseAllOkIff | src/main.rs:93-109 | every stage parses exactly when no stage fails |
| Shell.ParseAllStep | src/main.rs:96-104 | parsing one more stage keeps an earlier failure, and otherwise adds the new stage's failure or its Cmd |
| Shell.SplitStagesNeverNoCommand | src/main.rs:93-109 | stages from the splitter never fail with NoCommand |
| Shell.ParseCmdsAndOpts | src/main.rs:93-109 | Some exactly when every stage parses, with the Cmds and the unchanged operators; only the first failure is reported |
| Shell.ParsePrefixFails | src/main.rs:98-103 | stopping at the first failure gives the failure of the whole list |
| Shell.LinePlanSize | src/main.rs:117-128 | one process per stage plus one sink per redirected stream, however many operators there are |
| Shell.LastOperatorGetsSink | src/main.rs:123-128 | the operator written last on a stream is the sink that reads that stream of the last stage |
| Shell.BuildCmds | src/main.rs:117-128 | the builder holds every Cmd's process in order and the sinks of the last stdout and the last stderr operator |
| Shell.ExecuteCmdsAndOpts | src/main.rs:111-136 | one Cmd with no operator runs directly; otherwise the plan's processes are spawned up to the first failure, then all are waited on, or on a failure killed in order up to the first failed kill |
| Args.Dispatch | src/drshell/args.rs:16-42 | `-c` gives the evaluation or the parse failure of exactly the words after the flag; `-o` gives the operator or the operator failure those words decode to; any other flag does nothing |
| Args.Rest | src/drshell/args.rs:17-40 | the enumerate loop collects exactly the words after the flag, in order |
| Args.ParseArgs | src/drshell/args.rs:11-44 | NoArgs exactly for fewer than two words, and then nothing runs; otherwise the dispatch runs and the result is SubCmdExeOver whatever its outcome |
| Args.BuiltinStageRunsItself | src/drshell/args.rs:17-28 | the process spawned for a builtin stage evaluates that same builtin |
| Args.SinkRunsOperator | src/drshell/args.rs:29-40 | the process spawned for a sink runs an operator with the same file and the same truncate decision |
| Completion.LessEqTotal | src/drshell/rustyline/cmp.rs:15 | the string order used by the sort is total |
| Completion.LessEqTrans | src/drshell/rustyline/cmp.rs:15 | the string order is transitive |
| Completion.LessEqAntisym | src/drshell/rustyline/cmp.rs:15 | the string order is antisymmetric |
| Completion.LessTrans | src/drshell/rustyline/cmp.rs:16-24 | the strict order is transitive |
| Completion.StrictlyIncreasingDistinct | src/drshell/rustyline/cmp.rs:16-24 | a strictly increasing list has no two equal names |
| Completion.Insert | src/drshell/rustyline/cmp.rs:15 | inserting into a sorted list keeps it sorted and adds exactly the element |
| Completion.Sort | src/drshell/rustyline/cmp.rs:15 | the result is sorted and a permutation of the input |
| Completion.Dedup | src/drshell/rustyline/cmp.rs:16-24 | the same names without adjacent repeats, the last name kept; a sorted input gives a strictly increasing result |
| Completion.DedupSorted | src/drshell/rustyline/cmp.rs:16-24 | the dedup loop computes Dedup |
| Completion.Reverse | src/drshell/rustyline/cmp.rs:26-28 | element k is element len-1-k of the input |
| Completion.SortSameNames | src/drshell/rustyline/cmp.rs:15 | sorting keeps exactly the names |
| Completion.BuiltinsReversed | src/drshell/rustyline/cmp.rs:26-28 | inserting each builtin at the front gives the builtins in reverse |
| Completion.SortedCmds | src/drshell/rustyline/cmp.rs:8-31 | the reversed builtins, then the executables sorted, strictly increasing and with the same names |
| Completion.SortedCmdsNames | src/drshell/rustyline/cmp.rs:8-31 | the names are exactly the builtins and the executables |
| Completion.SortCmds | src/drshell/rustyline/cmp.rs:8-31 | the push, sort, dedup and insert steps compute SortedCmds |
| Completion.InsertEachAtFront | src/drshell/rustyline/cmp.rs:26-28 | inserting each name at the front in turn puts the names in reverse before the rest |
| Completion.FilterPrefix | src/drshell/rustyline/cmp.rs:38-69 | a name is kept exactly when it starts with the prefix |
| Completion.FilterPrefixAppend | src/drshell/rustyline/cmp.rs:38-42 | filtering keeps the order of the names |
| Completion.FilterPrefixNone | src/drshell/rustyline/cmp.rs:38-42 | no match gives no candidate |
| Completion.FilterEmptyPrefix | src/drshell/rustyline/cmp.rs:61-69 | an empty prefix keeps every name |
| Completion.Offer | src/drshell/rustyline/cmp.rs:43-78 | each candidate displays a name and replaces the line by the text before the cursor followed by the name; a lone candidate also gets a trailing space |
| Completion.OfferDisplays | src/drshell/rustyline/cmp.rs:43-48 | the candidates pushed for a list of names show exactly those names, in order |
| Completion.OfferPairs | src/drshell/rustyline/cmp.rs:43-51 | the candidate loop computes Offer |
| Completion.CommandCandidates | src/drshell/rustyline/cmp.rs:33-55 | an empty prefix gives no candidate; each display is a builtin or executable starting with the prefix, replaced by the line up to the word plus the name, with a space for a lone candidate; each replacement extends the line |
| Completion.CommandCandidatesComplete | src/drshell/rustyline/cmp.rs:33-55 | with a non-empty word, the names shown are exactly the builtins and executables starting with it, in `sort_cmds` order |
| Completion.CompleteCmds | src/drshell/rustyline/cmp.rs:33-55 | the method computes CommandCandidates |
| Completion.FileCandidates | src/drshell/rustyline/cmp.rs:57-81 | an empty prefix offers every file; otherwise only files starting with the prefix; a lone candidate gets a trailing space; each replacement extends the line |
| Completion.FileCandidatesComplete | src/drshell/rustyline/cmp.rs:57-81 | the names shown are exactly the files starting with the word, in the order of the file list; an empty word shows every file |
| Completion.CompleteFiles | src/drshell/rustyline/cmp.rs:57-81 | the method computes FileCandidates |
| Completion.FirstNonSpace | src/drshell/rustyline/cmp.rs:95-98 | the first character that is not a space, if any |
| Completion.RFindBelow | src/drshell/rustyline/cmp.rs:102-111 | the last occurrence of a pattern starting below a bound |
| Completion.RFind | src/drshell/rustyline/cmp.rs:102-111 | the last occurrence of a pattern, and none after it |
| Completion.Complete | src/drshell/rustyline/cmp.rs:86-117 | the start is always 0; with no space between the first word's start and the cursor, commands are completed from the first word; every replacement extends the line |
| Completion.CompleteAfterFirstWord | src/drshell/rustyline/cmp.rs:100-114 | past the first word: with no `" | "`, the word after the last space is completed as a file; after the last `" | "`, a blank stage gets nothing, a first word running to the end of the line is completed as a command, and otherwise the word after the last space as a file |
| Completion.RFindCharacterised | src/drshell/rustyline/cmp.rs:102-112 | `rfind` returns the one position where the pattern occurs last, and nothing exactly when it does not occur |
| Completion.CompleteBlankStage | src/drshell/rustyline/cmp.rs:102-111 | a blank stage after the last `" | "` gets no candidate |
| Completion.CompleteStageCommand | src/drshell/rustyline/cmp.rs:102-107 | a stage whose first word runs to the end of the line completes that word as a command |
| Completion.CompleteStageFile | src/drshell/rustyline/cmp.rs:102-110 | a stage with a space after its first word completes the word after the last space as a file |
| Completion.CompleteStage | src/drshell/rustyline/cmp.rs:102-111 | completing the stage after the last `" | "` only ever extends the line |
| Completion.CompleteLastWord | src/drshell/rustyline/cmp.rs:108-113 | completing the word after the last space only ever extends the line |
| Completion.OfferExtendsLine | src/drshell/rustyline/cmp.rs:43-75 | candidates of names that start with the prefix extend the line |
| Completion.FilterEc | src/drshell/rustyline/cmp.rs:38-42 | among the builtins only `echo` starts with `ec` |
| Completion.CompleteEchoExample | src/drshell/rustyline/cmp.rs:86-117 | `ec` with the cursor at the end completes to the single candidate `echo ` |
| Completion.EchoOffer | src/drshell/rustyline/cmp.rs:43-51 | the lone candidate `echo` is offered with a trailing space |
| ChangeDir.TargetNonEmpty | src/drshell/commands/cd.rs:7-47 | with a non-empty HOME, a resolved target is never empty |
| ChangeDir.TildeWithoutSlashKept | src/drshell/commands/cd.rs:31-46 | `~x` with x not starting with `/` is left unchanged |
| ChangeDir.HomeReplacesTilde | src/drshell/commands/cd.rs:19-46 | `~` and `~/x` become HOME and HOME followed by `/x` |
| ChangeDir.CdState.constructor | src/drshell/commands/cd.rs:5 | there is no previous directory at first |
| ChangeDir.CdState.Cd | src/drshell/commands/cd.rs:4-76 | a target error, an unreadable cwd or a failed change reports and keeps the previous directory; a successful change records the directory left, which a later `cd -` then targets |
| TypeCmd.TypeReport | src/drshell/commands/type.rs:4-20 | the answer goes to stdout exactly for a builtin or a non-empty name found on PATH; every error reads `<name>: not found`; every answer starts with the name |
| TypeCmd.NoLookupForBuiltinOrEmpty | src/drshell/commands/type.rs:5-14 | for a builtin or the empty name the answer does not depend on PATH |
| TypeCmd.TypeAgreesWithParse | src/drshell/commands/type.rs:15-19 | `type` finds a non-builtin name on PATH exactly when the parser would run it as an external command |
| Echo.SpaceAfterEachSnoc | src/drshell/commands/echo.rs:24-27 | each printed argument before the last is followed by a space |
| Echo.SpaceAfterEachThenLast | src/drshell/commands/echo.rs:22-30 | the arguments before the last, then the last, give the arguments joined by single spaces |
| Echo.Echo | src/drshell/commands/echo.rs:3-31 | with arguments, they are printed joined by single spaces and ended by a newline; without, every stdin line is copied in order, and a read error adds one diagnostic and stops |
| Echo.IndexOfSpace | src/drshell/commands/echo.rs:22-30 | the first space of a text, if any |
| Echo.EchoWordsRecovered | src/drshell/commands/echo.rs:22-30 | splitting the output line at spaces recovers the arguments when none holds a space |

## Left out

- The shlex word splitter is an input function, not a model of shlex.
- src/drshell/env.rs is not part of this model. The PATH search (`if_executable`,
  `find_exes`, `find_current_dir_files`, the execute-bit and `.exe` checks) becomes a
  PATH predicate, a PATH lookup, and lists of executable and file names.
- Process work is an input. `Command::spawn`, `wait` and `kill` become one success flag
  per attempt, and the model keeps only the decisions the code takes from them. The
  `NotBuiltin` branch of `eval` (commands.rs:168-181) spawns and waits on the process,
  which is OS work, so it is not modelled.
- The builtins' `eval` dispatch (commands.rs:154-183) calls into each builtin. Those
  builtins are modelled separately as `Echo`, `TypeCmd`, `ChangeDir` and the history
  listing.
- Some builtins are not modelled:
  - help.rs is static text;
  - pwd.rs is a wrapper over the current directory;
  - exit.rs is a wrapper over `process::exit`, and its `{0,1}` guard is not modelled
    either.
- File I/O is an input. Existence checks, opening, truncating and appending become the
  file's contents (`Option<string>`, None when the file is missing) and the text to be
  written. An I/O failure of `fs::write` or of opening a file is not modelled. Neither
  are the `expect` panics on a failed write.
- Terminal output is a value. `print!`, `flush` and the `eprintln!` diagnostics of the
  `*_fail_process` reporters become returned strings (`SplitFailMessage`,
  `CmdParseFailMessage`, the history display text, the cd and type diagnostics). The
  operator reporter `parse_opt_fail_process` is not modelled.
- rustyline integration (rustyline.rs, event.rs) and the `main()` read loop are not
  modelled. The Up and Down keys are direct calls to `DisplayPreviousCmd` and
  `DisplayNextCmd`. Loading and saving the history through `$HOME/.drhistory`
  (main.rs:15-17, 76-78) is left out with the rest of the file I/O.
- The `lazy_static` mutex globals are plain objects, because everything is
  single-threaded.
- Strings are sequences of characters. Completion treats byte indices as character
  indices, so it assumes ASCII lines.
- Completion.Complete: requires the cursor to sit at or after the first word's start and
  within the line. With the cursor inside the leading spaces (line `"  ls"`, cursor 0,
  Tab), the slice `line[start..pos]` at cmp.rs:100 has its start past its end and the
  source panics; the model has no such outcome. The cursor past the end cannot come
  from the line editor.
- `usize` is taken to be 64 bits wide.
- `append_to_file` (history.rs:184-215) has no caller: `eval` and `api` never reach it, and
  `parse_cmd` rejects `history -a <file>` (`Commands.HistoryAppendRejected`). Its selection
  is still modelled (`HistoryLog.HistoryStore.AppendBuffer`).
- Pipelines.Pipeline.Pipe: OS pipes are not modelled as objects. Stdio wiring is recorded
  in each child as where it reads from and whether its outputs are piped.

## Findings

| source | as written | input that shows it | evidently intended | confidence | as-written member | corrected member |
|---|---|---|---|---|---|---|
| src/drshell/commands/history.rs:81-137 | `display_previous_cmd` shows `log[pos]` and then moves the cursor. `input_history` returns the entry under the moved cursor, so the line run differs from the line on screen | log `[e0, e1]` just after saving e1, one Up key: e1 is shown, e0 is run | the line run is the line on screen | not executed | HistoryLog.RecallNotShown | HistoryLog.CorrectedRecallIsShown |
| src/drshell/commands/history.rs:72-125 | The ±1/±2 reversal correction does not always step to the neighbour of the entry last shown. It re-shows the same entry at entry 1 going up and at entry len-2 going down | log `[e0, e1, e2]` just after saving e2: Up, Up, Down shows e2, e1, e1 | after a reversal the neighbour of the entry shown is shown | not executed | HistoryLog.ReversalAsWritten | HistoryLog.CorrectedReversal |
