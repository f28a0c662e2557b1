# Configuration parser and master helpers, in Dafny

This project models the core of a small proxy server's start-up code and proves properties of the model.

- **`parse_line`** is the configuration line parser: a hand-written finite-state machine over one C string. It turns a line into one of four results:
  - a key with a homogeneous list of integer, real or string values (0);
  - a comment (2);
  - a blank line (3);
  - a syntax error (-1).
- **`parse_config`** runs `parse_line` over the lines of a file. It hands every parsed line to the configuration store, skips comments and blank lines, and stops at the first error.
- **Master-process helpers:**
  - the path helpers that locate the executable's directory and build plugin file names;
  - the stack of loaded plugins;
  - the start-up values written to the store (`init_config_values`, `set_program_mode`).
- **Two-state lifecycles:** the configuration table and the logger. Each is an "initialised" flag that create/init sets and destroy/fini clears.

## Layout

| file | module | contents |
|---|---|---|
| wrappers.dfy | `Wrappers` | `Option` (NULL pointers) |
| chars.dfy | `Chars` | character classes, the key grammar, C strings (text before the first NUL), slicing helpers |
| decimal.dfy | `Decimal` | decimal digit strings, `strtoll` with saturation at `LLONG_MAX`, rendering |
| values.dfy | `Values` | `ConfigVarType`, scalar values (reals kept as their digit lexeme), homogeneous lists, a stored variable |
| parser.dfy | `Parser` | the `States` enumeration, the machine, one transition (`Step`), the character loop (`Run`), end-of-line resolution, `ParseLine`, the loop invariant |
| parser_walk.dfy | `ParserWalk` | multi-step walks of the machine over keys, digit runs, quoted strings and array elements |
| render.dfy | `Render` | writing a key and values back as a configuration line (escaping, array and scalar lines) |
| roundtrip.dfy | `RoundTrip` | a rendered line, with any whitespace the parser allows around the key and the '=', parses back to the key and values it was written from |
| facts.dfy | `ParserFacts` | blank and comment lines, rejected lines, number reading |
| array_facts.dfy | `ArrayFacts` | rejected and accepted array lines, with any spaces around the elements |
| parser_as_written.dfy | `ParserAsWritten` | the end-of-line resolution with `type` left unset, as in the C code; the store at parser.c:530 is modelled as an append (see Left out and Findings) |
| driver.dfy | `Driver` | `parse_config` over a sequence of lines |
| driver_as_written.dfy | `DriverAsWritten` | `parse_config` over `parse_line` as written, compared with the corrected driver |
| paths.dfy | `Paths` | `get_path_from_arg0`, `create_path_from_call_dir`, `mk_plugin_path`, base names |
| plugins.dfy | `PluginStack` | `init_plugins_stack`, `push_plugin`, `pop_plugin`, `get_plugin` (as written and corrected) |
| startup.dfy | `Startup` | `init_config_values`, `set_program_mode` over a store map |
| lifecycle.dfy | `Lifecycle`, `ConfigTable`, `Logger` | the flag machine, `create_config_table`/`destroy_config_table`, `init_logger`/`fini_logger` |

## Modelling conventions

- **C strings.** A `string` holds a C string. The parser sees only the characters before the first NUL (`Chars.CString`). In the path helpers a string is the text before its NUL, and NULL is `None`.
- **The parser machine.**
  - A `Parser.Machine` holds the state plus the variables `parse_line` keeps: the key start, the cut-out key, the value start, `type`, and the committed values.
  - `Step` is one turn of the `switch`. It looks at the next character (or the NUL) only at '.'.
  - The loop stops at the end of the text. In COMMENT, ERROR or FINISH it also stops before the next character, so whatever follows a finished value is ignored.
- **Values.**
  - They start as an empty sequence, and each commit appends one.
  - An integer is what `strtoll` reads after the leading zeros are skipped. It saturates at `LLONG_MAX`.
  - A real is kept as its lexeme, a whole part and a fraction part, because `strtod` is floating point.
- **Line-ending fix.** `Parser.EndOfLine` sets the type when the line ends inside a number. The C code does not. `ParserAsWritten` leaves `type` unset as the C code does (see Findings); the store at parser.c:530 is modelled as an append.
- **The driver and the store.**
  - `parse_config` is modelled on the sequence of lines `getline` returns. `None` stands for every case where the C code returns -1 before reading: a NULL path, a missing or unreadable file, a failed `fopen`.
  - The calls to `define_variable` are recorded in order as `Driver.Definition`s.
  - The store behind `set_variable` is a map from names to `Values.Variable`.
- **Plugin handles and capacity.**
  - A plugin handle is a `nat`, with 0 for NULL.
  - The stack's capacity growth `(int)(size * 1.1 + 1)` is modelled as `size * 11 / 10 + 1`. Only "strictly larger" is used in proofs.

## Model

| member | source | states |
|---|---|---|
| `Decimal.Strtoll` | src/backend/config/parser.c:210-219 | the integer read from a digit run is its decimal value, saturated to [0, LLONG_MAX] |
| `Decimal.LeadingZeros` | src/backend/config/parser.c:210-214 | leading '0's do not change the decimal value of a digit run |
| `Decimal.StrtollOfRender` | src/backend/config/parser.c:218-219 | reading back the decimal rendering of n in [0, LLONG_MAX] gives n |
| `Render.UnescapeEscape` | src/backend/config/parser.c:240-274 | dropping each '\\' and keeping the character after it undoes escaping: the string reader recovers every string |
| `Parser.Step` | src/backend/config/parser.c:112-512 | one transition keeps the recorded offsets behind the position and appends at most one value, never removing one |
| `Parser.Run` | src/backend/config/parser.c:112-126 | the character loop stops at the NUL or, before the end, only in COMMENT, ERROR or FINISH, and only appends values |
| `Parser.EndOfLine` | src/backend/config/parser.c:513-574 | the line is an error exactly when the loop ends outside START, COMMENT, FINISH, VALUE_DIGIT and VALUE_DOUBLE; blank exactly in START; a comment exactly in COMMENT |
| `Parser.StepKeepsInv` | src/backend/config/parser.c:127-505 | every transition keeps the machine invariant: the key matches the grammar, the values are well-formed and all of the fixed type, and the open token is a well-formed prefix |
| `Parser.RunKeepsInv` | src/backend/config/parser.c:112-512 | the whole character loop keeps the machine invariant |
| `Parser.ParseLineWellFormed` | src/backend/config/parser.c:548-553 | on success the key matches the key grammar and the values are a non-empty list of well-formed values all of the returned type, so `*rsize` counts them |
| `ParserWalk.ReadSpacedAssignment` | src/backend/config/parser.c:127-184 | from START, blanks, a key, spaces, '=' and spaces leave the machine in SPACES_BEFORE_VALUES after the last space, with the key cut out exactly as written |
| `ParserWalk.SpacedWalk` | src/backend/config/parser.c:275-500 | the comma-separated literals of a homogeneous list, each with spaces before and after it, and the closing ']' take the machine to FINISH having appended exactly that list, in order |
| `RoundTrip.ArrayRoundTrip` | src/backend/config/parser.c:127-500 | `key=[v1, …, vn]` written from a homogeneous list, with blanks before the key, spaces on either side of the '=' and spaces before and after every element inside the brackets, parses back to exactly that key, type and list, whatever follows ']' |
| `RoundTrip.ArraySpacingIgnored` | src/backend/config/parser.c:127-500 | blanks before the key, spaces around the '=' and spaces around the elements give the same result as the unpadded array line |
| `RoundTrip.Reparse` | src/backend/config/parser.c:127-553 | whenever a line parses, its key matches the key grammar, its values are one homogeneous list, and the array line written from them parses to the same result |
| `RoundTrip.StringRoundTrip` | src/backend/config/parser.c:127-274 | a NUL-free string written as an escaped quoted scalar, with any allowed spacing around the key and '=', parses back to itself, whatever follows the closing quote |
| `RoundTrip.IntRoundTrip` | src/backend/config/parser.c:127-221 | with any allowed spacing around the key and '=', a scalar integer in [0, LLONG_MAX] parses back to itself when the line ends or a space follows it, or any non-digit when it has two or more digits |
| `RoundTrip.RealRoundTrip` | src/backend/config/parser.c:127-238 | with any allowed spacing around the key and '=', a scalar real with a one-digit whole part parses back to its lexeme when the line ends or a blank follows it |
| `RoundTrip.ScalarRoundTrip` | src/backend/config/parser.c:127-274 | every scalar the parser can read back (a string, an integer with an allowed terminator, a real with a one-digit whole part and an allowed terminator) parses back to its key, type and value |
| `RoundTrip.ScalarSpacingIgnored` | src/backend/config/parser.c:127-184 | blanks before the key and spaces around the '=' give the same result as the unpadded scalar line |
| `ParserFacts.RunAvoidsStart` | src/backend/config/parser.c:127-137 | once the machine leaves START it never returns to START and never enters COMMENT |
| `ParserFacts.FirstSymbol` | src/backend/config/parser.c:127-137 | the loop ends in START exactly when the text is all blanks, and in COMMENT exactly when the first non-blank character is '#' |
| `ParserFacts.BlankLineIff` | src/backend/config/parser.c:127-131 | a line is blank (3) exactly when it holds nothing but spaces, tabs and newlines before its NUL |
| `ParserFacts.CommentLineIff` | src/backend/config/parser.c:115-131 | a line is a comment (2) exactly when its first non-blank character is '#' |
| `ParserFacts.KeyBadChar` | src/backend/config/parser.c:141-170 | a key followed by a character the key grammar rejects (a digit, a tab, …) is an error |
| `ParserFacts.SecondWord` | src/backend/config/parser.c:172-178 | a key, a space and anything other than a space or '=' is an error, as in `bad key=` |
| `ParserFacts.KeyAlone` | src/backend/config/parser.c:513-544 | a key with nothing after it is an error |
| `ParserFacts.NoValue` | src/backend/config/parser.c:180-196 | `key=` with nothing after it is an error |
| `ParserFacts.UnterminatedString` | src/backend/config/parser.c:240-268 | a string without its closing quote is an error |
| `ParserFacts.DanglingBackslash` | src/backend/config/parser.c:264-273 | a string that ends in a lone '\\' is an error |
| `ArrayFacts.EmptyArray` | src/backend/config/parser.c:275-278 | `key=[]` with only spaces between the brackets is an error, whatever follows |
| `ArrayFacts.TrailingComma` | src/backend/config/parser.c:334-465 | a homogeneous list with spaces around its elements, followed by ',', spaces and ',' or ']', is an error |
| `ArrayFacts.MixedArray` | src/backend/config/parser.c:324-500 | an array whose element i differs in type from the first, after a homogeneous prefix, is an error, whatever the spaces around the elements |
| `ArrayFacts.ArrayParsesIff` | src/backend/config/parser.c:275-500 | an array line of well-formed values, with any spaces around the elements, parses exactly when all its values have the type of the first |
| `ParserFacts.MultiDigit` | src/backend/config/parser.c:198-221 | a scalar run of two or more digits gives the integer `strtoll` reads from the whole run, and what follows is ignored (`12.5` is 12) |
| `ParserFacts.LeadingZerosIgnored` | src/backend/config/parser.c:210-219 | leading zeros do not change a scalar integer (`007` is 7, `000` is 0) |
| `ParserFacts.DotNeedsDigit` | src/backend/config/parser.c:199-206 | a scalar digit and '.' not followed by a digit is an error |
| `ParserFacts.ArrayDotNeedsDigit` | src/backend/config/parser.c:344-353 | in an array, a digit and '.' not followed by a digit is an error |
| `ParserFacts.EscapeExample` | src/backend/config/parser.c:240-274 | the quoted body `a\"b\\c` reads as the five characters `a"b\c` |
| `ParserAsWritten.EndOfLineAsWritten` | src/backend/config/parser.c:513-544 | as written, the end-of-line resolution is an error in the same states as the corrected one |
| `ParserAsWritten.ParseLineAsWrittenAgrees` | src/backend/config/parser.c:513-553 | the as-written parser agrees with the corrected one on every result and key and value list, and differs at most in the returned type |
| `ParserAsWritten.OneDigitAtEndLosesType` | src/backend/config/parser.c:514-525 | as written, `key=d` returns type 0; corrected, it returns INTEGER |
| `Driver.Strip` | src/backend/config/parser.c:615-617 | the line handed to the parser is the C string with its trailing '\n' removed exactly when it has one |
| `Driver.FirstError` | src/backend/config/parser.c:624-633 | the index reported is one of a line the parser rejects |
| `Driver.ParseConfig` | src/backend/config/parser.c:584-652 | -1 with no file; at the first rejected line, -1 with its 1-based number and the definitions of the lines before it; otherwise 1 when no line was defined and 0 when some were |
| `Driver.NextLine` | src/backend/config/parser.c:618-645 | a line the parser accepts adds its definition after the earlier ones and raises no error |
| `Driver.ErrorPrefix` | src/backend/config/parser.c:624-633 | a rejected line with no rejected line before it is the first error |
| `Driver.NoErrorBefore` | src/backend/config/parser.c:624-637 | lines none of which is rejected give no error |
| `Driver.StopsAtFirstError` | src/backend/config/parser.c:624-633 | partial application: stopping at the first rejected line leaves the earlier lines' definitions, a prefix of those of the whole file |
| `Driver.DefinitionsPrefix` | src/backend/config/parser.c:638-645 | the definitions of the first i lines are a prefix of the file's definitions |
| `Driver.FirstErrorAppend` | src/backend/config/parser.c:624-633 | lines after an error do not move the first error |
| `Driver.LaterLinesIgnored` | src/backend/config/parser.c:624-633 | once a line is rejected, appending lines changes nothing in the result |
| `Driver.NoDefinitionsNoParse` | src/backend/config/parser.c:638-645 | a file without definitions has no parsed line |
| `Driver.SomeParsed` | src/backend/config/parser.c:638-645 | a file with a definition has a parsed line |
| `Driver.EmptyFileCode` | src/backend/config/parser.c:648-651 | with no error, the result is 1 exactly when no line parsed |
| `DriverAsWritten.ParseConfigAsWritten` | src/backend/config/parser.c:612-651 | over `parse_line` as written, `parse_config` returns the same code and error line and defines the same keys with the same values in the same order; only the recorded types can differ |
| `DriverAsWritten.OneDigitLineLosesType` | src/backend/config/parser.c:612-651 | a file holding only `key=d\n` defines the key with type 0 as written (the end-of-line commit at parser.c:514-525 never sets `type`, and line 643 passes it on), and with INTEGER once corrected |
| `Paths.ExecDir` | src/backend/master/master.c:148-168 | the executable's directory is the prefix of `arg0` up to and including its last '/', and "./" when there is none |
| `Paths.GetPathFromArg0` | src/backend/master/master.c:148-168 | the backward scan returns NULL for NULL and otherwise the executable's directory |
| `Paths.BaseName` | src/backend/master/master.c:399-403 | the name after the last '/' contains no '/' |
| `Paths.DirAndBase` | src/backend/master/master.c:148-168 | with a '/', the directory and the base name put together give back the path |
| `Paths.BaseNameWhole` | src/backend/master/master.c:399-407 | without a '/', the whole path is the base name |
| `Paths.ExecDirOf` | src/backend/master/master.c:152-167 | the directory of `dir/name` is `dir/` when `name` holds no '/' |
| `Paths.CreatePathFromCallDir` | src/backend/master/master.c:176-189 | NULL exactly when an argument is NULL, otherwise the executable's directory followed by the path |
| `Paths.CallDirPaths` | src/backend/master/master.c:176-189 | called as `dir/exe` paths are relative to `dir/`, called as a bare name to "./" |
| `Paths.MkPluginPath` | src/backend/master/master.c:198-223 | NULL exactly for a NULL name; otherwise the directory, a '/' only if it does not already end in one, the name and ".so" |
| `Paths.TrailingSlashIgnored` | src/backend/master/master.c:209-212 | a trailing '/' on the plugins directory makes no difference |
| `Paths.DefaultPluginPath` | src/backend/master/master.c:204-207 | with no directory, the plugin is looked up in "./plugins/" next to the executable |
| `PluginStack.Init` | src/backend/master/master.c:63-70 | a fresh stack is empty, with `max_idx` -1 and `size` 0 |
| `PluginStack.Grow` | src/backend/master/master.c:95 | growth always yields a strictly larger capacity |
| `PluginStack.Push` | src/backend/master/master.c:93-103 | returns 0, puts the plugin on top at `max_idx + 1`, keeps every other slot, grows exactly when full, and leaves `max_idx < size` |
| `PluginStack.PopAsWritten` | src/backend/master/master.c:111-122 | as written, pop reads out of bounds exactly when slots exist and the stack is empty |
| `PluginStack.Pop` | src/backend/master/master.c:111-122 | pops exactly when the top exists and has a non-NULL handle, returning it and the stack below; otherwise `{NULL, NULL}` and no change |
| `PluginStack.PushThenPop` | src/backend/master/master.c:93-122 | pop right after pushing a non-NULL handle returns that plugin and restores the entries and `max_idx` |
| `PluginStack.PopAfterDrain` | src/backend/master/master.c:115-121 | after one push and one pop, the as-written pop reads `plugins[-1]`, the corrected one returns `{NULL, NULL}` |
| `PluginStack.FirstNamed` | src/backend/master/master.c:134-138 | the lowest index whose name matches, or none when no name matches |
| `PluginStack.Get` | src/backend/master/master.c:130-140 | returns the lowest-index entry on the stack with the name, and `{NULL, NULL}` exactly when no entry has it |
| `PluginStack.GetPlugin` | src/backend/master/master.c:130-140 | the scan loop returns the lowest-index entry with the name |
| `PluginStack.ScanAsWritten` | src/backend/master/master.c:134-138 | as written, a scan that finds something finds a written slot with that name |
| `PluginStack.GetAgreesWhenFull` | src/backend/master/master.c:130-140 | on a full stack from which nothing was popped, the as-written and corrected lookups agree |
| `PluginStack.GetFindsPopped` | src/backend/master/master.c:134 | after one push and one pop, the as-written lookup still finds the popped plugin and the corrected one does not |
| `Startup.InitConfigValues` | src/backend/master/master.c:369-389 | returns 0, sets "config" to `../proxy.conf` relative to the executable's directory and "log_stream" to STDERR, and changes no other key |
| `Startup.SetProgramMode` | src/backend/master/master.c:395-422 | -1 for NULL; otherwise 0, "program_mode" is 1 exactly when the base name is `debug_proxy`, which also sets "log_stream" to STDOUT, and 0 otherwise with "log_stream" untouched |
| `Startup.ProgramName` | src/backend/master/master.c:399-403 | the backward scan yields the base name, which completes the executable's directory to the whole path |
| `Startup.NameEnd` | src/backend/master/master.c:401-407 | where the scan stops, what follows is the base name |
| `Startup.NameStep` | src/backend/master/master.c:401-402 | one scan step past a non-'/' keeps the base name split |
| `Startup.DebugByName` | src/backend/master/master.c:405-416 | called as `dir/debug_proxy`, the program is in debug mode and logs to STDOUT |
| `Startup.StartupValues` | src/backend/master/master.c:444-446 | after `init_config_values` and `set_program_mode` on `argv[0]`, the log goes to STDOUT in debug mode and STDERR otherwise, and "config" is next to the executable |
| `Lifecycle.Apply` | src/backend/config/config.c:5-17 | a call succeeds (0) exactly when create meets an uninitialised flag or destroy an initialised one; success flips the flag, failure (-1) leaves it |
| `Lifecycle.Balance` | src/backend/config/config.c:3-17 | over any call sequence, successful creates minus successful destroys equals the change of the flag |
| `Lifecycle.NoWinsWithout` | src/backend/config/config.c:12-17 | a sequence without destroys has no successful destroy |
| `Lifecycle.AtMostOneAcquire` | src/backend/config/config.c:3-17 | between two destroys at most one create succeeds |
| `ConfigTable.Create` | src/backend/config/config.c:5-10 | `create_config_table` is the acquire of the flag machine |
| `ConfigTable.Destroy` | src/backend/config/config.c:12-17 | `destroy_config_table` is the release of the flag machine |
| `ConfigTable.CreateThenDestroy` | src/backend/config/config.c:3-17 | create then destroy from the initial state both succeed and return to it |
| `ConfigTable.DoubleCreate` | src/backend/config/config.c:6-7 | a second create without a destroy fails with -1 and leaves the table initialised |
| `Logger.Init` | src/backend/logger/logger.c:6-11 | `init_logger` is the acquire of the flag machine and ignores its arguments |
| `Logger.Fini` | src/backend/logger/logger.c:13-18 | `fini_logger` is the release of the flag machine |
| `Logger.DoubleInit` | src/include/logger.h:9 | a second init without a fini returns -1, whatever the arguments |
| `Logger.FiniThenInit` | src/backend/logger/logger.c:13-18 | after a successful init, fini succeeds and init succeeds again |

## Left out

- **`strtod`:** floating-point conversion is not modelled. A real is kept as its lexeme, so nothing is proved about rounding.
- **`strtoll` overflow:** the saturation at `LLONG_MAX` is modelled. `errno` is not.
- **Memory management:** `calloc`, `realloc`, `free` and ownership are replaced by sequences. This covers:
  - `parse_line`: the uninitialised `values`; the wrong `realloc` size and the off-by-one store for scalar strings (parser.c:259-260); the off-by-one store for end-of-line reals (parser.c:530).
  - `parse_config` frees `line` but does not reset it, so the next `getline` reuses a freed buffer. Also, for a line that starts with NUL, `line[strlen(line) - 1]` reads before the buffer. `Driver.Strip` leaves such a line unchanged.
- **The provisional key copy:** the copy `parse_line` makes at '.' inside a key (parser.c:142-148) is always replaced before it can be seen, so it is not modelled.
- **File I/O in `parse_config`:** `access`, `fopen`, `feof`, `getline` and the error messages are left out. The file is its sequence of lines, and `None` stands for every early -1.
- **`parse_config`'s "2 if no config":** the doc comment promises 2, but the code returns -1 when the file is missing or unreadable. The model follows the code.
- **The configuration store:** `define_variable`, `set_variable`, `get_variable` and `destroy_variable` have bodies outside this model. `parse_config` records its definitions in order, and the start-up helpers update a map.
- Driver.ParseConfig: it records the types the corrected `Parser.EndOfLine` returns. For a line ending in a number still being read (`port=5\n`), the C code passes type 0 to `define_variable` (Findings row 1). `DriverAsWritten.ParseConfigAsWritten` shows that over `parse_line` as written everything else is the same, and `DriverAsWritten.OneDigitLineLosesType` shows the type that differs.
- Startup.InitConfigValues: it takes a non-NULL `exec_path`. For NULL the C code hands `set_variable` a NULL string, and what that means is up to the store.
- Paths.MkPluginPath: it requires a non-empty directory, and a non-NULL `arg0` when there is no directory. The C code reads `plugins_dir[-1]` for an empty directory and dereferences NULL in the other case.
- PluginStack.Init: the boot size is ignored, as in the code. The boot array counts as no slots and is replaced by the first push's `realloc`.
- PluginStack.Grow: `(int)(size * 1.1 + 1)` is computed in double precision. The model uses `size * 11 / 10 + 1`, and only "strictly larger" is relied on. 32-bit overflow of `size` and `max_idx` is not modelled.
- **The plugins' names:** `get_plugin` with a NULL name, or over slots whose name is NULL, would pass NULL to `strcmp`. Names here are strings, and a never-written slot counts as undefined behaviour (`Lookup.Undefined`).
- **`load_plugins` and `close_plugins`:** these are `dlopen`, `dlsym` and `dlclose` calls into foreign code.
- **Process plumbing:** `parse_args` (getopt), `parse_envs` (getenv and strtok; its loop never advances) and `main` are left out. Only the order in which `main` calls `init_config_values` and `set_program_mode` is used, in `Startup.StartupValues`.
- **`src/backend/my_time/time_syscall.c`:** a raw system-call wrapper.
- **`src/include/logger.h`:** it holds declarations only. `write_log` and log-file rotation are not implemented in the code. Its `init_logger` has three parameters and its `fini_logger` returns void, but logger.c defines two parameters and an `int` result; the model follows logger.c.

## Findings

| source | as written | input that shows it | evidently intended | confidence | as-written member | corrected member |
|---|---|---|---|---|---|---|
| src/backend/config/parser.c:514-532 | the end-of-line commits of a number still being read append the value but never set `type`, so the type stays at its initial 0 | the line `port=5`, which is also what `parse_config` passes for `port=5\n`, returns type 0 instead of INTEGER; `ratio=0.5` returns 0 instead of REAL | set `type = INTEGER` / `type = REAL`, as the in-loop commits at parser.c:209 and 229 do | high (not executed) | `ParserAsWritten.OneDigitAtEndLosesType` | `Parser.EndOfLine` |
| src/backend/master/master.c:115-121 | `pop_plugin` tests `size == 0` for emptiness, but `size` is the capacity, so on a drained stack it reads `plugins[max_idx]` with `max_idx == -1` | `push_plugin(s, h, n)`, then `pop_plugin(s)` twice: the second pop reads `plugins[-1]` | test `max_idx < 0` and return `{NULL, NULL}` | high (not executed) | `PluginStack.PopAfterDrain` | `PluginStack.Pop` |
| src/backend/master/master.c:134 | `get_plugin` scans all `size` slots, including popped ones (and never-written ones after growth) | `push_plugin(s, h, n)`, then `pop_plugin(s)`, then `get_plugin(s, n)` returns `(h, n)`, though `n` is no longer on the stack | scan `i <= max_idx` | medium (not executed) | `PluginStack.GetFindsPopped` | `PluginStack.Get` |
