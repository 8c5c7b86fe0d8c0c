# CSC450 coursework demos, modelled and proved in Dafny

The repository is a set of small course demonstrations in Java and C++. This project models their sequential logic and proves what each one promises:

- **Banking and list helpers** (`Module8discussionpost/discussionpost.java`).
  - A bank account whose balance and active flag change in place.
  - Its operations validate in a fixed order and fail with typed exceptions.
  - "Bad" helpers that use exceptions for control flow, each next to a "good" variant that agrees with it.
- **Word counting** (`module7/discussionpost.java`).
  - Lines are collected until "quit".
  - Tokens are cleaned and counted into a map, and long words are filtered out.
  - The top five words by count are selected.
  - The poor-scope loop computes the same results in one pass.
- **File append and reversal** (three `FileProcessor` variants in Module5).
  - User lines are appended to a file.
  - The file is reversed into a second file.
  - The hardened variant adds size checks, 1000-char line truncation and a restore from backup.
- **Applicant onboarding** (Module6).
  - SSN masking.
  - Java's 32-bit polynomial string hash and its unsigned hex rendering.
  - The password array is wiped on every exit path.
  - A fixed parameterised SQL statement, compared with SQL built by concatenation.
- **Counter tasks** (`Portfolio/Module8/ConcurrencyCounters.java`), run one after the other.
  - The count-up and count-down buffers.
  - A progress counter and an execution counter.
  - A one-shot gate modelled as a count that floors at zero.
- **Bounded input** (Module2).
  - Truncation to 15 chars and replacement of non-printable chars.
  - A `strcpy` into a 16-byte buffer that leaves the adjacent buffer intact.
- **Stream format state** (Module4).
  - The `std::cout` base, case, notation, precision and width.
  - The demonstrations that change and restore that state.
  - The `std::min` clamps, the age check and the menu loop.

Modelling choices:
- Java `null` is `Option`.
- Java `int` arithmetic wraps explicitly (module `Int32`).
- A directory of files is a class holding a `map` from names to contents.
- Standard input is a sequence of lines or tokens.
- Outside inputs become parameters: a database outcome, a fault position in a task, the signedness of `char`, and HashMap iteration order.

## Model

| member | source | states |
|---|---|---|
| Banking.BankAccount.Open | Module8discussionpost/discussionpost.java:272-283 | a null or blank id is rejected first, then a negative balance, each with its IllegalArgumentException message; otherwise a fresh active account holds the initial balance |
| Banking.BankAccount.constructor | Module8discussionpost/discussionpost.java:280-282 | the account has the given id and balance and is active |
| Banking.BankAccount.Withdraw | Module8discussionpost/discussionpost.java:289-303 | an inactive account fails with InvalidAccountException, then amount ≤ 0 with IllegalArgumentException, then amount > balance with InsufficientFundsException, whose shortfall is positive; it succeeds exactly when none of these holds; only success changes the balance, by exactly −amount, so the balance never goes negative |
| Banking.BankAccount.Deposit | Module8discussionpost/discussionpost.java:344-355 | an inactive account fails, then a non-positive amount with "Deposit amount must be positive"; only success changes the balance, by exactly +amount |
| Banking.BankAccount.TransferTo | Module8discussionpost/discussionpost.java:309-337 | a null recipient is rejected first, then the sender's status, the recipient's status, the amount and the funds, all before any change; on success exactly `amount` moves; on failure neither balance changes; the sum of the two balances is always conserved |
| Banking.BankAccount.Deactivate | Module8discussionpost/discussionpost.java:383-385 | the account is inactive afterwards and nothing else changes |
| Banking.DeactivatedAccountRefusesAll | Module8discussionpost/discussionpost.java:289-364 | after `deactivate`, its withdraw, its deposit and its transfer each fail with InvalidAccountException "Account is inactive" for that account, a transfer to it fails with InvalidAccountException, and no balance changes |
| Banking.BankingDemonstration | Module8discussionpost/discussionpost.java:470-519 | the demonstration's five steps end as it prints them: the $200 withdrawal and the $300 transfer succeed, the $1000 withdrawal fails with a $500 shortfall, the withdrawal from the deactivated savings account fails with InvalidAccountException for "SAV-001", and the negative deposit fails with "Deposit amount must be positive"; the balances end at $500 and $800 |
| ListHelpers.FirstIndexOf | Module8discussionpost/discussionpost.java:176-181 | the result is the smallest index holding the target, or −1 when no element equals it |
| ListHelpers.FindIndexGood | Module8discussionpost/discussionpost.java:171-182 | −1 for a null list or a null target; otherwise the first index whose element equals the target, or −1 |
| ListHelpers.FindIndexBad | Module8discussionpost/discussionpost.java:104-116 | a NullPointerException for a null list, or for a null element before any match; otherwise the same index as `findIndexGood`; a −1 answer comes from the caught out-of-bounds exception exactly when the list is shorter than `Integer.MAX_VALUE` |
| ListHelpers.SumPositiveNumbersGood | Module8discussionpost/discussionpost.java:224-237 | 0 for a null array, otherwise the 32-bit wrapping sum of the elements above 0 |
| ListHelpers.SumPositiveNumbersBad | Module8discussionpost/discussionpost.java:138-152 | a NullPointerException for a null array; otherwise the same wrapping sum as the good variant, since skipping only negatives also adds the zeros |
| ListHelpers.DemonstrationValues | Module8discussionpost/discussionpost.java:428-454 | "banana" is found at index 1; {1,2,-3,4,-5,6} sums to 13 |
| ListHelpers.ValidateInput | Module8discussionpost/discussionpost.java:248-259 | accepted exactly when non-null, not blank after trim and at most 100 chars long; otherwise "Input cannot be null" for null, then "Input cannot be empty" for blank input, then "Input exceeds maximum length" for longer non-blank input |
| WordCount.FirstQuit | module7/discussionpost.java:149 | the index of the first line whose trim equals "quit" ignoring case, no line before it being one, or the number of lines |
| WordCount.KeptLinesTrimmed | module7/discussionpost.java:149-152 | every kept line is non-empty, already trimmed, and the trim of an input line; there are no more kept lines than input lines |
| WordCount.CollectUserInput | module7/discussionpost.java:140-162 | the result is the trimmed non-blank lines before the first quit line, in order; at end of input, what was collected so far |
| WordCount.CleanChars | module7/discussionpost.java:174 | a cleaned word consists only of ASCII letters and digits, each taken from the word |
| WordCount.CleanIsTrimmed | module7/discussionpost.java:174 | the `trim()` applied after `replaceAll` changes nothing |
| WordCount.AllWordsAreLowerAlnum | module7/discussionpost.java:171-176 | every counted word is non-empty and uses only a–z and 0–9 |
| WordCount.CountsAreOccurrences | module7/discussionpost.java:176-177 | the map has a key for exactly the words that occur, and each count is that word's number of occurrences, at least 1 |
| WordCount.LongWordsAreCounted | module7/discussionpost.java:179-181 | the filtered words are exactly the cleaned words longer than 3, in order with repeats, and each one is counted |
| WordCount.CountsSumToWords | module7/discussionpost.java:172-178 | summed over the keys, the counts equal the number of non-empty cleaned tokens |
| WordCount.ProcessData | module7/discussionpost.java:164-188 | `totalEntries` is the number of entries; the map is the count of the entries' cleaned words; the filtered list is their long words |
| WordCount.TallyEntry | module7/discussionpost.java:171-183 | the inner loop extends the counts and the filtered list by one entry's cleaned words |
| WordCount.ProcessingResultFacts | module7/discussionpost.java:172-187 | the keys are lowercase alphanumeric with counts ≥ 1, the filtered words are keys, and the counts sum to the number of words |
| WordCount.PoorScopeProcess | module7/discussionpost.java:57-84 | the poor-scope loop keeps the non-blank lines untrimmed, counts one entry per kept line, and builds the same map and filtered list as collecting and then processing; the totals are written only when a quit line was read |
| TopWords.PoorScopeRun | module7/discussionpost.java:36-84 | poor_output.txt is created before any line is read; it stays empty when the input ends before a quit line, and otherwise holds the number of entries, of filtered words and of distinct words of the lines before the quit line, the same totals the good-scope processing computes |
| WordCount.PoorTallyLine | module7/discussionpost.java:63-74 | the per-line loop extends the counts and the filtered list by that line's cleaned words |
| WordCount.TrimKeepsWords | module7/discussionpost.java:151 | an entry and its trimmed form yield the same words |
| WordCount.BlankPieceCleansToNothing | module7/discussionpost.java:65 | the poor-scope guard `!word.trim().isEmpty()` only skips pieces that would clean to nothing |
| WordCount.ChooseExample | module7/discussionpost.java:305-332 | a line whose trim parses to 1 runs the poor-scope example, one that parses to 2 the good-scope one, and every other line, including one that does not parse, runs the thread example; a missing line runs no example |
| WordCount.ParseDecimal | module7/discussionpost.java:305 | `Integer.parseInt` reads back the decimal rendering of every int |
| WordCount.JavaDigit | module7/discussionpost.java:305 | `Character.digit(c, 10)`, as `Integer.parseInt` applies it: a value below 10 for a decimal digit of any script in the Basic Multilingual Plane, the ASCII digits giving their own value |
| WordCount.DigitFromRuns | module7/discussionpost.java:305 | a char is a digit exactly when it lies in one of the runs of ten decimal digits, and its value is its distance from that run's zero |
| WordCount.ParseInt | module7/discussionpost.java:305 | `Integer.parseInt` succeeds only on text holding a decimal digit |
| WordCount.ArabicIndicChoosesPoorScope | module7/discussionpost.java:305-310 | the line "١" (ARABIC-INDIC DIGIT ONE) parses to 1 and runs the poor-scope example, as "1" does |
| WordCount.NonNumericRunsThreads | module7/discussionpost.java:305-332 | a line with no decimal digit of any script fails to parse and runs the thread example |
| TopWords.SortByCountSorted | module7/discussionpost.java:202-203 | sorting by count gives counts in non-increasing order and keeps the listing free of duplicates |
| TopWords.TopFiveSound | module7/discussionpost.java:199-212 | the list is absent exactly when the map is empty; otherwise it has min(5, keys) distinct keys of the map with non-increasing counts, and no unlisted key has a higher count than the last listed one |
| TopWords.GoodScopeRun | module7/discussionpost.java:113-137 | nothing is written when no line was kept; otherwise the file holds the report of the processed lines |
| Files.Stop | Module5/crit_think/mod5-critthink-improved.cpp:155-160 | the index of the first empty line that follows content, no earlier line being one, or the end of input |
| Files.NonEmptyLines | Module5/crit_think/mod5-critthink-improved.cpp:157-165 | the entered lines are the non-empty input lines, in order; there are none exactly when every line before the stop is empty |
| Files.FileSystem.Append | Module5/crit_think/mod5-critthink-improved.cpp:79-90 | the file is created when missing and gets the text after its old content; no other file changes |
| Files.FileSystem.Write | Module5/crit_think/mod5-critthink-improved.cpp:63-76 | the file holds exactly the text; no other file changes |
| Files.GetLinesJoinLines | Module5/crit_think/mod5-crithink.cpp:89-91 | reading back lines written each with '\n' gives the same lines |
| Files.GetLinesRebuild | Module5/crit_think/mod5-crithink.cpp:89-91 | rebuilding a text from its getline lines, each with '\n', makes non-empty content end in '\n' |
| Files.ReversedOutputFacts | Module5/crit_think/mod5-critthink-improved.cpp:213-227 | the output ends in '\n', and read backwards without it is the input minus at most one final newline; the lengths match when that newline was there, and otherwise the output is one longer |
| Files.LoneNewline | Module5/crit_think/mod5-critthink-improved.cpp:207-215 | a file holding just "\n" is not empty, and its output is "\n" |
| Files.TwoLinesExample | Module5/crit_think/mod5-crithink.cpp:100-119 | "ab\ncd\n" becomes "dc\nba\n" |
| ImprovedFileProcessor.ReadFileContent | Module5/crit_think/mod5-critthink-improved.cpp:38-60 | a missing file, or one above 10,000,000 bytes, raises "File too large or inaccessible: " + name; otherwise the whole content |
| ImprovedFileProcessor.StoredLines | Module5/crit_think/mod5-critthink-improved.cpp:160-168 | each stored line is its entered line cut to its first 1000 chars, unchanged when shorter, and non-empty when that line was |
| ImprovedFileProcessor.CollectedLines | Module5/crit_think/mod5-critthink-improved.cpp:155-171 | every collected line is non-empty, at most 1000 chars and free of newlines |
| ImprovedFileProcessor.CollectLines | Module5/crit_think/mod5-critthink-improved.cpp:155-171 | the lines kept are the entered lines truncated to 1000 chars; content was seen exactly when some line was entered |
| ImprovedFileProcessor.BuildContent | Module5/crit_think/mod5-critthink-improved.cpp:179-182 | the content is every line followed by '\n', in order |
| ImprovedFileProcessor.AppendUserInput | Module5/crit_think/mod5-critthink-improved.cpp:144-194 | true exactly when some line was entered, and then the input file gets the stored lines appended; with no content, false and nothing changes |
| ImprovedFileProcessor.ReverseFileContent | Module5/crit_think/mod5-critthink-improved.cpp:200-236 | false, with no file written, when the input is missing, too large or empty; otherwise the output file holds the reversed content without one final newline, plus '\n' |
| ImprovedFileProcessor.RestoreFromBackup | Module5/crit_think/mod5-critthink-improved.cpp:105-138 | false, with nothing touched, when the backup is missing or too large; otherwise the input file holds the backup's content and no other file changes |
| ImprovedFileProcessor.RestoreCopies | Module5/crit_think/mod5-critthink-improved.cpp:119-133 | after a restore the input file reads as the backup, the backup still reads the same, and every other file is unchanged |
| ImprovedFileProcessor.AppendedBlockReadsBack | Module5/crit_think/mod5-critthink-improved.cpp:179-185 | getline on the appended block gives back exactly the stored lines |
| BasicFileProcessor.AppendUserInput | Module5/crit_think/mod5-crithink.cpp:27-69 | the input file is created when missing; true exactly when some non-empty line was entered; each such line is written whole with '\n', with no length limit |
| BasicFileProcessor.WriteEnteredLines | Module5/crit_think/mod5-crithink.cpp:43-53 | empty lines before content are skipped, the first empty line after content stops the writing, and each written line gets its '\n' |
| BasicFileProcessor.ReadBack | Module5/crit_think/mod5-crithink.cpp:89-91 | the rebuilt content is the file's content made to end in '\n' when non-empty |
| BasicFileProcessor.ReverseFileContent | Module5/crit_think/mod5-crithink.cpp:75-129 | false when the input file cannot be opened or is empty, and then no output is written; otherwise the output is the rebuilt content without its final '\n', reversed, plus '\n' |
| BasicFileProcessor.RebuiltContent | Module5/mod5-crithink.cpp:89-108 | the normalising read-back gives the same output as reversing the raw file content |
| BasicFileProcessor.OutputReversesContent | Module5/mod5-crithink.cpp:100-119 | the output without its final newline, reversed, is the content without its final newline |
| Onboarding.MaskSsn | Module6/OnboardingServiceSecure.java:47-51 | "***" exactly for null or fewer than 4 chars; otherwise 11 chars, "***-**-" followed by the last four |
| Onboarding.MaskRevealsOnlyLastFour | Module6/OnboardingServiceSecure.java:50 | two SSNs with the same last four chars get the same mask |
| Onboarding.MaskDistinguishesLastFour | Module6/OnboardingServiceSecure.java:50 | SSNs with different last four chars get different masks |
| Onboarding.PolySumSnoc | Module6/OnboardingServiceSecure.java:57-59 | the documented polynomial s[0]·31^(n−1) + … + s[n−1] grows by the loop's step h = 31·h + c |
| Onboarding.ToHexString | Module6/OnboardingServiceSecure.java:60 | `Integer.toHexString`: lowercase hex digits of the unsigned value, with "0" only for zero |
| Onboarding.HexRoundTrip | Module6/OnboardingServiceSecure.java:60 | the hex text reads back as the unsigned 32-bit value |
| Onboarding.HexInjective | Module6/OnboardingServiceSecure.java:60 | different hashes give different hex texts |
| Onboarding.Hash | Module6/OnboardingServiceSecure.java:53-61 | the loop over the password array computes the fold h = 31·h + c from 0 in 32-bit arithmetic and returns its `Integer.toHexString` |
| Onboarding.FoldIsHashCode | Module6/OnboardingServiceSecure.java:57-59 | the secure loop's 32-bit fold equals the documented `String.hashCode` polynomial reduced to an int, for every password |
| Onboarding.EmptyPasswordHash | Module6/OnboardingServiceSecure.java:53-61 | an empty password hashes to "0" |
| Onboarding.Wipe | Module6/OnboardingServiceSecure.java:41-44 | every element of the array is '\0' afterwards |
| Onboarding.CreateApplicantSecure | Module6/OnboardingServiceSecure.java:18-45 | the first log line shows only the masked SSN; the SQL is the fixed statement and the bound parameters are name, raw SSN and hash of the password; any SQL failure is rethrown as "Operation failed (ONB-1001)."; the password is all '\0' on every exit |
| Onboarding.SameHashBothVersions | Module6/OnboardingService.java:35-38 | the insecure `Integer.toHexString(password.hashCode())` equals the secure `hash(char[])` for every password, so the insecure SQL embeds the very hash the secure statement binds |
| Onboarding.InsecureLogShowsSsn | Module6/OnboardingService.java:18 | the log line is "Creating applicant for SSN=" + ssn, so it carries the full SSN |
| Onboarding.InsecureFailureLeaks | Module6/OnboardingService.java:27-31 | on failure the rethrown message is "Create failed: " + the cause's message |
| Onboarding.InsecureNullPasswordNoConnection | Module6/OnboardingService.java:20-23 | the SQL and the hash are computed before any connection is requested: a null password fails with no connection |
| Onboarding.QuoteFrom | Module6/OnboardingService.java:20-21 | the index of the first quote char from a position, or the length |
| Onboarding.QuoteAfter | Module6/OnboardingService.java:20-21 | a string literal whose text is followed by a quote ends at that quote exactly when the text has no quote of its own, and earlier otherwise |
| Onboarding.QuoteEndsLiteral | Module6/OnboardingService.java:20-21 | a literal opened before a pasted name and closed by a quote after it holds the name exactly when the name has no quote |
| Onboarding.InjectionThroughName | Module6/OnboardingService.java:20-21 | the first SQL string literal is the full name exactly when the name contains no `'`; otherwise the name ends the literal early |
| ConcurrencyCounters.Latch.CountDown | Portfolio/Module8/ConcurrencyCounters.java:207 | the count goes down by one and stays at zero |
| ConcurrencyCounters.UpTokens | Portfolio/Module8/ConcurrencyCounters.java:193-200 | the tokens are 0, 1, …, n in decimal |
| ConcurrencyCounters.DownTokens | Portfolio/Module8/ConcurrencyCounters.java:257-263 | the tokens are n, n−1, …, 0 in decimal |
| ConcurrencyCounters.DownIsReversedUp | Portfolio/Module8/ConcurrencyCounters.java:257-263 | the count-down tokens are the count-up tokens reversed |
| ConcurrencyCounters.CountUpTask | Portfolio/Module8/ConcurrencyCounters.java:182-223 | when the task completes, the buffer is "0 1 … 20" with single spaces and no trailing space; the progress state is set to 0, 1, … in order; the gate is released on the normal path and again on the catch path, flooring at 0; the execution counter rises by one only on completion |
| ConcurrencyCounters.CountDownTask | Portfolio/Module8/ConcurrencyCounters.java:241-281 | interrupted: no output and no count; gate shut: still waiting; gate open: "20 19 … 0", and the counter rises by one |
| ConcurrencyCounters.RunSequentially | Portfolio/Module8/ConcurrencyCounters.java:115-281 | whatever the count-up task meets, the gate ends open; count-down prints unless interrupted; progress is 0..20 when count-up completes; the execution count is the number of completed tasks, at most 2 |
| ConcurrencyCounters.BuffersSplitIntoCounts | Portfolio/Module8/ConcurrencyCounters.java:193-200 | splitting each buffer at spaces gives back its counts |
| ConcurrencyCounters.BufferFitsCapacity | Portfolio/Module8/ConcurrencyCounters.java:56-59 | for MAX_COUNT = 20 both buffers hold 52 chars, within the capacity of 128 |
| SecureInput.Truncate | Module2/reference/buffer_overflow_demo.cpp:112-116 | at most 15 chars: longer input becomes its first 15 chars, shorter input is unchanged |
| SecureInput.SanitizeBySignedness | Module2/reference/buffer_overflow_demo.cpp:119-123 | a char stays when it lies in 32..126 and becomes '?' otherwise; the output is printable whether `char` is signed or not, including bytes ≥ 0x80 |
| SecureInput.SecureTextFacts | Module2/reference/buffer_overflow_demo.cpp:106-123 | the result has the truncated length, and each char is the input char when printable, else '?' |
| SecureInput.SecureTextIdempotent | Module2/reference/buffer_overflow_demo.cpp:112-123 | applying the truncation and sanitising to their own output changes nothing |
| SecureInput.SecureAlternative | Module2/reference/buffer_overflow_demo.cpp:102-129 | the in-place loop over the truncated input leaves exactly the sanitised text |
| SecureInput.Dispatch | Module2/reference/buffer_overflow_demo.cpp:138-154 | choice 1 runs the vulnerable branch only, 2 the secure branch only, anything else both |
| SecureCopy.CString | Module2/discussionpost.cpp:32-33 | the C string is the bytes before the first NUL |
| SecureCopy.FitToBuffer | Module2/discussionpost.cpp:27-30 | input of length ≥ 16 becomes its first 15 chars, otherwise it is unchanged |
| SecureCopy.FitToBufferBounds | Module2/discussionpost.cpp:27-30 | the fitted text has at most 15 chars and is a prefix of the input |
| SecureCopy.StrCpy | Module2/discussionpost.cpp:32 | `strcpy` writes the C string of the source plus a NUL and leaves the rest of the destination as it was |
| SecureCopy.SecureBranch | Module2/discussionpost.cpp:20-35 | the copy stays inside the 16-byte buffer: the C string read back is the fitted input up to its first NUL, and the bytes after its NUL are unchanged; the adjacent buffer still holds "DONOTOVERWRITE!" |
| SecureCopy.CStringOfTerminated | Module2/discussionpost.cpp:32-33 | bytes without a NUL followed by a NUL read back as those bytes |
| StreamFormat.OStream.SetFlags | Module4/reference/iostream_vulnerabilities.cpp:113 | `flags(f)` replaces the format flags and changes nothing else |
| StreamFormat.OStream.SetPrecision | Module4/reference/iostream_vulnerabilities.cpp:114 | `precision(p)` replaces the precision and changes nothing else |
| StreamFormat.OStream.PutInt | Module4/reference/iostream_vulnerabilities.cpp:27 | an int is written in the current base and case, padded to the pending width, which then resets |
| StreamFormat.PadShape | Module4/discussionpost.cpp:42 | `setw(w) << s` writes `s` after as many spaces as make up the width |
| StreamFormat.HexExamples | Module4/reference/iostream_vulnerabilities.cpp:26-30 | in uppercase hex, 255 shows as "FF" and 12345 as "3039" |
| StreamFormat.StreamStateCorruption | Module4/reference/iostream_vulnerabilities.cpp:20-35 | 255 and the second 12345 are written in uppercase hex; the demo always ends in decimal, lowercase mode, with the precision unchanged |
| StreamFormat.PrecisionVulnerabilities | Module4/reference/iostream_vulnerabilities.cpp:38-57 | precision 50 for one value, then it ends at 6 whatever it was; the flags are unchanged |
| StreamFormat.ClassifyAge | Module4/reference/iostream_vulnerabilities.cpp:67-80 | a failed extraction (not a number, or outside `int`) is invalid; negative ages are flagged; ages above 200 are unrealistic; 0..200 are only echoed |
| StreamFormat.InputValidation | Module4/reference/iostream_vulnerabilities.cpp:60-81 | writes the prompt and the verdict's lines, echoing the age in the current base; the format state is unchanged |
| StreamFormat.SecurePractices | Module4/reference/iostream_vulnerabilities.cpp:84-118 | the text is cut to its first 50 chars (a char standing for a byte) when longer, with the warning; the hex output is temporary; the flags and the precision afterwards equal those on entry |
| StreamFormat.EchoTruncated | Module4/reference/iostream_vulnerabilities.cpp:94-100 | the kept text is the first 50 chars (a char standing for a byte) of a longer line, or the whole line |
| StreamFormat.HexThenRestore | Module4/reference/iostream_vulnerabilities.cpp:103-117 | 255 is shown once in uppercase hex and once in the restored format; the flags and the precision end as they began |
| StreamFormat.Demonstrate | Module4/reference/iostream_vulnerabilities.cpp:145-157 | a decimal, lowercase stream is still one after any of the demonstrations 2–5; only demonstration 3 leaves a precision behind, which is 6 |
| StreamFormat.Choose | Module4/reference/iostream_vulnerabilities.cpp:145-164 | 2–5 run a demonstration, 0 exits, and every other number, 1 included, is "Invalid choice!" |
| StreamFormat.AsWrittenNotNumberExits | Module4/reference/iostream_vulnerabilities.cpp:138-143 | text that is not a number stores 0 in `choice`, so the `continue` reaches a false loop test and the menu exits |
| StreamFormat.AsWrittenEndOfInputLoops | Module4/reference/iostream_vulnerabilities.cpp:138-166 | at end of input after a non-zero choice, every pass reports invalid input, keeps the choice and loops again, so the menu never ends |
| StreamFormat.AsWrittenAgreesOnNumbers | Module4/reference/iostream_vulnerabilities.cpp:128-166 | on numbers within `int`, the loop as written and the corrected menu take the same passes |
| StreamFormat.MenuActionsFacts | Module4/reference/iostream_vulnerabilities.cpp:128-166 | the corrected menu takes at most one pass per token; only 2–5 run demonstrations; an exit is the last pass |
| StreamFormat.Menu | Module4/reference/iostream_vulnerabilities.cpp:128-166 | the corrected menu loop takes exactly the passes of the corrected specification |
| StreamStateDemo.DisplayAccountInfo | Module4/discussionpost.cpp:25-29 | the account number is written in whatever base and case the stream is in |
| StreamStateDemo.ProcessUserData | Module4/discussionpost.cpp:7-23 | the account is shown in uppercase hex inside; afterwards the flags equal those on entry and the precision is untouched |
| StreamStateDemo.AccountRendering | Module4/discussionpost.cpp:12-28 | inside `process_user_data` the account shows as "3039"; on a decimal stream it shows as "12345" |
| StreamStateDemo.PrecisionVulnerability | Module4/discussionpost.cpp:32-44 | the user's precision is left in place, and "test" is padded to the user's width |
| StreamStateDemo.SafeLimitFacts | Module4/discussionpost.cpp:56-60 | the clamp never exceeds the limit or the user's value, and a value within the limit passes unchanged |
| StreamStateDemo.SafePrecision | Module4/discussionpost.cpp:46-71 | "test" is padded to min(width, 50); the flags (undoing `fixed`) and the precision are restored to their values on entry |
| StreamStateDemo.PaddedWidths | Module4/discussionpost.cpp:41-66 | the vulnerable demo pads "test" to 1000 chars, the safe one to 50 |
| StreamStateDemo.DiscussionMain | Module4/discussionpost.cpp:73-91 | the account shows as 12345 before and after `process_user_data` and as 3039 inside it; the program ends with the default flags and the precision of 50 that the vulnerable demonstration left behind |

## Left out

- Threads and the executor: thread pools, the thread factory, shutdown and the thread-safe scope example are concurrency. The counter tasks run one after the other, and the points where a task is cut short are parameters.
- Modelled output is limited to four streams:
  - the `std::cout` text of the Module4 demonstrations (`OStream.text`);
  - the two log lines of each Module6 `createApplicant` (`Run.logs`);
  - the report files of module7 and the files of Module5;
  - the count buffers the Portfolio tasks print.
- All other console output (menus, prompts, status lines), the other logging, `printStackTrace`, timing and clocks are not modelled: `System.nanoTime`, the exception timestamps and `Random`.
- Files are a map from names to contents. Standard input is a sequence of lines, or of tokens for `cin >> int`. Opening, closing and I/O errors after opening are not modelled.
- ImprovedFileProcessor.AppendUserInput: does not model a failure to open the input file while appending, because the directory model has no I/O errors.
- Writes and removals of files always succeed, so `writeFileContent`'s and `restoreFromBackup`'s error paths after a successful read are not modelled.
- `displayFileContents` and `main` of Module5 only print or sequence the operations modelled above.
- Database calls are not modelled. The JDBC connection, the statements and their execution are one parameter: connect fails, execute fails, or success.
- Onboarding.CreateApplicantSecure: the password array is never null in this model. A null array throws in the `finally` block, which is not modelled.
- Onboarding.MaskSsn: an SSN of four chars or more only ever shows its last four. The "***" mask of a short SSN reveals nothing, but that short SSN is not hidden as an input.
- Floating point is not modelled:
  - Account amounts are integers (cents).
  - The NaN and Infinity check and the `%.2f` messages are dropped.
  - Doubles written through `std::cout` use up the field width, but their digits are not added to the modelled text.
- Only the base, uppercase and float-notation flags and the precision and width of the stream are modelled. The programs touch no other flags.
- The Module4 menu reads its choices, the age and the secure text from separate queues. How one stream interleaves them, and what `cin.ignore()` discards, is not modelled.
- The menu text printed on each pass is not modelled.
- StreamFormat.Demonstrate: states only the format state after each demonstration. The text each one writes is stated by that demonstration's own method.
- The undefined-behaviour demonstrations are not modelled: the unbounded `cin >> char[]` branches and the memory dump. There is nothing to state about overflow behaviour.
- Java's `split("\\s+")` is modelled as a split at each whitespace char, which keeps empty pieces. They clean to nothing, so the counted words are the same.
- Java `toLowerCase` is modelled only as far as it produces ASCII letters and digits. Other Unicode case mappings and locale rules are left out.
- Onboarding.MaskSsn: lengths and the last four count Unicode chars, while Java's `length()` and `substring` count UTF-16 code units; the two differ on characters outside the Basic Multilingual Plane ("a😀b" is four code units, so Java masks it as "***-**-a😀b" where the model gives "***").
- ListHelpers.ValidateInput: the 100-char limit counts Unicode chars, not UTF-16 code units, so input with characters outside the Basic Multilingual Plane is measured differently from Java.
- WordCount.Counts: the word counts are unbounded; a Java `Integer` count would wrap after 2^31 − 1 occurrences of one word, which the model does not capture.
- WordCount.JavaDigit: the digit table is the Basic Multilingual Plane's decimal digits of Unicode 7 to 15; a Java runtime on another Unicode version may differ.
- StreamFormat.SecurePractices: a char of the secure text counts as one byte, as `length()` and `substr` count. The text itself is Unicode chars, not UTF-8 bytes: a line of 26 "é" (52 bytes) is truncated by the program but not by the model, and a cut through a multi-byte char, which echoes invalid UTF-8, cannot arise. The emoji in the constants (`TRUNCATING`, `NOT_A_NUMBER`) are single chars, not their UTF-8 bytes.
- StreamFormat.EchoTruncated: the same byte-as-char reading of the 50 limit and the cut.
- The tie order of the top five depends on HashMap iteration order. It is a parameter, and the properties proved hold for every order.
- A first-pass end of input in the Module4 menu reads the uninitialised `choice`, which is undefined behaviour and is not modelled.

## Findings

| source | as written | input that shows it | evidently intended | confidence | as-written member | corrected member |
|---|---|---|---|---|---|---|
| Module4/reference/iostream_vulnerabilities.cpp:138-166 | a failed `cin >> choice` prints "Invalid input!" and `continue`s to the test `choice != 0`. Text that is not a number stores 0, so the menu exits. At end of input the stream fails before conversion and `choice` is left unchanged, so after any non-zero choice the menu loops forever | "2", then end of input: the loop repeats "Invalid input!" forever | invalid input prompts again, and end of input ends the menu | not executed | StreamFormat.AsWrittenEndOfInputLoops | StreamFormat.Menu |
