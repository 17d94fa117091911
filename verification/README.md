# passgen in Dafny

A model of `passgen`, a command-line password generator written in C. One
invocation goes through three stages:

1. **Argument interpretation.** `main` reads the arguments left to right.
   `--help` ends the scan with success. `--length N` takes the next token,
   reads it with `atoi` and accepts 1..127. `--upper`, `--lower`, `--digits`
   and `--special` switch a character class on and increment a flag
   counter. Any other token fails. If the counter is still zero after the
   scan, upper case, lower case and digits are switched on.
2. **Pool construction.** `generate_password` uses `strcat` to append the
   enabled alphabets to a 128-byte buffer, in the order Upper, Lower, Digit,
   Special. It keeps the pool length in a separate counter and fails when
   the pool is empty.
3. **Sampling.** For each index below the length, the program stores
   `pool[rand() % pool_len]` in a static 128-byte buffer. It then writes the
   terminator at index `length` and prints the buffer as a C string.

Modules:

- `Charsets` (charsets.dfy): the four alphabets, `MaxLen`, and `ClassSet` (the four `use_*` switches). It also defines the reference pool `PoolOf`: the enabled alphabets concatenated in pool order.
- `CStrings` (cstrings.dfy): `atoi`, and reading a NUL-terminated buffer back as a string.
- `Pool` (pool.dfy): the `strcat` sequence, with the 128-byte capacity as a precondition of every append.
- `Sampler` (sampler.dfy): the sampled password as a function, and the loop over the static buffer as a method.
- `Args` (args.dfy): the argument loop of `main` as a recursive scan, the default substitution, and properties of the scan.
- `PassGen` (passgen.dfy): `generate_password`, one whole run of `main`, and the example invocations from the usage text.

The model has no randomness. `rand()` becomes a parameter `draws: seq<nat>`
holding the successive values it returns. A run therefore depends only on
the arguments and the draws, and every statement below holds for all draws.

Behaviour of the code worth noting:

- `--help` succeeds only if the tokens before it were accepted. An earlier
  unknown token, or an earlier bad `--length`, has already failed.
- A `--length` operand is whatever `atoi` reads from the token. So `12abc`
  is accepted as 12. The token after `--length` is consumed even if it is a
  flag: `--length --help` fails with length 0.
- Randomness is `rand() % pool_len`.

## Model

| member | source | states |
|---|---|---|
| `Charsets.AlphabetFacts` | passgen.c:38-41 | The alphabets have 26, 26, 10 and 26 characters, and none contains the NUL terminator. |
| `CStrings.Atoi` | passgen.c:94 | `atoi` gives a non-zero value only when the token contains a digit, and a negative value only when it contains a minus sign. |
| `CStrings.AtoiOfDecimal` | passgen.c:94 | `atoi` reads back the decimal spelling of every natural number. |
| `CStrings.AtoiOfNonNumeric` | passgen.c:94 | `atoi` returns 0 for any token that contains no digit. |
| `CStrings.CString` | passgen.c:125 | The printed string is a prefix of the buffer with no NUL in it. It ends at the first NUL, or at the end of the buffer if there is none. |
| `CStrings.CStringOfTerminated` | passgen.c:73 | A NUL-free string followed by a terminator is read back as exactly that string, whatever bytes follow. |
| `Pool.Strcat` | passgen.c:47-59 | Each `strcat` appends the alphabet after the current pool and leaves room for the terminator in the 128-byte buffer. |
| `Pool.BuildPool` | passgen.c:43-66 | The pool exists exactly when some class is enabled. It equals the reference concatenation of the enabled alphabets in pool order. Its length is 26·upper + 26·lower + 10·digits + 26·special, at most 88, so every `strcat` leaves room for the terminator in the 128-byte buffer. |
| `Pool.PoolMembership` | passgen.c:46-61 | A character is in the pool exactly when it belongs to the alphabet of an enabled class. |
| `Pool.FlattenMembership` | passgen.c:46-61 | An element is in a concatenation exactly when one of the parts contains it. |
| `Sampler.Sample` | passgen.c:68-72 | The password has exactly the requested length. Position i holds `pool[draws[i] % |pool|]`, so every character is in the pool. |
| `Sampler.FillPassword` | passgen.c:37-73 | Starting from the 128-byte static buffer (passgen.c:37), the loop writes the sampled characters below `length` and the terminator at `length`, which is inside the buffer. Reading the buffer as a C string gives exactly the sampled password. |
| `Args.ClassifyFlags` | passgen.c:86-110 | The `strcmp` chain tells the six recognised spellings apart. Each class flag selects its own class. |
| `Args.ClassifyExact` | passgen.c:86-115 | Only the exact spellings are recognised, and each one starts with `--`. |
| `Args.KnownTokensAreNotNumbers` | passgen.c:94 | `atoi` reads every recognised flag as 0. |
| `Args.Scan` | passgen.c:84-116 | The scan stops only with help or an error, never with a request. A length error carries a value outside 1..127. A completed scan keeps the length in range, has some class on once a flag was counted, and never lowers the count. |
| `Args.Parse` | passgen.c:80-121 | Every request has a length in 1..127 and at least one enabled class. |
| `Args.Finish` | passgen.c:118-121 | After the loop, the request keeps the scanned length. A class is on exactly when it was switched on, or when no class flag was counted and the class is not Special. |
| `Args.ScanPrefix` | passgen.c:84-116 | Tokens are processed left to right. After a prefix is accepted, the rest is scanned from the options that prefix left. |
| `Args.ScanStopped` | passgen.c:84-116 | A prefix that already stopped the scan decides the outcome, whatever follows. The one exception is a prefix that stopped only because it ended in `--length`. |
| `Args.HelpShortCircuits` | passgen.c:86-88 | Once the tokens before it are accepted, `--help` yields success whatever follows. |
| `Args.HelpOnlyFromFlag` | passgen.c:86-88 | The converse of `HelpShortCircuits`: the scan ends with help only at a `--help` token that it reached with every earlier token accepted. |
| `Args.UnknownOptionFails` | passgen.c:111-115 | An unrecognised token after an accepted prefix fails at once with that token, whatever follows. |
| `Args.UnknownOnlyFromToken` | passgen.c:111-115 | The converse of `UnknownOptionFails`: the scan fails with an unknown option only for an unrecognised token of the arguments, reached with every earlier token accepted. |
| `Args.MissingLengthFails` | passgen.c:90-93 | A final `--length` with no operand fails. |
| `Args.LengthChecked` | passgen.c:94-98 | The run fails with the value `atoi` read exactly when that value is outside 1..127. |
| `Args.NonNumericLengthFails` | passgen.c:94-98 | A `--length` operand with no digit (a flag, say) fails as length 0. |
| `Args.LengthStep` | passgen.c:89-98 | An accepted `--length` consumes two tokens and sets the length to the value read. |
| `Args.FlagStep` | passgen.c:99-110 | A class flag consumes one token, switches its class on and increments the count. |
| `Args.FlagsStep` | passgen.c:99-110 | A run of class flags is accepted and switches on each of its classes, in order. |
| `Args.LengthStop` | passgen.c:94-97 | An operand of `--length` outside 1..127 fails the scan with that value, whatever follows. |
| `Args.ScanLengthBlind` | passgen.c:84-116 | Without `--length` among the tokens, the scan does not depend on the length. From two starting lengths it stops the same way, or completes with options that differ only in the length. It never stops for a missing operand. |
| `Args.LaterLengthWins` | passgen.c:94 | A later `--length` overrides an earlier accepted one wherever it comes. With no other `--length` between them, leaving out the earlier pair decides the same. |
| `Args.ScanSetsClass` | passgen.c:99-110 | After a completed scan, a class is on exactly when it was on before or its flag occurs in the arguments. |
| `Args.ScanCountsFlags` | passgen.c:99-110 | After a completed scan, the count is positive exactly when it was before or some class flag occurs. |
| `Args.ScanKeepsLength` | passgen.c:80-98 | Without `--length` in the arguments, the scan leaves the length unchanged. |
| `Args.RequestClasses` | passgen.c:99-121 | In a request, Upper, Lower and Digit are each on exactly when their flag occurs or no class flag occurs at all. Special is on exactly when `--special` occurs. |
| `Args.DefaultClassesWithoutFlags` | passgen.c:118-121 | Without class flags, a request uses exactly {Upper, Lower, Digit}. |
| `Args.DefaultLengthWithoutFlag` | passgen.c:80 | Without `--length`, a request has length 12. |
| `Args.ScanCountBlind` | passgen.c:99-119 | The outcome depends on the flag count only through whether it is zero. |
| `Args.RepeatedFlagIdempotent` | passgen.c:99-110 | Repeating a class flag anywhere after its first occurrence decides the same as giving it once, provided the tokens up to the repeat were accepted. |
| `PassGen.GeneratePassword` | passgen.c:35-76 | Failure happens exactly when no class is enabled. Otherwise the password has the requested length, and each character is `pool[draws[i] % |pool|]` and belongs to an enabled class. |
| `PassGen.GenerateInBuffer` | passgen.c:35-76 | The buffer-level run (pool, loop over the static buffer, read back as a C string) computes exactly `GeneratePassword`. |
| `PassGen.Run` | passgen.c:78-128 | The help exit (status 0) happens exactly for `--help`. A run fails exactly on an argument error, which it reports. A printed password has the requested length and only characters of the requested classes. The exit status is 0 exactly when the run does not fail. |
| `PassGen.RequestsArePrinted` | passgen.c:118-124 | Every request prints a password, the sample of the reference pool, so the empty-pool error cannot be reached from `main`. |
| `PassGen.DefaultRunAvoidsSpecial` | passgen.c:118-124 | Without class flags, the printed password contains only upper-case letters, lower-case letters and digits. |
| `PassGen.EightSpecial` | passgen.c:32 | `--length 8 --special` prints eight characters, all from the special alphabet. |
| `PassGen.LowerDigits` | passgen.c:31 | `--lower --digits` prints twelve characters, each a lower-case letter or a digit. |
| `PassGen.SixteenFromEverything` | passgen.c:30 | `--length 16 --upper --lower --digits --special` prints sixteen characters from the 88-character pool. |
| `PassGen.TooLongRejected` | passgen.c:95-97 | `--length 200` fails with a range error and prints nothing. |

## Left out

- `print_usage` and every `printf`/`fprintf` message (passgen.c:18-33, 64, 91, 96, 112-113, 125). These are output only. The model reduces each run to its `Exit` value and exit status.
- `srand(time(NULL))` and `rand()` (passgen.c:70, 123). Their values are the `draws` parameter. `Run` asks for at least 127 draws because a request never needs more.
- Uniformity and modulo bias of `rand() % pool_len`. These are probabilistic properties and cannot be stated over fixed draws.
- `CStrings.Atoi`: overflow of `atoi` is undefined behaviour in C and is not modelled. Digits are read as an unbounded integer, so every overlong number is rejected as out of range.
- `Args.Scan`: the `int` flag counter is an unbounded `nat`. The overflow after 2^31 - 1 flags is undefined behaviour in C and is not modelled. The count is only ever compared with zero.
- The aliasing caused by the `static` password buffer across calls (passgen.c:37). `main` calls `generate_password` only once.
- The program name `argv[0]`. `Parse` and `Run` take the arguments that follow it.
- Arguments as byte strings. Each `argv` token is a NUL-terminated byte string in C, but the model takes it as a Dafny `string`, a sequence of Unicode characters that may contain `'\0'`. Nothing modelled depends on this: tokens are only compared with the flag spellings and read by `atoi`.
