# Kotlin tutorial snippets: a verified model

The repository is a Kotlin (and a little Java) tutorial. Its files are small `main` scripts
and toy classes. This project models the self-contained functions and classes whose
behaviour can be stated exactly, and proves what the tutorial promises about them. The
functions and classes fall into these groups:

- validators and guarded state: `PersonWithValidation`, `AnotherExample`, the `Person.id`
  setter, the `require`/`check`/`error` chain `foo(k, value)`, `getUserNameAndState` and
  `addNumberToTwo`;
- small objects that keep state: the `Food` companion counter, the secondary
  constructors of `Motorcycle` and `GraduateStudent`, the `with` block, the Fibonacci
  generator, and `BlogPostJava`'s `equals`/`hashCode`/`toString`;
- string manipulation: `upperCaseFirstLetter`, `String.remove`, `reverse`, name and
  e-mail templates, and `Document.getDescription`;
- classification and lookup: fizzbuzz, smart casts, parity predicates, `getColor`,
  `Color.rgb`, `getMnemonic`, the user tables and the null-safe `getCountryName` chain;
- sequence steps: the next-even generator with `takeWhile`, and the
  map/filter/groupBy pipeline.

Kotlin's own semantics are written out in module `KotlinBase` (`kotlin_base.dfy`):
- `Int` and `Long` are 32- and 64-bit types that wrap around (`WrapInt`, `WrapLong`).
- `%` truncates toward zero (`Rem`), unlike Dafny's Euclidean `%`.
- `require`, `check`, `error` and `throw` become `Throw` results that carry the exception
  and its message.
- The module also defines `filter`, `groupBy`, `map`, `reversed`, `substring`, `trim`,
  `toUpperCase` and decimal rendering.

`Text.SplitFirst` (`text.dfy`) is a model-side inverse. It is used to prove that the
templates `"$first,$last"`, `"$first $last"`, `"$lastName $firstName"`,
`"$firstName@company.com"` and the `toString` title can be read back.

Several source files come in two versions of different lengths (the two `Chapter3.kt`,
`Chapter4.kt`, `Chapter5.kt`, `Chapter7.kt`, `Chapter10.kt`, `Lesson10.kt`,
`BlogPostJava.java` and inheritance files). The files differ, but the functions modelled
here appear verbatim in both. One Dafny member models each such function. Its row cites one
copy, and the "states" cell names the line range of the other copy.

Programs that print are modelled as functions or methods that return the printed value.
Calls into Java classes the tutorial does not define are parameters:
- `Math.sqrt`;
- `URI.hashCode`, `Date.hashCode` and `Date.toString`.

## Model

| member | source | states |
|---|---|---|
| KotlinBase.WrapInt | src/main/kotlin/Chapter10.kt:159 | the `Int` a mathematical integer wraps to is congruent to it modulo 2^32 and equals it when it is in range |
| KotlinBase.WrapLong | src/main/kotlin/Summary.kt:492 | the `Long` a sum wraps to is congruent modulo 2^64 and exact when in range |
| KotlinBase.WrapIntCongruent | KotlinFromScratch/src/main/java/com/example/java/BlogPostJava.java:63-65 | integers congruent modulo 2^32 wrap to the same `int` |
| KotlinBase.WrapLongCongruent | src/main/kotlin/Summary.kt:492 | integers congruent modulo 2^64 wrap to the same `Long` |
| KotlinBase.Rem | src/main/kotlin/Summary.kt:254 | Kotlin's `%`: congruent to the dividend, non-negative for a non-negative dividend and non-positive for a negative one, smaller than the divisor in size |
| KotlinBase.RemZeroIffDivides | src/main/kotlin/book/Chapter5.kt:32 | `a % b == 0` in Kotlin exactly when `b` divides `a` |
| KotlinBase.Filter | src/main/kotlin/Summary.kt:266 | `filter` keeps exactly the elements satisfying the predicate and never lengthens the list |
| KotlinBase.FilterCount | src/main/kotlin/Summary.kt:266 | `filter` keeps every occurrence of a selected element and no occurrence of any other |
| KotlinBase.FilterAppend | src/main/kotlin/KotlinFromScratch/Lesson6.kt:81-83 | `filter` distributes over concatenation, so it keeps the original order |
| KotlinBase.FilterAll | src/main/kotlin/Summary.kt:506 | filtering with a predicate every element satisfies returns the list unchanged |
| KotlinBase.FilterNone | src/main/kotlin/Summary.kt:506 | filtering with a predicate no element satisfies returns the empty list |
| KotlinBase.FilterComplement | src/main/kotlin/book/Chapter5.kt:26-27 | filters by a predicate and by its negation split the list as a multiset |
| KotlinBase.MapList | src/main/kotlin/Summary.kt:505 | `map` keeps the length and applies the function at every index |
| KotlinBase.GroupBy | src/main/kotlin/Summary.kt:507 | `groupBy` has a key exactly for each key that occurs, and each group is the list filtered by that key, in order |
| KotlinBase.GroupByStep | src/main/kotlin/Summary.kt:507 | appending one element to its key's group keeps the grouping of the longer list |
| KotlinBase.Range | src/main/kotlin/Summary.kt:505 | `lo..hi` has `hi - lo + 1` elements (none when `lo > hi`) and its i-th element is `lo + i` |
| KotlinBase.ReversedAt | src/main/kotlin/Chapter4.kt:100 | `reversed()` puts the character at `k` at position `n - 1 - k` |
| KotlinBase.Reversed | src/main/kotlin/Chapter4.kt:100 | `reversed()` keeps the length; where each element goes is stated by `ReversedAt` |
| KotlinBase.ReversedInvolution | src/main/kotlin/Chapter4.kt:100 | reversing twice gives the original string |
| KotlinBase.Substring | src/main/kotlin/web/StringUtils.kt:7 | `substring(begin, end)` throws `StringIndexOutOfBoundsException` exactly when the bounds are out of range, and otherwise returns the characters from `begin` up to `end` |
| KotlinBase.SubstringFrom | src/main/kotlin/web/StringUtils.kt:7 | `substring(begin)` succeeds exactly when `begin` is at most the length, and then returns the suffix |
| KotlinBase.UpperChar | src/main/kotlin/KotlinFromScratch/Lesson6.kt:56 | `Char.toUpperCase()` on ASCII: a lower-case letter moves down by 32 and any other character is kept |
| KotlinBase.UpperCase | src/main/kotlin/KotlinFromScratch/Lesson6.kt:56 | `toUpperCase()` keeps the length and upper-cases every character |
| KotlinBase.TrimStart | src/main/kotlin/ProgrammingKotlin/Chapter3.kt:72 | the leading whitespace is dropped: the result is a suffix of the input that does not start with whitespace |
| KotlinBase.TrimEnd | src/main/kotlin/ProgrammingKotlin/Chapter3.kt:72 | the trailing whitespace is dropped: the result is a prefix of the input that does not end with whitespace |
| KotlinBase.Trim | src/main/kotlin/ProgrammingKotlin/Chapter3.kt:72 | `trim()` returns a contiguous piece of the input, cut only where the removed prefix and suffix are all whitespace, that neither starts nor ends with whitespace |
| KotlinBase.IsBlank | src/main/kotlin/ProgrammingKotlin/Chapter3.kt:72-75 | the names the validation rejects: every character is whitespace, the empty string included |
| KotlinBase.IsWhitespace | src/main/kotlin/ProgrammingKotlin/Chapter3.kt:72-75 | JVM `Char.isWhitespace()`: space, tab, newline and carriage return are whitespace; ASCII letters and digits are not; among the control characters exactly U+0009..U+000D and U+001C..U+001F are |
| KotlinBase.TrimNotEmptyIffNotBlank | src/main/kotlin/ProgrammingKotlin/Chapter3.kt:72-77 | `s.trim().isNotEmpty()` holds exactly when `s` has a non-whitespace character |
| KotlinBase.NatToString | src/main/kotlin/Chapter4.kt:78 | the decimal form of a natural number is a non-empty digit string without a leading zero |
| KotlinBase.NatToStringRoundTrip | src/main/kotlin/Chapter4.kt:78 | reading the decimal digits back gives the number |
| KotlinBase.IntToString | src/main/kotlin/Chapter4.kt:78 | an `Int` renders as its magnitude's digits, with a leading '-' exactly when it is negative |
| Text.SplitFirst | src/main/kotlin/ProgrammingKotlin/Chapter3.kt:99 | splitting at the first separator fails exactly when the separator is absent, and otherwise gives a separator-free head that joins back with the tail to the input |
| Text.SplitUnique | src/main/kotlin/ProgrammingKotlin/Chapter3.kt:99 | a joined string determines its separator-free head and its tail |
| Text.SplitJoin | src/main/kotlin/ProgrammingKotlin/Chapter3.kt:99 | splitting `a + sep + b` at the first `sep` gives back `a` and `b` when `a` has no `sep` |
| Summary.SmartCastExample | src/main/kotlin/Summary.kt:103-116 | a Boolean is returned as is, an Int is true iff positive, a String is true iff non-empty, anything else gives false |
| Summary.SmartCastWhenExample | src/main/kotlin/Summary.kt:124-129 | the `when` form agrees with the `if` chain on every value |
| Summary.SmartCastSamples | src/main/kotlin/Summary.kt:117-121 | the printed results true, false, true, false, true |
| Summary.Odd | src/main/kotlin/Summary.kt:254 | `x % 2 == 1` with truncated `%` holds exactly for positive odd `x` |
| Summary.Even | src/main/kotlin/Summary.kt:259 | `x % 2 == 0` holds exactly for even `x`, negatives included |
| Summary.OddEvenExclusive | src/main/kotlin/Summary.kt:254-261 | for `x >= 0` exactly one of `odd` and `even` holds |
| Summary.NegativeOddNeither | src/main/kotlin/Summary.kt:254-261 | for a negative odd `x` the remainder is -1, so neither `odd` nor `even` holds |
| Summary.Remove | src/main/kotlin/Summary.kt:265-267 | `remove(c)` leaves no `c` and keeps every other character that occurs |
| Summary.RemoveCount | src/main/kotlin/Summary.kt:265-267 | as a multiset, the result is the input with every `c` deleted and all other counts unchanged |
| Summary.RemoveAppend | src/main/kotlin/Summary.kt:265-267 | removal distributes over concatenation, so the kept characters stay in order |
| Summary.RemoveAbsent | src/main/kotlin/Summary.kt:265-267 | removing a character that does not occur changes nothing |
| Summary.RemoveIdempotent | src/main/kotlin/Summary.kt:265-267 | removing twice equals removing once |
| Summary.RemoveOnly | src/main/kotlin/Summary.kt:265-267 | a string made only of `c` becomes empty |
| Summary.RemoveRuns | src/main/kotlin/Summary.kt:265-267 | runs of `c` between `c`-free pieces are cut out and the pieces are kept in order |
| Summary.RemoveSample | src/main/kotlin/Summary.kt:268 | `"Hello, world!".remove('l')` is `"Heo, word!"` |
| Summary.NewAnotherExample | src/main/kotlin/Summary.kt:350-356 | construction succeeds iff `x > 0` and `1 <= y <= 10`; otherwise it throws `IllegalArgumentException` with the first failing message |
| Summary.NewAnotherExampleWithX | src/main/kotlin/Summary.kt:360 | the secondary constructor uses `y = 5`, so it succeeds exactly for `x > 0` |
| Summary.AnotherExampleSamples | src/main/kotlin/Summary.kt:380-382 | `(10, 12)` throws, while `(10, 4)` and `(10)` construct |
| Summary.Copy | src/main/kotlin/Summary.kt:388-394 | `copy` takes each given argument and keeps every omitted field |
| Summary.CopyOnlyY | src/main/kotlin/Summary.kt:394 | `copy(y = v)` changes only `y`, and `copy()` changes nothing |
| Summary.CopySample | src/main/kotlin/Summary.kt:390-395 | `(1, 2, 4).copy(y = 100)` is `(1, 100, 4)` |
| Summary.MutableDataClassExample.constructor | src/main/kotlin/Summary.kt:414-416 | the three `var` fields hold the constructor's arguments |
| Summary.MutableDataClassExample.ApplyWith | src/main/kotlin/Summary.kt:417-421 | the `with` block sets `x` to `x - 2`, `y` to `y + 2` and `z` to `z - 1` in place, with `Int` wrap-around |
| Summary.WithSample | src/main/kotlin/Summary.kt:416-423 | `(7, 4, 9)` becomes `(5, 6, 8)` |
| Summary.FibLong | src/main/kotlin/Summary.kt:487-499 | term `n` of the generator: 0 and 1, then each term the `Long` sum of the two before it, wrapping |
| Summary.FibLongStep | src/main/kotlin/Summary.kt:492-495 | each `Long` term is the wrapped sum of the two before it |
| Summary.FibMonotone | src/main/kotlin/Summary.kt:487-499 | the Fibonacci numbers never decrease |
| Summary.FibLongExact | src/main/kotlin/Summary.kt:492 | while the true Fibonacci number fits in a `Long`, the wrapping generator computes it exactly |
| Summary.FibLongWraps | src/main/kotlin/Summary.kt:487-499 | every `Long` term, past the overflow included, is the true Fibonacci number wrapped into the `Long` range |
| Summary.AddLongWraps | src/main/kotlin/Summary.kt:492 | adding two wrapped `Long`s gives the wrapped true sum |
| Summary.FibonacciSequence.constructor | src/main/kotlin/Summary.kt:488-489 | the captured variables start at `a = 0`, `b = 1`, no call made yet |
| Summary.FibonacciSequence.Next | src/main/kotlin/Summary.kt:491-496 | `next()` updates `a` and `b` in place, keeps them consecutive terms, and returns term number `calls` |
| Summary.FibonacciSequence.Take | src/main/kotlin/Summary.kt:499-501 | `take(n).toList()` returns the next `n` terms in order and advances the generator by `n` calls |
| Summary.FibonacciRecurrence | src/main/kotlin/Summary.kt:487-499 | in any run of generated terms, each element from the third on is the wrapped sum of the two before it |
| Summary.FibRun | src/main/kotlin/Summary.kt:498-501 | `n` calls of `next()` yield exactly `n` values |
| Summary.FibRunAt | src/main/kotlin/Summary.kt:491-498 | the `i`-th value after `start` earlier calls is term number `start + i + 1` |
| Summary.FibRunStep | src/main/kotlin/Summary.kt:492-495 | one value of a run, from the third on, is the wrapped sum of the two before it |
| Summary.FirstTenRun | src/main/kotlin/Summary.kt:488-502 | from the seeds `0` and `1` the ten generated values are 1, 1, 2, 3, 5, 8, 13, 21, 34, 55 |
| Summary.FirstTenFibonacci | src/main/kotlin/Summary.kt:501-502 | a fresh generator's `take(10).toList()` is `[1, 1, 2, 3, 5, 8, 13, 21, 34, 55]` |
| Summary.Times3 | src/main/kotlin/Summary.kt:505 | `it * 3` on `Int`: congruent to the true product modulo 2^32, and equal to it while it fits |
| Summary.Selected | src/main/kotlin/Summary.kt:505-506 | `.map { it * 3 }.filter { it < 20 }` keeps exactly the tripled elements below 20, and nothing else |
| Summary.Pipeline | src/main/kotlin/Summary.kt:505-508 | the final map has only the keys "odd" and "even", each present exactly when the selection holds an element of that parity |
| Summary.MapKeys | src/main/kotlin/Summary.kt:508 | `mapKeys` renames `true`/`false` to "even"/"odd" one-to-one, keeping every group |
| Summary.PipelineGroups | src/main/kotlin/Summary.kt:505-508 | the "even" and "odd" groups are the selected list filtered by parity |
| Summary.PipelinePartition | src/main/kotlin/Summary.kt:505-508 | the two groups partition the selected list as a multiset, each holding only its own parity |
| Summary.TripledSample | src/main/kotlin/Summary.kt:505 | `(1..9).map { it * 3 }` is the multiples of three from 3 to 27 |
| Summary.SelectedSample | src/main/kotlin/Summary.kt:505-506 | `(1..9).map { it * 3 }.filter { it < 20 }` is `[3, 6, 9, 12, 15, 18]` |
| Summary.EvenGroupSample | src/main/kotlin/Summary.kt:507 | the even elements of the selection are `[6, 12, 18]` |
| Summary.OddGroupSample | src/main/kotlin/Summary.kt:507 | the odd elements of the selection are `[3, 9, 15]` |
| Summary.MapKeysBoth | src/main/kotlin/Summary.kt:508 | with both parities present, `mapKeys` gives exactly the two renamed groups |
| Summary.GroupByBothParities | src/main/kotlin/Summary.kt:507 | when both parity filters are non-empty, `groupBy` holds both groups and each equals its filter |
| Summary.PipelineSample | src/main/kotlin/Summary.kt:505-509 | the pipeline over 1..9 is `{odd=[3, 9, 15], even=[6, 12, 18]}` |
| Chapter4.FizzBuzzLine | src/main/kotlin/Chapter4.kt:72-79 | "Fizz Buzz" iff 3 and 5 divide k, "Fizz" iff only 3 does, "Buzz" iff only 5 does, otherwise k's decimal form (the copy is ProgrammingKotlinBook/src/main/kotlin/Chapter4.kt:59-66) |
| Chapter4.MultipleOf15 | src/main/kotlin/Chapter4.kt:74-77 | the combined case is tested first, so a multiple of 15 always gives "Fizz Buzz" |
| Chapter4.FizzBuzz | src/main/kotlin/Chapter4.kt:70-81 | one line per k from start to end in ascending order, none when start > end (copy at ProgrammingKotlinBook/src/main/kotlin/Chapter4.kt:57-68) |
| Chapter4.Bar | src/main/kotlin/Chapter4.kt:85 | the printed line is `k`, " - ", `m` (1 when omitted), " - ", then "true" or "false" for `j` (true when omitted); it ends in "true" exactly when `j` is not false (copy at ProgrammingKotlinBook/src/main/kotlin/Chapter4.kt:71) |
| Chapter4.BarDefaults | src/main/kotlin/Chapter4.kt:85-88 | an omitted `m` behaves as `1L` and an omitted `j` as `true` |
| Chapter4.BarSample | src/main/kotlin/Chapter4.kt:88 | `bar(10)` prints "10 - 1 - true" |
| Chapter4.Reverse | src/main/kotlin/Chapter4.kt:100 | `String.reverse()` keeps the length and puts the character at `i` at position `n - 1 - i` (copy at ProgrammingKotlinBook/src/main/kotlin/Chapter4.kt:83) |
| Chapter4.ReverseInvolution | src/main/kotlin/Chapter4.kt:100 | reversing twice is the identity |
| Chapter4.ReverseSample | src/main/kotlin/Chapter4.kt:101 | "Hello World" reverses to "dlroW olleH" |
| Chapter4.Roots | src/main/kotlin/Chapter4.kt:146-150 | negative `k` throws `IllegalArgumentException("Failed requirement.")`; otherwise the pair is the root and its negation (copy at ProgrammingKotlinBook/src/main/kotlin/Chapter4.kt:122-126) |
| Chapter4.Foo | src/main/kotlin/Chapter4.kt:184-188 | throws `IllegalArgumentException` iff `k <= 10`; for `k > 10` a false `value` fails `check`; otherwise it throws iff `k == 20`, each with its message (copy at ProgrammingKotlinBook/src/main/kotlin/Chapter4.kt:153-157) |
| Chapter3.NewPersonWithValidation | src/main/kotlin/ProgrammingKotlin/Chapter3.kt:70-81 | succeeds iff neither name is blank and a non-null age is in 0..149; the first failing check in the order firstName, lastName, age chooses the message (copy at src/main/kotlin/book/Chapter3.kt:46-57) |
| Chapter3.NewPersonWithoutAge | src/main/kotlin/ProgrammingKotlin/Chapter3.kt:86 | the secondary constructor passes a null age, so only the name checks apply (copy at src/main/kotlin/book/Chapter3.kt:60) |
| Chapter3.PersonWithoutAgeSample | src/main/kotlin/ProgrammingKotlin/Chapter3.kt:86 | ("John", "Doe") constructs with a null age |
| Chapter3.PersonWithAgeSample | src/main/kotlin/ProgrammingKotlin/Chapter3.kt:70-81 | ("Will", "Smith", 45) constructs |
| Chapter3.BlankNameSample | src/main/kotlin/ProgrammingKotlin/Chapter3.kt:72-74 | a whitespace-only first name fails first, even with an invalid age |
| Chapter3.NewPerson2 | src/main/kotlin/ProgrammingKotlin/Chapter3.kt:94-101 | `init` stores the age and the name `"$firstName,$lastName"`: the first name, a comma, then the last name, for any names (copy at src/main/kotlin/book/Chapter3.kt:66-73) |
| Chapter3.GetName | src/main/kotlin/ProgrammingKotlin/Chapter3.kt:103 | `getName()` returns the stored name, whose shape `NewPerson2` states |
| Chapter3.GetNameSplits | src/main/kotlin/ProgrammingKotlin/Chapter3.kt:99-103 | splitting `getName()` at its first comma gives back both names when the first has no comma |
| Chapter3.GetNameSample | src/main/kotlin/ProgrammingKotlin/Chapter3.kt:107-108 | ("John", "Doe") gives "John,Doe" |
| Chapter3.DocumentImpl | src/main/kotlin/ProgrammingKotlin/Chapter3.kt:238-250 | `DocumentImpl` keeps the default name "NoName" and has size 0 and version 0 (copy at src/main/kotlin/book/Chapter3.kt:171-185) |
| Chapter3.GetDescription | src/main/kotlin/ProgrammingKotlin/Chapter3.kt:232-234 | the description is "Document " + name, then " has " + size + " byte(-s)" (copy at src/main/kotlin/book/Chapter3.kt:165-167) |
| Chapter3.DocumentImplDescription | src/main/kotlin/ProgrammingKotlin/Chapter3.kt:225-250 | `DocumentImpl` describes itself as "Document NoName has 0 byte(-s)" |
| Chapter7.DefaultCountry | src/main/kotlin/Chapter7.kt:158 | `Country()` is named "No country" (copy at ProgrammingKotlinBook/src/main/kotlin/Chapter7.kt:119) |
| Chapter7.GetCountryNameSafe | src/main/kotlin/Chapter7.kt:59-61 | the safe-call chain is null iff some link is null, and otherwise it is the country's name (copy at ProgrammingKotlinBook/src/main/kotlin/Chapter7.kt:51-53) |
| Chapter7.GetCountryName | src/main/kotlin/Chapter7.kt:160-175 | the nested ifs that update `countryName` return the same value as the safe-call chain on every input (copy at ProgrammingKotlinBook/src/main/kotlin/Chapter7.kt:121-136) |
| Chapter7.CountryNameSamples | src/main/kotlin/Chapter7.kt:106-107 | a full chain to `Country()` gives "No country" and a missing country gives null |
| Chapter7.ElvisLength | src/main/kotlin/Chapter7.kt:71 | `name?.length ?: -1` is -1 exactly for null and the length otherwise (copy at ProgrammingKotlinBook/src/main/kotlin/Chapter7.kt:59) |
| Chapter7.IfLength | src/main/kotlin/Chapter7.kt:54 | the if-expression form equals the elvis form (copy at ProgrammingKotlinBook/src/main/kotlin/Chapter7.kt:48) |
| Chapter7.GetNotNullName | src/main/kotlin/Chapter7.kt:45 | `name ?: "John"` returns the name when present and "John" otherwise (copy at ProgrammingKotlinBook/src/main/kotlin/Chapter7.kt:42) |
| Lesson8.UpperCaseFirstLetter | src/main/kotlin/web/Lesson8.kt:38-41 | throws `StringIndexOutOfBoundsException` exactly on the empty string; otherwise the first character is upper-cased and the rest is kept; the extension property at lines 34-35, src/main/kotlin/web/StringUtils.kt:4-7 and src/main/kotlin/KotlinFromScratch/Lesson6.kt:38-42 are the same expression |
| Lesson8.UpperCaseFirstLetterIdempotent | src/main/kotlin/web/StringUtils.kt:7 | applying it to its own result changes nothing |
| Lesson8.UpperCaseFirstLetterKeeps | src/main/kotlin/web/Lesson8.kt:46-48 | a string that does not start with an ASCII lower-case letter is returned unchanged |
| Lesson8.UpperCaseFirstLetterSamples | src/main/kotlin/web/Lesson8.kt:46-48 | "John" and "Doe" stay, "Williams" stays and "john" becomes "John" |
| Lesson8.Components | src/main/kotlin/web/Lesson8.kt:155-158 | every constant's components are in 0..255 |
| Lesson8.PackRoundTrip | src/main/kotlin/web/Lesson8.kt:160 | three bytes pack into 24 bits and are recovered with `/ 65536`, `/ 256 % 256` and `% 256` |
| Lesson8.Rgb | src/main/kotlin/web/Lesson8.kt:160 | `rgb()` lies in [0, 2^24) and decodes to the constant's components |
| Lesson8.RgbInjective | src/main/kotlin/web/Lesson8.kt:155-160 | distinct colours have distinct `rgb()` values |
| Lesson8.GetMnemonic | src/main/kotlin/web/Lesson8.kt:163-172 | every colour's word starts with a capital letter and has at least two characters |
| Lesson8.GetMnemonicInjective | src/main/kotlin/web/Lesson8.kt:163-172 | the seven words are pairwise distinct |
| Lesson8.IndigoSample | src/main/kotlin/web/Lesson8.kt:158 | INDIGO is (75, 0, 130), its `rgb()` is 0x4B0082 and its mnemonic is "In" |
| Lesson6.SayHello | src/main/kotlin/KotlinFromScratch/Lesson6.kt:55-57 | `fn(name).toUpperCase()` has `fn(name)`'s length, no lower-case letter, and the upper-cased character at every index |
| Lesson6.Hello | src/main/kotlin/KotlinFromScratch/Lesson6.kt:60-62 | the greeting is "Hello, my name is " followed by the name |
| Lesson6.SayHelloSample | src/main/kotlin/KotlinFromScratch/Lesson6.kt:65-68 | "Greg" with `::hello` and "Martin" with the lambda give the two upper-case greetings |
| Lesson6.UpperCaseFirstLetterSample | src/main/kotlin/KotlinFromScratch/Lesson6.kt:44-46 | "john" becomes "John" and "Williams" stays |
| Lesson6.FilteredNamesByLength | src/main/kotlin/KotlinFromScratch/Lesson6.kt:79-84 | the result holds exactly the names of the captured length, and is no longer than the list |
| Lesson6.HasLength | src/main/kotlin/KotlinFromScratch/Lesson6.kt:81-83 | the closure accepts a string exactly when its length equals the captured `length` |
| Lesson6.FilterTwoOfFour | src/main/kotlin/KotlinFromScratch/Lesson6.kt:81-83 | of four names where only the last two have the wanted length, the filter keeps exactly those two in order |
| Lesson6.FilteredNamesSample | src/main/kotlin/KotlinFromScratch/Lesson6.kt:87 | length 5 gives `[Chike, Kechi]` |
| Interfaces.GetColor | src/main/kotlin/web/Interfaces.kt:37-44 | the result is one of the four names; RED, GREEN and BLUE each occur exactly for their triple, and WHITE for every other triple |
| Interfaces.GetColorInjectiveOnPrimaries | src/main/kotlin/web/Interfaces.kt:37-44 | two triples with the same non-WHITE colour are equal |
| Interfaces.Car.GetBrand | src/main/kotlin/web/Interfaces.kt:58-60 | the brand is "Circle" |
| Interfaces.Car.IsNew | src/main/kotlin/web/Interfaces.kt:56 | a `Car` is always new |
| Interfaces.Car.GetColorName | src/main/kotlin/web/Interfaces.kt:62-64 | `getColor()` is "Blue" |
| Interfaces.Car.GetColorOf | src/main/kotlin/web/Interfaces.kt:54 | `Car` inherits the default `getColor(r, g, b)` |
| Interfaces.CarSample | src/main/kotlin/web/Lesson9.kt:22-23 | `Car().getColor(255, 0, 0)` is "RED", `new` is true, and brand and colour are as overridden |
| Classes.Serie.constructor | KotlinFromScratch/src/main/kotlin/com/example/kotlin/Classes.kt:51 | omitted arguments default to "unknown title" and 0 |
| Classes.Person.constructor | KotlinFromScratch/src/main/kotlin/com/example/kotlin/Classes.kt:55-65 | the name defaults to "John" and `id` starts as "X123456789" |
| Classes.Person.Lastname | KotlinFromScratch/src/main/kotlin/com/example/kotlin/Classes.kt:56 | the getter always gives "Doe" |
| Classes.Person.Age | KotlinFromScratch/src/main/kotlin/com/example/kotlin/Classes.kt:59-62 | the getter always gives 30 |
| Classes.Person.SetId | KotlinFromScratch/src/main/kotlin/com/example/kotlin/Classes.kt:65-71 | an empty id throws `IllegalArgumentException("id must not be empty")` and keeps the old id; any other id is stored |
| Classes.PersonSample | src/main/kotlin/web/Lesson7.kt:35-36 | a default person reads "John", "Doe", 30; a rejected id leaves "X123456789" and an accepted one is stored |
| Classes.Motorcycle.constructor | KotlinFromScratch/src/main/kotlin/com/example/kotlin/Classes.kt:78-80 | the primary constructor leaves `new` null and `colour` empty |
| Classes.Motorcycle.WithNew | KotlinFromScratch/src/main/kotlin/com/example/kotlin/Classes.kt:85-87 | after delegating, the three-argument constructor sets `new` |
| Classes.Motorcycle.WithNewAndColour | KotlinFromScratch/src/main/kotlin/com/example/kotlin/Classes.kt:89-91 | after delegating, the four-argument constructor sets `new` and then `colour` |
| Classes.FoodCompanion.constructor | KotlinFromScratch/src/main/kotlin/com/example/kotlin/Classes.kt:103 | `count` starts at 0 |
| Classes.FoodCompanion.Create | KotlinFromScratch/src/main/kotlin/com/example/kotlin/Classes.kt:104 | `create` returns a new Food with the given name and colour and bumps `count` by one |
| Classes.Food.constructor | KotlinFromScratch/src/main/kotlin/com/example/kotlin/Classes.kt:95-98 | `init` increments the companion's `count` with `Int` wrap-around |
| Classes.FoodSample | src/main/kotlin/web/Lesson7.kt:84-89 | after creating the tomato and the potato, the tomato is "Tomato"/"Red" and `count` is 2 |
| Classes.ConstructorsSample | src/main/kotlin/web/Lesson7.kt:24-40 | `Serie("Game of Thrones")` has year 0 before it is set; the three motorcycles carry the constructor arguments |
| Classes.ReturnSomething | KotlinFromScratch/src/main/kotlin/com/example/kotlin/Classes.kt:125-127 | `returnSomething(s)` returns `s` |
| Classes.ReturnSomethingDefault | KotlinFromScratch/src/main/kotlin/com/example/kotlin/Classes.kt:119-130 | the default is "something", which differs from `nothing` |
| Lesson4.Lookup | src/main/kotlin/web/Lesson4.kt:123-124 | `map[id]` is null exactly for a missing key |
| Lesson4.GetUserNameAndState | src/main/kotlin/web/Lesson4.kt:118-127 | throws `IllegalArgumentException("Error: id is less than 0")` exactly for `id <= 0`; otherwise the pair of table lookups |
| Lesson4.GetUserNameStateAndAge | src/main/kotlin/web/Lesson4.kt:129-138 | the same guard with message "id is less than 0", and the age is always 6 |
| Lesson4.TripleExtendsPair | src/main/kotlin/web/Lesson4.kt:118-138 | both functions fail on the same ids and agree on name and state |
| Lesson4.TablesShareKeys | src/main/kotlin/web/Lesson4.kt:121-122 | for a positive id, name and state are both present or both null, present exactly for 101, 102 and 104 |
| Lesson4.UserSamples | src/main/kotlin/web/Lesson4.kt:98-103 | 101, 102 and 104 give their pairs, 103 gives (null, null), 0 throws, and the triple for 101 ends in 6 |
| Chapter10.AddIntWraps | src/main/kotlin/Chapter10.kt:159 | `it + 1` and `it + 2` are 32-bit wrapping additions |
| Chapter10.NextEven | src/main/kotlin/Chapter10.kt:158-160 | up to `Int.MAX_VALUE - 2` the step returns an even number above `n`, one or two higher, and two only when `n + 1` is odd; from `Int.MAX_VALUE - 1` on it wraps to `Int.MIN_VALUE` (copy at src/main/kotlin/book/Chapter10.kt:56-58) |
| Chapter10.NextEvenIsSmallest | src/main/kotlin/Chapter10.kt:158-160 | no even number lies strictly between `n` and the step's result, negative `n` included |
| Chapter10.Iterate | src/main/kotlin/Chapter10.kt:158-160 | element `k` of `generateSequence(seed)`: the seed stepped `k` times, even after the seed |
| Chapter10.IterateStep | src/main/kotlin/Chapter10.kt:158-160 | each element after the seed is even and larger than the one before |
| Chapter10.NextEvenOfEven | src/main/kotlin/Chapter10.kt:159 | from an even number the step adds 2 |
| Chapter10.IterateFromEven | src/main/kotlin/Chapter10.kt:158-160 | from an even seed the k-th element is `seed + 2k` |
| Chapter10.PrefixBelowExtend | src/main/kotlin/Chapter10.kt:158-161 | a prefix below the limit extended by the next element, when that element is below the limit, is still such a prefix, and the step from it rises |
| Chapter10.PrefixBelowIncreasing | src/main/kotlin/Chapter10.kt:158-161 | a prefix taken below the limit is strictly increasing and even after the seed |
| Chapter10.TakeWhileBelow | src/main/kotlin/Chapter10.kt:161 | `takeWhile { it < limit }` returns the longest prefix of the sequence below the limit, strictly increasing and even after the seed (copy at src/main/kotlin/book/Chapter10.kt:59) |
| Chapter10.EvenNumbersSample | src/main/kotlin/Chapter10.kt:161 | from 100 the prefix below 110 is `[100, 102, 104, 106, 108]` |
| BlogPost.HashFoldPolynomial | KotlinFromScratch/src/main/java/com/example/java/BlogPostJava.java:62-65 | folding `31 * result + h` over any list of field hashes, with `int` wrap-around at every step, equals the base-31 polynomial of the hashes reduced once to an `int` |
| BlogPost.HashFoldSnoc | KotlinFromScratch/src/main/java/com/example/java/BlogPostJava.java:63 | one more field multiplies the running hash by 31, adds the field hash, and wraps |
| BlogPost.PolySumSnoc | KotlinFromScratch/src/main/java/com/example/java/BlogPostJava.java:63 | appending a term multiplies the polynomial by 31 and adds the term |
| BlogPost.CharCodes | KotlinFromScratch/src/main/java/com/example/java/BlogPostJava.java:62 | the codes `String.hashCode` folds: one per character, in order |
| BlogPost.StringHashCode | KotlinFromScratch/src/main/java/com/example/java/BlogPostJava.java:62 | `String.hashCode` is the documented polynomial `s[0]*31^(n-1) + … + s[n-1]` reduced to an `int` |
| BlogPost.HashFoldFour | KotlinFromScratch/src/main/java/com/example/java/BlogPostJava.java:62-65 | the fold over four field hashes is three nested wrapping steps |
| BlogPost.StringHashSamples | KotlinFromScratch/src/main/java/com/example/java/BlogPostJava.java:62 | `String.hashCode` of "", "a" and "ab" is 0, 97 and 97*31+98 |
| BlogPost.NullSafeEquals | KotlinFromScratch/src/main/java/com/example/java/BlogPostJava.java:51-56 | `a != null ? a.equals(b) : b == null` holds exactly when the two fields are equal, null equal only to null |
| BlogPost.NullSafeHash | KotlinFromScratch/src/main/java/com/example/java/BlogPostJava.java:62-65 | a null field contributes 0 and a present one its own hash |
| BlogPost.BlogPostJava.constructor | KotlinFromScratch/src/main/java/com/example/java/BlogPostJava.java:36-41 | the final fields hold the constructor's arguments (copy at src/main/java/web/BlogPostJava.java:18-23) |
| BlogPost.BlogPostJava.Equals | KotlinFromScratch/src/main/java/com/example/java/BlogPostJava.java:45-57 | true for the same reference, false for null or another class, and otherwise true iff all four fields are pairwise equal (copy at src/main/java/web/BlogPostJava.java:27-39) |
| BlogPost.BlogPostJava.FieldHashes | KotlinFromScratch/src/main/java/com/example/java/BlogPostJava.java:62-65 | there are exactly four field hashes, each 0 for a null field: the title's `String.hashCode`, the URL's hash, the description's `String.hashCode` and the date's hash, in that order |
| BlogPost.BlogPostJava.HashValue | KotlinFromScratch/src/main/java/com/example/java/BlogPostJava.java:61-67 | the hash is the polynomial in the four field hashes, reduced to an `int` |
| BlogPost.BlogPostJava.HashCode | KotlinFromScratch/src/main/java/com/example/java/BlogPostJava.java:61-67 | the statement-by-statement accumulation into `result` returns that value (copy at src/main/java/web/BlogPostJava.java:43-49) |
| BlogPost.BlogPostJava.ToString | KotlinFromScratch/src/main/java/com/example/java/BlogPostJava.java:71-78 | the string starts with "[JAVA] BlogPostJava{title='", continues with the title (or "null") and a quote, then the three other fields as `Rest` states, and ends with '}' (copy at src/main/java/web/BlogPostJava.java:53-60) |
| BlogPost.BlogPostJava.Rest | KotlinFromScratch/src/main/java/com/example/java/BlogPostJava.java:74-77 | after the title come ", url=" and the URL's text (or "null"), then ", description='", the description (or "null") and a quote, then ", publishDate=" and the date's text (or "null"), and a closing '}' |
| BlogPost.EqualsReflexive | KotlinFromScratch/src/main/java/com/example/java/BlogPostJava.java:46 | a post equals itself |
| BlogPost.EqualsSymmetric | KotlinFromScratch/src/main/java/com/example/java/BlogPostJava.java:51-56 | `a.equals(b) == b.equals(a)` |
| BlogPost.EqualsTransitive | KotlinFromScratch/src/main/java/com/example/java/BlogPostJava.java:51-56 | equality of posts is transitive |
| BlogPost.EqualsImpliesEqualHash | KotlinFromScratch/src/main/java/com/example/java/BlogPostJava.java:44-67 | equal posts have equal hash codes, whatever hashes `URI` and `Date` use (copy at src/main/java/web/BlogPostJava.java:26-49) |
| BlogPost.ToStringTitle | KotlinFromScratch/src/main/java/com/example/java/BlogPostJava.java:72-73 | a title without a quote is recovered from `toString()` by splitting after the prefix at the first quote |
| BlogPost.GettersSample | KotlinFromScratch/src/main/java/com/example/java/BlogPostJava.java:81-98 | the getters return the constructor's arguments, and two posts built from the same arguments are equal with equal hashes |
| Chapter5.ParityPredicates | src/main/kotlin/book/Chapter5.kt:53-58 | `isOdd` and `isEven` are exact parity tests on every `Int`, while `it % 2 == 1` agrees with `isOdd` only on non-negatives (copy at ProgrammingKotlinBook/src/main/kotlin/Chapter5.kt:78-85) |
| Chapter5.OddLiteral | src/main/kotlin/book/Chapter5.kt:26 | the lambda `{ it % 2 == 1 }` under Kotlin's truncated `%` accepts exactly the positive odd numbers (copy at ProgrammingKotlinBook/src/main/kotlin/Chapter5.kt:44) |
| Chapter5.IsEven | src/main/kotlin/book/Chapter5.kt:38-39 | `isEven`, `isEven2` and the local `isEven` at line 53 hold exactly for the `Int`s that are twice some `Int`, negatives included (copy at ProgrammingKotlinBook/src/main/kotlin/Chapter5.kt:58-59 and 78) |
| Chapter5.IsOdd | src/main/kotlin/book/Chapter5.kt:58 | `Int.isOdd()` is the negation of `isEven`, and holds exactly for the odd numbers of either sign (copy at ProgrammingKotlinBook/src/main/kotlin/Chapter5.kt:85) |
| Chapter5.EvenOddPartition | src/main/kotlin/book/Chapter5.kt:53-60 | filtering by `isEven` and by `isOdd` splits any list as a multiset |
| Chapter5.Modulo | src/main/kotlin/book/Chapter5.kt:32 | `modulo(k)` returns the predicate `it % k == 0` with Kotlin's truncated remainder |
| Chapter5.ModuloDivides | src/main/kotlin/book/Chapter5.kt:32 | `modulo(k)` accepts exactly the multiples of `k`, negative numbers included |
| Chapter5.ModuloTwoIsEven | src/main/kotlin/book/Chapter5.kt:32-38 | `modulo(2)` is the `isEven` predicate |
| Chapter5.FilterModulo | src/main/kotlin/book/Chapter5.kt:32-36 | filtering with `modulo(k)` throws `ArithmeticException("/ by zero")` exactly when `k == 0` and the list is non-empty; otherwise it keeps exactly the multiples of `k` |
| Chapter5.OddsSample | src/main/kotlin/book/Chapter5.kt:26 | the odds of `[1..6]` are `[1, 3, 5]` (copy at ProgrammingKotlinBook/src/main/kotlin/Chapter5.kt:44) |
| Chapter5.IsOddSample | src/main/kotlin/book/Chapter5.kt:59-60 | `ints.filter(Int::isOdd)` is `[1, 3, 5]` |
| Chapter5.EvensSample | src/main/kotlin/book/Chapter5.kt:27 | the evens of `[1..6]` are `[2, 4, 6]` (copy at ProgrammingKotlinBook/src/main/kotlin/Chapter5.kt:45) |
| Chapter5.ModuloSample | src/main/kotlin/book/Chapter5.kt:36 | `ints.filter(modulo(2))` is `[2, 4, 6]` (copy at ProgrammingKotlinBook/src/main/kotlin/Chapter5.kt:56) |
| Chapter5.ClosureSum | src/main/kotlin/book/Chapter5.kt:42-46 | the `forEach` loop that updates the captured `sum` computes the `Int` sum of the positive elements (copy at ProgrammingKotlinBook/src/main/kotlin/Chapter5.kt:65-69) |
| Chapter5.ClosureSumSample | src/main/kotlin/book/Chapter5.kt:46 | over `[1..6]` the sum is 21 |
| Chapter5.Bar | src/main/kotlin/book/Chapter5.kt:30 | `bar()` returns the function `{ it.reversed() }`, whose behaviour `BarReverses` states |
| Chapter5.BarReverses | src/main/kotlin/book/Chapter5.kt:30 | the function `bar()` returns reverses its argument, so applying it twice is the identity |
| Chapter5.BarSample | src/main/kotlin/book/Chapter5.kt:34-35 | `bar()("Hello")` is "olleH" |
| Chapter5.M | src/main/kotlin/book/Chapter5.kt:49 | the anonymous `m(a, b)` is `a` followed by `b` (copy at ProgrammingKotlinBook/src/main/kotlin/Chapter5.kt:74) |
| Chapter5.MSample | src/main/kotlin/book/Chapter5.kt:50 | `m("Hello", "World")` is "HelloWorld" |
| Chapter5.Foo | src/main/kotlin/book/Chapter5.kt:16-18 | `foo(str, fn)` computes `fn(str)` |
| Chapter5.FooSample | src/main/kotlin/book/Chapter5.kt:16-22 | `foo("hello", { it.reversed() })` computes "olleh" |
| Lesson10.Foo | KotlinFromScratch/src/main/kotlin/Lesson10.kt:54-62 | the handler runs and then the finally block: the log is "Exception handled", "inside finally block" (copy at src/main/kotlin/web/Lesson10.kt:18-26) |
| Lesson10.TryBlock | KotlinFromScratch/src/main/kotlin/Lesson10.kt:68-72 | the try block throws `IllegalArgumentException()` exactly when `number != 1` and otherwise yields true |
| Lesson10.CatchIllegalArgument | KotlinFromScratch/src/main/kotlin/Lesson10.kt:73-75 | the handler replaces an `IllegalArgumentException` by its value and lets everything else through |
| Lesson10.FooNumber | KotlinFromScratch/src/main/kotlin/Lesson10.kt:67-78 | the try-expression never throws and is true iff `number == 1` (copy at src/main/kotlin/web/Lesson10.kt:31-42) |
| Lesson10.FooNumberSample | KotlinFromScratch/src/main/kotlin/Lesson10.kt:80 | `foo(2)` gives false and `foo(1)` gives true |
| Lesson10.AddNumberToTwo | KotlinFromScratch/src/main/kotlin/Lesson10.kt:86-91 | a non-`Int` throws `IllegalArgumentException("Number must be an integer")`; an `Int` gives `2 + a` with 32-bit wrap-around (copy at src/main/kotlin/web/Lesson10.kt:50-55) |
| Lesson10.AddNumberToTwoSamples | KotlinFromScratch/src/main/kotlin/Lesson10.kt:86-91 | 40 gives 42, `Int.MAX_VALUE` wraps to `Int.MIN_VALUE + 1`, and a string or other object throws |
| Inheritance.StudentSchoolFees | src/main/kotlin/web/Inheritance.kt:4-6 | the base fees are 0.0 |
| Inheritance.GraduateStudent.constructor | src/main/kotlin/web/Inheritance.kt:10-12 | the primary constructor stores the names and leaves `country` as "" (copy at src/main/kotlin/KotlinFromScratch/com/example/lesson9/inheritance.kt:28-30) |
| Inheritance.GraduateStudent.WithCountry | src/main/kotlin/web/Inheritance.kt:15-17 | the secondary constructor runs the primary one and then sets `country`, defaulting to "USA" (copy at src/main/kotlin/KotlinFromScratch/com/example/lesson9/inheritance.kt:33-35) |
| Inheritance.GraduateStudent.SchoolFees | src/main/kotlin/web/Inheritance.kt:21-27 | the override adds 0.0 to the base fees |
| Inheritance.GraduateStudent.Name | src/main/kotlin/web/Inheritance.kt:29-31 | `name()` is the first name, a space, then the last name (copy at src/main/kotlin/KotlinFromScratch/com/example/lesson9/inheritance.kt:47-49) |
| Inheritance.NameSplits | src/main/kotlin/web/Inheritance.kt:29-31 | a first name without a space is recovered from `name()` together with the last name |
| Inheritance.GraduatesSample | src/main/kotlin/web/Lesson9.kt:29-32 | the two-argument call gives "John Doe" with country "", and ("Robert", "Downey Jr.", "USA") gives "Robert Downey Jr." with country "USA" |
| AbstractClasses.Employee.Company | src/main/kotlin/web/Abstract.kt:25 | `company` is always "Company SA" |
| AbstractClasses.Employee.Earnings | src/main/kotlin/web/Abstract.kt:40-42 | a programmer earns 2000.0 |
| AbstractClasses.Employee.FullName | src/main/kotlin/web/Abstract.kt:30-32 | `fullName()` is the last name, a space, then the first name |
| AbstractClasses.Employee.BaseEmail | src/main/kotlin/web/Abstract.kt:34 | the inherited `email()` is the first name followed by "@company.com" |
| AbstractClasses.Employee.Email | src/main/kotlin/web/Abstract.kt:46-48 | the override is the first name followed by "_programing@company.com" |
| AbstractClasses.FullNameSplits | src/main/kotlin/web/Abstract.kt:30-32 | a last name without a space is recovered from `fullName()` together with the first name |
| AbstractClasses.BaseEmailSplits | src/main/kotlin/web/Abstract.kt:34 | a first name without '@' is recovered from the base e-mail |
| AbstractClasses.EmailOverrides | src/main/kotlin/web/Abstract.kt:34-48 | the override keeps the domain and puts an '@'-free first name in front of "_programing" |
| AbstractClasses.EmailDiffersFromBase | src/main/kotlin/web/Abstract.kt:34-48 | for every employee the override differs from the base e-mail |
| AbstractClasses.ProgrammerSample | src/main/kotlin/web/Lesson9.kt:18-20 | `Programmer("John", "Doe")` has full name "Doe John" and company "Company SA" |

## Left out

- Console output: `println` is modelled by returning the printed value. The order of a
  printed map's keys is `groupBy`'s order of first occurrence, which `Pipeline` keeps
  only as the final map's contents.
- Floating point is not modelled: `Math.sqrt` is a parameter of `Chapter4.Roots`, and
  `earnings()` and `schoolFees()` are `real` constants.
- `toUpperCase` is modelled on ASCII only; `UpperChar` keeps every other character.
  Unicode case mapping can change the length of a string ('ß' becomes "SS").
- `String.hashCode` is modelled over the character codes; characters outside the Basic
  Multilingual Plane, which Java stores as two UTF-16 units, are not modelled.
- `URI` is modelled by its string form, so `URI.equals` is string equality.
  `URI.hashCode`, `Date.hashCode` and `Date.toString` belong to the Java library and are
  parameters of `HashCode` and `ToString`.
- Chapter10.TakeWhileBelow: requires a limit below `Int.MAX_VALUE` unless the seed is
  already `Int.MAX_VALUE`. Otherwise, with that limit `takeWhile` never stops, because
  the step wraps to `Int.MIN_VALUE`; a seed of `Int.MAX_VALUE` gives `[]`.
- Chapter10.NextEven: states the smallest-even property only up to `Int.MAX_VALUE - 2`;
  above that it states the wrap to `Int.MIN_VALUE`.
- Summary.FibLongExact: the `Long` generator is exact only while the true Fibonacci number
  fits in a `Long` (up to term 92); later terms are stated as the true number wrapped into
  the `Long` range (`FibLongWraps`).
- Strings are sequences of Unicode scalar values, while Kotlin and Java count UTF-16 code
  units. For text outside the Basic Multilingual Plane (an emoji, say) the lengths and
  indices differ: `Chapter7.ElvisLength` gives 1 for the single character U+1F600 where Kotlin gives 2, and
  `Lesson6.HasLength`, `Lesson6.FilteredNamesByLength`, `KotlinBase.Substring`,
  `KotlinBase.SubstringFrom`, `Lesson8.UpperCaseFirstLetter` and `String.hashCode` count and
  index such text differently. Within the Basic Multilingual Plane they agree.
- Members with no behaviour are not modelled: `funD`, `doNothing`, `printSomething`,
  `load`/`save`, the inner class `innerClass`, and the private `z` of `AnotherExample`.
- The Java interop annotations (`@JvmOverloads`, `@Throws`) are not modelled; the
  exception they declare is the `Throw` result.
- Object identity of `Food`, `Person`, `Motorcycle`, `GraduateStudent` and `BlogPostJava`
  is that of Dafny objects. `equals(o)` on a `BlogPostJava` compares the reference first.
  The cases that matter (same object, null, another class, another post) are a datatype
  argument.
- The `Food` constructor is private in the source; here the companion's `Create` is the
  only caller in the model, but Dafny cannot make the constructor private.
