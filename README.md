# Jackson Smile encoding benchmark, modelled in Dafny

This project models the core of `jackson-smile-object`, a benchmark that times
how fast Jackson encodes an OpenAPI-generated `Pet` with different mappers. The
core has three parts:

- **`Pet`** — the value object being encoded. It has fluent setters, list-item
  adders, a `StatusEnum` with its JSON names, `JsonNullable`-aware `equals` and
  hash helpers, and `toIndentedString`.
- **`PetMaker`** — builds pets from one `java.util.Random` and a Faker.
- **`JacksonPerformanceTest`** — the timing loop `test(name, mapper,
  iterations, record, pet)`, its integer statistics, the warm-up-then-record
  driver, the compression fallback, the run labels, and the test's own static
  pet generators.

The Dafny modules, one file each, follow that structure:

| file | module | models |
|---|---|---|
| `java_lang.dfy` | `JavaLang` | Java `int`/`long` wrap-around, `Math.abs`, truncating `/` and `%`, `String.hashCode`/`length()` over UTF-16 units, exceptions |
| `java_random.dfy` | `JavaRandom` | `java.util.Random` as a stream of `next(32)` outputs; `nextInt()`, `nextLong()` |
| `pet.dfy` | `PetModel` | `Pet.java`: `StatusEnum`, `JsonNullable`, the `Pet` class and its helpers |
| `pet_maker.dfy` | `PetMakerGen` | `PetMaker.java`, with Faker as an oracle over the same stream |
| `performance_test.dfy` | `PerformanceTest` | the timing loop, statistics, driver, compression, labels |
| `performance_pets.dfy` | `PerformancePets` | `createPet`…`name()` of `JacksonPerformanceTest` |

Things the program reads from outside are parameters of the model:

- the clock: the k-th `System.nanoTime()` reading;
- the encoder: the answer of the k-th `writeValueAsBytes` call;
- GZIP: the compressed bytes, or None for the caught `IOException`;
- the random stream: the k-th `next(32)` output;
- Faker: the text it returns and how many random outputs it consumes;
- `UUID.toString()`;
- the calendar rewrite `withYear(2024)`.

Each `System.gc()` call becomes an event in a log, next to the clock reads and
the encodings, so their order can be stated. Java's fixed-width arithmetic is
written out explicitly (`Wrap32`, `Wrap64`, `Quot`, `Rem`).

The forced collection comes **before** each timed region, not inside it. The
loop calls `System.gc()` before it reads `startNS`
(`JacksonPerformanceTest.java:120-123`). `GcPrecedesStart` proves that each collection is immediately followed by
the start clock read of the same iteration.

## Model

| member | source | states |
|---|---|---|
| JavaLang.Wrap32 | src/test/java/org/openapitools/PetMaker.java:76 | Java `int` arithmetic: the result is congruent to the exact value modulo 2^32, and equals it whenever the exact value is in `int` range |
| JavaLang.Wrap64 | src/test/java/org/openapitools/JacksonPerformanceTest.java:125 | Java `long` arithmetic: the result is congruent to the exact value modulo 2^64, and equals it whenever the exact value is in `long` range |
| JavaLang.Wrap32Unique | src/test/java/org/openapitools/PetMaker.java:76 | any in-range representative of x modulo 2^32 is `Wrap32(x)` |
| JavaLang.Wrap64Unique | src/test/java/org/openapitools/JacksonPerformanceTest.java:125 | any in-range representative of x modulo 2^64 is `Wrap64(x)` |
| JavaLang.Wrap32Carry | src/test/java/org/openapitools/PetMaker.java:76 | helper for `Wrap32Decompose`: the number of 2^32 that `int` arithmetic drops |
| JavaLang.Wrap64Carry | src/test/java/org/openapitools/JacksonPerformanceTest.java:125 | helper for `Wrap64Decompose`: the number of 2^64 that `long` arithmetic drops |
| JavaLang.Wrap32Decompose | src/test/java/org/openapitools/PetMaker.java:76 | x is its wrapped value plus a whole number of 2^32 |
| JavaLang.Wrap64Decompose | src/test/java/org/openapitools/JacksonPerformanceTest.java:125 | x is its wrapped value plus a whole number of 2^64 |
| JavaLang.Wrap32Congruent | src/test/java/org/openapitools/PetMaker.java:76 | values congruent modulo 2^32 wrap to the same `int` |
| JavaLang.Wrap64Congruent | src/test/java/org/openapitools/JacksonPerformanceTest.java:125 | values congruent modulo 2^64 wrap to the same `long` |
| JavaLang.Wrap64Add | src/test/java/org/openapitools/JacksonPerformanceTest.java:125 | wrapping each summand and then the sum gives the same `long` as wrapping the exact sum |
| JavaLang.Wrap32MulAdd | src/test/java/org/openapitools/PetMaker.java:76 | one step `31 * h + c` of `String.hashCode` may wrap h first without changing the result |
| JavaLang.Times | src/test/java/org/openapitools/PetMaker.java:76 | the multiplication by `(long) name.length()` as repeated addition; `TimesIsProduct` proves it is the product |
| JavaLang.TimesIsProduct | src/test/java/org/openapitools/PetMaker.java:76 | helper for `id(String)`: repeated addition of x, n times, is the product x * n |
| JavaLang.Mag | src/test/java/org/openapitools/PetMaker.java:59 | helper for `AbsInt`, `AbsLong`, `Quot` and `Rem`: the mathematical magnitude of an integer |
| JavaLang.AbsInt | src/test/java/org/openapitools/PetMaker.java:59 | `Math.abs(int)` is the magnitude, except that `Integer.MIN_VALUE` stays `Integer.MIN_VALUE` |
| JavaLang.AbsIntNegates | src/test/java/org/openapitools/PetMaker.java:59 | for a negative `int`, `Math.abs` is its negation in 32-bit arithmetic |
| JavaLang.AbsLong | src/test/java/org/openapitools/PetMaker.java:68 | `Math.abs(long)` is the magnitude, except that `Long.MIN_VALUE` stays `Long.MIN_VALUE` |
| JavaLang.AbsLongNegates | src/test/java/org/openapitools/PetMaker.java:68 | for a negative `long`, `Math.abs` is its negation in 64-bit arithmetic |
| JavaLang.NatDivision | src/test/java/org/openapitools/JacksonPerformanceTest.java:127 | helper for `Quot`: dividing a natural number by a positive divisor gives a natural number |
| JavaLang.Quot | src/test/java/org/openapitools/JacksonPerformanceTest.java:127-128 | Java's `/`: the quotient's magnitude is the magnitudes' quotient; it is negative only when the signs differ, and positive only when they agree |
| JavaLang.Rem | src/test/java/org/openapitools/PetMaker.java:59 | Java's `%`: `a == b * (a / b) + r`, with `r` smaller than `b` in magnitude and having the dividend's sign |
| JavaLang.QuotTimesDivisor | src/test/java/org/openapitools/JacksonPerformanceTest.java:127 | the Euclidean identity on magnitudes, and `b * (a / b)` is the truncated multiple with the dividend's sign |
| JavaLang.Utf16 | src/test/java/org/openapitools/PetMaker.java:76 | the UTF-16 code units Java stores for a string: at least one per character |
| JavaLang.Utf16Units | src/test/java/org/openapitools/PetMaker.java:76 | every code unit is below 0x10000, and text without supplementary characters maps to its own code points one for one |
| JavaLang.Length | src/test/java/org/openapitools/PetMaker.java:76 | `String.length()` counts UTF-16 code units, so it is at least the number of characters (`Utf16`) |
| JavaLang.HashUnits | src/test/java/org/openapitools/PetMaker.java:76 | the loop `h = 31 * h + u` of `String.hashCode()` in `int` over a sequence of code units; `HashUnitsIsPolynomial` gives its value |
| JavaLang.HashCode | src/test/java/org/openapitools/PetMaker.java:76 | `String.hashCode()`, the wrapping loop `h = 31 * h + u` over the code units; its value is stated by `HashUnitsIsPolynomial` and `EmptyHashCode` |
| JavaLang.Pow31 | src/test/java/org/openapitools/PetMaker.java:76 | helper for `HashPolynomial`: 31 to the power k, exactly |
| JavaLang.HashPolynomial | src/test/java/org/openapitools/PetMaker.java:76 | the documented value `u[0]*31^(n-1) + ... + u[n-1]` of `String.hashCode()` in exact arithmetic, the reference for `HashUnitsIsPolynomial` |
| JavaLang.HashPolynomialSnoc | src/test/java/org/openapitools/PetMaker.java:76 | the exact hash polynomial of `u + [c]` is 31 times that of `u`, plus `c` |
| JavaLang.HashUnitsIsPolynomial | src/test/java/org/openapitools/PetMaker.java:76 | `String.hashCode` equals the exact sum of `s[i] * 31^(n-1-i)`, wrapped to `int` |
| JavaLang.EmptyHashCode | src/test/java/org/openapitools/PetMaker.java:76 | the empty string has hash code 0 and length 0 |
| JavaRandom.LongOf | src/test/java/org/openapitools/PetMaker.java:68 | `nextLong()` from two consecutive outputs; its value is stated by `LongOfWraps`, `LongOfWithoutWrap` and `LongOfIsMinLong` |
| JavaRandom.LongOfWraps | src/test/java/org/openapitools/PetMaker.java:68 | `nextLong()` is `(hi << 32) + lo` reduced to `long` |
| JavaRandom.LongOfWithoutWrap | src/test/java/org/openapitools/PetMaker.java:68 | when `(hi << 32) + lo` is in range, `nextLong()` is that sum |
| JavaRandom.LongOfIsMinLong | src/test/java/org/openapitools/PetMaker.java:68 | `nextLong()` is `Long.MIN_VALUE` exactly when hi is `Integer.MIN_VALUE` and lo is 0 |
| JavaRandom.Output | src/test/java/org/openapitools/PetMaker.java:72 | the k-th output of `next(32)` for the generator's seed, read by `Random.NextInt` |
| JavaRandom.AbsNextLong | src/test/java/org/openapitools/PetMaker.java:67-69 | `Math.abs(random.nextLong())` is negative exactly for that one pair of outputs; otherwise it is the magnitude of the long |
| JavaRandom.Random.constructor | src/test/java/org/openapitools/JacksonPerformanceTest.java:35 | a fresh generator has consumed nothing of its stream |
| JavaRandom.Random.NextInt | src/test/java/org/openapitools/PetMaker.java:72 | `nextInt()` returns the next stream output and consumes one |
| JavaRandom.Random.NextLong | src/test/java/org/openapitools/PetMaker.java:68 | `nextLong()` combines the next two outputs, high word first, and consumes two |
| PetModel.Value | src/test/java/org/openapitools/model/Pet.java:38-56 | `getValue()` of each constant; `ValueInjective` and `StatusNamedRoundTrip` state that it names each constant uniquely |
| PetModel.StatusNamed | src/test/java/org/openapitools/model/Pet.java:63-71 | the reference table for `fromValue`: the constant whose value is the argument, or null; `FromValue` is proved against it and `StatusNamedExact` characterises it |
| PetModel.ValuesEnumerateConstants | src/test/java/org/openapitools/model/Pet.java:38-45 | `values()` lists the four constants, each exactly once |
| PetModel.ValueInjective | src/test/java/org/openapitools/model/Pet.java:38-56 | distinct constants have distinct `getValue()` strings |
| PetModel.StatusNamedRoundTrip | src/test/java/org/openapitools/model/Pet.java:53-71 | `fromValue(getValue(s)) == s` for every constant |
| PetModel.StatusNamedExact | src/test/java/org/openapitools/model/Pet.java:63-71 | `fromValue` returns s only for s's own string, and returns null exactly when no constant has that string (including a null argument) |
| PetModel.FromValue | src/test/java/org/openapitools/model/Pet.java:63-71 | the loop over `values()` returns the constant whose value equals the argument, or null |
| PetModel.SameInstance | src/test/java/org/openapitools/model/Pet.java:270 | helper for `EqualsNullable`: the `a == b` reference test, true for two nulls and for the shared undefined instance |
| PetModel.EqualsNullable | src/test/java/org/openapitools/model/Pet.java:269-271 | `equalsNullable`: the same instance, or both present with deep-equal contents; `EqualsNullableIsEquality` proves it is equality |
| PetModel.EqualsNullableIsEquality | src/test/java/org/openapitools/model/Pet.java:269-271 | `equalsNullable` holds exactly when the two nullables are equal: same reference, or both present with deep-equal contents |
| PetModel.ElementHash | src/test/java/org/openapitools/model/Pet.java:282 | helper for `DeepHashCode`: an element's `hashCode()`, or 0 for null |
| PetModel.DeepHashCode | src/test/java/org/openapitools/model/Pet.java:282 | `Arrays.deepHashCode` of an array of non-array elements: start at 1, then `31 * result + elementHash` in `int`; `HashCodeNullableValues` evaluates it for the one-element array |
| PetModel.HashCodeNullable | src/test/java/org/openapitools/model/Pet.java:278-283 | `hashCodeNullable`: 1 for null, `Arrays.deepHashCode` of the content when present, 31 otherwise; stated by `HashCodeNullableValues` and `HashCodeNullableRespectsEquals` |
| PetModel.HashCodeNullableValues | src/test/java/org/openapitools/model/Pet.java:278-283 | null hashes to 1, undefined to 31, and a present value to `31 + hash(value)` in `int` arithmetic |
| PetModel.HashCodeNullableRespectsEquals | src/test/java/org/openapitools/model/Pet.java:269-283 | nullables that `equalsNullable` accepts have the same `hashCodeNullable` |
| PetModel.PresentNullHashesLikeUndefined | src/test/java/org/openapitools/model/Pet.java:269-283 | a present null and undefined hash alike (both 31) but are not `equalsNullable` |
| PetModel.Count | src/test/java/org/openapitools/model/Pet.java:310 | helper for `IndentSize`: the number of occurrences of a character |
| PetModel.Indent | src/test/java/org/openapitools/model/Pet.java:310 | `replace("\n", "\n    ")`; `IndentSize`, `IndentBreaksIndented` and `UnindentIndent` state its effect |
| PetModel.ToIndentedString | src/test/java/org/openapitools/model/Pet.java:306-311 | "null" for null, otherwise the indented text; `IndentSingleLine` and `UnindentIndent` state it |
| PetModel.Unindent | src/test/java/org/openapitools/model/Pet.java:310 | the inverse of the replacement, removing four spaces after each line break; `UnindentIndent` proves the round trip |
| PetModel.IndentSize | src/test/java/org/openapitools/model/Pet.java:306-311 | the replacement keeps the number of line breaks and adds four characters per break |
| PetModel.CountAppend | src/test/java/org/openapitools/model/Pet.java:306-311 | helper for `IndentSize`: line breaks in a concatenation add up |
| PetModel.IndentBreaksIndented | src/test/java/org/openapitools/model/Pet.java:306-311 | every line break of the result is followed by four spaces |
| PetModel.UnindentIndent | src/test/java/org/openapitools/model/Pet.java:306-311 | the replacement is reversible: removing the four spaces after each break restores the text |
| PetModel.IndentSingleLine | src/test/java/org/openapitools/model/Pet.java:306-311 | text without line breaks is unchanged, and null becomes "null" |
| PetModel.AddItem | src/test/java/org/openapitools/model/Pet.java:148-154 | adding an item to a null list gives a one-element list; otherwise the old list with the item appended |
| PetModel.EqualFields | src/test/java/org/openapitools/model/Pet.java:259-266 | the field-by-field comparison at the end of `equals`; `EqualFieldsIsStateEquality` proves it is state equality |
| PetModel.EqualFieldsIsStateEquality | src/test/java/org/openapitools/model/Pet.java:258-266 | the field-by-field comparison in `equals` is equality of the whole state |
| PetModel.Pet.State | src/test/java/org/openapitools/model/Pet.java:20-74 | the eight fields of a pet as one value, the state the setters' contracts and `Equals` speak of |
| PetModel.Pet.constructor | src/test/java/org/openapitools/model/Pet.java:20-78 | a new pet has an empty photo list, undefined status and lastModifiedOn, and every other field null |
| PetModel.Pet.WithRequired | src/test/java/org/openapitools/model/Pet.java:83-86 | the two-argument constructor sets name and photoUrls; the other fields keep their defaults |
| PetModel.Pet.WithId | src/test/java/org/openapitools/model/Pet.java:88-91 | `id(v)` sets id only, and returns the same pet |
| PetModel.Pet.WithCategory | src/test/java/org/openapitools/model/Pet.java:107-110 | `category(v)` sets category only, and returns the same pet |
| PetModel.Pet.WithName | src/test/java/org/openapitools/model/Pet.java:125-128 | `name(v)` sets name only, and returns the same pet |
| PetModel.Pet.WithPhotoUrls | src/test/java/org/openapitools/model/Pet.java:143-146 | `photoUrls(v)` sets photoUrls only, and returns the same pet |
| PetModel.Pet.AddPhotoUrlsItem | src/test/java/org/openapitools/model/Pet.java:148-154 | appends to photoUrls, creating the list when it is null; nothing else changes |
| PetModel.Pet.WithTags | src/test/java/org/openapitools/model/Pet.java:169-172 | `tags(v)` sets tags only, and returns the same pet |
| PetModel.Pet.AddTagsItem | src/test/java/org/openapitools/model/Pet.java:174-180 | appends to tags, creating the list when it is null; nothing else changes |
| PetModel.Pet.WithStatus | src/test/java/org/openapitools/model/Pet.java:195-198 | `status(v)` wraps v in `JsonNullable.of`; nothing else changes |
| PetModel.Pet.SetStatus | src/test/java/org/openapitools/model/Pet.java:210-212 | `setStatus` stores the nullable as given; nothing else changes |
| PetModel.Pet.WithCreatedOn | src/test/java/org/openapitools/model/Pet.java:214-217 | `createdOn(v)` sets createdOn only, and returns the same pet |
| PetModel.Pet.WithLastModifiedOn | src/test/java/org/openapitools/model/Pet.java:232-235 | wraps v in `JsonNullable.of`; nothing else changes |
| PetModel.Pet.SetLastModifiedOn | src/test/java/org/openapitools/model/Pet.java:246-248 | stores the nullable as given; nothing else changes |
| PetModel.Pet.Equals | src/test/java/org/openapitools/model/Pet.java:250-267 | `equals(Object)`: true for the same object, false for null or another class, otherwise field by field; `EqualsBasics` and `EqualsIsStateEquality` state it |
| PetModel.EqualsBasics | src/test/java/org/openapitools/model/Pet.java:251-257 | `equals` is reflexive, rejects null, and rejects objects of another class |
| PetModel.EqualsIsStateEquality | src/test/java/org/openapitools/model/Pet.java:251-267 | two pets are `equals` exactly when their states are equal, so the relation is symmetric |
| PetMakerGen.Ask | src/test/java/org/openapitools/PetMaker.java:28 | the Faker oracle's answer for a provider call at a stream position: its text and the number of outputs it consumes |
| PetMakerGen.Faker.constructor | src/test/java/org/openapitools/PetMaker.java:21-24 | the Faker draws from the maker's own generator |
| PetMakerGen.Faker.Make | src/test/java/org/openapitools/PetMaker.java:46 | a Faker call returns the oracle's text for its stream position, and consumes the number of outputs the oracle names |
| PetMakerGen.IdOfName | src/test/java/org/openapitools/PetMaker.java:75-77 | `Math.abs(4969L * hashCode() * length())` in `long`; `IdOfNameNonNegative` proves it is never negative |
| PetMakerGen.UndoMultiplication | src/test/java/org/openapitools/PetMaker.java:76 | multiplying by 4969 modulo 2^64 is undone by its inverse 10357499691215465689 |
| PetMakerGen.NotMultipleOfTwoTo64 | src/test/java/org/openapitools/PetMaker.java:76 | helper for `ScaledNeverMinLong`: a number strictly between 0 and 2^64 is no multiple of 2^64 |
| PetMakerGen.ScaledNeverMinLong | src/test/java/org/openapitools/PetMaker.java:76 | for a product below 2^62 in magnitude, `4969L * m` never wraps to `Long.MIN_VALUE` |
| PetMakerGen.ProductBound | src/test/java/org/openapitools/PetMaker.java:76 | `hashCode() * length()` stays below 2^62 in magnitude |
| PetMakerGen.IdOfNameNonNegative | src/test/java/org/openapitools/PetMaker.java:75-77 | `id(name)` is never negative, and is 0 for the empty name |
| PetMakerGen.StatusIndex | src/test/java/org/openapitools/PetMaker.java:59 | the index `Math.abs(random.nextInt()) % (values().length - 1)` with Java's `%`; `StatusOfOrdinaryDraw` and `StatusOfMinValue` evaluate it |
| PetMakerGen.StatusOfDraw | src/test/java/org/openapitools/PetMaker.java:58-61 | `values()[Math.abs(draw) % 3]`, throwing for a negative index; stated by `StatusOfOrdinaryDraw`, `StatusOfMinValue` and `StatusOfDrawCovers` |
| PetMakerGen.StatusOfOrdinaryDraw | src/test/java/org/openapitools/PetMaker.java:58-61 | apart from `Integer.MIN_VALUE`, `status()` picks `values()[abs(draw) % 3]`, never the unknown constant |
| PetMakerGen.StatusOfMinValue | src/test/java/org/openapitools/PetMaker.java:58-61 | the draw `Integer.MIN_VALUE` gives index -2, and the array access throws |
| PetMakerGen.StatusOfDrawCovers | src/test/java/org/openapitools/PetMaker.java:58-61 | each of AVAILABLE, PENDING and SOLD is reachable |
| PetMakerGen.IdOfDraw | src/test/java/org/openapitools/PetMaker.java:71-73 | `Math.abs((long) nextInt())` is the magnitude of the draw, between 0 and 2^31 |
| PetMakerGen.OffsetDateTimeAt | src/test/java/org/openapitools/PetMaker.java:63-65 | `offsetDateTime()` at a stream position: the year rewrite of `Math.abs(nextLong())`; `PetMaker.MakeOffsetDateTime` computes it |
| PetMakerGen.TagAt | src/test/java/org/openapitools/PetMaker.java:44-49 | `createTag()` at a stream position: the Faker job title, then the id derived from it; `TagsFromShape` states that every generated tag has this form |
| PetMakerGen.CategoryAt | src/test/java/org/openapitools/PetMaker.java:51-56 | `createCategory()` at a stream position: the Faker monster name, then the id derived from it; `PetPlanShape` states that the category id follows its name |
| PetMakerGen.IsGeneratedTag | src/test/java/org/openapitools/PetMaker.java:44-49 | a tag as `createTag()` makes them: a name and the non-negative id `id(name)`; `TagsFromShape` proves every generated tag satisfies it |
| PetMakerGen.TagsEnd | src/test/java/org/openapitools/PetMaker.java:36-42 | building tags never moves the stream backwards |
| PetMakerGen.TagsFrom | src/test/java/org/openapitools/PetMaker.java:36-42 | `createTags(n)` yields exactly n tags |
| PetMakerGen.TagsFromShape | src/test/java/org/openapitools/PetMaker.java:36-49 | the i-th tag is `createTag()` at the position after the first i tags, and its id is `id(name)` of its own name |
| PetMakerGen.TagsFromPrefix | src/test/java/org/openapitools/PetMaker.java:36-42 | the first m tags of n do not depend on how many follow |
| PetMakerGen.NamePos | src/test/java/org/openapitools/PetMaker.java:27-28 | where the cat name's Faker call starts: after the one `id()` draw |
| PetMakerGen.StatusPos | src/test/java/org/openapitools/PetMaker.java:28-29 | where the status draw is: after the cat name's outputs |
| PetMakerGen.CategoryPos | src/test/java/org/openapitools/PetMaker.java:29-30 | where `createCategory()` starts: after the one status draw |
| PetMakerGen.CreatedOnPos | src/test/java/org/openapitools/PetMaker.java:30-31 | where `offsetDateTime()` starts: after the monster name's outputs |
| PetMakerGen.TagsPos | src/test/java/org/openapitools/PetMaker.java:31-32 | where `createTags` starts: after the two draws of the creation time |
| PetMakerGen.PetPlan | src/test/java/org/openapitools/PetMaker.java:25-34 | what `createPet(numTags)` builds or throws from a stream position; stated by `PetPlanShape` and `PetPlanFailures` |
| PetMakerGen.PetPlanShape | src/test/java/org/openapitools/PetMaker.java:25-34 | a pet `createPet(n)` returns has n tags, a known status, a category whose id is derived from its name, and an id in 0..2^31 |
| PetMakerGen.PetPlanFailures | src/test/java/org/openapitools/PetMaker.java:25-34 | `createPet` throws on the `Integer.MIN_VALUE` status draw, otherwise throws for a negative tag count, and otherwise returns |
| PetMakerGen.PetEnd | src/test/java/org/openapitools/PetMaker.java:25-34 | where `createPet` leaves the shared stream: after the status draw when it throws, before the tags for a negative count, after the last tag otherwise; `PetEndAdvances` bounds it |
| PetMakerGen.PetEndAdvances | src/test/java/org/openapitools/PetMaker.java:25-34 | `createPet` always moves the stream forwards, past its id, name and status draws, and past the creation time when the status succeeds |
| PetMakerGen.PetMaker.constructor | src/test/java/org/openapitools/PetMaker.java:21-24 | the maker and its Faker share one generator |
| PetMakerGen.PetMaker.Id | src/test/java/org/openapitools/PetMaker.java:71-73 | `id()` is `IdOfDraw` of the next output, and consumes one |
| PetMakerGen.PetMaker.Time | src/test/java/org/openapitools/PetMaker.java:67-69 | `time()` is `Math.abs` of the next long, and consumes two outputs |
| PetMakerGen.PetMaker.MakeOffsetDateTime | src/test/java/org/openapitools/PetMaker.java:63-65 | the year rewrite of `time()` milliseconds at UTC; consumes two outputs |
| PetMakerGen.PetMaker.Status | src/test/java/org/openapitools/PetMaker.java:58-61 | `status()` is `StatusOfDraw` of the next output, and consumes one |
| PetMakerGen.PetMaker.CreateTag | src/test/java/org/openapitools/PetMaker.java:44-49 | a job-title name, then the id derived from it |
| PetMakerGen.PetMaker.CreateCategory | src/test/java/org/openapitools/PetMaker.java:51-56 | a Witcher-monster name, then the id derived from it |
| PetMakerGen.PetMaker.CreateTags | src/test/java/org/openapitools/PetMaker.java:36-42 | throws for a negative count without drawing; otherwise returns `TagsFrom` and leaves the stream at `TagsEnd` |
| PetMakerGen.PetMaker.CreatePet | src/test/java/org/openapitools/PetMaker.java:25-34 | returns a fresh pet whose state is `PetPlan`, or `PetPlan`'s exception, and leaves the stream at `PetEnd` on every path |
| PerformanceTest.Reading | src/test/java/org/openapitools/JacksonPerformanceTest.java:123 | the k-th `System.nanoTime()` reading of the clock parameter |
| PerformanceTest.Answer | src/test/java/org/openapitools/JacksonPerformanceTest.java:124 | the answer of the j-th `writeValueAsBytes(pet)` call of a run, from the encoder parameter |
| PerformanceTest.Compress | src/test/java/org/openapitools/JacksonPerformanceTest.java:145-155 | `compress(bytes)`: the compressor parameter's bytes, or None for the `null` returned after an `IOException` |
| PerformanceTest.StartRead | src/test/java/org/openapitools/JacksonPerformanceTest.java:123 | the clock read `startNS` of iteration i: two reads per earlier iteration |
| PerformanceTest.StopRead | src/test/java/org/openapitools/JacksonPerformanceTest.java:125 | the clock read of iteration i's stop timestamp, right after its start read |
| PerformanceTest.Elapsed | src/test/java/org/openapitools/JacksonPerformanceTest.java:125 | `System.nanoTime() - startNS` of iteration i in `long`; `TotalStep` adds it to the running total |
| PerformanceTest.ExactTotal | src/test/java/org/openapitools/JacksonPerformanceTest.java:118-126 | the exact sum of the clock differences, the reference for `DurationIsWrappedTotal` and `MeasureResult` |
| PerformanceTest.Duration | src/test/java/org/openapitools/JacksonPerformanceTest.java:118-126 | `durationNS` after n iterations, each adding its clock difference in `long`; `DurationIsWrappedTotal` ties it to the exact sum |
| PerformanceTest.TotalStep | src/test/java/org/openapitools/JacksonPerformanceTest.java:125 | adding one iteration's wrapped difference to the wrapped total gives the wrapped exact total |
| PerformanceTest.DurationIsWrappedTotal | src/test/java/org/openapitools/JacksonPerformanceTest.java:118-126 | the accumulated `durationNS` is the exact sum of the clock differences, reduced to `long` |
| PerformanceTest.FirstFailure | src/test/java/org/openapitools/JacksonPerformanceTest.java:119-126 | a reported failure is among the first n calls, and that call throws |
| PerformanceTest.Payload | src/test/java/org/openapitools/JacksonPerformanceTest.java:117-124 | `bytes` after n iterations: the empty array before the first, then the latest payload; `MeasureResult` states its length in the `Result` |
| PerformanceTest.LoopCount | src/test/java/org/openapitools/JacksonPerformanceTest.java:119 | the number of iterations `for (i = 0; i < iterations; i++)` runs: none for a negative count |
| PerformanceTest.Failure | src/test/java/org/openapitools/JacksonPerformanceTest.java:119-126 | the exception of the first throwing encoding, which leaves the loop and `test`; it is taken at the index `FirstFailureSpec` characterises, and `Measure` rethrows it |
| PerformanceTest.FirstFailureStays | src/test/java/org/openapitools/JacksonPerformanceTest.java:119-126 | once a call has failed, later iterations do not change which call failed first |
| PerformanceTest.FirstFailureSpec | src/test/java/org/openapitools/JacksonPerformanceTest.java:119-126 | the first failure is k exactly when call k throws and every earlier call returns |
| PerformanceTest.FirstFailureNone | src/test/java/org/openapitools/JacksonPerformanceTest.java:119-126 | with no failure, every one of the first n calls returns |
| PerformanceTest.TimeIteration | src/test/java/org/openapitools/JacksonPerformanceTest.java:120-125 | one iteration: its answer, its contribution to `durationNS`, and its events, including the events before a throwing encoding |
| PerformanceTest.TimeEncodings | src/test/java/org/openapitools/JacksonPerformanceTest.java:117-126 | the loop yields the first failure, or the accumulated duration and the last payload; its log is `Trace` |
| PerformanceTest.Test | src/test/java/org/openapitools/JacksonPerformanceTest.java:116-143 | `test(...)` returns `Measure` — its exception or its `Result` — and logs `Trace` |
| PerformanceTest.TestWarmThenRecord | src/test/java/org/openapitools/JacksonPerformanceTest.java:104-110 | 100 warm-up iterations, then 10000 recorded ones that start where the warm-up stops on the clock and the encoder; the record run happens only if the warm-up returns |
| PerformanceTest.Measure | src/test/java/org/openapitools/JacksonPerformanceTest.java:116-143 | what `test(...)` returns: the first encoding's exception, or the statistics and `Result`; stated by `MeasureResult`, `MeasureWithoutIterations` and `StatisticsSpec` |
| PerformanceTest.Summary | src/test/java/org/openapitools/JacksonPerformanceTest.java:127-143 | the statistics of a completed loop and the `Result` record; `MeasureResult` and `StatisticsSpec` state its fields |
| PerformanceTest.CompressedLength | src/test/java/org/openapitools/JacksonPerformanceTest.java:142 | `Objects.nonNull(compressedBytes) ? compressedBytes.length : 0`; `MeasureResult` states it in the returned `Result` |
| PerformanceTest.MeasureResult | src/test/java/org/openapitools/JacksonPerformanceTest.java:116-155 | a returned Result counts the iterations, holds the wrapped exact duration, the last payload's length, and the compressed length or 0 when `compress` returns null |
| PerformanceTest.MeasureWithoutIterations | src/test/java/org/openapitools/JacksonPerformanceTest.java:119-128 | with zero or negative iterations the loop runs no iteration and logs nothing, and the run throws `ArithmeticException`: for 0 the average `durationNS / 0` throws, for a negative count the average is `0 / n == 0` and `NANOS_IN_A_SECOND / 0` throws |
| PerformanceTest.Statistics | src/test/java/org/openapitools/JacksonPerformanceTest.java:127-128 | the average and throughput divisions in `long`, each throwing on a zero divisor; `StatisticsSpec` states when it throws and what it returns |
| PerformanceTest.AverageSpec | src/test/java/org/openapitools/JacksonPerformanceTest.java:127 | `durationNS / iterations` wraps only for `Long.MIN_VALUE / -1`, and agrees with mathematical division for non-negative operands |
| PerformanceTest.AverageIsZero | src/test/java/org/openapitools/JacksonPerformanceTest.java:127-128 | the average is 0 exactly when the duration is smaller in magnitude than the iteration count |
| PerformanceTest.ThroughputSpec | src/test/java/org/openapitools/JacksonPerformanceTest.java:128 | `NANOS_IN_A_SECOND / avg` never wraps, and brackets a second between `ops * avg` and `(ops + 1) * avg` |
| PerformanceTest.StatisticsSpec | src/test/java/org/openapitools/JacksonPerformanceTest.java:127-128 | the statistics throw `ArithmeticException` exactly when iterations is 0 or the average is 0; otherwise they return the average and the throughput |
| PerformanceTest.QuotBound | src/test/java/org/openapitools/JacksonPerformanceTest.java:127 | helper for `Quot`: a natural quotient is at most its dividend |
| PerformanceTest.QuotOverflow | src/test/java/org/openapitools/JacksonPerformanceTest.java:127 | only `Long.MIN_VALUE / -1` has a quotient of 2^63 |
| PerformanceTest.DivisionBracket | src/test/java/org/openapitools/JacksonPerformanceTest.java:128 | helper for `ThroughputSpec`: `(a / b) * b <= a < (a / b + 1) * b` |
| PerformanceTest.MulAtLeast | src/test/java/org/openapitools/JacksonPerformanceTest.java:127 | helper for `AverageIsZero`: multiplying by a factor of at least 1 does not shrink a natural number |
| PerformanceTest.Checkpoint | src/test/java/org/openapitools/JacksonPerformanceTest.java:120-122 | `if (i % GC_MODULUS == 0) System.gc()` as a log event; `IterationGcCount` and `GcInSchedule` state when it fires |
| PerformanceTest.IterationEvents | src/test/java/org/openapitools/JacksonPerformanceTest.java:120-125 | the events of one iteration in program order: the checkpoint, the start read, the encoding, the stop read; `ScheduleSlice` places them |
| PerformanceTest.Schedule | src/test/java/org/openapitools/JacksonPerformanceTest.java:119-126 | the events of n iterations that all return; `ScheduleLength`, `SchedulePrefix` and `GcPrecedesStart` state its shape |
| PerformanceTest.Trace | src/test/java/org/openapitools/JacksonPerformanceTest.java:119-126 | the log of a run: the full schedule, or the schedule up to the throwing encoding, which is its last event; `TraceIsFullSchedule` characterises it |
| PerformanceTest.GcCount | src/test/java/org/openapitools/JacksonPerformanceTest.java:121 | the number of `System.gc()` calls in a log; `GcCountOfSchedule` gives it for n iterations |
| PerformanceTest.Offset | src/test/java/org/openapitools/JacksonPerformanceTest.java:119-126 | where iteration i's events begin in the log; `ScheduleLength` and `ScheduleSlice` use it |
| PerformanceTest.TraceIsFullSchedule | src/test/java/org/openapitools/JacksonPerformanceTest.java:119-126 | the log is the complete schedule of all iterations exactly when no encoding throws |
| PerformanceTest.ScheduleLength | src/test/java/org/openapitools/JacksonPerformanceTest.java:119-126 | n iterations log three events each, plus one collection per multiple of 100 |
| PerformanceTest.SchedulePrefix | src/test/java/org/openapitools/JacksonPerformanceTest.java:119-126 | the log of m iterations is a prefix of the log of n ≥ m iterations |
| PerformanceTest.ScheduleSlice | src/test/java/org/openapitools/JacksonPerformanceTest.java:119-126 | iteration i's events sit at `Offset(i)..Offset(i + 1)` of the log |
| PerformanceTest.GcPrecedesStart | src/test/java/org/openapitools/JacksonPerformanceTest.java:120-123 | a collection at iteration i is immediately followed by i's start clock read, so it lies outside the timed region |
| PerformanceTest.GcInSchedule | src/test/java/org/openapitools/JacksonPerformanceTest.java:120-122 | a collection happens at iteration i exactly when i < n and i is a multiple of `GC_MODULUS` |
| PerformanceTest.GcCountAppend | src/test/java/org/openapitools/JacksonPerformanceTest.java:120-122 | collections in a concatenated log add up |
| PerformanceTest.GcCountSingleton | src/test/java/org/openapitools/JacksonPerformanceTest.java:120-122 | helper for `GcCountOfSchedule`: a one-event log has one collection exactly when that event is one |
| PerformanceTest.IterationGcCount | src/test/java/org/openapitools/JacksonPerformanceTest.java:120-122 | an iteration collects once when its index is a multiple of 100, and otherwise never |
| PerformanceTest.CeilingStep | src/test/java/org/openapitools/JacksonPerformanceTest.java:120 | helper for `GcCountOfSchedule`: the number of multiples of 100 below n grows by one exactly when n - 1 is one |
| PerformanceTest.GcCountOfSchedule | src/test/java/org/openapitools/JacksonPerformanceTest.java:119-122 | n iterations force `ceil(n / 100)` collections |
| PerformanceTest.Label | src/test/java/org/openapitools/JacksonPerformanceTest.java:60 | `(afterBurner ? "AB" : "no-AB") + "/" + (bigPet ? "B" : "S")`; `LabelInjective` states its four distinct values |
| PerformanceTest.LabelInjective | src/test/java/org/openapitools/JacksonPerformanceTest.java:60 | the four flag combinations give four distinct labels, "AB/B", "AB/S", "no-AB/B" and "no-AB/S" |
| PerformancePets.Uuid | src/test/java/org/openapitools/JacksonPerformanceTest.java:224 | `new UUID(mostSigBits, leastSigBits).toString()`, a parameter |
| PerformancePets.AbsLongAt | src/test/java/org/openapitools/JacksonPerformanceTest.java:215-221 | `Math.abs(RANDOM.nextLong())`, the body of `id()` and `time()`, at a stream position; `AbsNextLong` states its value |
| PerformancePets.NameAt | src/test/java/org/openapitools/JacksonPerformanceTest.java:223-225 | `name()` at a stream position: the UUID text of the next two longs, most significant first; `Generators.Name` computes it |
| PerformancePets.TagAt | src/test/java/org/openapitools/JacksonPerformanceTest.java:187-192 | `createTag()` at a stream position: the id from two outputs, then the name from four; `TagsFromShape` places each tag |
| PerformancePets.CategoryAt | src/test/java/org/openapitools/JacksonPerformanceTest.java:194-199 | `createCategory()` at a stream position: the id from two outputs, then the name from four; `Generators.CreateCategory` computes it |
| PerformancePets.TagPos | src/test/java/org/openapitools/JacksonPerformanceTest.java:181-182 | where the k-th `createTag()` of `createTags` starts: six outputs per earlier tag |
| PerformancePets.TagsFrom | src/test/java/org/openapitools/JacksonPerformanceTest.java:179-185 | `createTags(n)` yields exactly n tags |
| PerformancePets.TagsFromShape | src/test/java/org/openapitools/JacksonPerformanceTest.java:179-192 | the i-th tag is `createTag()` at the six outputs after the first 6 * i |
| PerformancePets.StatusOfValue | src/test/java/org/openapitools/JacksonPerformanceTest.java:204-208 | the switch never picks the unknown constant; it picks AVAILABLE exactly for 0 and PENDING exactly for 1 |
| PerformancePets.PetNamePos | src/test/java/org/openapitools/JacksonPerformanceTest.java:170-171 | where `name()` starts: after the two draws of `id()` |
| PerformancePets.PetCategoryPos | src/test/java/org/openapitools/JacksonPerformanceTest.java:171-173 | where `createCategory()` starts: after the four draws of `name()`, `status()` drawing nothing |
| PerformancePets.PetCreatedOnPos | src/test/java/org/openapitools/JacksonPerformanceTest.java:173-174 | where `offsetDateTime()` starts: after the six draws of the category |
| PerformancePets.PetTagsPos | src/test/java/org/openapitools/JacksonPerformanceTest.java:174-175 | where `createTags` starts: after the two draws of the creation time |
| PerformancePets.PetPlan | src/test/java/org/openapitools/JacksonPerformanceTest.java:168-177 | what `createPet(numTags)` builds or throws from a stream position; stated by `PetPlanShape` |
| PerformancePets.PetPlanShape | src/test/java/org/openapitools/JacksonPerformanceTest.java:168-177 | `createPet(n)` throws exactly for negative n; otherwise the pet is AVAILABLE, with n tags built from consecutive six-output blocks after its first fourteen outputs |
| PerformancePets.Generators.constructor | src/test/java/org/openapitools/JacksonPerformanceTest.java:35 | the generators draw from the static `RANDOM` |
| PerformancePets.Generators.Id | src/test/java/org/openapitools/JacksonPerformanceTest.java:219-221 | `id()` is `Math.abs` of the next long, and consumes two outputs |
| PerformancePets.Generators.Time | src/test/java/org/openapitools/JacksonPerformanceTest.java:215-217 | `time()` is `Math.abs` of the next long, and consumes two outputs |
| PerformancePets.Generators.MakeOffsetDateTime | src/test/java/org/openapitools/JacksonPerformanceTest.java:211-213 | the year rewrite of `time()` milliseconds at UTC; consumes two outputs |
| PerformancePets.Generators.Name | src/test/java/org/openapitools/JacksonPerformanceTest.java:223-225 | the UUID text of the next two longs, most significant first; consumes four outputs |
| PerformancePets.Generators.Status | src/test/java/org/openapitools/JacksonPerformanceTest.java:201-209 | `status()` is always AVAILABLE and draws nothing |
| PerformancePets.Generators.CreateTag | src/test/java/org/openapitools/JacksonPerformanceTest.java:187-192 | the id, then the name; consumes six outputs |
| PerformancePets.Generators.CreateCategory | src/test/java/org/openapitools/JacksonPerformanceTest.java:194-199 | the id, then the name; consumes six outputs |
| PerformancePets.Generators.CreateTags | src/test/java/org/openapitools/JacksonPerformanceTest.java:179-185 | throws for a negative count without drawing; otherwise returns `TagsFrom` and consumes six outputs per tag |
| PerformancePets.Generators.CreatePet | src/test/java/org/openapitools/JacksonPerformanceTest.java:168-177 | returns a fresh pet whose state is `PetPlan`, or the exception for a negative count; the stream advances by 14 outputs before the tags and 6 per tag |
| PerformancePets.Generators.CreateFixtures | src/test/java/org/openapitools/JacksonPerformanceTest.java:37-38 | `PET = createPet(0)` and then `BIG_PET = createPet(1000)` from `RANDOM`: two distinct fresh pets, the big one built from where the small one left the stream |

## Left out

- Jackson encoding (`writeValueAsBytes`, `SmileMapper`, `ObjectMapper`, the Afterburner module and mapper configuration) is not modelled: the encoder is an oracle of answers per call.
- GZIP compression internals are not modelled: the compressor is an oracle giving compressed bytes, or None for the caught `IOException`.
- The linear congruential update of `java.util.Random` is not modelled: the seed `12384754124L` fixes a stream of outputs, which is a parameter.
- Faker's generators (`cat().name()`, `job().title()`, `witcher().monster()`) are an oracle giving the text and the number of outputs consumed.
- `UUID.toString()` is a parameter, and so is the calendar arithmetic of `Instant.ofEpochMilli(...).atOffset(UTC).withYear(2024)` (the `YearRewrite` function).
- `System.nanoTime()` is a clock parameter, and `System.gc()` is an event in a log: neither the collector nor real time is modelled.
- `printf` output and its floating-point ratios are not modelled, and neither are the `DEBUG` and `DEBUG_RECORD` branches (both constants are false). The `name` and `record` parameters of `test` only affect printing, so the model has no such parameters.
- The JUnit orchestration is not modelled: the `@Test` methods, `testObjectSmile`/`testSmileObject` with their two mappers, and the class initialisation that seeds `RANDOM` before the fixtures are built (`CreateFixtures` starts from a given generator).
- `Pet.toString()` is not modelled; its indentation helper `toIndentedString` is modelled on the `toString()` text of the argument. `Pet.hashCode()` via `Objects.hash` is not modelled; `hashCodeNullable` is, over a given element hash.
- The getters and the `setX` setters that duplicate the fluent setters are not modelled (`setStatus` and `setLastModifiedOn` are, because they store a `JsonNullable`).
- `Category` and `Tag` are modelled as values with an optional id and name, not as mutable classes.
- Aliasing of the lists a pet holds is not modelled: lists are values.
- `StatusEnum.toString()` is `String.valueOf(value)`, which is the same text as `getValue()`, so it is not modelled separately.
