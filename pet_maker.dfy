/** `PetMaker`, the Faker-based object-graph generator. Every draw comes from
    one shared `java.util.Random`, which the `Faker` instance also consumes; the
    Faker library itself is an oracle that, given the topic and the position in
    the shared stream, yields a text and the number of outputs it used. */
module PetMakerGen {
  import opened JavaLang
  import opened JavaRandom
  import opened PetModel

  /** The Faker providers the generator calls: `cat().name()`, `job().title()`,
      `witcher().monster()`. */
  datatype Topic = CatName | JobTitle | WitcherMonster

  /** One Faker answer: the text, and how many outputs of the shared generator
      the call consumed. */
  datatype Fake = Fake(text: JString, used: nat)

  /** The Faker library's answer for every topic and stream position. */
  type FakerOracle = (Topic, nat) -> Fake

  /** The answer to one provider call that starts at stream position `pos`. */
  function Ask(oracle: FakerOracle, topic: Topic, pos: nat): Fake
  {
    oracle(topic, pos)
  }

  /** `new Faker(random)`: a Faker drawing from the given generator. */
  class Faker {
    const random: Random
    /** The library's answer for a topic after `drawn` outputs had been consumed. */
    const oracle: FakerOracle

    constructor (random: Random, oracle: FakerOracle)
      ensures this.random == random && this.oracle == oracle
    {
      this.random := random;
      this.oracle := oracle;
    }

    /** One provider call. */
    method Make(topic: Topic) returns (s: JString)
      modifies random
      ensures s == Ask(oracle, topic, old(random.drawn)).text
      ensures random.drawn == old(random.drawn) + Ask(oracle, topic, old(random.drawn)).used
    {
      var f := Ask(oracle, topic, random.drawn);
      random.drawn := random.drawn + f.used;
      s := f.text;
    }
  }

  /** `PetMaker.id(name)`: `Math.abs(4969L * (long) name.hashCode() *
      (long) name.length())`, evaluated left to right in `long`. */
  function IdOfName(name: JString): Int64
  {
    AbsLong(Wrap64(Times(Wrap64(4969 * HashCode(name)), Length(name))))
  }

  /** Multiplying by 4969 modulo 2^64 can be undone: 4969 is odd, and
      10357499691215465689 * 4969 == 1 + 2790 * 2^64, so m is
      10357499691215465689 times the wrapped product plus a multiple of 2^64.
      (The constants are written out so that the arithmetic stays linear.) */
  lemma UndoMultiplication(m: int)
    ensures m == 10357499691215465689 * Wrap64(4969 * m) +
                 0x1_0000_0000_0000_0000 * (10357499691215465689 * Wrap64Carry(4969 * m) - 2790 * m)
  {
    var x := 4969 * m;
    Wrap64Decompose(x);
    assert 10357499691215465689 * x == m + 2790 * 0x1_0000_0000_0000_0000 * m;
  }

  /** No number strictly between 0 and 2^64 is a multiple of 2^64. */
  lemma NotMultipleOfTwoTo64(x: int, j: int)
    requires 0 < x < 0x1_0000_0000_0000_0000
    ensures x != 0x1_0000_0000_0000_0000 * j
  {
  }

  /** 4969 times a number of magnitude below 2^62 never wraps to Long.MIN_VALUE:
      that value would need the number to be congruent to 2^63 modulo 2^64. */
  lemma ScaledNeverMinLong(m: int)
    requires -0x4000_0000_0000_0000 < m < 0x4000_0000_0000_0000
    ensures Wrap64(4969 * m) != MinLong
  {
    UndoMultiplication(m);
    // Were the product -2^63, m + 2^63 would be 2^64 times this.
    var j := 10357499691215465689 * Wrap64Carry(4969 * m) - 2790 * m - 5178749845607732844;
    NotMultipleOfTwoTo64(m + 0x8000_0000_0000_0000, j);
  }

  lemma ProductBound(h: Int32, n: nat)
    requires n <= MaxInt
    ensures -0x4000_0000_0000_0000 < h * n < 0x4000_0000_0000_0000
  {
    if h >= 0 {
      assert h * n <= h * MaxInt;
      assert h * MaxInt <= 0x8000_0000 * MaxInt;
    } else {
      assert h * n >= h * MaxInt;
      assert h * MaxInt >= -0x8000_0000 * MaxInt;
    }
  }

  /** `id(name)` is never negative: with a 32-bit hash and a length below 2^31
      the wrapped product is never Long.MIN_VALUE, the one value `Math.abs`
      leaves negative. The empty name gives 0. */
  lemma IdOfNameNonNegative(name: JString)
    ensures IdOfName(name) >= 0
    ensures name == "" ==> IdOfName(name) == 0
  {
    var h: int, n: int := HashCode(name), Length(name);
    ProductBound(h, n);
    assert Wrap64(4969 * h) == 4969 * h;
    TimesIsProduct(4969 * h, n);
    assert (4969 * h) * n == 4969 * (h * n);
    ScaledNeverMinLong(h * n);
  }

  /** `Math.abs(random.nextInt()) % (values().length - 1)`: the index `status()` reads. */
  function StatusIndex(draw: Int32): int
  {
    Rem(AbsInt(draw), |Values| - 1)
  }

  /** `status()` for a given draw: the constant at the index, or the exception
      that indexing `values()` raises. */
  function StatusOfDraw(draw: Int32): Outcome<StatusEnum>
  {
    var i := StatusIndex(draw);
    if 0 <= i < |Values| then Return(Values[i]) else Throw(ArrayIndexOutOfBoundsException(i))
  }

  /** For every draw but Integer.MIN_VALUE the status is one of the first three
      constants, chosen by the magnitude of the draw modulo 3, and never
      UNKNOWN_DEFAULT_OPEN_API. */
  lemma StatusOfOrdinaryDraw(draw: Int32)
    requires draw != MinInt
    ensures StatusOfDraw(draw) == Return(Values[Mag(draw) % 3])
    ensures StatusOfDraw(draw).value != UnknownDefaultOpenApi
  {
    assert StatusIndex(draw) == Mag(draw) % 3;
  }

  /** For Integer.MIN_VALUE, `Math.abs` stays negative, the remainder is -2, and
      indexing `values()` throws. */
  lemma StatusOfMinValue()
    ensures StatusIndex(MinInt) == -2
    ensures StatusOfDraw(MinInt) == Throw(ArrayIndexOutOfBoundsException(-2))
  {
    assert AbsInt(MinInt) == MinInt;
    assert Rem(MinInt, 3) == -2;
  }

  /** Each of the three ordinary constants is produced by some draw. */
  lemma StatusOfDrawCovers()
    ensures StatusOfDraw(0) == Return(Available)
    ensures StatusOfDraw(1) == Return(Pending)
    ensures StatusOfDraw(-2) == Return(Sold)
  {
    StatusOfOrdinaryDraw(0);
    StatusOfOrdinaryDraw(1);
    StatusOfOrdinaryDraw(-2);
  }

  /** `id()`: `Math.abs((long) random.nextInt())`, widened before the absolute
      value, so it lies in [0, 2^31]. */
  function IdOfDraw(draw: Int32): (r: Int64)
    ensures 0 <= r <= 0x8000_0000 && r == Mag(draw)
  {
    AbsLong(draw)
  }

  /** `Instant.ofEpochMilli(t).atOffset(ZoneOffset.UTC).withYear(2024)` for
      every millisecond count t; the calendar arithmetic is a parameter. */
  type YearRewrite = Int64 -> OffsetDateTime

  /** `offsetDateTime()` when its `time()` draws start at stream position `pos`. */
  function OffsetDateTimeAt(word: Stream, atYear2024: YearRewrite, pos: nat): OffsetDateTime
  {
    atYear2024(AbsNextLong(Output(word, pos), Output(word, pos + 1)))
  }

  /** The tag `createTag()` builds when its Faker call starts at stream
      position `pos`: the name first, then the id computed from that name. */
  function TagAt(oracle: FakerOracle, pos: nat): Tag
  {
    var name := Ask(oracle, JobTitle, pos).text;
    Tag(Some(IdOfName(name)), Some(name))
  }

  /** The category `createCategory()` builds when its Faker call starts at
      stream position `pos`. */
  function CategoryAt(oracle: FakerOracle, pos: nat): Category
  {
    var name := Ask(oracle, WitcherMonster, pos).text;
    Category(Some(IdOfName(name)), Some(name))
  }

  /** A tag as the generator makes them: a name, and a non-negative id that the
      name determines. */
  predicate IsGeneratedTag(t: Tag)
  {
    t.name.Some? && t.id == Some(IdOfName(t.name.value)) && t.id.value >= 0
  }

  /** Where the shared stream stands after the first n Faker calls of
      `createTags`, starting at position `pos`. */
  function TagsEnd(oracle: FakerOracle, pos: nat, n: nat): (r: nat)
    ensures r >= pos
  {
    if n == 0 then pos
    else
      var p := TagsEnd(oracle, pos, n - 1);
      p + Ask(oracle, JobTitle, p).used
  }

  /** The first n tags `createTags` builds from stream position `pos`. */
  function TagsFrom(oracle: FakerOracle, pos: nat, n: nat): (r: seq<Tag>)
    ensures |r| == n
  {
    if n == 0 then []
    else TagsFrom(oracle, pos, n - 1) + [TagAt(oracle, TagsEnd(oracle, pos, n - 1))]
  }

  /** `createTags(n)` yields exactly n tags, the i-th from the Faker call made
      after the first i, each with the non-negative id its name determines. */
  lemma {:induction false} TagsFromShape(oracle: FakerOracle, pos: nat, n: nat)
    ensures forall i :: 0 <= i < n ==>
      TagsFrom(oracle, pos, n)[i] == TagAt(oracle, TagsEnd(oracle, pos, i))
    ensures forall i :: 0 <= i < n ==> IsGeneratedTag(TagsFrom(oracle, pos, n)[i])
  {
    if n > 0 {
      TagsFromShape(oracle, pos, n - 1);
      var tags := TagsFrom(oracle, pos, n);
      forall i | 0 <= i < n
        ensures tags[i] == TagAt(oracle, TagsEnd(oracle, pos, i))
        ensures IsGeneratedTag(tags[i])
      {
        if i < n - 1 {
          assert tags[i] == TagsFrom(oracle, pos, n - 1)[i];
        }
        IdOfNameNonNegative(Ask(oracle, JobTitle, TagsEnd(oracle, pos, i)).text);
      }
    }
  }

  /** Asking for more tags extends the list: the first tags do not depend on
      how many follow. */
  lemma {:induction false} TagsFromPrefix(oracle: FakerOracle, pos: nat, m: nat, n: nat)
    requires m <= n
    ensures TagsFrom(oracle, pos, m) == TagsFrom(oracle, pos, n)[..m]
    decreases n
  {
    var all := TagsFrom(oracle, pos, n);
    if m < n {
      var shorter := TagsFrom(oracle, pos, n - 1);
      TagsFromPrefix(oracle, pos, m, n - 1);
      assert all == shorter + [all[n - 1]];
      assert all[..m] == shorter[..m];
    } else {
      assert all[..n] == all;
    }
  }

  /** The stream positions where the steps of `createPet` start, when it
      starts at p0: the id draw is at p0, then come the cat name, the status
      draw, the category, the two draws of the creation time, and the tags. */
  function NamePos(p0: nat): nat { p0 + 1 }
  function StatusPos(oracle: FakerOracle, p0: nat): nat { NamePos(p0) + Ask(oracle, CatName, NamePos(p0)).used }
  function CategoryPos(oracle: FakerOracle, p0: nat): nat { StatusPos(oracle, p0) + 1 }
  function CreatedOnPos(oracle: FakerOracle, p0: nat): nat
  {
    CategoryPos(oracle, p0) + Ask(oracle, WitcherMonster, CategoryPos(oracle, p0)).used
  }
  function TagsPos(oracle: FakerOracle, p0: nat): nat { CreatedOnPos(oracle, p0) + 2 }

  /** What `createPet(numTags)` builds from stream position p0, in the order the
      source draws: id, cat name, status, category, creation time, tags; the
      year rewrite of the creation time is the given function. */
  function PetPlan(word: Stream, oracle: FakerOracle, atYear2024: YearRewrite,
                   p0: nat, numTags: Int32): Outcome<PetState>
  {
    match StatusOfDraw(Output(word, StatusPos(oracle, p0)))
    case Throw(e) => Throw(e)
    case Return(status) =>
      if numTags < 0 then Throw(IllegalArgumentException)
      else
        Return(PetState(Some(IdOfDraw(Output(word, p0))), Some(CategoryAt(oracle, CategoryPos(oracle, p0))),
                        Some(Ask(oracle, CatName, NamePos(p0)).text), Some([]),
                        Some(TagsFrom(oracle, TagsPos(oracle, p0), numTags as nat)),
                        Some(Present(Some(status))),
                        Some(OffsetDateTimeAt(word, atYear2024, CreatedOnPos(oracle, p0))), Some(Undefined)))
  }

  /** Where the shared stream stands after `createPet(numTags)` from p0: right
      after the status draw when it throws, before the tags when the count is
      negative, and after the last tag otherwise. */
  function PetEnd(word: Stream, oracle: FakerOracle, p0: nat, numTags: Int32): nat
  {
    if StatusOfDraw(Output(word, StatusPos(oracle, p0))).Throw? then CategoryPos(oracle, p0)
    else if numTags < 0 then TagsPos(oracle, p0)
    else TagsEnd(oracle, TagsPos(oracle, p0), numTags as nat)
  }

  /** `createPet` only moves the stream forwards, at least past its id, name
      and status draws; the second of two calls on one generator therefore
      starts after everything the first consumed. */
  lemma PetEndAdvances(word: Stream, oracle: FakerOracle, p0: nat, numTags: Int32)
    ensures p0 < CategoryPos(oracle, p0) <= PetEnd(word, oracle, p0, numTags)
    ensures StatusOfDraw(Output(word, StatusPos(oracle, p0))).Return? ==>
      p0 + 4 <= TagsPos(oracle, p0) <= PetEnd(word, oracle, p0, numTags)
  {
  }

  /** A pet `createPet` returns has exactly the requested number of tags, a
      status among the first three constants, and ids that follow their names. */
  lemma PetPlanShape(word: Stream, oracle: FakerOracle, atYear2024: YearRewrite,
                     p0: nat, numTags: Int32)
    requires PetPlan(word, oracle, atYear2024, p0, numTags).Return?
    ensures var pet := PetPlan(word, oracle, atYear2024, p0, numTags).value;
      numTags >= 0 && pet.tags.Some? && |pet.tags.value| == numTags &&
      pet.status.Some? && pet.status.value.Present? && pet.status.value.content.Some? &&
      pet.status.value.content.value != UnknownDefaultOpenApi &&
      pet.category.Some? && pet.category.value.name.Some? &&
      pet.category.value.id == Some(IdOfName(pet.category.value.name.value)) &&
      pet.id.Some? && 0 <= pet.id.value <= 0x8000_0000
  {
    var w := Output(word, StatusPos(oracle, p0));
    if w == MinInt {
      StatusOfMinValue();
    } else {
      StatusOfOrdinaryDraw(w);
    }
    TagsFromShape(oracle, TagsPos(oracle, p0), numTags as nat);
  }

  /** `createPet` fails exactly when the status draw is Integer.MIN_VALUE or the
      tag count is negative, and the status failure comes first. */
  lemma PetPlanFailures(word: Stream, oracle: FakerOracle, atYear2024: YearRewrite,
                        p0: nat, numTags: Int32)
    ensures var statusDraw := Output(word, StatusPos(oracle, p0));
      var plan := PetPlan(word, oracle, atYear2024, p0, numTags);
      (statusDraw == MinInt ==> plan == Throw(ArrayIndexOutOfBoundsException(-2))) &&
      (statusDraw != MinInt && numTags < 0 ==> plan == Throw(IllegalArgumentException)) &&
      (statusDraw != MinInt && numTags >= 0 ==> plan.Return?)
  {
    var w := Output(word, StatusPos(oracle, p0));
    if w == MinInt {
      StatusOfMinValue();
    } else {
      StatusOfOrdinaryDraw(w);
    }
  }

  /** `PetMaker`: a generator over a shared Random and a Faker that draws from it. */
  class PetMaker {
    const random: Random
    const faker: Faker

    /** `new PetMaker(random)`. */
    constructor (random: Random, oracle: FakerOracle)
      ensures this.random == random && faker.random == random && faker.oracle == oracle
    {
      this.random := random;
      faker := new Faker(random, oracle);
    }

    /** `id()`. */
    method Id() returns (r: Int64)
      modifies random
      ensures r == IdOfDraw(Output(random.word, old(random.drawn)))
      ensures random.drawn == old(random.drawn) + 1
    {
      var w := random.NextInt();
      r := AbsLong(w);
    }

    /** `time()`. */
    method Time() returns (r: Int64)
      modifies random
      ensures r == AbsNextLong(Output(random.word, old(random.drawn)), Output(random.word, old(random.drawn) + 1))
      ensures random.drawn == old(random.drawn) + 2
    {
      var l := random.NextLong();
      r := AbsLong(l);
    }

    /** `offsetDateTime()`: the creation time from `time()`, moved to the year 2024. */
    method MakeOffsetDateTime(atYear2024: YearRewrite) returns (d: OffsetDateTime)
      modifies random
      ensures d == OffsetDateTimeAt(random.word, atYear2024, old(random.drawn))
      ensures random.drawn == old(random.drawn) + 2
    {
      var millis := Time();
      d := atYear2024(millis);
    }

    /** `status()`. */
    method Status() returns (r: Outcome<StatusEnum>)
      modifies random
      ensures r == StatusOfDraw(Output(random.word, old(random.drawn)))
      ensures random.drawn == old(random.drawn) + 1
    {
      var w := random.NextInt();
      var value := Rem(AbsInt(w), |Values| - 1);
      if value < 0 || value >= |Values| {
        return Throw(ArrayIndexOutOfBoundsException(value));
      }
      r := Return(Values[value]);
    }

    /** `createTag()`: the name from `job().title()`, then the id from that name. */
    method CreateTag() returns (t: Tag)
      requires faker.random == random
      modifies random
      ensures t == TagAt(faker.oracle, old(random.drawn))
      ensures random.drawn == old(random.drawn) + Ask(faker.oracle, JobTitle, old(random.drawn)).used
    {
      var name := faker.Make(JobTitle);
      t := Tag(None, None).(name := Some(name));
      t := t.(id := Some(IdOfName(t.name.value)));
    }

    /** `createCategory()`: the name from `witcher().monster()`, then the id from that name. */
    method CreateCategory() returns (c: Category)
      requires faker.random == random
      modifies random
      ensures c == CategoryAt(faker.oracle, old(random.drawn))
      ensures random.drawn == old(random.drawn) + Ask(faker.oracle, WitcherMonster, old(random.drawn)).used
    {
      var name := faker.Make(WitcherMonster);
      c := Category(None, None).(name := Some(name));
      c := c.(id := Some(IdOfName(c.name.value)));
    }

    /** `createTags(numTags)`: `new ArrayList<>(numTags)` rejects a negative
      capacity; otherwise one `createTag()` per element, appended in order. */
    method CreateTags(numTags: Int32) returns (r: Outcome<seq<Tag>>)
      requires faker.random == random
      modifies random
      ensures numTags < 0 ==> r == Throw(IllegalArgumentException) && random.drawn == old(random.drawn)
      ensures numTags >= 0 ==>
        r == Return(TagsFrom(faker.oracle, old(random.drawn), numTags as nat)) &&
        random.drawn == TagsEnd(faker.oracle, old(random.drawn), numTags as nat)
    {
      if numTags < 0 {
        return Throw(IllegalArgumentException);
      }
      ghost var p0 := random.drawn;
      var tags: seq<Tag> := [];
      var i := 0;
      while i < numTags
        invariant 0 <= i <= numTags
        invariant tags == TagsFrom(faker.oracle, p0, i as nat)
        invariant random.drawn == TagsEnd(faker.oracle, p0, i as nat)
      {
        var tag := CreateTag();
        tags := tags + [tag];
        i := i + 1;
      }
      r := Return(tags);
    }

    /** `createPet(numTags)`: a fresh pet filled in the order id, name, status,
      category, creation time, tags; a failing step throws before the pet is
      returned. */
    method CreatePet(numTags: Int32, atYear2024: YearRewrite) returns (r: Outcome<Pet>)
      requires faker.random == random
      modifies random
      ensures match PetPlan(random.word, faker.oracle, atYear2024, old(random.drawn), numTags)
        case Throw(e) => r == Throw(e)
        case Return(state) => r.Return? && fresh(r.value) && r.value.State() == state
      ensures random.drawn == PetEnd(random.word, faker.oracle, old(random.drawn), numTags)
    {
      ghost var word, oracle := random.word, faker.oracle;
      var pet := new Pet();
      ghost var p0 := random.drawn;
      var id := Id();
      var _ := pet.WithId(Some(id));
      assert random.drawn == NamePos(p0);
      var name := faker.Make(CatName);
      var _ := pet.WithName(Some(name));
      assert random.drawn == StatusPos(oracle, p0);
      var status := Status();
      if status.Throw? {
        return Throw(status.exception);
      }
      var _ := pet.WithStatus(Some(status.value));
      assert random.drawn == CategoryPos(oracle, p0);
      var category := CreateCategory();
      var _ := pet.WithCategory(Some(category));
      assert random.drawn == CreatedOnPos(oracle, p0);
      var createdOn := MakeOffsetDateTime(atYear2024);
      var _ := pet.WithCreatedOn(Some(createdOn));
      assert random.drawn == TagsPos(oracle, p0);
      ghost var before := pet.State();
      var tags := CreateTags(numTags);
      if tags.Throw? {
        return Throw(tags.exception);
      }
      assert pet.State() == before;
      var _ := pet.WithTags(Some(tags.value));
      r := Return(pet);
    }
  }
}
