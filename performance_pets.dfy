/** The static generators of `JacksonPerformanceTest` that build the pets it
    encodes. They all draw from one static `java.util.Random`; unlike
    `PetMaker` a tag's id is drawn rather than derived from its name, and a
    name is the text of a UUID made of two `nextLong()` draws. The text
    `UUID.toString()` gives for the two longs is a parameter. */
module PerformancePets {
  import opened JavaLang
  import opened JavaRandom
  import opened PetModel
  import PetMakerGen

  /** `new UUID(mostSigBits, leastSigBits).toString()` for every pair of longs. */
  type UuidText = (Int64, Int64) -> JString

  function Uuid(text: UuidText, mostSigBits: Int64, leastSigBits: Int64): JString
  {
    text(mostSigBits, leastSigBits)
  }

  /** `Math.abs(RANDOM.nextLong())`, the body of both `id()` and `time()`, when
      its draws start at stream position `pos`. */
  function AbsLongAt(word: Stream, pos: nat): Int64
  {
    AbsNextLong(Output(word, pos), Output(word, pos + 1))
  }

  /** `name()` when its draws start at stream position `pos`: the UUID of two
      `nextLong()` draws, most significant half first. */
  function NameAt(word: Stream, text: UuidText, pos: nat): JString
  {
    Uuid(text, LongOf(Output(word, pos), Output(word, pos + 1)),
               LongOf(Output(word, pos + 2), Output(word, pos + 3)))
  }

  /** The number of outputs `createTag()` and `createCategory()` consume: two
      for the id, four for the name. */
  const EntityDraws: nat := 6

  /** `createTag()` from stream position `pos`: the id first, then the name. */
  function TagAt(word: Stream, text: UuidText, pos: nat): Tag
  {
    Tag(Some(AbsLongAt(word, pos)), Some(NameAt(word, text, pos + 2)))
  }

  /** `createCategory()` from stream position `pos`: the id first, then the name. */
  function CategoryAt(word: Stream, text: UuidText, pos: nat): Category
  {
    Category(Some(AbsLongAt(word, pos)), Some(NameAt(word, text, pos + 2)))
  }

  /** Where the k-th tag of `createTags` starts when the first starts at `pos`. */
  function TagPos(pos: nat, k: nat): nat
  {
    pos + 6 * k
  }

  /** The first n tags `createTags` builds from stream position `pos`. */
  function TagsFrom(word: Stream, text: UuidText, pos: nat, n: nat): (r: seq<Tag>)
    ensures |r| == n
  {
    if n == 0 then [] else TagsFrom(word, text, pos, n - 1) + [TagAt(word, text, TagPos(pos, n - 1))]
  }

  /** `createTags(n)` yields exactly n tags, the i-th made from the six outputs
      after the first 6 * i. */
  lemma {:induction false} TagsFromShape(word: Stream, text: UuidText, pos: nat, n: nat)
    ensures forall i :: 0 <= i < n ==> TagsFrom(word, text, pos, n)[i] == TagAt(word, text, TagPos(pos, i))
  {
    if n > 0 {
      TagsFromShape(word, text, pos, n - 1);
      var tags := TagsFrom(word, text, pos, n);
      forall i | 0 <= i < n ensures tags[i] == TagAt(word, text, TagPos(pos, i)) {
        if i < n - 1 {
          assert tags[i] == TagsFrom(word, text, pos, n - 1)[i];
        }
      }
    }
  }

  /** The switch of `status()`: 0 is AVAILABLE, 1 PENDING, anything else
      SOLD; the unknown constant is never chosen. */
  function StatusOfValue(value: int): (r: StatusEnum)
    ensures r != UnknownDefaultOpenApi
    ensures r == Available <==> value == 0
    ensures r == Pending <==> value == 1
  {
    if value == 0 then Available else if value == 1 then Pending else Sold
  }

  /** The stream positions where the steps of `createPet` start, when it
      starts at p0: the id, the name, the category, the creation time and the
      tags; `status()` draws nothing. */
  function PetNamePos(p0: nat): nat { p0 + 2 }
  function PetCategoryPos(p0: nat): nat { p0 + 6 }
  function PetCreatedOnPos(p0: nat): nat { p0 + 12 }
  function PetTagsPos(p0: nat): nat { p0 + 14 }

  /** What `createPet(numTags)` yields from stream position p0: the state of
      the pet, or the exception `new ArrayList<>(numTags)` throws. */
  function PetPlan(word: Stream, text: UuidText, atYear2024: PetMakerGen.YearRewrite, p0: nat, numTags: Int32): Outcome<PetState>
  {
    if numTags < 0 then Throw(IllegalArgumentException)
    else Return(PetState(
      Some(AbsLongAt(word, p0)),
      Some(CategoryAt(word, text, PetCategoryPos(p0))),
      Some(NameAt(word, text, PetNamePos(p0))),
      Some([]),
      Some(TagsFrom(word, text, PetTagsPos(p0), numTags as nat)),
      Some(Present(Some(Available))),
      Some(PetMakerGen.OffsetDateTimeAt(word, atYear2024, PetCreatedOnPos(p0))),
      Some(Undefined)))
  }

  /** A pet `createPet` returns has exactly numTags tags, consecutive six-output
      blocks after its own fourteen outputs, and is always available. */
  lemma PetPlanShape(word: Stream, text: UuidText, atYear2024: PetMakerGen.YearRewrite, p0: nat, numTags: Int32)
    ensures PetPlan(word, text, atYear2024, p0, numTags).Throw? <==> numTags < 0
    ensures PetPlan(word, text, atYear2024, p0, numTags).Return? ==>
      var state := PetPlan(word, text, atYear2024, p0, numTags).value;
      state.status == Some(Present(Some(Available))) &&
      |state.tags.value| == numTags as int &&
      forall i :: 0 <= i < numTags as int ==> state.tags.value[i] == TagAt(word, text, TagPos(PetTagsPos(p0), i))
  {
    if numTags >= 0 {
      TagsFromShape(word, text, PetTagsPos(p0), numTags as nat);
    }
  }

  /** The generators of `JacksonPerformanceTest` over its static `RANDOM`. */
  class Generators {
    const random: Random
    /** `UUID.toString()`. */
    const text: UuidText

    constructor (random: Random, text: UuidText)
      ensures this.random == random && this.text == text
    {
      this.random := random;
      this.text := text;
    }

    /** `id()`. */
    method Id() returns (r: Int64)
      modifies random
      ensures r == AbsLongAt(random.word, old(random.drawn))
      ensures random.drawn == old(random.drawn) + 2
    {
      var l := random.NextLong();
      r := AbsLong(l);
    }

    /** `time()`. */
    method Time() returns (r: Int64)
      modifies random
      ensures r == AbsLongAt(random.word, old(random.drawn))
      ensures random.drawn == old(random.drawn) + 2
    {
      var l := random.NextLong();
      r := AbsLong(l);
    }

    /** `offsetDateTime()`: the instant `time()` milliseconds after the epoch,
      at UTC, moved to the year 2024. */
    method MakeOffsetDateTime(atYear2024: PetMakerGen.YearRewrite) returns (d: OffsetDateTime)
      modifies random
      ensures d == PetMakerGen.OffsetDateTimeAt(random.word, atYear2024, old(random.drawn))
      ensures random.drawn == old(random.drawn) + 2
    {
      var millis := Time();
      d := atYear2024(millis);
    }

    /** `name()`. */
    method Name() returns (s: JString)
      modifies random
      ensures s == NameAt(random.word, text, old(random.drawn))
      ensures random.drawn == old(random.drawn) + 4
    {
      var mostSigBits := random.NextLong();
      var leastSigBits := random.NextLong();
      s := Uuid(text, mostSigBits, leastSigBits);
    }

    /** `status()`: always AVAILABLE, without a draw. */
    method Status() returns (r: StatusEnum)
      ensures r == Available
    {
      var value := 0;
      r := StatusOfValue(value);
    }

    /** `createTag()`. */
    method CreateTag() returns (t: Tag)
      modifies random
      ensures t == TagAt(random.word, text, old(random.drawn))
      ensures random.drawn == old(random.drawn) + EntityDraws
    {
      t := Tag(None, None);
      var id := Id();
      t := t.(id := Some(id));
      var name := Name();
      t := t.(name := Some(name));
    }

    /** `createCategory()`. */
    method CreateCategory() returns (c: Category)
      modifies random
      ensures c == CategoryAt(random.word, text, old(random.drawn))
      ensures random.drawn == old(random.drawn) + EntityDraws
    {
      c := Category(None, None);
      var id := Id();
      c := c.(id := Some(id));
      var name := Name();
      c := c.(name := Some(name));
    }

    /** `createTags(numTags)`: `new ArrayList<>(numTags)` rejects a negative
      capacity; otherwise one `createTag()` per element, appended in order. */
    method CreateTags(numTags: Int32) returns (r: Outcome<seq<Tag>>)
      modifies random
      ensures numTags < 0 ==> r == Throw(IllegalArgumentException) && random.drawn == old(random.drawn)
      ensures numTags >= 0 ==>
        r == Return(TagsFrom(random.word, text, old(random.drawn), numTags as nat)) &&
        random.drawn == TagPos(old(random.drawn), numTags as nat)
    {
      if numTags < 0 {
        return Throw(IllegalArgumentException);
      }
      ghost var p0 := random.drawn;
      var tags: seq<Tag> := [];
      var i := 0;
      while i < numTags
        invariant 0 <= i <= numTags
        invariant tags == TagsFrom(random.word, text, p0, i as nat)
        invariant random.drawn == TagPos(p0, i as nat)
      {
        var tag := CreateTag();
        tags := tags + [tag];
        i := i + 1;
      }
      r := Return(tags);
    }

    /** `createPet(numTags)`: a fresh pet filled in the order id, name, status,
      category, creation time, tags. */
    method CreatePet(numTags: Int32, atYear2024: PetMakerGen.YearRewrite) returns (r: Outcome<Pet>)
      modifies random
      ensures match PetPlan(random.word, text, atYear2024, old(random.drawn), numTags)
        case Throw(e) => r == Throw(e)
        case Return(state) => r.Return? && fresh(r.value) && r.value.State() == state
      ensures random.drawn == if numTags < 0 then PetTagsPos(old(random.drawn))
                              else TagPos(PetTagsPos(old(random.drawn)), numTags as nat)
    {
      var pet := new Pet();
      ghost var p0 := random.drawn;
      var id := Id();
      var _ := pet.WithId(Some(id));
      assert random.drawn == PetNamePos(p0);
      var name := Name();
      var _ := pet.WithName(Some(name));
      var status := Status();
      var _ := pet.WithStatus(Some(status));
      assert random.drawn == PetCategoryPos(p0);
      var category := CreateCategory();
      var _ := pet.WithCategory(Some(category));
      assert random.drawn == PetCreatedOnPos(p0);
      var createdOn := MakeOffsetDateTime(atYear2024);
      var _ := pet.WithCreatedOn(Some(createdOn));
      assert random.drawn == PetTagsPos(p0);
      ghost var before := pet.State();
      var tags := CreateTags(numTags);
      if tags.Throw? {
        return Throw(tags.exception);
      }
      assert pet.State() == before;
      var _ := pet.WithTags(Some(tags.value));
      r := Return(pet);
    }

    /** The static fixtures `PET = createPet(0)` and then `BIG_PET =
      createPet(1000)`, both drawn from `RANDOM` in that order: the big pet
      starts where the small one left the stream. */
    method CreateFixtures(atYear2024: PetMakerGen.YearRewrite) returns (pet: Pet, bigPet: Pet)
      modifies random
      ensures fresh(pet) && fresh(bigPet) && pet != bigPet
      ensures pet.State() == PetPlan(random.word, text, atYear2024, old(random.drawn), 0).value
      ensures bigPet.State() == PetPlan(random.word, text, atYear2024, PetTagsPos(old(random.drawn)), 1000).value
      ensures random.drawn == TagPos(PetTagsPos(PetTagsPos(old(random.drawn))), 1000)
    {
      ghost var p0 := random.drawn;
      var small := CreatePet(0, atYear2024);
      assert random.drawn == PetTagsPos(p0);
      ghost var bigPlan := PetPlan(random.word, text, atYear2024, random.drawn, 1000);
      var big := CreatePet(1000, atYear2024);
      assert big.value.State() == bigPlan.value;
      pet, bigPet := small.value, big.value;
    }
  }
}
