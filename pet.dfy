/** The generated `Pet` model class and its helpers: the `StatusEnum` value table
    and its lookup, the `JsonNullable` comparison and hash helpers, the
    indentation rewrite used by `toString`, and the mutable `Pet` object with its
    fluent setters. `Category` and `Tag` are treated as values with an id and a
    name, which is all the generators use of them. */
module PetModel {
  import opened JavaLang

  /** `Pet.StatusEnum`, constants in declaration order. */
  datatype StatusEnum = Available | Pending | Sold | UnknownDefaultOpenApi

  /** `StatusEnum.values()`. */
  const Values: seq<StatusEnum> := [Available, Pending, Sold, UnknownDefaultOpenApi]

  /** `getValue()`, the JSON form of a constant (also what its `toString()` returns). */
  function Value(s: StatusEnum): string
  {
    match s
    case Available => "available"
    case Pending => "pending"
    case Sold => "sold"
    case UnknownDefaultOpenApi => "unknown_default_open_api"
  }

  /** The value table read the other way round, written independently of the
      search loop in `FromValue`: the constant whose value is the given string,
      if any; none for null. */
  function StatusNamed(value: Option<string>): Option<StatusEnum>
  {
    match value
    case Some("available") => Some(Available)
    case Some("pending") => Some(Pending)
    case Some("sold") => Some(Sold)
    case Some("unknown_default_open_api") => Some(UnknownDefaultOpenApi)
    case _ => None
  }

  /** `values()` lists every constant exactly once. */
  lemma ValuesEnumerateConstants(s: StatusEnum)
    ensures |Values| == 4 && s in Values
    ensures forall i, j :: 0 <= i < j < |Values| ==> Values[i] != Values[j]
  {
  }

  /** The four values are distinct, so the first match of the search is the only one. */
  lemma ValueInjective(a: StatusEnum, b: StatusEnum)
    ensures Value(a) == Value(b) ==> a == b
  {
  }

  /** `fromValue(s.getValue()) == s` for every constant. */
  lemma StatusNamedRoundTrip(s: StatusEnum)
    ensures StatusNamed(Some(Value(s))) == Some(s)
  {
  }

  /** Whatever the lookup returns carries exactly the string it was given, and
      it returns nothing exactly for null and for strings that are no constant's
      value. */
  lemma StatusNamedExact(value: Option<string>)
    ensures forall s :: StatusNamed(value) == Some(s) ==> value == Some(Value(s))
    ensures StatusNamed(value).None? <==> forall s :: value != Some(Value(s))
  {
    if StatusNamed(value).None? {
      forall s ensures value != Some(Value(s)) {
        StatusNamedRoundTrip(s);
      }
    }
  }

  /** `StatusEnum.fromValue(value)`: walk `values()` and return the first constant
      whose value equals the argument; null when none does (`equals(null)` is false). */
  method FromValue(value: Option<string>) returns (r: Option<StatusEnum>)
    ensures r == StatusNamed(value)
  {
    var i := 0;
    while i < |Values|
      invariant 0 <= i <= |Values|
      invariant forall j :: 0 <= j < i ==> value != Some(Value(Values[j]))
    {
      var b := Values[i];
      if value == Some(Value(b)) {
        StatusNamedRoundTrip(b);
        return Some(b);
      }
      i := i + 1;
    }
    assert value != Some(Value(Values[0])) && value != Some(Value(Values[1]));
    assert value != Some(Value(Values[2])) && value != Some(Value(Values[3]));
    return None;
  }

  /** `org.openapitools.jackson.nullable.JsonNullable<T>`: undefined, or present
      with a content that may itself be null. The library hands out one shared
      instance for `undefined()`, and `of(v)` builds a new instance every time. */
  datatype JsonNullable<T> = Undefined | Present(content: Option<T>)

  /** Whether two wrapper references are the same instance: both null, or both
      the shared undefined instance. Present wrappers are separate instances;
      when two of them are in fact one instance, the second disjunct of
      `EqualsNullable` holds of them as well. */
  predicate SameInstance<T(==)>(a: Option<JsonNullable<T>>, b: Option<JsonNullable<T>>)
  {
    (a.None? && b.None?) || (a == Some(Undefined) && b == Some(Undefined))
  }

  /** `Pet.equalsNullable(a, b)`: the same reference, or both non-null and present
      with deep-equal contents (for the non-array contents used here
      `Objects.deepEquals` is value equality, null equal only to null). */
  predicate EqualsNullable<T(==)>(a: Option<JsonNullable<T>>, b: Option<JsonNullable<T>>)
  {
    SameInstance(a, b)
    || (a.Some? && b.Some? && a.value.Present? && b.value.Present? && a.value.content == b.value.content)
  }

  /** In this value model `equalsNullable` is exactly equality of the two wrappers:
      null only equals null, undefined only undefined, present only present with
      an equal content. */
  lemma EqualsNullableIsEquality<T>(a: Option<JsonNullable<T>>, b: Option<JsonNullable<T>>)
    ensures EqualsNullable(a, b) <==> a == b
  {
  }

  /** The hash of one array element: `hashCode()`, or 0 for null. */
  function ElementHash<T>(e: Option<T>, hash: T -> Int32): Int32
  {
    match e
    case None => 0
    case Some(x) => hash(x)
  }

  /** `Arrays.deepHashCode(a)` for an array of non-array elements: start at 1,
      then `result = 31 * result + elementHash` in `int`. */
  function DeepHashCode<T>(elements: seq<Option<T>>, hash: T -> Int32): Int32
  {
    if elements == [] then 1
    else Wrap32(31 * DeepHashCode(elements[..|elements| - 1], hash) + ElementHash(elements[|elements| - 1], hash))
  }

  /** `Pet.hashCodeNullable(a)`. */
  function HashCodeNullable<T>(a: Option<JsonNullable<T>>, hash: T -> Int32): Int32
  {
    match a
    case None => 1
    case Some(Undefined) => 31
    case Some(Present(v)) => DeepHashCode([v], hash)
  }

  /** 1 for null, 31 for undefined, and `31 + hashCode(content)` (0 for a null
      content) for a present wrapper, all in `int`. */
  lemma HashCodeNullableValues<T>(a: Option<JsonNullable<T>>, hash: T -> Int32)
    ensures a.None? ==> HashCodeNullable(a, hash) == 1
    ensures a == Some(Undefined) ==> HashCodeNullable(a, hash) == 31
    ensures a.Some? && a.value.Present? ==>
      HashCodeNullable(a, hash) == Wrap32(31 + ElementHash(a.value.content, hash))
  {
    if a.Some? && a.value.Present? {
      var e := [a.value.content];
      assert e[..0] == [];
      assert DeepHashCode(e, hash) == Wrap32(31 * 1 + ElementHash(a.value.content, hash));
    }
  }

  /** Wrappers that `equalsNullable` identifies get the same hash. */
  lemma HashCodeNullableRespectsEquals<T>(a: Option<JsonNullable<T>>, b: Option<JsonNullable<T>>, hash: T -> Int32)
    requires EqualsNullable(a, b)
    ensures HashCodeNullable(a, hash) == HashCodeNullable(b, hash)
  {
    EqualsNullableIsEquality(a, b);
  }

  /** A present wrapper holding null hashes like the undefined one although the
      two are not equal: a collision, which the hash contract allows. */
  lemma PresentNullHashesLikeUndefined<T>(hash: T -> Int32)
    ensures HashCodeNullable<T>(Some(Present(None)), hash) == HashCodeNullable<T>(Some(Undefined), hash)
    ensures !EqualsNullable<T>(Some(Present(None)), Some(Undefined))
  {
    HashCodeNullableValues<T>(Some(Present(None)), hash);
  }

  /** Occurrences of character c in s. */
  function Count(s: string, c: char): nat
  {
    if s == [] then 0 else (if s[0] == c then 1 else 0) + Count(s[1..], c)
  }

  const Indentation: string := "    "

  /** `s.replace("\n", "\n    ")`: every line break followed by four spaces. */
  function Indent(s: string): string
  {
    if s == [] then []
    else (if s[0] == '\n' then "\n" + Indentation else [s[0]]) + Indent(s[1..])
  }

  /** `Pet.toIndentedString(o)`, where text is `o.toString()`, or null for a null o. */
  function ToIndentedString(text: Option<string>): string
  {
    match text
    case None => "null"
    case Some(t) => Indent(t)
  }

  /** Removes the four spaces after every line break: the way back from `Indent`. */
  function Unindent(r: string): string
  {
    if r == [] then []
    else if r[0] == '\n' && |r| >= 5 && r[1..5] == Indentation then "\n" + Unindent(r[5..])
    else [r[0]] + Unindent(r[1..])
  }

  /** The rewrite keeps the number of line breaks and adds four characters per break. */
  lemma {:induction false} IndentSize(s: string)
    ensures Count(Indent(s), '\n') == Count(s, '\n')
    ensures |Indent(s)| == |s| + 4 * Count(s, '\n')
  {
    if s != [] {
      IndentSize(s[1..]);
      var head := if s[0] == '\n' then "\n" + Indentation else [s[0]];
      CountAppend(head, Indent(s[1..]), '\n');
    }
  }

  lemma {:induction false} CountAppend(a: string, b: string, c: char)
    ensures Count(a + b, c) == Count(a, c) + Count(b, c)
  {
    if a != [] {
      assert (a + b)[0] == a[0];
      assert (a + b)[1..] == a[1..] + b;
      CountAppend(a[1..], b, c);
    } else {
      assert a + b == b;
    }
  }

  /** Every line break of the result is followed by the four-space indentation. */
  lemma {:induction false} IndentBreaksIndented(s: string, i: nat)
    requires i < |Indent(s)| && Indent(s)[i] == '\n'
    ensures i + 5 <= |Indent(s)| && Indent(s)[i + 1..i + 5] == Indentation
  {
    var head := if s[0] == '\n' then "\n" + Indentation else [s[0]];
    assert Indent(s) == head + Indent(s[1..]);
    if i >= |head| {
      assert Indent(s[1..])[i - |head|] == '\n';
      IndentBreaksIndented(s[1..], i - |head|);
      assert Indent(s)[i + 1..i + 5] == Indent(s[1..])[i - |head| + 1..i - |head| + 5];
    } else {
      assert s[0] == '\n' && i == 0;
      IndentSize(s[1..]);
    }
  }

  /** Removing the indentation gives back the original text, so the rewrite
      loses nothing. */
  lemma {:induction false} UnindentIndent(s: string)
    ensures Unindent(Indent(s)) == s
  {
    if s != [] {
      UnindentIndent(s[1..]);
      if s[0] == '\n' {
        var r := Indent(s);
        assert r == "\n" + Indentation + Indent(s[1..]);
        assert r[1..5] == Indentation;
        assert r[5..] == Indent(s[1..]);
      } else {
        assert Indent(s) == [s[0]] + Indent(s[1..]);
        assert Indent(s)[1..] == Indent(s[1..]);
      }
    }
  }

  /** Text without line breaks comes back unchanged; null becomes "null". */
  lemma {:induction false} IndentSingleLine(s: string)
    requires Count(s, '\n') == 0
    ensures Indent(s) == s && ToIndentedString(Some(s)) == s && ToIndentedString(None) == "null"
  {
    if s != [] {
      IndentSingleLine(s[1..]);
    }
  }

  /** A `java.time.OffsetDateTime`, as far as equality goes. */
  datatype OffsetDateTime = OffsetDateTime(epochSecond: int, nanoOfSecond: int, offsetSeconds: int)

  /** A `java.time.LocalDate`. */
  datatype LocalDate = LocalDate(year: int, month: int, day: int)

  /** A `Category`: an id and a name. */
  datatype Category = Category(id: Option<Int64>, name: Option<JString>)

  /** A `Tag`: an id and a name. */
  datatype Tag = Tag(id: Option<Int64>, name: Option<JString>)

  /** The fields of a `Pet`, in the order `equals`, `hashCode` and `toString` use them. */
  datatype PetState = PetState(
    id: Option<Int64>,
    category: Option<Category>,
    name: Option<string>,
    photoUrls: Option<seq<string>>,
    tags: Option<seq<Tag>>,
    status: Option<JsonNullable<StatusEnum>>,
    createdOn: Option<OffsetDateTime>,
    lastModifiedOn: Option<JsonNullable<LocalDate>>)

  /** `addXItem` on a list field that may be null: a new list when it is null,
      then the item at the end. */
  function AddItem<T>(list: Option<seq<T>>, item: T): (r: seq<T>)
    ensures |r| > 0 && r[|r| - 1] == item
    ensures list.None? ==> r == [item]
    ensures list.Some? ==> r[..|r| - 1] == list.value
  {
    match list
    case None => [item]
    case Some(l) => l + [item]
  }

  /** The field-by-field comparison at the end of `Pet.equals`: `Objects.equals`
      on the plain fields (value equality, null equal only to null) and
      `equalsNullable` on the two wrapper fields. */
  predicate EqualFields(a: PetState, b: PetState)
  {
    a.id == b.id &&
    a.category == b.category &&
    a.name == b.name &&
    a.photoUrls == b.photoUrls &&
    a.tags == b.tags &&
    EqualsNullable(a.status, b.status) &&
    a.createdOn == b.createdOn &&
    EqualsNullable(a.lastModifiedOn, b.lastModifiedOn)
  }

  /** `Pet.equals` compares exactly the whole state. */
  lemma EqualFieldsIsStateEquality(a: PetState, b: PetState)
    ensures EqualFields(a, b) <==> a == b
  {
    EqualsNullableIsEquality(a.status, b.status);
    EqualsNullableIsEquality(a.lastModifiedOn, b.lastModifiedOn);
  }

  /** The generated `Pet`. Lists are held as values: the model does not track a
      list that the caller still shares with the object. */
  class Pet {
    var id: Option<Int64>
    var category: Option<Category>
    var name: Option<string>
    var photoUrls: Option<seq<string>>
    var tags: Option<seq<Tag>>
    var createdOn: Option<OffsetDateTime>
    var lastModifiedOn: Option<JsonNullable<LocalDate>>
    var status: Option<JsonNullable<StatusEnum>>

    function State(): PetState
      reads this
    {
      PetState(id, category, name, photoUrls, tags, status, createdOn, lastModifiedOn)
    }

    /** `new Pet()`: only the field initialisers run. */
    constructor ()
      ensures id.None? && category.None? && name.None? && createdOn.None?
      ensures photoUrls == Some([]) && tags.None?
      ensures status == Some(Undefined) && lastModifiedOn == Some(Undefined)
    {
      id, category, name, createdOn := None, None, None, None;
      photoUrls, tags := Some([]), None;
      status, lastModifiedOn := Some(Undefined), Some(Undefined);
    }

    /** `new Pet(name, photoUrls)`: the field initialisers, then the two arguments. */
    constructor WithRequired(name: Option<string>, photoUrls: Option<seq<string>>)
      ensures this.name == name && this.photoUrls == photoUrls
      ensures id.None? && category.None? && createdOn.None? && tags.None?
      ensures status == Some(Undefined) && lastModifiedOn == Some(Undefined)
    {
      id, category, createdOn := None, None, None;
      tags := None;
      status, lastModifiedOn := Some(Undefined), Some(Undefined);
      this.name := name;
      this.photoUrls := photoUrls;
    }

    /** `id(id)`. */
    method WithId(v: Option<Int64>) returns (r: Pet)
      modifies this
      ensures r == this && State() == old(State()).(id := v)
    {
      id := v;
      r := this;
    }

    /** `category(category)`. */
    method WithCategory(v: Option<Category>) returns (r: Pet)
      modifies this
      ensures r == this && State() == old(State()).(category := v)
    {
      category := v;
      r := this;
    }

    /** `name(name)`. */
    method WithName(v: Option<string>) returns (r: Pet)
      modifies this
      ensures r == this && State() == old(State()).(name := v)
    {
      name := v;
      r := this;
    }

    /** `photoUrls(photoUrls)`. */
    method WithPhotoUrls(v: Option<seq<string>>) returns (r: Pet)
      modifies this
      ensures r == this && State() == old(State()).(photoUrls := v)
    {
      photoUrls := v;
      r := this;
    }

    /** `addPhotoUrlsItem(item)`: a new list if the field is null, then the item appended. */
    method AddPhotoUrlsItem(item: string) returns (r: Pet)
      modifies this
      ensures r == this && State() == old(State()).(photoUrls := Some(AddItem(old(photoUrls), item)))
    {
      if photoUrls.None? {
        photoUrls := Some([]);
      }
      assert old(photoUrls).None? ==> photoUrls.value + [item] == [item];
      photoUrls := Some(photoUrls.value + [item]);
      r := this;
    }

    /** `tags(tags)`. */
    method WithTags(v: Option<seq<Tag>>) returns (r: Pet)
      modifies this
      ensures r == this && State() == old(State()).(tags := v)
    {
      tags := v;
      r := this;
    }

    /** `addTagsItem(item)`: a new list if the field is null, then the item appended. */
    method AddTagsItem(item: Tag) returns (r: Pet)
      modifies this
      ensures r == this && State() == old(State()).(tags := Some(AddItem(old(tags), item)))
    {
      if tags.None? {
        tags := Some([]);
      }
      assert old(tags).None? ==> tags.value + [item] == [item];
      tags := Some(tags.value + [item]);
      r := this;
    }

    /** `status(status)`: a new present wrapper around the argument (which may be null). */
    method WithStatus(v: Option<StatusEnum>) returns (r: Pet)
      modifies this
      ensures r == this && State() == old(State()).(status := Some(Present(v)))
    {
      status := Some(Present(v));
      r := this;
    }

    /** `setStatus(status)`: stores the wrapper reference itself, null included. */
    method SetStatus(v: Option<JsonNullable<StatusEnum>>)
      modifies this
      ensures State() == old(State()).(status := v)
    {
      status := v;
    }

    /** `createdOn(createdOn)`. */
    method WithCreatedOn(v: Option<OffsetDateTime>) returns (r: Pet)
      modifies this
      ensures r == this && State() == old(State()).(createdOn := v)
    {
      createdOn := v;
      r := this;
    }

    /** `lastModifiedOn(lastModifiedOn)`: a new present wrapper around the argument. */
    method WithLastModifiedOn(v: Option<LocalDate>) returns (r: Pet)
      modifies this
      ensures r == this && State() == old(State()).(lastModifiedOn := Some(Present(v)))
    {
      lastModifiedOn := Some(Present(v));
      r := this;
    }

    /** `setLastModifiedOn(lastModifiedOn)`: stores the wrapper reference itself. */
    method SetLastModifiedOn(v: Option<JsonNullable<LocalDate>>)
      modifies this
      ensures State() == old(State()).(lastModifiedOn := v)
    {
      lastModifiedOn := v;
    }

    /** `equals(o)`: the same object, or another `Pet` (the class test) with equal fields. */
    predicate Equals(o: object?)
      reads this, o
    {
      this == o || (o != null && o is Pet && EqualFields(State(), (o as Pet).State()))
    }
  }

  /** `equals` is reflexive, and false against null and against objects of another class. */
  lemma EqualsBasics(p: Pet, o: object?)
    ensures p.Equals(p)
    ensures !p.Equals(null)
    ensures o != null && !(o is Pet) ==> !p.Equals(o)
  {
  }

  /** Two `Pet` objects are `equals` exactly when their states are equal, so
      `equals` is symmetric. */
  lemma EqualsIsStateEquality(p: Pet, q: Pet)
    ensures p.Equals(q) <==> p.State() == q.State()
    ensures p.Equals(q) <==> q.Equals(p)
  {
    EqualFieldsIsStateEquality(p.State(), q.State());
    EqualFieldsIsStateEquality(q.State(), p.State());
  }
}
