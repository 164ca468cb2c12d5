/** A person's five identifying text fields, and the text form `toString`
    gives them. */
module Persons {
  import opened Optional

  datatype Person = Person(firstName: string, lastName: string, dob: string,
                           permAdd: string, phoneNum: string)

  /** The five fields, for the getter/setter pairs. */
  datatype Field = FirstName | LastName | Dob | PermAdd | PhoneNum

  /** The constructor stores every argument as given. */
  function NewPerson(firstName: string, lastName: string, dob: string,
                     permAdd: string, phoneNum: string): (p: Person)
    ensures Get(p, FirstName) == firstName && Get(p, LastName) == lastName
    ensures Get(p, Dob) == dob && Get(p, PermAdd) == permAdd
    ensures Get(p, PhoneNum) == phoneNum
  {
    Person(firstName, lastName, dob, permAdd, phoneNum)
  }

  /** The getters `getFirstName` ... `getPhoneNum`. */
  function Get(p: Person, f: Field): string
  {
    match f
    case FirstName => p.firstName
    case LastName => p.lastName
    case Dob => p.dob
    case PermAdd => p.permAdd
    case PhoneNum => p.phoneNum
  }

  /** The setters `setFirstName` ... `setPhoneNum`. None validates its
      argument: any string is stored, and only the named field changes. */
  function Set(p: Person, f: Field, v: string): (r: Person)
    ensures Get(r, f) == v
    ensures forall g :: g != f ==> Get(r, g) == Get(p, g)
  {
    match f
    case FirstName => p.(firstName := v)
    case LastName => p.(lastName := v)
    case Dob => p.(dob := v)
    case PermAdd => p.(permAdd := v)
    case PhoneNum => p.(phoneNum := v)
  }

  /** Two people are equal exactly when all five getters agree. */
  lemma FieldsDetermine(p: Person, q: Person)
    ensures p == q <==> forall f :: Get(p, f) == Get(q, f)
  {
    if forall f :: Get(p, f) == Get(q, f) {
      assert Get(p, FirstName) == Get(q, FirstName);
      assert Get(p, LastName) == Get(q, LastName);
      assert Get(p, Dob) == Get(q, Dob);
      assert Get(p, PermAdd) == Get(q, PermAdd);
      assert Get(p, PhoneNum) == Get(q, PhoneNum);
    }
  }

  const Prefix: string := "Person{firstName='"
  const SepLastName: string := "', lastName='"
  const SepDob: string := "', dob='"
  const SepPermAdd: string := "', permAdd='"
  const SepPhoneNum: string := "', phoneNum="
  const Suffix: string := "}"

  /** `toString`: the four first fields in single quotes, the phone number
      bare, inside `Person{...}`. */
  function ToString(p: Person): (s: string)
    ensures |s| == |Prefix| + |p.firstName| + |SepLastName| + |p.lastName| + |SepDob|
                   + |p.dob| + |SepPermAdd| + |p.permAdd| + |SepPhoneNum| + |p.phoneNum| + |Suffix|
    ensures s[..|Prefix|] == Prefix && s[|s| - |Suffix|..] == Suffix
    ensures s[|Prefix|..|Prefix| + |p.firstName|] == p.firstName
    ensures s[|s| - |Suffix| - |p.phoneNum|..|s| - |Suffix|] == p.phoneNum
  {
    Prefix + p.firstName + SepLastName + p.lastName + SepDob + p.dob
      + SepPermAdd + p.permAdd + SepPhoneNum + p.phoneNum + Suffix
  }

  predicate QuoteFree(s: string) {
    forall j :: 0 <= j < |s| ==> s[j] != '\''
  }

  /** The position of the first single quote in `s`, or `|s|`. */
  function FirstQuote(s: string): (i: nat)
    ensures i <= |s|
    ensures QuoteFree(s[..i])
    ensures i < |s| ==> s[i] == '\''
    decreases |s|
  {
    if s == [] then 0
    else if s[0] == '\'' then 0
    else
      var rest := FirstQuote(s[1..]);
      assert s[1..][..rest] == s[1..rest + 1];
      1 + rest
  }

  /** A quote-free text followed by a quote: the first quote is the one
      right after the text. */
  lemma FirstQuoteAfter(a: string, b: string)
    requires QuoteFree(a)
    requires |b| > 0 && b[0] == '\''
    ensures FirstQuote(a + b) == |a|
  {
    assert (a + b)[|a|] == b[0];
  }

  /** Reads one quoted field from the front of `s`: the text up to the
      first quote, which must start `sep`; also returns what follows `sep`. */
  function TakeField(s: string, sep: string): (r: Option<(string, string)>)
    ensures r.Some? ==> s == r.value.0 + sep + r.value.1 && QuoteFree(r.value.0)
  {
    var i := FirstQuote(s);
    if i + |sep| <= |s| && s[i..i + |sep|] == sep then
      assert s == s[..i] + sep + s[i + |sep|..];
      Some((s[..i], s[i + |sep|..]))
    else None
  }

  /** What `toString` puts between its prefix and suffix. */
  function Body(p: Person): string
  {
    p.firstName + SepLastName + (p.lastName + SepDob + (p.dob + SepPermAdd + (p.permAdd + SepPhoneNum + p.phoneNum)))
  }

  lemma ToStringFramesBody(p: Person)
    ensures ToString(p) == Prefix + Body(p) + Suffix
  {
  }

  /** Reads the four quoted fields and the phone number from a body. */
  function ParseBody(body: string): (r: Option<Person>)
    ensures r.Some? ==> Body(r.value) == body
  {
    match TakeField(body, SepLastName)
    case None => None
    case Some((first, r1)) =>
      match TakeField(r1, SepDob)
      case None => None
      case Some((last, r2)) =>
        match TakeField(r2, SepPermAdd)
        case None => None
        case Some((dob, r3)) =>
          match TakeField(r3, SepPhoneNum)
          case None => None
          case Some((addr, phone)) => Some(Person(first, last, dob, addr, phone))
  }

  /** Reads back the text `toString` produces; None for any text it cannot
      produce in the shape it expects. */
  function Parse(s: string): (r: Option<Person>)
    ensures r.Some? ==> ToString(r.value) == s
  {
    if |s| < |Prefix| + |Suffix| || s[..|Prefix|] != Prefix || s[|s| - |Suffix|..] != Suffix then None
    else
      var body := s[|Prefix|..|s| - |Suffix|];
      assert s == Prefix + body + Suffix;
      var r := ParseBody(body);
      if r.Some? then ToStringFramesBody(r.value); r else r
  }

  /** `toString` loses nothing when the four quoted fields contain no
      single quote: parsing its text gives the person back. */
  lemma ParseToString(p: Person)
    requires QuoteFree(p.firstName) && QuoteFree(p.lastName)
    requires QuoteFree(p.dob) && QuoteFree(p.permAdd)
    ensures Parse(ToString(p)) == Some(p)
  {
    var s := ToString(p);
    var body := Body(p);
    ToStringFramesBody(p);
    assert s[..|Prefix|] == Prefix;
    assert s[|s| - |Suffix|..] == Suffix;
    assert s[|Prefix|..|s| - |Suffix|] == body;
    var r3 := p.permAdd + SepPhoneNum + p.phoneNum;
    var r2 := p.dob + SepPermAdd + r3;
    var r1 := p.lastName + SepDob + r2;
    TakeFieldOf(p.firstName, SepLastName, r1);
    TakeFieldOf(p.lastName, SepDob, r2);
    TakeFieldOf(p.dob, SepPermAdd, r3);
    TakeFieldOf(p.permAdd, SepPhoneNum, p.phoneNum);
  }

  lemma TakeFieldOf(a: string, sep: string, rest: string)
    requires QuoteFree(a)
    requires |sep| > 0 && sep[0] == '\''
    ensures TakeField(a + sep + rest, sep) == Some((a, rest))
  {
    var s := a + sep + rest;
    assert s == a + (sep + rest);
    FirstQuoteAfter(a, sep + rest);
    assert s[|a|..|a| + |sep|] == sep;
    assert s[..|a|] == a;
    assert s[|a| + |sep|..] == rest;
  }

  /** With quotes in the fields, different people can print the same: a
      first name that ends in the last-name separator absorbs the start of
      the next field. The quote-free requirement above cannot be dropped. */
  lemma ToStringNotInjective(a: string, b: string, c: string, d: string, e: string, f: string)
    ensures Person(a + SepLastName + b, c, d, e, f) != Person(a, b + SepLastName + c, d, e, f)
    ensures ToString(Person(a + SepLastName + b, c, d, e, f))
            == ToString(Person(a, b + SepLastName + c, d, e, f))
  {
    var head := Prefix + a + SepLastName + b + SepLastName + c;
    assert Prefix + (a + SepLastName + b) + SepLastName + c == head;
    assert Prefix + a + SepLastName + (b + SepLastName + c) == head;
  }
}
