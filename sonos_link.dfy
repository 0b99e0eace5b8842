/**
  The `SonosLink` value object: the (user, Sonos household, link code)
  triple that ties a player account to a Sonos household. Its fields are
  final and set once by the constructor, so the object is modelled as a
  value, and `equals`/`hashCode` as functions of its three fields.
*/
module SonosLinks {
  import opened Wrappers
  import opened JavaInt

  /** The three `String` fields as an object holds them; `None` is `null`.
      `equals` and `hashCode` are written for any such triple, null fields
      included. */
  datatype LinkFields = LinkFields(username: Option<JString>, householdId: Option<JString>, linkcode: Option<JString>)

  /** A `SonosLink` the constructor has accepted: no field is null. */
  type SonosLink = f: LinkFields | f.username.Some? && f.householdId.Some? && f.linkcode.Some?
    witness LinkFields(Some([]), Some([]), Some([]))

  /** The argument of `equals(Object)`: null, a `SonosLink`, or an object of another class. */
  datatype JObject = Null | SonosLinkObject(fields: LinkFields) | OtherObject

  const USERNAME_REQUIRED: string := "The username must be provided"
  const HOUSEHOLD_ID_REQUIRED: string := "The householdId must be provided"
  const LINKCODE_REQUIRED: string := "The linkcode must be provided"

  /** The constructor: each argument is checked for null in order, and the
      first null one makes it throw with that argument's message. */
  function New(username: Option<JString>, householdId: Option<JString>, linkcode: Option<JString>): (r: Result<SonosLink, string>)
    ensures r.Success? <==> username.Some? && householdId.Some? && linkcode.Some?
    ensures r.Success? ==> (GetUsername(r.value) == username.value
                            && GetHouseholdId(r.value) == householdId.value
                            && GetLinkcode(r.value) == linkcode.value)
    ensures username.None? ==> r == Failure(USERNAME_REQUIRED)
    ensures username.Some? && householdId.None? ==> r == Failure(HOUSEHOLD_ID_REQUIRED)
    ensures username.Some? && householdId.Some? && linkcode.None? ==> r == Failure(LINKCODE_REQUIRED)
  {
    if username.None? then Failure(USERNAME_REQUIRED)
    else if householdId.None? then Failure(HOUSEHOLD_ID_REQUIRED)
    else if linkcode.None? then Failure(LINKCODE_REQUIRED)
    else Success(LinkFields(username, householdId, linkcode))
  }

  function GetUsername(link: SonosLink): (r: JString)
    ensures link.username == Some(r)
  {
    link.username.value
  }

  function GetHouseholdId(link: SonosLink): (r: JString)
    ensures link.householdId == Some(r)
  {
    link.householdId.value
  }

  function GetLinkcode(link: SonosLink): (r: JString)
    ensures link.linkcode == Some(r)
  {
    link.linkcode.value
  }

  /** One field's contribution to `hashCode`: 0 for null, else `String.hashCode`. */
  function FieldHash(f: Option<JString>): Int32
  {
    if f.None? then 0 else StringHash(f.value)
  }

  /** `hashCode`: the fold `result = 31 * result + h(field)` from 1 over
      householdId, linkcode and username, in `int` arithmetic. Its value is
      the three-level formula evaluated exactly and reduced once to an `int`. */
  function HashCode(link: LinkFields): (r: Int32)
    ensures r == Wrap(31 * (31 * (31 * 1 + FieldHash(link.householdId)) + FieldHash(link.linkcode)) + FieldHash(link.username))
  {
    var prime := 31;
    var result := 1;
    var result1 := Add(Mul(prime, result), FieldHash(link.householdId));
    var result2 := Add(Mul(prime, result1), FieldHash(link.linkcode));
    var h: int, c: int, u: int := FieldHash(link.householdId), FieldHash(link.linkcode), FieldHash(link.username);
    WrapUnique(31 * 1, 31);
    assert result1 == Wrap(31 + h);
    FoldStep(31 + h, c);
    assert result2 == Wrap(31 * (31 + h) + c);
    FoldStep(31 * (31 + h) + c, u);
    Add(Mul(prime, result2), FieldHash(link.username))
  }

  /** The null-safe comparison `equals` makes of one field: two nulls are
      equal, a null and a string are not, two strings compare by content. */
  function FieldEquals(a: Option<JString>, b: Option<JString>): bool
  {
    match a
    case None => b.None?
    case Some(s) => b.Some? && s == b.value
  }

  /** `equals(Object)`: false for null and for another class, otherwise the
      field-by-field comparison of householdId, linkcode and username. */
  function Equals(self: LinkFields, obj: JObject): (r: bool)
    ensures r <==> obj.SonosLinkObject? && obj.fields == self
  {
    if obj.Null? then false
    else if !obj.SonosLinkObject? then false
    else
      var other := obj.fields;
      FieldEquals(self.householdId, other.householdId)
      && FieldEquals(self.linkcode, other.linkcode)
      && FieldEquals(self.username, other.username)
  }

  /** The same value written out over the code units of the three strings:
      31^3 plus each field's `String.hashCode` polynomial times its weight. */
  lemma HashCodeOfLink(link: SonosLink)
    ensures HashCode(link) == Wrap(29791 + 961 * HashPolynomial(link.householdId.value)
                                   + 31 * HashPolynomial(link.linkcode.value)
                                   + HashPolynomial(link.username.value))
  {
    var hh, lc, un := link.householdId.value, link.linkcode.value, link.username.value;
    StringHashIsPolynomial(hh);
    StringHashIsPolynomial(lc);
    StringHashIsPolynomial(un);
    FieldWeightsCongruent(StringHash(hh), StringHash(lc), StringHash(un), HashPolynomial(hh), HashPolynomial(lc), HashPolynomial(un));
  }

  /** Replacing each field hash by a value congruent to it modulo 2^32 does
      not change the wrapped result. */
  lemma FieldWeightsCongruent(h: int, c: int, u: int, ph: int, pc: int, pu: int)
    requires (ph - h) % TWO_32 == 0 && (pc - c) % TWO_32 == 0 && (pu - u) % TWO_32 == 0
    ensures Wrap(29791 + 961 * ph + 31 * pc + pu) == Wrap(31 * (31 * (31 * 1 + h) + c) + u)
  {
    ScaledMultiple(961, ph - h);
    ScaledMultiple(31, pc - c);
    SumOfMultiples(961 * (ph - h), 31 * (pc - c));
    SumOfMultiples(961 * (ph - h) + 31 * (pc - c), pu - u);
    assert (29791 + 961 * ph + 31 * pc + pu) - (31 * (31 * (31 * 1 + h) + c) + u)
        == 961 * (ph - h) + 31 * (pc - c) + (pu - u);
    WrapCongruent(29791 + 961 * ph + 31 * pc + pu, 31 * (31 * (31 * 1 + h) + c) + u);
  }

  lemma EqualsReflexive(x: LinkFields)
    ensures Equals(x, SonosLinkObject(x))
  {
  }

  lemma EqualsRejectsNullAndOtherClasses(x: LinkFields)
    ensures !Equals(x, Null) && !Equals(x, OtherObject)
  {
  }

  lemma EqualsSymmetric(x: LinkFields, y: LinkFields)
    ensures Equals(x, SonosLinkObject(y)) <==> Equals(y, SonosLinkObject(x))
  {
  }

  lemma EqualsTransitive(x: LinkFields, y: LinkFields, z: LinkFields)
    requires Equals(x, SonosLinkObject(y)) && Equals(y, SonosLinkObject(z))
    ensures Equals(x, SonosLinkObject(z))
  {
  }

  /** The `equals`/`hashCode` contract of `java.lang.Object`. */
  lemma EqualLinksHaveEqualHashCodes(x: LinkFields, y: LinkFields)
    requires Equals(x, SonosLinkObject(y))
    ensures HashCode(x) == HashCode(y)
  {
  }
}
