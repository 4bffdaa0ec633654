/**
  What the project-group decoder promises: a one-to-one renaming, no default
  for a missing key, the three-way split of `members`, independence from keys
  it does not read, losslessness on canonical wire objects, and agreement
  between the wire schema and the declared domain interfaces.
 */
module ProjectGroupProperties {
  import opened Json
  import opened ProjectGroup
  import opened ProjectGroupEncoding

  // ---------------------------------------------------------------------------
  // The rename table
  // ---------------------------------------------------------------------------

  /** The renaming pairs eight distinct wire keys with eight distinct domain
      fields, and the wire keys are exactly the keys the decoder reads. */
  lemma RenamesAreOneToOne()
    ensures |MemberRenames| == 8
    ensures forall i, j :: 0 <= i < j < |MemberRenames| ==>
      MemberRenames[i].0 != MemberRenames[j].0 && MemberRenames[i].1 != MemberRenames[j].1
    ensures MemberWireKeys == set p | p in MemberRenames :: p.0
  {
  }

  /** Two members that agree on every renamed field are equal: the table names
      every field of `Member`. */
  lemma MemberExtensionality(a: Member, b: Member)
    requires forall wire, name :: (wire, name) in MemberRenames ==> MemberField(a, name) == MemberField(b, name)
    ensures a == b
  {
  }

  // ---------------------------------------------------------------------------
  // The member decoder
  // ---------------------------------------------------------------------------

  /** A key missing from a raw member gives an undefined domain field: no
      default is substituted and nothing is thrown. */
  lemma MissingKeyGivesUndefined(fields: map<string, Value>, wire: string, name: string)
    requires (wire, name) in MemberRenames
    requires wire !in fields
    ensures MemberField(TransformMember(VObj(fields)), name) == Absent
  {
  }

  /** The member decoder reads only the eight wire keys: two raw members that
      agree on them decode alike. */
  lemma MemberReadsOnlyWireKeys(a: Value, b: Value)
    requires !a.VNull? && !b.VNull?
    requires forall k :: k in MemberWireKeys ==> Prop(a, k) == Prop(b, k)
    ensures TransformMember(a) == TransformMember(b)
  {
  }

  /** Adding or changing any other key of a raw member changes nothing. */
  lemma MemberIgnoresOtherKeys(fields: map<string, Value>, k: string, v: Value)
    requires k !in MemberWireKeys
    ensures TransformMember(VObj(fields[k := v])) == TransformMember(VObj(fields))
  {
  }

  /** A non-null primitive or array in place of a member object throws
      nothing: every field comes out undefined. */
  lemma NonObjectMemberIsAllUndefined(data: Value)
    requires !data.VNull? && !data.VObj?
    ensures forall wire, name :: (wire, name) in MemberRenames ==> MemberField(TransformMember(data), name) == Absent
  {
  }

  // ---------------------------------------------------------------------------
  // The group decoder
  // ---------------------------------------------------------------------------

  /** Undefined `members` stays undefined, and only undefined becomes it. */
  lemma UndefinedMembersStayUndefined(raw: Value)
    requires Decodable(raw)
    ensures TransformGroup(raw).members == Undefined <==> Prop(raw, "members") == Absent
  {
  }

  /** `members: null` stays `null`, and only `null` becomes it; it is never
      turned into an empty list. */
  lemma NullMembersStayNull(raw: Value)
    requires Decodable(raw)
    ensures TransformGroup(raw).members == Falsy(VNull) <==> Prop(raw, "members") == Present(VNull)
  {
  }

  /** An empty array is truthy, so it decodes to an empty list, and only an
      empty array does. */
  lemma EmptyMembersStayEmpty(raw: Value)
    requires Decodable(raw)
    ensures TransformGroup(raw).members == List([]) <==> Prop(raw, "members") == Present(VArr([]))
  {
  }

  /** The `&&` passes only falsy operands through: a passed-through
      `members` value is always falsy. */
  lemma DecodedPassthroughIsFalsy(raw: Value)
    requires Decodable(raw)
    ensures FalsyPassthrough(TransformGroup(raw).members)
  {
  }

  /** The group decoder reads only `id` and `members`: two non-null arguments
      that agree on them are decodable alike and decode alike, whatever other
      keys they hold and whether or not they are objects. */
  lemma GroupReadsOnlyWireKeys(a: Value, b: Value)
    requires !a.VNull? && !b.VNull?
    requires forall k :: k in GroupWireKeys ==> Prop(a, k) == Prop(b, k)
    ensures Decodable(a) == Decodable(b)
    ensures Decodable(a) ==> TransformGroup(a) == TransformGroup(b)
  {
  }

  /** Adding or changing any other key of a raw group changes nothing. */
  lemma GroupIgnoresOtherKeys(fields: map<string, Value>, k: string, v: Value)
    requires Decodable(VObj(fields))
    requires k !in GroupWireKeys
    ensures Decodable(VObj(fields[k := v]))
    ensures TransformGroup(VObj(fields[k := v])) == TransformGroup(VObj(fields))
  {
  }

  // ---------------------------------------------------------------------------
  // Round trips
  // ---------------------------------------------------------------------------

  /** Decoding an encoded member gives the member back. */
  lemma DecodeEncodeMember(m: Member)
    ensures TransformMember(EncodeMember(m)) == m
  {
  }

  /** Two wire objects holding only member keys are equal when they agree
      on every renamed key. */
  lemma WireMemberExtensionality(a: map<string, Value>, b: map<string, Value>)
    requires a.Keys <= MemberWireKeys && b.Keys <= MemberWireKeys
    requires forall wire, name :: (wire, name) in MemberRenames ==> Prop(VObj(a), wire) == Prop(VObj(b), wire)
    ensures a == b
  {
  }

  /** A wire member object with no keys besides the eight read ones survives
      decoding and re-encoding unchanged: the decoder loses nothing. */
  lemma EncodeDecodeMember(fields: map<string, Value>)
    requires fields.Keys <= MemberWireKeys
    ensures EncodeMember(TransformMember(VObj(fields))) == VObj(fields)
  {
    var m := TransformMember(VObj(fields));
    var back := EncodeMember(m).fields;
    WireMemberExtensionality(back, fields);
  }

  /** Decoding an encoded member list gives the list back, in order. */
  lemma DecodeEncodeMembers(ms: seq<Member>)
    ensures MembersReadable(EncodeMembers(ms))
    ensures TransformMembers(EncodeMembers(ms)) == ms
  {
    var back := TransformMembers(EncodeMembers(ms));
    forall i | 0 <= i < |ms|
      ensures back[i] == ms[i]
    {
      DecodeEncodeMember(ms[i]);
    }
  }

  /** An encoded member list is a truthy array that the `&&` decoding turns
      back into the same list. */
  lemma DecodeEncodeMemberList(items: seq<Member>)
    ensures MembersReadable(EncodeMembers(items))
    ensures TransformMembersField(Present(VArr(EncodeMembers(items)))) == List(items)
  {
    DecodeEncodeMembers(items);
  }

  /** Decoding the wire form of a `members` field whose passed-through value
      is falsy gives it back. */
  lemma DecodeEncodeMembersField(ms: Members)
    requires FalsyPassthrough(ms)
    ensures var f := EncodeMembersField(ms);
      f.Present? && Truthy(f.value) ==> f.value.VArr? && MembersReadable(f.value.items)
    ensures TransformMembersField(EncodeMembersField(ms)) == ms
  {
    if ms.List? {
      DecodeEncodeMemberList(ms.items);
    }
  }

  /** Decoding an encoded group gives the group back, provided a passed-through
      `members` value is falsy as the decoder produces it. */
  lemma DecodeEncodeGroup(g: Group)
    requires FalsyPassthrough(g.members)
    ensures Decodable(EncodeGroup(g))
    ensures TransformGroup(EncodeGroup(g)) == g
  {
    DecodeEncodeMembersField(g.members);
  }

  /** A wire group in canonical form: an object holding only `id` and
      `members`, whose truthy `members` is an array of member objects holding
      only member keys. */
  predicate CanonicalWireGroup(raw: Value) {
    && raw.VObj?
    && raw.fields.Keys <= GroupWireKeys
    && var ms := Prop(raw, "members");
       (ms.Present? && Truthy(ms.value) ==>
          && ms.value.VArr?
          && forall i :: 0 <= i < |ms.value.items| ==>
               ms.value.items[i].VObj? && ms.value.items[i].fields.Keys <= MemberWireKeys)
  }

  /** A canonical wire group survives decoding and re-encoding unchanged. */
  lemma EncodeDecodeGroup(raw: Value)
    requires CanonicalWireGroup(raw)
    ensures Decodable(raw)
    ensures EncodeGroup(TransformGroup(raw)) == raw
  {
    var ms := Prop(raw, "members");
    if ms.Present? && Truthy(ms.value) {
      var items := ms.value.items;
      var back := EncodeMembers(TransformMembers(items));
      forall i | 0 <= i < |items|
        ensures back[i] == items[i]
      {
        EncodeDecodeMember(items[i].fields);
      }
      assert back == items;
    }
    var out := EncodeGroup(TransformGroup(raw)).fields;
    forall k | k in GroupWireKeys
      ensures Prop(VObj(out), k) == Prop(raw, k)
    {
    }
    assert out == raw.fields;
  }

  // ---------------------------------------------------------------------------
  // Schema conformance
  // ---------------------------------------------------------------------------

  /** The wire shape of a member: a snake_case object with string names,
      role `"owner"`, numeric ids, a boolean flag and a string email. */
  predicate WireMemberConforms(raw: Value) {
    && raw.VObj?
    && IsString(Prop(raw, "first_name"))
    && IsString(Prop(raw, "last_name"))
    && Prop(raw, "role") == Present(VStr("owner"))
    && IsNumber(Prop(raw, "identity_id"))
    && IsBool(Prop(raw, "active"))
    && IsString(Prop(raw, "company"))
    && IsNumber(Prop(raw, "id"))
    && IsString(Prop(raw, "email"))
  }

  /** The wire shape of a group: an object with a string id and members that
      are missing, `null` or an array of conforming members. */
  predicate WireGroupConforms(raw: Value) {
    && raw.VObj?
    && IsString(Prop(raw, "id"))
    && match Prop(raw, "members")
       case Absent => true
       case Present(VNull) => true
       case Present(VArr(items)) => forall i :: 0 <= i < |items| ==> WireMemberConforms(items[i])
       case Present(_) => false
  }

  /** With no coercion, a decoded member has the declared interface exactly
      when the wire member has the wire shape. */
  lemma MemberConformance(raw: Value)
    requires !raw.VNull?
    ensures MemberConforms(TransformMember(raw)) <==> WireMemberConforms(raw)
  {
  }

  /** A decoded group has the declared interface exactly when the wire group
      has the wire shape; wrongly typed input is not repaired. */
  lemma GroupConformance(raw: Value)
    requires Decodable(raw)
    ensures GroupConforms(TransformGroup(raw)) <==> WireGroupConforms(raw)
  {
  }

  // ---------------------------------------------------------------------------
  // Worked examples
  // ---------------------------------------------------------------------------

  /** A complete wire member decodes field by field, renamed. */
  lemma ExampleFullMember()
    ensures TransformMember(VObj(map[
      "first_name" := VStr("Ann"), "last_name" := VStr("Lee"), "role" := VStr("owner"),
      "identity_id" := VNum(7), "active" := VBool(true), "company" := VStr("Acme"),
      "id" := VNum(42), "email" := VStr("a@x.com")]))
      == Member(
        firstName := Present(VStr("Ann")), lastName := Present(VStr("Lee")),
        role := Present(VStr("owner")), identityId := Present(VNum(7)),
        active := Present(VBool(true)), company := Present(VStr("Acme")),
        id := Present(VNum(42)), email := Present(VStr("a@x.com")))
  {
  }

  /** The role is copied whatever it is; `'owner'` is not enforced. */
  lemma ExampleRoleNotChecked()
    ensures TransformMember(VObj(map["role" := VStr("admin")])).role == Present(VStr("admin"))
  {
  }

  /** `{id: "g1", members: null}` decodes to `{id: "g1", members: null}`. */
  lemma ExampleNullMembers()
    ensures TransformGroup(VObj(map["id" := VStr("g1"), "members" := VNull]))
      == Group(Present(VStr("g1")), Falsy(VNull))
  {
  }

  /** `{id: "g2"}` decodes to `{id: "g2", members: undefined}`. */
  lemma ExampleNoMembers()
    ensures TransformGroup(VObj(map["id" := VStr("g2")])) == Group(Present(VStr("g2")), Undefined)
  {
  }

  /** `members: false` is falsy and passes through `&&` as `false`. */
  lemma ExampleFalseMembers()
    ensures TransformGroup(VObj(map["members" := VBool(false)])) == Group(Absent, Falsy(VBool(false)))
  {
  }
}
