/**
  The project-group response decoder: a snake_case wire record becomes a
  camelCase domain record. Field values are copied as they are, with no
  coercion and no defaults; a missing key yields an undefined field.
 */
module ProjectGroup {
  import opened Json

  /** One member of a project group, in the domain's camelCase shape. Every
      field is whatever the wire carried, possibly undefined. */
  datatype Member = Member(
    firstName: Field,
    lastName: Field,
    role: Field,
    identityId: Field,
    active: Field,
    company: Field,
    id: Field,
    email: Field)

  /** The `members` field of a decoded group: undefined, a falsy wire value
      passed through by `&&` (normally `null`), or the decoded list. */
  datatype Members = Undefined | Falsy(value: Value) | List(items: seq<Member>)

  /** A decoded project group. */
  datatype Group = Group(id: Field, members: Members)

  /** The `&&` passes only falsy operands through: a `Falsy` members value
      holds a falsy wire value. */
  predicate FalsyPassthrough(ms: Members) {
    ms.Falsy? ==> !Truthy(ms.value)
  }

  predicate IsString(f: Field) { f.Present? && f.value.VStr? }
  predicate IsNumber(f: Field) { f.Present? && f.value.VNum? }
  predicate IsBool(f: Field) { f.Present? && f.value.VBool? }

  /** The TypeScript types the declared interfaces use. */
  datatype DeclaredType = TString | TNumber | TBoolean | TLiteral(literal: string)

  /** A field holds a defined value of the declared type. */
  predicate HasType(f: Field, t: DeclaredType) {
    match t
    case TString => IsString(f)
    case TNumber => IsNumber(f)
    case TBoolean => IsBool(f)
    case TLiteral(s) => f == Present(VStr(s))
  }

  /** The `ProjectGroupMembers` interface, one (field, type) pair per line. */
  const MemberDeclaredTypes: seq<(string, DeclaredType)> := [
    ("firstName", TString),
    ("lastName", TString),
    ("role", TLiteral("owner")),
    ("identityId", TNumber),
    ("active", TBoolean),
    ("company", TString),
    ("id", TNumber),
    ("email", TString)
  ]

  /** The declared `ProjectGroupMembers` interface: strings, the literal role
      `'owner'`, numbers and a boolean, all defined. */
  predicate MemberConforms(m: Member): (ok: bool)
    ensures ok <==> forall name, t :: (name, t) in MemberDeclaredTypes ==> HasType(MemberField(m, name), t)
  {
    && IsString(m.firstName)
    && IsString(m.lastName)
    && m.role == Present(VStr("owner"))
    && IsNumber(m.identityId)
    && IsBool(m.active)
    && IsString(m.company)
    && IsNumber(m.id)
    && IsString(m.email)
  }

  /** The declared `ProjectGroup` interface: a string id, and members that are
      undefined, `null` or a list of conforming members. */
  predicate GroupConforms(g: Group): (ok: bool)
    ensures ok <==>
      && HasType(g.id, TString)
      && (g.members.Falsy? ==> g.members.value == VNull)
      && (g.members.List? ==> forall m :: m in g.members.items ==> MemberConforms(m))
  {
    && IsString(g.id)
    && match g.members
       case Undefined => true
       case Falsy(v) => v == VNull
       case List(items) => forall i :: 0 <= i < |items| ==> MemberConforms(items[i])
  }

  /** The member renaming, as (wire key, domain field) pairs. */
  const MemberRenames: seq<(string, string)> := [
    ("first_name", "firstName"),
    ("last_name", "lastName"),
    ("role", "role"),
    ("identity_id", "identityId"),
    ("active", "active"),
    ("company", "company"),
    ("id", "id"),
    ("email", "email")
  ]

  /** The wire keys a member decoder reads: the wire column of
      `MemberRenames`, as `RenamesAreOneToOne` shows. */
  const MemberWireKeys: set<string> :=
    {"first_name", "last_name", "role", "identity_id", "active", "company", "id", "email"}

  /** The wire keys the group decoder reads. */
  const GroupWireKeys: set<string> := {"id", "members"}

  /** A domain member's field, looked up by its camelCase name. */
  function MemberField(m: Member, name: string): Field {
    if name == "firstName" then m.firstName
    else if name == "lastName" then m.lastName
    else if name == "role" then m.role
    else if name == "identityId" then m.identityId
    else if name == "active" then m.active
    else if name == "company" then m.company
    else if name == "id" then m.id
    else if name == "email" then m.email
    else Absent
  }

  /** `transformProjectGroupMemberResponse`: every domain field is the wire
      value under its paired key in `MemberRenames`. */
  function TransformMember(data: Value): (m: Member)
    requires !data.VNull?
    ensures forall wire, name :: (wire, name) in MemberRenames ==> MemberField(m, name) == Prop(data, wire)
  {
    Member(
      firstName := Prop(data, "first_name"),
      lastName := Prop(data, "last_name"),
      role := Prop(data, "role"),
      identityId := Prop(data, "identity_id"),
      active := Prop(data, "active"),
      company := Prop(data, "company"),
      id := Prop(data, "id"),
      email := Prop(data, "email"))
  }

  /** Every element can be handed to the member decoder: reading a field of
      `null` would throw. */
  predicate MembersReadable(items: seq<Value>) {
    forall i :: 0 <= i < |items| ==> !items[i].VNull?
  }

  /** `members.map(transformProjectGroupMemberResponse)`. */
  function TransformMembers(items: seq<Value>): (r: seq<Member>)
    requires MembersReadable(items)
    ensures |r| == |items|
    ensures forall i :: 0 <= i < |items| ==> r[i] == TransformMember(items[i])
  {
    if items == [] then []
    else [TransformMember(items[0])] + TransformMembers(items[1..])
  }

  /** The group decoder runs without a TypeError: its argument is not `null`,
      and a truthy `members` is an array (so it has `.map`) whose elements are
      not `null`. */
  predicate Decodable(raw: Value): (ok: bool)
    ensures ok <==>
      && !raw.VNull?
      && match Prop(raw, "members")
         case Absent => true
         case Present(VArr(items)) => MembersReadable(items)
         case Present(v) => !Truthy(v)
  {
    && !raw.VNull?
    && var ms := Prop(raw, "members");
       (ms.Present? && Truthy(ms.value) ==> ms.value.VArr? && MembersReadable(ms.value.items))
  }

  /** `projectGroup.members && projectGroup.members.map(...)`: an undefined or
      falsy operand is the result; a truthy one is mapped. */
  function TransformMembersField(f: Field): (r: Members)
    requires f.Present? && Truthy(f.value) ==> f.value.VArr? && MembersReadable(f.value.items)
    ensures r.Undefined? <==> f.Absent?
    ensures r.Falsy? <==> f.Present? && !Truthy(f.value)
    ensures r.Falsy? ==> r.value == f.value
    ensures r.List? ==> r.items == TransformMembers(f.value.items)
  {
    match f
    case Absent => Undefined
    case Present(v) => if Truthy(v) then List(TransformMembers(v.items)) else Falsy(v)
  }

  /** `transformProjectGroupResponse`. */
  function TransformGroup(raw: Value): (g: Group)
    requires Decodable(raw)
    ensures g.id == Prop(raw, "id")
    ensures g.members.Undefined? <==> Prop(raw, "members").Absent?
    ensures g.members.Falsy? <==> Prop(raw, "members").Present? && !Truthy(Prop(raw, "members").value)
    ensures g.members.Falsy? ==> g.members.value == Prop(raw, "members").value
    ensures g.members.List? ==>
      && |g.members.items| == |Prop(raw, "members").value.items|
      && forall i :: 0 <= i < |g.members.items| ==>
           g.members.items[i] == TransformMember(Prop(raw, "members").value.items[i])
  {
    Group(Prop(raw, "id"), TransformMembersField(Prop(raw, "members")))
  }
}
