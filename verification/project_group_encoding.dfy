/**
  The inverse of the project-group decoder: a domain record written back in
  the wire's snake_case shape. Undefined fields are left out of the object, as
  JSON serialisation does. It exists to state what the decoder keeps.
 */
module ProjectGroupEncoding {
  import opened Json
  import opened ProjectGroup

  /** A domain member as a wire object: every defined field under its paired
      wire key, and no other key. */
  function EncodeMember(m: Member): (v: Value)
    ensures v.VObj? && v.fields.Keys <= MemberWireKeys
    ensures forall wire, name :: (wire, name) in MemberRenames ==> Prop(v, wire) == MemberField(m, name)
  {
    var fields := Put(map[], "first_name", m.firstName);
    var fields := Put(fields, "last_name", m.lastName);
    var fields := Put(fields, "role", m.role);
    var fields := Put(fields, "identity_id", m.identityId);
    var fields := Put(fields, "active", m.active);
    var fields := Put(fields, "company", m.company);
    var fields := Put(fields, "id", m.id);
    var fields := Put(fields, "email", m.email);
    VObj(fields)
  }

  /** Encodes a list of members element by element. */
  function EncodeMembers(ms: seq<Member>): (vs: seq<Value>)
    ensures |vs| == |ms|
    ensures forall i :: 0 <= i < |ms| ==> vs[i] == EncodeMember(ms[i])
  {
    seq(|ms|, i requires 0 <= i < |ms| => EncodeMember(ms[i]))
  }

  /** The wire form of a decoded `members` field. */
  function EncodeMembersField(ms: Members): Field {
    match ms
    case Undefined => Absent
    case Falsy(v) => Present(v)
    case List(items) => Present(VArr(EncodeMembers(items)))
  }

  /** A domain group as a wire object with the keys `id` and `members`. */
  function EncodeGroup(g: Group): (v: Value)
    ensures v.VObj? && v.fields.Keys <= GroupWireKeys
    ensures Prop(v, "id") == g.id
    ensures Prop(v, "members") == EncodeMembersField(g.members)
  {
    VObj(Put(Put(map[], "id", g.id), "members", EncodeMembersField(g.members)))
  }
}
