# ProjectGroup response decoder, modelled in Dafny

The FreshBooks Node.js SDK turns each loosely typed JSON response of the
invoicing API into a camelCase domain record, one transform per entity. This
project models the project-group transforms of
`packages/api/src/models/ProjectGroup.ts`:

- `transformProjectGroupResponse` copies `id` as it is and applies
  `members && members.map(transformProjectGroupMemberResponse)`: an undefined
  or falsy `members` (normally `null`) passes through unchanged, and a truthy
  one, which includes an empty array, is mapped element by element.
- `transformProjectGroupMemberResponse` renames `first_name`, `last_name` and
  `identity_id` to `firstName`, `lastName` and `identityId`, and copies `role`,
  `active`, `company`, `id` and `email`. It does no coercion and fills in no
  defaults.

Layout:

- `json.dfy` (module `Json`): JSON values, `Field` (`Absent` is JavaScript
  `undefined`), JavaScript truthiness on JSON values, and property reads.
  Property reads are modelled only for the nine keys the decoders read:
  `members` and the eight member keys, `id` among them. No JSON value has any of them except as
  an object's own field. For these keys, an object without the key as an own
  field gives `undefined`, and so does a non-null primitive or array.
- `project_group.dfy` (module `ProjectGroup`): the domain records `Member`,
  `Members` (undefined, a falsy passed-through value, or a list) and `Group`.
  It also holds the declared interfaces as predicates, the rename table
  `MemberRenames`, and the two decoders.
- `project_group_encoding.dfy` (module `ProjectGroupEncoding`): the inverse
  direction, which writes a domain record back as a snake_case wire object. It
  exists only to state round trips.
- `project_group_properties.dfy` (module `ProjectGroupProperties`): lemmas about
  the rename table and the `members` split, the keys the decoders ignore, round
  trips in both directions, schema conformance, and worked examples.

The source's runtime `TypeError`s are preconditions. `ProjectGroup.Decodable`
requires the argument not to be `null`, and a truthy `members` to be an array
whose elements are not `null`. `TransformMember` requires its argument not to
be `null`.

Where the declared types and the code disagree, the model follows the code.
The interfaces declare `id: string` and `role: 'owner'`, but the decoders copy
whatever value is there, `undefined` included. The declared shapes are kept as
the predicates `MemberConforms` and `GroupConforms`. The conformance lemmas show
that a decoded record meets them exactly when the wire record already had the
matching wire shape.

## Model

| member | source | states |
|---|---|---|
| Json.Prop | packages/api/src/models/ProjectGroup.ts:29-36 | for the nine keys the decoders read (`members` and the eight member keys, `id` among them), which no JSON value has except as an object's own field, a read is defined exactly when the receiver is an object holding the key as its own, and then it is that key's value; otherwise it is undefined, and only a `null` receiver is excluded |
| Json.Truthy | packages/api/src/models/ProjectGroup.ts:23 | the ToBoolean that decides `&&`: a JSON value is truthy if and only if it is none of `null`, `""`, `0` and `false`, so every array and object, even an empty one, is truthy |
| ProjectGroup.Decodable | packages/api/src/models/ProjectGroup.ts:22-23 | the decoders run without a TypeError exactly when the argument is not `null` and `members` is undefined, a falsy value, or an array with no `null` element (line 29 reads fields of each element) |
| ProjectGroup.MemberConforms | packages/api/src/models/ProjectGroup.ts:9-18 | the declared member interface, checked against a (field, type) table with one entry per interface line: `firstName`, `lastName`, `company` and `email` are strings, `role` is the literal `"owner"`, `identityId` and `id` are numbers, and `active` is a boolean, all defined |
| ProjectGroup.GroupConforms | packages/api/src/models/ProjectGroup.ts:4-7 | the declared group interface: `id` is a defined string, and `members` is undefined, `null`, or a list whose every member conforms |
| ProjectGroup.TransformMember | packages/api/src/models/ProjectGroup.ts:27-38 | for every (wire key, domain field) pair of the rename table, the domain field equals the raw member's value under the wire key, with no coercion and no default |
| ProjectGroup.TransformMembers | packages/api/src/models/ProjectGroup.ts:23 | the `.map` over members keeps the length, and element i of the result is the decoding of raw element i, so order is kept |
| ProjectGroup.TransformMembersField | packages/api/src/models/ProjectGroup.ts:23 | the `&&` split: undefined maps to undefined and nothing else does; a falsy value passes through unchanged and nothing else does; a truthy array becomes its decoded list |
| ProjectGroup.TransformGroup | packages/api/src/models/ProjectGroup.ts:20-25 | the output id is the input id, undefined included; members follow the three-way split, with the list keeping length and index-wise decoding |
| ProjectGroupEncoding.EncodeMember | packages/api/src/models/ProjectGroup.ts:27-37 | the inverse renaming: an object with only member wire keys, each holding the paired domain field's value when defined |
| ProjectGroupEncoding.EncodeGroup | packages/api/src/models/ProjectGroup.ts:20-24 | the inverse of the group decoder: an object with only `id` and `members`, holding the id and the wire form of the members |
| ProjectGroupProperties.RenamesAreOneToOne | packages/api/src/models/ProjectGroup.ts:29-36 | the renaming has eight pairs, no two with the same wire key or the same domain field, and its wire keys are exactly the keys the member decoder reads |
| ProjectGroupProperties.MemberExtensionality | packages/api/src/models/ProjectGroup.ts:9-18 | two members that agree on every field named in the rename table are equal, so the table covers the whole member record |
| ProjectGroupProperties.MissingKeyGivesUndefined | packages/api/src/models/ProjectGroup.ts:29-36 | a wire key missing from a raw member gives an undefined domain field, with no default and no error |
| ProjectGroupProperties.MemberReadsOnlyWireKeys | packages/api/src/models/ProjectGroup.ts:27-38 | two raw members that agree on the eight wire keys decode to the same member |
| ProjectGroupProperties.MemberIgnoresOtherKeys | packages/api/src/models/ProjectGroup.ts:27-38 | adding or changing a key outside the eight wire keys does not change the decoded member |
| ProjectGroupProperties.NonObjectMemberIsAllUndefined | packages/api/src/models/ProjectGroup.ts:27-38 | a non-null primitive or array in a member's place decodes, without error, to a member whose fields are all undefined |
| ProjectGroupProperties.UndefinedMembersStayUndefined | packages/api/src/models/ProjectGroup.ts:23 | decoded members are undefined if and only if the raw members are undefined |
| ProjectGroupProperties.NullMembersStayNull | packages/api/src/models/ProjectGroup.ts:23 | decoded members are `null` if and only if the raw members are `null`; null never becomes an empty list |
| ProjectGroupProperties.EmptyMembersStayEmpty | packages/api/src/models/ProjectGroup.ts:23 | decoded members are an empty list if and only if the raw members are an empty array, because an array is truthy |
| ProjectGroupProperties.DecodedPassthroughIsFalsy | packages/api/src/models/ProjectGroup.ts:23 | the `&&` passes only falsy operands through, so a passed-through members value is always falsy |
| ProjectGroupProperties.GroupReadsOnlyWireKeys | packages/api/src/models/ProjectGroup.ts:20-25 | two raw arguments, objects or not, that agree on `id` and `members` are decodable alike and decode to the same group, so removed, added or changed other keys do not matter |
| ProjectGroupProperties.GroupIgnoresOtherKeys | packages/api/src/models/ProjectGroup.ts:20-25 | adding or changing a key other than `id` and `members` keeps the input decodable and does not change the decoded group |
| ProjectGroupProperties.DecodeEncodeMember | packages/api/src/models/ProjectGroup.ts:27-38 | decoding an encoded member gives the member back |
| ProjectGroupProperties.WireMemberExtensionality | packages/api/src/models/ProjectGroup.ts:29-36 | two wire member objects with only member keys are equal when they agree on every wire key of the rename table |
| ProjectGroupProperties.EncodeDecodeMember | packages/api/src/models/ProjectGroup.ts:27-38 | a wire member object with only member keys is rebuilt exactly by encoding its decoding, so the decoder loses nothing |
| ProjectGroupProperties.DecodeEncodeMembers | packages/api/src/models/ProjectGroup.ts:23 | decoding an encoded member list gives the same list in the same order |
| ProjectGroupProperties.DecodeEncodeMemberList | packages/api/src/models/ProjectGroup.ts:23 | an encoded member list is a mappable array, and the `&&`-then-`.map` decoding turns it back into the same list |
| ProjectGroupProperties.DecodeEncodeMembersField | packages/api/src/models/ProjectGroup.ts:23 | a members field whose passed-through value is falsy survives encoding and the `&&` decoding unchanged: undefined, null or another falsy value, or a list |
| ProjectGroupProperties.DecodeEncodeGroup | packages/api/src/models/ProjectGroup.ts:20-25 | decoding an encoded group whose passed-through members value is falsy gives the group back |
| ProjectGroupProperties.EncodeDecodeGroup | packages/api/src/models/ProjectGroup.ts:20-25 | a canonical wire group is decodable and is rebuilt exactly by encoding its decoding |
| ProjectGroupProperties.MemberConformance | packages/api/src/models/ProjectGroup.ts:9-18 | a decoded member meets the declared member interface if and only if the raw member has the matching wire shape; nothing is coerced |
| ProjectGroupProperties.GroupConformance | packages/api/src/models/ProjectGroup.ts:4-7 | a decoded group meets the declared group interface if and only if the raw group has the matching wire shape |
| ProjectGroupProperties.ExampleFullMember | packages/api/src/models/ProjectGroup.ts:27-38 | a complete wire member (Ann Lee, owner, identity 7, active, Acme, id 42) decodes to the same values under the camelCase names |
| ProjectGroupProperties.ExampleRoleNotChecked | packages/api/src/models/ProjectGroup.ts:31 | a role other than `"owner"` is copied unchanged; the literal role type is not enforced |
| ProjectGroupProperties.ExampleNullMembers | packages/api/src/models/ProjectGroup.ts:20-25 | `{id: "g1", members: null}` decodes to id `"g1"` with members `null` |
| ProjectGroupProperties.ExampleNoMembers | packages/api/src/models/ProjectGroup.ts:20-25 | `{id: "g2"}` decodes to id `"g2"` with members undefined |
| ProjectGroupProperties.ExampleFalseMembers | packages/api/src/models/ProjectGroup.ts:23 | `members: false` is falsy and passes through as `false` |

## Left out

- `packages/api/src/models/index.ts` only re-exports type names of sibling modules. It has no behaviour, so it is not modelled.
- `Nullable` comes from `./helpers`, which is not part of this model. It is taken to mean `T | null`.
- The runtime `TypeError`s are not modelled as results. They arise from reading a field of `null` and from calling `.map` on a truthy non-array. They are excluded by the preconditions `Decodable` and `!data.VNull?`.
- Numbers are integers. JavaScript's floating-point numbers, `NaN` and `-0` are not modelled. Both `NaN` and `-0` are falsy and would pass through `&&` like `0`.
- Inputs are JSON values. JavaScript `undefined` inside arrays, sparse arrays and functions cannot occur in a parsed response, so they are not modelled.
- Json.Prop: covers only the nine keys the decoders read (`members` and the eight member keys, `id` among them), which no JSON value has except as an object's own field. Other keys are not modelled. Parsed objects and arrays inherit properties such as `map`, `length` and `constructor`. Arrays and strings also have own properties: their indices (`[5]["0"]` is `5`, `"ab"["0"]` is `"a"`) and `length`. `Prop` would wrongly call all of these undefined. The inherited `members.map` call at line 23 is modelled by `TransformMembers` instead, with `Decodable` stating when it exists.
- The decoders' object literals always hold every output key, and some may be set to `undefined`. `Group` and `Member` likewise always carry every field: `id`, the eight member fields and `members` may each be undefined (`Absent`, `Members.Undefined`). Only the encoder, which exists to state round trips, drops undefined fields, as JSON serialisation does.
- Purity and non-mutation of the input hold by construction: every value in the model is immutable. The freshness of the output objects and arrays is not modelled.
- Network fetching, authentication and pagination belong to the rest of the SDK and are I/O.
