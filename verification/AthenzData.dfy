/** The Athenz objects the controllers read (zms.DomainData and its parts), without nil pointers. */
module AthenzData {

  datatype Option<+T> = None | Some(value: T)

  datatype Result<+T, +E> = Ok(value: T) | Err(error: E)

  datatype Effect = Allow | Deny

  datatype Assertion = Assertion(role: string, resource: string, action: string, effect: Option<Effect>)

  datatype Policy = Policy(assertions: seq<Assertion>)

  /** A role member or a group member; `expiration` is a point in time. */
  datatype Member = Member(name: string, expiration: Option<int>, systemDisabled: Option<int>)

  /** pkg/athenz/model.go, `Model`: a domain organised by role. */
  datatype Model = Model(
    name: string,
    namespace: string,
    roles: seq<string>,
    rules: map<string, seq<Assertion>>,
    members: map<string, seq<Member>>,
    groups: map<string, seq<Member>>)

  /** Go's reading of a missing map entry of slice type. */
  function Lookup<T>(m: map<string, seq<T>>, key: string): seq<T> {
    if key in m then m[key] else []
  }
}
