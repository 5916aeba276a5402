/**
  The rule value the collector stores: a topic filter with the permission it
  grants. The `Authorization` class and its `Permission` enum are not part of
  this model; they are reconstructed from how the collector uses them.
 */
module Authorizations {
  import opened Wrappers
  import opened JavaStrings
  import JavaStringFacts

  /** The three constants of `Authorization.Permission`. */
  datatype Permission = Read | Write | ReadWrite

  /** The Java name of each constant. */
  function PermissionName(p: Permission): string {
    match p
    case Read => "READ"
    case Write => "WRITE"
    case ReadWrite => "READWRITE"
  }

  /** `Permission.valueOf(name)`: the constant with exactly that name, or `None`
      where Java throws `IllegalArgumentException`. */
  function ValueOf(name: string): (r: Option<Permission>)
    ensures r.Some? ==> PermissionName(r.value) == name
    ensures r.None? ==> forall p :: PermissionName(p) != name
  {
    if name == "READ" then Some(Read)
    else if name == "WRITE" then Some(Write)
    else if name == "READWRITE" then Some(ReadWrite)
    else None
  }

  /** `valueOf` inverts the naming of the constants. */
  lemma ValueOfName(p: Permission)
    ensures ValueOf(PermissionName(p)) == Some(p)
  {
  }

  /** `Permission.valueOf(token.toUpperCase())`, the permission token of a
      `topic` line. */
  function PermissionToken(token: string): (r: Option<Permission>)
    ensures forall p :: r == Some(p) <==> EqualsIgnoreCase(token, PermissionName(p))
  {
    JavaStringFacts.ToUpperMatches(token, "READ");
    JavaStringFacts.ToUpperMatches(token, "WRITE");
    JavaStringFacts.ToUpperMatches(token, "READWRITE");
    ValueOf(ToUpper(token))
  }

  /** One rule: the topic filter handed to the matcher and the permission it grants. */
  datatype Authorization = Authorization(topic: string, permission: Permission)

  /** The one-argument `Authorization(topic)` constructor. Its source is not part
      of this model; it is taken to grant `READWRITE`, the permission a rule line
      without a permission token stands for. */
  function DefaultAuthorization(topic: string): (a: Authorization)
    ensures a.topic == topic
  {
    Authorization(topic, ReadWrite)
  }

  /** A rule holding `held` answers a request for `requested`. */
  predicate Covers(held: Permission, requested: Permission) {
    held == requested || held == ReadWrite
  }
}
