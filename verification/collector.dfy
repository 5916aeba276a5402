/**
  The rule collector and permission evaluator of the broker's access-control
  list: a line-oriented parser that files each `topic` rule under the global
  section or under the most recently named user, and a first-match scan that
  answers read and write queries against the collected rules.
 */
module AuthorizationsCollector {
  import opened Wrappers
  import opened JavaStrings
  import opened Authorizations
  import JavaStringFacts

  /** `SubscriptionsStore.matchTopics(topic, filter)`: the wildcard matcher lives
      outside this model and is passed in as an arbitrary total predicate. */
  type Matcher = (string, string) -> bool

  /** The collector's fields. `immutable` records that the containers are the
      immutable empty ones of `emptyImmutableCollector`, on which adding a rule
      throws `UnsupportedOperationException`. */
  datatype Collector = Collector(
    global: seq<Authorization>,
    users: map<string, seq<Authorization>>,
    inUserSection: bool,
    currentUser: string,
    immutable: bool)

  /** What `parse` can throw: the two `ParseException`s, the array index error of
      reading a token that is not there, and the refusal of an immutable
      container. */
  datatype ParseError =
    | InvalidPermissionToken
    | InvalidLineDefinition(line: string)
    | IndexOutOfBounds
    | UnsupportedOperation

  /** The state after `parseAuthLine` together with what it returned (a rule, or
      `None` for `null`) or threw. */
  datatype LineOutcome = LineOutcome(state: Collector, result: Result<Option<Authorization>, ParseError>)

  /** The state after `parse` returned, or the exception and the state it left. */
  datatype ParseOutcome = Parsed(next: Collector) | Failed(error: ParseError, after: Collector)
  {
    function State(): Collector {
      match this
      case Parsed(n) => n
      case Failed(_, a) => a
    }
  }

  /** A collector as the field initialisers build it. */
  function NewCollector(): Collector {
    Collector([], map[], false, "", false)
  }

  /** `emptyImmutableCollector()`: no rules of any kind, and every query denied. */
  function EmptyImmutableCollector(): (c: Collector)
    ensures c.immutable && IsEmpty(c)
    ensures forall topic, user, matches :: !CanRead(c, topic, user, matches) && !CanWrite(c, topic, user, matches)
  {
    Collector([], map[], false, "", true)
  }

  /** The rules filed under `user`, empty when the user has none. */
  function RulesOf(users: map<string, seq<Authorization>>, user: string): seq<Authorization> {
    if user in users then users[user] else []
  }

  /** `parseAuthLine(line)`: tokenises the line and dispatches on its first token,
      lower-cased. A `topic` line yields a rule; a `user` line switches to that
      user's section (setting the section flag before the name is read); a
      `pattern` line does nothing. */
  function ParseAuthLine(c: Collector, line: string): (r: LineOutcome)
    ensures r.state.global == c.global && r.state.users == c.users && r.state.immutable == c.immutable
    ensures c.inUserSection ==> r.state.inUserSection
    ensures r.result.Failure? ==> r.state == c || r.state == c.(inUserSection := true)
    ensures r.result.Success? && r.result.value.Some? ==>
              r.state == c && r.result.value.value.topic != "" && Occurs(r.result.value.value.topic, line)
  {
    var tokens := Split(line);
    JavaStringFacts.SplitTokensShape(line);
    JavaStringFacts.SplitTokensOccur(line);
    if |tokens| == 0 then LineOutcome(c, Failure(IndexOutOfBounds))
    else
      var keyword := ToLower(tokens[0]);
      if keyword == "topic" then
        if |tokens| > 2 then
          match PermissionToken(tokens[1])
          case None => LineOutcome(c, Failure(InvalidPermissionToken))
          case Some(permission) =>
            var start := IndexOf(line, tokens[2]).value;
            assert line[start..][..|tokens[2]|] == tokens[2];
            var topic := line[start..];
            assert OccursAt(topic, line, start);
            LineOutcome(c, Success(Some(Authorization(topic, permission))))
        else if |tokens| < 2 then LineOutcome(c, Failure(IndexOutOfBounds))
        else LineOutcome(c, Success(Some(DefaultAuthorization(tokens[1]))))
      else if keyword == "user" then
        var flagged := c.(inUserSection := true);
        if |tokens| < 2 then LineOutcome(flagged, Failure(IndexOutOfBounds))
        else LineOutcome(flagged.(currentUser := tokens[1]), Success(None))
      else if keyword == "pattern" then LineOutcome(c, Success(None))
      else LineOutcome(c, Failure(InvalidLineDefinition(line)))
  }

  /** Files `rule` under the current user when in a user section (creating the
      user's list on first use), otherwise under the global rules. */
  function AddRule(c: Collector, rule: Authorization): ParseOutcome {
    if c.immutable then Failed(UnsupportedOperation, c)
    else if c.inUserSection then
      Parsed(c.(users := c.users[c.currentUser := RulesOf(c.users, c.currentUser) + [rule]]))
    else
      Parsed(c.(global := c.global + [rule]))
  }

  /** `parse(line)`: rules are only ever appended, the user section is never left,
      and the global rules are frozen once it is entered. */
  function Parse(c: Collector, line: string): (r: ParseOutcome)
    ensures c.global <= r.State().global && |r.State().global| <= |c.global| + 1
    ensures forall u :: u in c.users ==> u in r.State().users && c.users[u] <= r.State().users[u]
    ensures c.inUserSection ==> r.State().inUserSection && r.State().global == c.global
    ensures r.Failed? ==> r.State().global == c.global && r.State().users == c.users
  {
    var outcome := ParseAuthLine(c, line);
    match outcome.result
    case Failure(e) => Failed(e, outcome.state)
    case Success(None) => Parsed(outcome.state)
    case Success(Some(rule)) => AddRule(outcome.state, rule)
  }

  // ---------------------------------------------------------------------------
  // Evaluation
  // ---------------------------------------------------------------------------

  /** One rule lets `topic` be accessed with `requested`. */
  predicate Grants(rule: Authorization, topic: string, requested: Permission, matches: Matcher) {
    Covers(rule.permission, requested) && matches(topic, rule.topic)
  }

  /** The loop of `canDoOperation`: scans `rules` in order and stops at the first
      rule that grants the request. */
  function AnyGrants(rules: seq<Authorization>, topic: string, requested: Permission, matches: Matcher): (r: bool)
    ensures r <==> exists i :: 0 <= i < |rules| && Grants(rules[i], topic, requested, matches)
    decreases |rules|
  {
    if |rules| == 0 then false
    else if Grants(rules[0], topic, requested, matches) then true
    else AnyGrants(rules[1..], topic, requested, matches)
  }

  /** A query with no user name, `null` or empty, is answered by the global rules. */
  predicate IsAnonymous(user: Option<string>) {
    user.None? || user.value == ""
  }

  /** The rules a query for `user` consults: the global rules for an anonymous
      query, otherwise the user's own section, which is empty when the user has
      none. */
  function Consulted(c: Collector, user: Option<string>): seq<Authorization> {
    if IsAnonymous(user) then c.global else RulesOf(c.users, user.value)
  }

  /** `canDoOperation(topic, permission, username)`: anonymous queries consult the
      global rules only, named users consult their own rules only, and a user with
      no section is denied. */
  function CanDoOperation(c: Collector, topic: string, requested: Permission, user: Option<string>, matches: Matcher): (r: bool)
    ensures IsAnonymous(user) ==>
              (r <==> exists i :: 0 <= i < |c.global| && Grants(c.global[i], topic, requested, matches))
    ensures !IsAnonymous(user) ==>
              (r <==> user.value in c.users &&
                      exists i :: 0 <= i < |c.users[user.value]| && Grants(c.users[user.value][i], topic, requested, matches))
  {
    AnyGrants(Consulted(c, user), topic, requested, matches)
  }

  /** `canRead(topic, user)`: some consulted rule holding READ or READWRITE matches. */
  function CanRead(c: Collector, topic: string, user: Option<string>, matches: Matcher): (r: bool)
    ensures r <==> exists i :: 0 <= i < |Consulted(c, user)| &&
                     Consulted(c, user)[i].permission in {Read, ReadWrite} &&
                     matches(topic, Consulted(c, user)[i].topic)
  {
    assert CanDoOperation(c, topic, Read, user, matches) == AnyGrants(Consulted(c, user), topic, Read, matches);
    CanDoOperation(c, topic, Read, user, matches)
  }

  /** `canWrite(topic, user)`: some consulted rule holding WRITE or READWRITE matches. */
  function CanWrite(c: Collector, topic: string, user: Option<string>, matches: Matcher): (r: bool)
    ensures r <==> exists i :: 0 <= i < |Consulted(c, user)| &&
                     Consulted(c, user)[i].permission in {Write, ReadWrite} &&
                     matches(topic, Consulted(c, user)[i].topic)
  {
    assert CanDoOperation(c, topic, Write, user, matches) == AnyGrants(Consulted(c, user), topic, Write, matches);
    CanDoOperation(c, topic, Write, user, matches)
  }

  /** `isEmpty()`: looks at the global rules only. */
  predicate IsEmpty(c: Collector) {
    |c.global| == 0
  }
}
