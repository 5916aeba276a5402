/**
  Properties of the evaluator: which rules a query consults, how permissions
  restrict what a rule grants, what `isEmpty` reports, and how parsing a line
  can change the answers.
 */
module EvalFacts {
  import opened Wrappers
  import opened JavaStrings
  import opened Authorizations
  import opened AuthorizationsCollector
  import ParseFacts

  /** Scanning two lists one after the other grants exactly when one of them does. */
  lemma {:induction false} AnyGrantsConcat(a: seq<Authorization>, b: seq<Authorization>, topic: string, requested: Permission, matches: Matcher)
    ensures AnyGrants(a + b, topic, requested, matches) == (AnyGrants(a, topic, requested, matches) || AnyGrants(b, topic, requested, matches))
    decreases |a|
  {
    if |a| == 0 {
      assert a + b == b;
    } else {
      assert (a + b)[0] == a[0];
      assert (a + b)[1..] == a[1..] + b;
      AnyGrantsConcat(a[1..], b, topic, requested, matches);
    }
  }

  /** A READ rule never grants write access, wherever it sits in the list. */
  lemma ReadRuleNeverGrantsWrite(a: seq<Authorization>, b: seq<Authorization>, filter: string, topic: string, matches: Matcher)
    ensures AnyGrants(a + [Authorization(filter, Read)] + b, topic, Write, matches) == AnyGrants(a + b, topic, Write, matches)
  {
    AnyGrantsConcat(a + [Authorization(filter, Read)], b, topic, Write, matches);
    AnyGrantsConcat(a, [Authorization(filter, Read)], topic, Write, matches);
    AnyGrantsConcat(a, b, topic, Write, matches);
  }

  /** A WRITE rule never grants read access, wherever it sits in the list. */
  lemma WriteRuleNeverGrantsRead(a: seq<Authorization>, b: seq<Authorization>, filter: string, topic: string, matches: Matcher)
    ensures AnyGrants(a + [Authorization(filter, Write)] + b, topic, Read, matches) == AnyGrants(a + b, topic, Read, matches)
  {
    AnyGrantsConcat(a + [Authorization(filter, Write)], b, topic, Read, matches);
    AnyGrantsConcat(a, [Authorization(filter, Write)], topic, Read, matches);
    AnyGrantsConcat(a, b, topic, Read, matches);
  }

  /** A consulted READWRITE rule whose filter matches grants both reading and writing. */
  lemma ReadWriteRuleGrantsBoth(c: Collector, user: Option<string>, i: nat, topic: string, matches: Matcher)
    requires i < |Consulted(c, user)|
    requires Consulted(c, user)[i].permission == ReadWrite
    requires matches(topic, Consulted(c, user)[i].topic)
    ensures CanRead(c, topic, user, matches) && CanWrite(c, topic, user, matches)
  {
  }

  /** The global rules never answer a query for a named user. */
  lemma GlobalRulesIgnoredForNamedUser(c: Collector, global: seq<Authorization>, topic: string, requested: Permission,
                                       user: Option<string>, matches: Matcher)
    requires !IsAnonymous(user)
    ensures CanDoOperation(c.(global := global), topic, requested, user, matches) == CanDoOperation(c, topic, requested, user, matches)
  {
  }

  /** User sections never answer an anonymous query. */
  lemma UserRulesIgnoredForAnonymous(c: Collector, users: map<string, seq<Authorization>>, topic: string,
                                     requested: Permission, user: Option<string>, matches: Matcher)
    requires IsAnonymous(user)
    ensures CanDoOperation(c.(users := users), topic, requested, user, matches) == CanDoOperation(c, topic, requested, user, matches)
  {
  }

  /** A named user without a section is denied everything, whatever the global rules say. */
  lemma UnknownUserDenied(c: Collector, topic: string, user: string, matches: Matcher)
    requires user != "" && user !in c.users
    ensures !CanRead(c, topic, Some(user), matches) && !CanWrite(c, topic, Some(user), matches)
  {
  }

  /** `isEmpty` ignores the user sections. */
  lemma IsEmptyIgnoresUsers(c: Collector, users: map<string, seq<Authorization>>)
    ensures IsEmpty(c.(users := users)) == IsEmpty(c)
  {
  }

  /** A collector that reports itself empty denies every anonymous query, while
      named users may still be granted access by their own sections. */
  lemma EmptyDeniesAnonymous(c: Collector, topic: string, user: Option<string>, matches: Matcher)
    requires IsEmpty(c) && IsAnonymous(user)
    ensures !CanRead(c, topic, user, matches) && !CanWrite(c, topic, user, matches)
  {
  }

  /** Parsing a line clears `isEmpty` exactly when it files a rule in the global
      section, and nothing sets it again. */
  lemma ParseAndEmptiness(c: Collector, line: string)
    ensures !IsEmpty(c) ==> !IsEmpty(Parse(c, line).State())
    ensures c.inUserSection ==> IsEmpty(Parse(c, line).State()) == IsEmpty(c)
    ensures IsEmpty(c) && !IsEmpty(Parse(c, line).State()) ==>
              !c.inUserSection && !c.immutable && ParseAuthLine(c, line).result.Success? && ParseAuthLine(c, line).result.value.Some?
    ensures !c.inUserSection && !c.immutable && ParseAuthLine(c, line).result.Success? && ParseAuthLine(c, line).result.value.Some? ==>
              !IsEmpty(Parse(c, line).State())
  {
  }

  /** Once in a user section, no further line changes any anonymous answer. */
  lemma UserSectionKeepsAnonymousAnswers(c: Collector, line: string, topic: string, user: Option<string>, matches: Matcher)
    requires c.inUserSection && IsAnonymous(user)
    ensures CanRead(Parse(c, line).State(), topic, user, matches) == CanRead(c, topic, user, matches)
    ensures CanWrite(Parse(c, line).State(), topic, user, matches) == CanWrite(c, topic, user, matches)
  {
  }

  /** Inside a user section, no line changes the answers for any other named user. */
  lemma UserSectionKeepsOtherUsersAnswers(c: Collector, line: string, topic: string, user: Option<string>, matches: Matcher)
    requires c.inUserSection && !IsAnonymous(user) && user.value != c.currentUser
    ensures CanRead(Parse(c, line).State(), topic, user, matches) == CanRead(c, topic, user, matches)
    ensures CanWrite(Parse(c, line).State(), topic, user, matches) == CanWrite(c, topic, user, matches)
  {
    var o := ParseAuthLine(c, line);
    if !c.immutable && o.result.Success? && o.result.value.Some? {
      ParseFacts.AppendTarget(c, line, o.result.value.value);
    }
    assert Consulted(Parse(c, line).State(), user) == Consulted(c, user);
  }

  /** Before any user section, no line changes any named user's answer. */
  lemma GlobalSectionKeepsUserAnswers(c: Collector, line: string, topic: string, user: Option<string>, matches: Matcher)
    requires !c.inUserSection && !IsAnonymous(user)
    ensures CanRead(Parse(c, line).State(), topic, user, matches) == CanRead(c, topic, user, matches)
    ensures CanWrite(Parse(c, line).State(), topic, user, matches) == CanWrite(c, topic, user, matches)
  {
    var o := ParseAuthLine(c, line);
    assert Parse(c, line).State().users == c.users;
  }

  /** Parsing a `topic read ...` line never changes whether anyone may write. */
  lemma ReadLineKeepsWriteAnswers(c: Collector, line: string, topic: string, user: Option<string>, matches: Matcher)
    requires |Split(line)| > 2 && ParseFacts.KeywordIs(line, "topic")
    requires EqualsIgnoreCase(Split(line)[1], "READ")
    ensures CanWrite(Parse(c, line).State(), topic, user, matches) == CanWrite(c, topic, user, matches)
  {
    ParseFacts.PermissionTopicRule(c, line, Read);
    var rule := ParseAuthLine(c, line).result.value.value;
    assert rule.permission == Read;
    if !c.immutable {
      ParseFacts.AppendTarget(c, line, rule);
      var d := Parse(c, line).State();
      if c.inUserSection {
        var before := RulesOf(c.users, c.currentUser);
        ReadRuleNeverGrantsWrite(before, [], rule.topic, topic, matches);
        assert before + [rule] + [] == before + [rule];
        assert before + [] == before;
        if !IsAnonymous(user) && user.value == c.currentUser {
          assert Consulted(d, user) == before + [rule];
          assert Consulted(c, user) == before;
          assert CanWrite(d, topic, user, matches) == AnyGrants(before + [rule], topic, Write, matches);
          assert CanWrite(c, topic, user, matches) == AnyGrants(before, topic, Write, matches);
        } else {
          assert Consulted(d, user) == Consulted(c, user);
        }
      } else {
        ReadRuleNeverGrantsWrite(c.global, [], rule.topic, topic, matches);
        assert c.global + [rule] + [] == c.global + [rule];
        assert c.global + [] == c.global;
        assert Consulted(d, user) == Consulted(c, user) || IsAnonymous(user);
      }
    }
  }

  /** Parsing a `topic write ...` line never changes whether anyone may read. */
  lemma WriteLineKeepsReadAnswers(c: Collector, line: string, topic: string, user: Option<string>, matches: Matcher)
    requires |Split(line)| > 2 && ParseFacts.KeywordIs(line, "topic")
    requires EqualsIgnoreCase(Split(line)[1], "WRITE")
    ensures CanRead(Parse(c, line).State(), topic, user, matches) == CanRead(c, topic, user, matches)
  {
    ParseFacts.PermissionTopicRule(c, line, Write);
    var rule := ParseAuthLine(c, line).result.value.value;
    assert rule.permission == Write;
    if !c.immutable {
      ParseFacts.AppendTarget(c, line, rule);
      var d := Parse(c, line).State();
      if c.inUserSection {
        var before := RulesOf(c.users, c.currentUser);
        WriteRuleNeverGrantsRead(before, [], rule.topic, topic, matches);
        assert before + [rule] + [] == before + [rule];
        assert before + [] == before;
        if !IsAnonymous(user) && user.value == c.currentUser {
          assert Consulted(d, user) == before + [rule];
          assert Consulted(c, user) == before;
          assert CanRead(d, topic, user, matches) == AnyGrants(before + [rule], topic, Read, matches);
          assert CanRead(c, topic, user, matches) == AnyGrants(before, topic, Read, matches);
        } else {
          assert Consulted(d, user) == Consulted(c, user);
        }
      } else {
        WriteRuleNeverGrantsRead(c.global, [], rule.topic, topic, matches);
        assert c.global + [rule] + [] == c.global + [rule];
        assert c.global + [] == c.global;
        assert Consulted(d, user) == Consulted(c, user) || IsAnonymous(user);
      }
    }
  }
}
