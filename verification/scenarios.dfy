/**
  Concrete rule files run through the model: each lemma parses a few literal
  lines and states what the collector then holds and answers. Each line is
  first taken apart into its tokens and the position `indexOf` finds for its
  filter; the general properties of the parser do the rest.

  The lines are parameters fixed by a `requires line == "..."` rather than
  literals in the contracts: a literal string in a proof obligation is unfolded
  character by character wherever it occurs, while a parameter keeps it folded
  until a step needs its characters.
 */
module Scenarios {
  import opened Wrappers
  import opened JavaStrings
  import opened Authorizations
  import opened AuthorizationsCollector
  import JavaStringFacts
  import ParseFacts

  predicate IsToken(t: string) { t != "" && NoWhitespace(t) }

  predicate IsGap(t: string) { t != "" && AllWhitespace(t) }

  /** The tokens of a two-token line. */
  lemma Tokens2(line: string, a: string, s1: string, b: string)
    requires IsToken(a) && IsGap(s1) && IsToken(b)
    requires line == a + s1 + b
    ensures Split(line) == [a, b]
  {
    JavaStringFacts.SplitCons(a, s1, b);
    JavaStringFacts.SplitSingle(b);
  }

  /** The tokens of a three-token line. */
  lemma Tokens3(line: string, a: string, s1: string, b: string, s2: string, c: string)
    requires IsToken(a) && IsGap(s1) && IsToken(b) && IsGap(s2) && IsToken(c)
    requires line == a + s1 + b + s2 + c
    ensures Split(line) == [a, b, c]
  {
    assert line == a + s1 + (b + s2 + c);
    assert (b + s2 + c)[0] == b[0];
    JavaStringFacts.SplitCons(a, s1, b + s2 + c);
    Tokens2(b + s2 + c, b, s2, c);
  }

  /** The tokens of a four-token line. */
  lemma Tokens4(line: string, a: string, s1: string, b: string, s2: string, c: string, s3: string, d: string)
    requires IsToken(a) && IsGap(s1) && IsToken(b) && IsGap(s2) && IsToken(c) && IsGap(s3) && IsToken(d)
    requires line == a + s1 + b + s2 + c + s3 + d
    ensures Split(line) == [a, b, c, d]
  {
    assert line == a + s1 + (b + s2 + c + s3 + d);
    assert (b + s2 + c + s3 + d)[0] == b[0];
    JavaStringFacts.SplitCons(a, s1, b + s2 + c + s3 + d);
    Tokens3(b + s2 + c + s3 + d, b, s2, c, s3, d);
  }

  /** The spellings the scenarios use name the keywords and permissions. */
  lemma Spellings()
    ensures EqualsIgnoreCase("topic", "topic") && EqualsIgnoreCase("user", "user")
    ensures EqualsIgnoreCase("read", PermissionName(Read))
    ensures EqualsIgnoreCase("write", PermissionName(Write))
    ensures EqualsIgnoreCase("readwrite", PermissionName(ReadWrite))
  {
  }

  /** A `topic <permission> <filter...>` line whose filter token `indexOf` finds
      at `start` yields the rule for the rest of the line from there. */
  lemma PermissionRuleAt(c: Collector, line: string, token: string, filterToken: string, p: Permission, start: nat)
    requires |Split(line)| > 2 && Split(line)[0] == "topic" && Split(line)[1] == token && Split(line)[2] == filterToken
    requires EqualsIgnoreCase(token, PermissionName(p))
    requires IndexOf(line, filterToken) == Some(start)
    ensures start <= |line|
    ensures ParseAuthLine(c, line) == LineOutcome(c, Success(Some(Authorization(line[start..], p))))
  {
    Spellings();
    ParseFacts.PermissionTopicRule(c, line, p);
  }

  /** A rule line parsed in the global section of a mutable collector is filed
      at the end of the global rules. */
  lemma GlobalRuleLine(c: Collector, line: string, rule: Authorization)
    requires ParseAuthLine(c, line) == LineOutcome(c, Success(Some(rule)))
    requires !c.immutable && !c.inUserSection
    ensures Parse(c, line) == Parsed(c.(global := c.global + [rule]))
  {
  }

  /** A rule line parsed in a user section of a mutable collector is filed at
      the end of the current user's rules. */
  lemma UserRuleLine(c: Collector, line: string, rule: Authorization)
    requires ParseAuthLine(c, line) == LineOutcome(c, Success(Some(rule)))
    requires !c.immutable && c.inUserSection
    ensures Parse(c, line) == Parsed(c.(users := c.users[c.currentUser := RulesOf(c.users, c.currentUser) + [rule]]))
  {
  }

  /** With a single global rule, an anonymous query is granted exactly when that
      rule covers it and matches. */
  lemma OnlyGlobalRule(d: Collector, rule: Authorization, topic: string, matches: Matcher)
    requires d.global == [rule]
    ensures CanRead(d, topic, None, matches) <==> rule.permission in {Read, ReadWrite} && matches(topic, rule.topic)
    ensures CanWrite(d, topic, None, matches) <==> rule.permission in {Write, ReadWrite} && matches(topic, rule.topic)
  {
    assert Consulted(d, None) == [rule];
  }

  // ---------------------------------------------------------------------------
  // topic sensor/#
  // ---------------------------------------------------------------------------

  /** `topic sensor/#` files a READWRITE rule that grants anonymous reading and
      writing of the topics the filter matches. */
  lemma DefaultPermissionGrantsBoth(line: string, matches: Matcher)
    requires line == "topic sensor/#"
    requires matches("sensor/temp", "sensor/#")
    ensures Parse(NewCollector(), line) == Parsed(NewCollector().(global := [Authorization("sensor/#", ReadWrite)]))
    ensures CanRead(Parse(NewCollector(), line).State(), "sensor/temp", None, matches)
    ensures CanWrite(Parse(NewCollector(), line).State(), "sensor/temp", None, matches)
  {
    Tokens2(line, "topic", " ", "sensor/#");
    Spellings();
    ParseFacts.TwoTokenTopicRule(NewCollector(), line);
    GlobalRuleLine(NewCollector(), line, Authorization("sensor/#", ReadWrite));
    OnlyGlobalRule(Parse(NewCollector(), line).State(), Authorization("sensor/#", ReadWrite), "sensor/temp", matches);
  }

  // ---------------------------------------------------------------------------
  // topic write cmd/#
  // ---------------------------------------------------------------------------

  /** Where `indexOf` finds the filter token of `topic write cmd/#`. */
  lemma WriteLineFilter(line: string)
    requires line == "topic write cmd/#"
    ensures IndexOf(line, "cmd/#") == Some(12) && line[12..] == "cmd/#"
  {
    JavaStringFacts.IndexOfSkips(line, "cmd/#", 0, 12);
    assert line[12..17] == "cmd/#";
  }

  /** `topic write cmd/#` yields a write rule for `cmd/#`. */
  lemma WriteRule(c: Collector, line: string)
    requires line == "topic write cmd/#"
    ensures ParseAuthLine(c, line) == LineOutcome(c, Success(Some(Authorization("cmd/#", Write))))
  {
    Tokens3(line, "topic", " ", "write", " ", "cmd/#");
    WriteLineFilter(line);
    Spellings();
    PermissionRuleAt(c, line, "write", "cmd/#", Write, 12);
  }

  /** `topic write cmd/#` grants anonymous writing but never reading. */
  lemma WriteOnlyRule(line: string, matches: Matcher)
    requires line == "topic write cmd/#"
    requires matches("cmd/on", "cmd/#")
    ensures Parse(NewCollector(), line) == Parsed(NewCollector().(global := [Authorization("cmd/#", Write)]))
    ensures !CanRead(Parse(NewCollector(), line).State(), "cmd/on", None, matches)
    ensures CanWrite(Parse(NewCollector(), line).State(), "cmd/on", None, matches)
  {
    WriteRule(NewCollector(), line);
    GlobalRuleLine(NewCollector(), line, Authorization("cmd/#", Write));
    OnlyGlobalRule(Parse(NewCollector(), line).State(), Authorization("cmd/#", Write), "cmd/on", matches);
  }

  // ---------------------------------------------------------------------------
  // topic readwrite  my room
  // ---------------------------------------------------------------------------

  /** Where `indexOf` finds the filter token of `topic readwrite  my room`. */
  lemma SpacedLineFilter(line: string)
    requires line == "topic readwrite  my room"
    ensures IndexOf(line, "my") == Some(17) && line[17..] == "my room"
  {
    JavaStringFacts.IndexOfSkips(line, "my", 0, 17);
    assert line[17..19] == "my";
  }

  /** `topic readwrite  my room` yields a READWRITE rule for `my room`. */
  lemma SpacedRule(c: Collector, line: string)
    requires line == "topic readwrite  my room"
    ensures ParseAuthLine(c, line) == LineOutcome(c, Success(Some(Authorization("my room", ReadWrite))))
  {
    Tokens4(line, "topic", " ", "readwrite", "  ", "my", " ", "room");
    SpacedLineFilter(line);
    Spellings();
    PermissionRuleAt(c, line, "readwrite", "my", ReadWrite, 17);
  }

  /** Two spaces before the filter are dropped, the space inside it is kept. */
  lemma FilterKeepsInnerSpaces(line: string)
    requires line == "topic readwrite  my room"
    ensures Parse(NewCollector(), line) == Parsed(NewCollector().(global := [Authorization("my room", ReadWrite)]))
  {
    SpacedRule(NewCollector(), line);
    GlobalRuleLine(NewCollector(), line, Authorization("my room", ReadWrite));
  }

  // ---------------------------------------------------------------------------
  // topic read re
  // ---------------------------------------------------------------------------

  /** Where `indexOf` finds the filter token of `topic read re`. */
  lemma ShortLineFilter(line: string)
    requires line == "topic read re"
    ensures IndexOf(line, "re") == Some(6) && line[6..] == "read re"
  {
    JavaStringFacts.IndexOfSkips(line, "re", 0, 6);
    assert line[6..8] == "re";
  }

  /** `topic read re` yields a read rule for `read re`. */
  lemma ShortRule(c: Collector, line: string)
    requires line == "topic read re"
    ensures ParseAuthLine(c, line) == LineOutcome(c, Success(Some(Authorization("read re", Read))))
  {
    Tokens3(line, "topic", " ", "read", " ", "re");
    ShortLineFilter(line);
    Spellings();
    PermissionRuleAt(c, line, "read", "re", Read, 6);
  }

  /** The filter starts at the first occurrence of the third token's text, which
      here lies inside the permission token: `topic read re` files the filter
      `read re`. */
  lemma FilterStartsAtFirstOccurrence(line: string)
    requires line == "topic read re"
    ensures Parse(NewCollector(), line) == Parsed(NewCollector().(global := [Authorization("read re", Read)]))
  {
    ShortRule(NewCollector(), line);
    GlobalRuleLine(NewCollector(), line, Authorization("read re", Read));
  }

  // ---------------------------------------------------------------------------
  // user bob / topic read bob/inbox
  // ---------------------------------------------------------------------------

  /** Where `indexOf` finds the filter token of `topic read bob/inbox`. */
  lemma InboxLineFilter(line: string)
    requires line == "topic read bob/inbox"
    ensures IndexOf(line, "bob/inbox") == Some(11) && line[11..] == "bob/inbox"
  {
    JavaStringFacts.IndexOfSkips(line, "bob/inbox", 0, 11);
    assert line[11..20] == "bob/inbox";
  }

  /** `user bob` opens bob's section. */
  lemma BobLine(line: string)
    requires line == "user bob"
    ensures Parse(NewCollector(), line) == Parsed(NewCollector().(inUserSection := true, currentUser := "bob"))
  {
    Tokens2(line, "user", " ", "bob");
    Spellings();
    ParseFacts.UserLineEntersSection(NewCollector(), line);
  }

  /** `topic read bob/inbox` yields a read rule for `bob/inbox`. */
  lemma InboxRule(c: Collector, line: string)
    requires line == "topic read bob/inbox"
    ensures ParseAuthLine(c, line) == LineOutcome(c, Success(Some(Authorization("bob/inbox", Read))))
  {
    Tokens3(line, "topic", " ", "read", " ", "bob/inbox");
    InboxLineFilter(line);
    Spellings();
    PermissionRuleAt(c, line, "read", "bob/inbox", Read, 11);
  }

  /** Inside bob's section, `topic read bob/inbox` is filed under bob. */
  lemma InboxLineForBob(c: Collector, line: string)
    requires c == NewCollector().(inUserSection := true, currentUser := "bob")
    requires line == "topic read bob/inbox"
    ensures Parse(c, line) == Parsed(c.(users := map["bob" := [Authorization("bob/inbox", Read)]]))
  {
    var rule := Authorization("bob/inbox", Read);
    InboxRule(c, line);
    UserRuleLine(c, line, rule);
    assert RulesOf(c.users, c.currentUser) + [rule] == [rule];
    assert c.users[c.currentUser := [rule]] == map["bob" := [rule]];
  }

  /** A collector whose only rule is bob's read rule for `bob/inbox`. */
  lemma BobAnswers(d: Collector, matches: Matcher)
    requires d.global == [] && d.users == map["bob" := [Authorization("bob/inbox", Read)]]
    requires matches("bob/inbox", "bob/inbox")
    ensures CanRead(d, "bob/inbox", Some("bob"), matches)
    ensures !CanRead(d, "bob/inbox", None, matches)
    ensures !CanRead(d, "bob/inbox", Some("carol"), matches)
    ensures !CanWrite(d, "bob/inbox", Some("bob"), matches)
  {
    assert Consulted(d, Some("bob")) == [Authorization("bob/inbox", Read)];
    assert Consulted(d, Some("carol")) == [];
  }

  /** After `user bob`, a `topic read bob/inbox` rule belongs to bob alone: it
      grants bob reading, and neither anonymous clients nor another user. */
  lemma UserSectionScenario(l1: string, l2: string, matches: Matcher)
    requires l1 == "user bob" && l2 == "topic read bob/inbox"
    requires matches("bob/inbox", "bob/inbox")
    ensures Parse(NewCollector(), l1) == Parsed(NewCollector().(inUserSection := true, currentUser := "bob"))
    ensures Parse(Parse(NewCollector(), l1).State(), l2)
         == Parsed(NewCollector().(inUserSection := true, currentUser := "bob", users := map["bob" := [Authorization("bob/inbox", Read)]]))
    ensures CanRead(Parse(Parse(NewCollector(), l1).State(), l2).State(), "bob/inbox", Some("bob"), matches)
    ensures !CanRead(Parse(Parse(NewCollector(), l1).State(), l2).State(), "bob/inbox", None, matches)
    ensures !CanRead(Parse(Parse(NewCollector(), l1).State(), l2).State(), "bob/inbox", Some("carol"), matches)
    ensures !CanWrite(Parse(Parse(NewCollector(), l1).State(), l2).State(), "bob/inbox", Some("bob"), matches)
  {
    BobLine(l1);
    InboxLineForBob(NewCollector().(inUserSection := true, currentUser := "bob"), l2);
    BobAnswers(NewCollector().(inUserSection := true, currentUser := "bob", users := map["bob" := [Authorization("bob/inbox", Read)]]), matches);
  }

  // ---------------------------------------------------------------------------
  // Refused lines
  // ---------------------------------------------------------------------------

  /** A line whose keyword is unknown is refused and changes nothing. */
  lemma UnknownKeywordScenario(c: Collector, line: string)
    requires line == "frobnicate foo"
    ensures Parse(c, line) == Failed(InvalidLineDefinition(line), c)
  {
    Tokens2(line, "frobnicate", " ", "foo");
    ParseFacts.UnknownKeywordRejected(c, line);
  }

  /** `bogusperm` spells no permission. */
  lemma NotAPermission(token: string)
    requires token == "bogusperm"
    ensures forall p :: !EqualsIgnoreCase(token, PermissionName(p))
  {
    forall p ensures !EqualsIgnoreCase(token, PermissionName(p)) {
      assert token[0] == 'b';
    }
  }

  /** A misspelt permission is refused rather than read as part of the filter. */
  lemma BogusPermissionScenario(c: Collector, line: string)
    requires line == "topic bogusperm a/b/c"
    ensures Parse(c, line) == Failed(InvalidPermissionToken, c)
  {
    Tokens3(line, "topic", " ", "bogusperm", " ", "a/b/c");
    Spellings();
    NotAPermission("bogusperm");
    ParseFacts.InvalidPermissionRejected(c, line);
  }

  /** `user` without a name fails but still enters a user section under the
      initial empty user name; the next rule is filed under that name, where no
      query can ever reach it, since an empty name is answered by the global rules. */
  lemma NamelessUserOrphansRules(l1: string, l2: string, topic: string, user: Option<string>, matches: Matcher)
    requires l1 == "user" && l2 == "topic a"
    ensures Parse(NewCollector(), l1) == Failed(IndexOutOfBounds, NewCollector().(inUserSection := true))
    ensures Parse(NewCollector().(inUserSection := true), l2)
         == Parsed(NewCollector().(inUserSection := true, users := map["" := [Authorization("a", ReadWrite)]]))
    ensures !CanRead(Parse(NewCollector().(inUserSection := true), l2).State(), topic, user, matches)
    ensures !CanWrite(Parse(NewCollector().(inUserSection := true), l2).State(), topic, user, matches)
  {
    JavaStringFacts.SplitSingle(l1);
    Spellings();
    ParseFacts.NamelessUserSetsFlag(NewCollector(), l1);
    var c := NewCollector().(inUserSection := true);
    Tokens2(l2, "topic", " ", "a");
    ParseFacts.TwoTokenTopicRule(c, l2);
    ParseFacts.AppendTarget(c, l2, Authorization("a", ReadWrite));
    var d := Parse(c, l2).State();
    assert d.users.Keys == {""};
    assert d.users[""] == [Authorization("a", ReadWrite)];
    assert d.users == map["" := [Authorization("a", ReadWrite)]];
    assert Consulted(d, user) == [];
  }

  /** The immutable empty collector refuses a rule. */
  lemma ImmutableScenario(line: string)
    requires line == "topic a"
    ensures Parse(EmptyImmutableCollector(), line) == Failed(UnsupportedOperation, EmptyImmutableCollector())
  {
    Tokens2(line, "topic", " ", "a");
    Spellings();
    ParseFacts.TwoTokenTopicRule(EmptyImmutableCollector(), line);
  }
}
