/**
  Properties of `parse`, one per kind of rule line, stated against the
  case-insensitive reading of the keywords and permission names rather than
  against the case mappings the parser applies.
 */
module ParseFacts {
  import opened Wrappers
  import opened JavaStrings
  import opened Authorizations
  import opened AuthorizationsCollector
  import JavaStringFacts

  /** The first token of the line names `keyword`, ignoring case. */
  predicate KeywordIs(line: string, keyword: string) {
    |Split(line)| > 0 && EqualsIgnoreCase(Split(line)[0], keyword)
  }

  /** Relates the parser's lower-casing of the first token to `KeywordIs`. */
  lemma Keywords(line: string)
    requires |Split(line)| > 0
    ensures ToLower(Split(line)[0]) == "topic" <==> KeywordIs(line, "topic")
    ensures ToLower(Split(line)[0]) == "user" <==> KeywordIs(line, "user")
    ensures ToLower(Split(line)[0]) == "pattern" <==> KeywordIs(line, "pattern")
  {
    JavaStringFacts.ToLowerMatches(Split(line)[0], "topic");
    JavaStringFacts.ToLowerMatches(Split(line)[0], "user");
    JavaStringFacts.ToLowerMatches(Split(line)[0], "pattern");
  }

  /** A first token other than `topic`, `user` or `pattern` (in any case) is an
      invalid line definition, and the collector is left as it was. */
  lemma UnknownKeywordRejected(c: Collector, line: string)
    requires |Split(line)| > 0
    requires !KeywordIs(line, "topic") && !KeywordIs(line, "user") && !KeywordIs(line, "pattern")
    ensures Parse(c, line) == Failed(InvalidLineDefinition(line), c)
  {
    Keywords(line);
  }

  /** An empty line, or one that starts with whitespace, is rejected without any
      change: its first token is empty, or an all-whitespace line has no token at
      all. */
  lemma BlankOrIndentedLineRejected(c: Collector, line: string)
    requires line == "" || IsWhitespace(line[0])
    ensures line != "" && AllWhitespace(line) ==> Parse(c, line) == Failed(IndexOutOfBounds, c)
    ensures !(line != "" && AllWhitespace(line)) ==> Parse(c, line) == Failed(InvalidLineDefinition(line), c)
  {
    JavaStringFacts.SplitFirstToken(line);
    if |Split(line)| > 0 {
      assert ToLower(Split(line)[0]) == "";
    }
  }

  /** A `topic` line of three or more tokens whose second token names no
      permission is refused; the token never becomes part of a filter. */
  lemma InvalidPermissionRejected(c: Collector, line: string)
    requires |Split(line)| > 2 && KeywordIs(line, "topic")
    requires forall p :: !EqualsIgnoreCase(Split(line)[1], PermissionName(p))
    ensures Parse(c, line) == Failed(InvalidPermissionToken, c)
  {
    Keywords(line);
    assert PermissionToken(Split(line)[1]).None?;
  }

  /** A `topic` line of three or more tokens with a valid permission yields a rule
      with that permission whose filter is the rest of the line from the first
      occurrence of the third token's text, whitespace included. */
  lemma PermissionTopicRule(c: Collector, line: string, p: Permission)
    requires |Split(line)| > 2 && KeywordIs(line, "topic")
    requires EqualsIgnoreCase(Split(line)[1], PermissionName(p))
    ensures ParseAuthLine(c, line).state == c
    ensures exists start: nat ::
              && OccursAt(Split(line)[2], line, start)
              && (forall k: nat :: k < start ==> !OccursAt(Split(line)[2], line, k))
              && ParseAuthLine(c, line).result == Success(Some(Authorization(line[start..], p)))
  {
    Keywords(line);
    JavaStringFacts.IndexOfToken(line, 2);
    var start := IndexOf(line, Split(line)[2]).value;
    assert ParseAuthLine(c, line).result == Success(Some(Authorization(line[start..], p)));
  }

  /** A `topic` line of exactly two tokens yields a READWRITE rule whose filter is
      the second token. */
  lemma TwoTokenTopicRule(c: Collector, line: string)
    requires |Split(line)| == 2 && KeywordIs(line, "topic")
    ensures ParseAuthLine(c, line) == LineOutcome(c, Success(Some(Authorization(Split(line)[1], ReadWrite))))
  {
    Keywords(line);
  }

  /** A `topic` line with no further token fails reading the missing token. */
  lemma LoneTopicRejected(c: Collector, line: string)
    requires |Split(line)| == 1 && KeywordIs(line, "topic")
    ensures Parse(c, line) == Failed(IndexOutOfBounds, c)
  {
    Keywords(line);
  }

  /** `user <name>` adds no rule and switches to the (non-empty) user's section. */
  lemma UserLineEntersSection(c: Collector, line: string)
    requires |Split(line)| >= 2 && KeywordIs(line, "user")
    ensures Parse(c, line) == Parsed(c.(inUserSection := true, currentUser := Split(line)[1]))
    ensures Split(line)[1] != ""
  {
    Keywords(line);
    JavaStringFacts.SplitTokensShape(line);
  }

  /** `user` without a name fails, but only after the section flag was set: the
      current user stays what it was. */
  lemma NamelessUserSetsFlag(c: Collector, line: string)
    requires |Split(line)| == 1 && KeywordIs(line, "user")
    ensures Parse(c, line) == Failed(IndexOutOfBounds, c.(inUserSection := true))
  {
    Keywords(line);
  }

  /** `pattern` lines are accepted and change nothing. */
  lemma PatternLineIgnored(c: Collector, line: string)
    requires KeywordIs(line, "pattern")
    ensures Parse(c, line) == Parsed(c)
  {
    Keywords(line);
  }

  /** A rule is filed at the end of the current user's list in a user section
      (the list is created when absent) and at the end of the global list
      otherwise; nothing else changes. */
  lemma AppendTarget(c: Collector, line: string, rule: Authorization)
    requires ParseAuthLine(c, line).result == Success(Some(rule))
    requires !c.immutable
    ensures Parse(c, line).Parsed?
    ensures Parse(c, line).next.inUserSection == c.inUserSection
    ensures Parse(c, line).next.currentUser == c.currentUser
    ensures Parse(c, line).next.immutable == c.immutable
    ensures c.inUserSection ==>
              && Parse(c, line).next.global == c.global
              && Parse(c, line).next.users.Keys == c.users.Keys + {c.currentUser}
              && Parse(c, line).next.users[c.currentUser] == RulesOf(c.users, c.currentUser) + [rule]
              && forall u :: u in c.users && u != c.currentUser ==> Parse(c, line).next.users[u] == c.users[u]
    ensures !c.inUserSection ==>
              && Parse(c, line).next.global == c.global + [rule]
              && Parse(c, line).next.users == c.users
  {
  }

  /** On the immutable empty collector a rule cannot be filed. */
  lemma ImmutableRefusesRules(c: Collector, line: string, rule: Authorization)
    requires ParseAuthLine(c, line).result == Success(Some(rule))
    requires c.immutable
    ensures Parse(c, line) == Failed(UnsupportedOperation, c)
  {
  }
}
