# Access-control rule collector of the Moquette MQTT broker

This project models `AuthorizationsCollector`, the part of the broker's
access-control list (ACL) support that reads rule lines and answers permission
queries, and proves properties of the model in Dafny.

The collector is fed one line at a time by the ACL file parser. Each line is
split at whitespace and dispatched on its first token, case-insensitively:

- `topic [read|write|readwrite] <filter>` yields a rule. Without a permission
  token the rule grants READWRITE. With one, the filter is the rest of the line
  from where `indexOf` finds the third token's text.
- `user <name>` switches to that user's section. A user section is never left
  again.
- `pattern ...` is accepted and ignored.
- Anything else is a parse error.

Rules are appended to the global list, or to the current user's list when a
user section is active. `canRead` and `canWrite` scan the rules in order:

- a query without a user name (null or empty) consults the global rules;
- a named user consults only that user's rules;
- a rule grants the request when its permission is the requested one or
  READWRITE and the topic matcher accepts the topic against its filter.

`isEmpty` reports whether there are no global rules.
`emptyImmutableCollector` builds a collector on immutable empty containers.

The model has these modules:

- `Wrappers` holds `Option` and `Result`.
- `JavaStrings` models the Java string operations the parser relies on.
  - `Split` is `String.split("\\s+")`. It keeps a leading empty token and drops
    trailing empty ones. A line without whitespace is its own single token.
  - `IndexOf` is first-occurrence search.
  - `ToLower` and `ToUpper` are ASCII case mapping.
  - `EqualsIgnoreCase` is the reference reading of "the same word in any case".
- `JavaStringFacts` proves the tokeniser's shape and round trip, and relates the
  case mappings to `EqualsIgnoreCase`.
- `Authorizations` holds the rule value: `Permission` with `valueOf`, and
  `Authorization`.
- `AuthorizationsCollector` holds the collector state and the operations.
  - `parse` and `parseAuthLine` become pure functions from a state and a line to
    an outcome.
  - Every exception becomes an error value. The error value carries the state
    the exception leaves behind.
- `ParseFacts` has one lemma per kind of line, stated against
  `EqualsIgnoreCase` rather than against the case mapping the parser applies.
- `EvalFacts` covers which rules a query consults, what each permission
  grants, emptiness, and which answers parsing a line can change.
- `Scenarios` works through concrete rule lines, including the quirks listed
  below.

The topic matcher `SubscriptionsStore.matchTopics` is passed to every query as
an arbitrary total function `Matcher`. No property depends on its wildcard
semantics.

## Quirks of the code that the model reproduces

The model follows the code in each of these cases, including where its outcome looks unintended:

- **Filter start.** The filter of a `topic <perm> <filter>` line starts at the
  *first occurrence* of the third token's text, which need not be where that
  token sits. `topic read re` files the filter `read re`
  (`Scenarios.FilterStartsAtFirstOccurrence`). The text is always found, so
  `substring` is never handed -1 (`JavaStringFacts.IndexOfToken`).
- **Nameless `user` line.** A `user` line with no name sets the user-section
  flag *before* the missing name is read. It then fails with an index error and
  leaves the flag set and the current user unchanged
  (`ParseFacts.NamelessUserSetsFlag`).
  - If this is the first `user` line, later rules are filed under the initial
    empty user name.
  - No query can reach those rules, because an empty name is answered from the
    global rules (`Scenarios.NamelessUserOrphansRules`).
- **Blank and indented lines.**
  - An empty line, or one that starts with whitespace, has an empty first token
    and is rejected as an invalid line definition.
  - A line made only of whitespace has no token at all, so it fails with an
    index error rather than a `ParseException`
    (`ParseFacts.BlankOrIndentedLineRejected`).
- **The immutable collector.** Filing a rule on the collector from
  `emptyImmutableCollector` throws `UnsupportedOperationException`. This is
  modelled as the error `UnsupportedOperation`, not as a precondition. `user`
  and `pattern` lines still succeed on it, as they do in the code.

## Model

| member | source | states |
|---|---|---|
| JavaStrings.IndexOf | broker/src/main/java/org/eclipse/moquette/spi/impl/security/AuthorizationsCollector.java:83 | `indexOf` finds a position exactly when the text occurs; the position found is an occurrence and no earlier position is one |
| JavaStringFacts.SplitTokensShape | broker/src/main/java/org/eclipse/moquette/spi/impl/security/AuthorizationsCollector.java:74 | no token of `split("\\s+")` contains whitespace, and every token after the first is non-empty |
| JavaStringFacts.SplitFirstToken | broker/src/main/java/org/eclipse/moquette/spi/impl/security/AuthorizationsCollector.java:74 | the split yields no token iff the line is non-empty and all whitespace; the first token is empty iff the line is empty or starts with whitespace |
| JavaStringFacts.SplitJoin | broker/src/main/java/org/eclipse/moquette/spi/impl/security/AuthorizationsCollector.java:74 | round trip: joining whitespace-free tokens with whitespace runs and splitting the result gives back the tokens |
| JavaStringFacts.IndexOfToken | broker/src/main/java/org/eclipse/moquette/spi/impl/security/AuthorizationsCollector.java:83 | the text of every token occurs in its line, so `indexOf` of it never returns -1 |
| JavaStringFacts.ToLowerMatches | broker/src/main/java/org/eclipse/moquette/spi/impl/security/AuthorizationsCollector.java:75-76 | a token lower-cased equals a lower-case keyword iff the token is that keyword in any case |
| JavaStringFacts.ToUpperMatches | broker/src/main/java/org/eclipse/moquette/spi/impl/security/AuthorizationsCollector.java:81 | a token upper-cased equals an upper-case name iff the token is that name in any case |
| Authorizations.ValueOf | broker/src/main/java/org/eclipse/moquette/spi/impl/security/AuthorizationsCollector.java:81 | `Permission.valueOf` returns a constant only for its exact name and fails for every other string |
| Authorizations.ValueOfName | broker/src/main/java/org/eclipse/moquette/spi/impl/security/AuthorizationsCollector.java:81 | `valueOf` inverts the naming of the constants |
| Authorizations.PermissionToken | broker/src/main/java/org/eclipse/moquette/spi/impl/security/AuthorizationsCollector.java:81 | the permission token denotes permission p iff it spells p's name in any case, and denotes nothing otherwise |
| Authorizations.DefaultAuthorization | broker/src/main/java/org/eclipse/moquette/spi/impl/security/AuthorizationsCollector.java:90-91 | the one-argument rule keeps its topic as the filter |
| AuthorizationsCollector.EmptyImmutableCollector | broker/src/main/java/org/eclipse/moquette/spi/impl/security/AuthorizationsCollector.java:47-53 | the immutable empty collector reports itself empty and denies every read and write query, for any topic, user and matcher |
| AuthorizationsCollector.ParseAuthLine | broker/src/main/java/org/eclipse/moquette/spi/impl/security/AuthorizationsCollector.java:73-101 | the line never touches the rule lists and never leaves a user section; a failure leaves the state as it was or with only the section flag set; a rule leaves the state unchanged and has a non-empty filter that occurs in the line |
| AuthorizationsCollector.Parse | broker/src/main/java/org/eclipse/moquette/spi/impl/security/AuthorizationsCollector.java:55-71 | rules are only appended: the global list and every user list grow as prefixes, the global list by at most one rule; inside a user section the global list is frozen and the section is kept; a failed line changes no rule list |
| AuthorizationsCollector.AnyGrants | broker/src/main/java/org/eclipse/moquette/spi/impl/security/AuthorizationsCollector.java:116-122 | the first-match scan succeeds iff some rule in the list covers the requested permission and matches the topic |
| AuthorizationsCollector.CanDoOperation | broker/src/main/java/org/eclipse/moquette/spi/impl/security/AuthorizationsCollector.java:114-133 | an anonymous query is granted iff some global rule grants it; a named user is granted iff the user has a section and some rule in it grants the request |
| AuthorizationsCollector.CanRead | broker/src/main/java/org/eclipse/moquette/spi/impl/security/AuthorizationsCollector.java:109-112 | reading is granted iff some consulted rule holds READ or READWRITE and its filter matches the topic |
| AuthorizationsCollector.CanWrite | broker/src/main/java/org/eclipse/moquette/spi/impl/security/AuthorizationsCollector.java:104-107 | writing is granted iff some consulted rule holds WRITE or READWRITE and its filter matches the topic |
| ParseFacts.Keywords | broker/src/main/java/org/eclipse/moquette/spi/impl/security/AuthorizationsCollector.java:75-76 | the lower-cased first token selects `topic`, `user` or `pattern` iff it is that keyword in any case |
| ParseFacts.UnknownKeywordRejected | broker/src/main/java/org/eclipse/moquette/spi/impl/security/AuthorizationsCollector.java:99-100 | a first token that is no keyword in any case is an invalid line definition carrying the line, and the collector is unchanged |
| ParseFacts.BlankOrIndentedLineRejected | broker/src/main/java/org/eclipse/moquette/spi/impl/security/AuthorizationsCollector.java:74-76 | an empty or indented line is rejected with no change: an index error when it is all whitespace, an invalid line definition otherwise |
| ParseFacts.InvalidPermissionRejected | broker/src/main/java/org/eclipse/moquette/spi/impl/security/AuthorizationsCollector.java:78-88 | a `topic` line of three or more tokens whose second token names no permission is refused and the collector is unchanged |
| ParseFacts.PermissionTopicRule | broker/src/main/java/org/eclipse/moquette/spi/impl/security/AuthorizationsCollector.java:81-85 | with a valid permission token, the rule has that permission and its filter is the rest of the line from the first occurrence of the third token's text |
| ParseFacts.TwoTokenTopicRule | broker/src/main/java/org/eclipse/moquette/spi/impl/security/AuthorizationsCollector.java:90-91 | a two-token `topic` line yields a READWRITE rule whose filter is the second token, and the state is unchanged |
| ParseFacts.LoneTopicRejected | broker/src/main/java/org/eclipse/moquette/spi/impl/security/AuthorizationsCollector.java:90 | a `topic` line with no further token fails with an index error and changes nothing |
| ParseFacts.UserLineEntersSection | broker/src/main/java/org/eclipse/moquette/spi/impl/security/AuthorizationsCollector.java:92-95 | `user <name>` adds no rule, enters the user section and makes the non-empty name current |
| ParseFacts.NamelessUserSetsFlag | broker/src/main/java/org/eclipse/moquette/spi/impl/security/AuthorizationsCollector.java:93-94 | `user` without a name fails with an index error after setting the section flag; the current user is kept |
| ParseFacts.PatternLineIgnored | broker/src/main/java/org/eclipse/moquette/spi/impl/security/AuthorizationsCollector.java:96-98 | a `pattern` line succeeds and changes nothing |
| ParseFacts.AppendTarget | broker/src/main/java/org/eclipse/moquette/spi/impl/security/AuthorizationsCollector.java:61-70 | a rule goes to the end of the current user's list (created if absent) in a user section, else to the end of the global list; every other list, the section and the current user are unchanged |
| ParseFacts.ImmutableRefusesRules | broker/src/main/java/org/eclipse/moquette/spi/impl/security/AuthorizationsCollector.java:49-51 | on the immutable collector, filing a rule throws and leaves the collector as it was |
| EvalFacts.AnyGrantsConcat | broker/src/main/java/org/eclipse/moquette/spi/impl/security/AuthorizationsCollector.java:116-122 | scanning two lists one after the other grants iff scanning either one grants |
| EvalFacts.ReadRuleNeverGrantsWrite | broker/src/main/java/org/eclipse/moquette/spi/impl/security/AuthorizationsCollector.java:117 | inserting a READ rule anywhere in a list never changes a write answer |
| EvalFacts.WriteRuleNeverGrantsRead | broker/src/main/java/org/eclipse/moquette/spi/impl/security/AuthorizationsCollector.java:125 | inserting a WRITE rule anywhere in a list never changes a read answer |
| EvalFacts.ReadWriteRuleGrantsBoth | broker/src/main/java/org/eclipse/moquette/spi/impl/security/AuthorizationsCollector.java:125-126 | a consulted READWRITE rule whose filter matches grants both reading and writing |
| EvalFacts.GlobalRulesIgnoredForNamedUser | broker/src/main/java/org/eclipse/moquette/spi/impl/security/AuthorizationsCollector.java:123-131 | replacing the global rules never changes a named user's answer |
| EvalFacts.UserRulesIgnoredForAnonymous | broker/src/main/java/org/eclipse/moquette/spi/impl/security/AuthorizationsCollector.java:115-122 | replacing the user sections never changes an answer for a null or empty user name |
| EvalFacts.UnknownUserDenied | broker/src/main/java/org/eclipse/moquette/spi/impl/security/AuthorizationsCollector.java:123-132 | a named user without a section is denied reading and writing, whatever the global rules say |
| EvalFacts.IsEmptyIgnoresUsers | broker/src/main/java/org/eclipse/moquette/spi/impl/security/AuthorizationsCollector.java:135-137 | `isEmpty` does not depend on the user sections |
| EvalFacts.EmptyDeniesAnonymous | broker/src/main/java/org/eclipse/moquette/spi/impl/security/AuthorizationsCollector.java:135-137 | a collector that reports itself empty denies every anonymous read and write |
| EvalFacts.ParseAndEmptiness | broker/src/main/java/org/eclipse/moquette/spi/impl/security/AuthorizationsCollector.java:55-71 | no line makes a non-empty collector empty; inside a user section emptiness is unchanged; an empty collector becomes non-empty iff a rule is filed in the global section of a mutable collector |
| EvalFacts.UserSectionKeepsAnonymousAnswers | broker/src/main/java/org/eclipse/moquette/spi/impl/security/AuthorizationsCollector.java:61-67 | once in a user section, no line changes any anonymous read or write answer |
| EvalFacts.UserSectionKeepsOtherUsersAnswers | broker/src/main/java/org/eclipse/moquette/spi/impl/security/AuthorizationsCollector.java:61-67 | inside a user section, no line changes the read or write answers of any named user other than the current one |
| EvalFacts.GlobalSectionKeepsUserAnswers | broker/src/main/java/org/eclipse/moquette/spi/impl/security/AuthorizationsCollector.java:68-69 | before any user section, no line changes any named user's read or write answer |
| EvalFacts.ReadLineKeepsWriteAnswers | broker/src/main/java/org/eclipse/moquette/spi/impl/security/AuthorizationsCollector.java:81-85 | parsing a `topic read ...` line never changes whether anyone may write any topic |
| EvalFacts.WriteLineKeepsReadAnswers | broker/src/main/java/org/eclipse/moquette/spi/impl/security/AuthorizationsCollector.java:81-85 | parsing a `topic write ...` line never changes whether anyone may read any topic |
| Scenarios.DefaultPermissionGrantsBoth | broker/src/main/java/org/eclipse/moquette/spi/impl/security/AuthorizationsCollector.java:90-91 | `topic sensor/#` files one READWRITE rule, which grants anonymous reading and writing of a matching topic |
| Scenarios.WriteOnlyRule | broker/src/main/java/org/eclipse/moquette/spi/impl/security/AuthorizationsCollector.java:81-85 | `topic write cmd/#` files one WRITE rule, which grants writing and not reading |
| Scenarios.FilterKeepsInnerSpaces | broker/src/main/java/org/eclipse/moquette/spi/impl/security/AuthorizationsCollector.java:82-83 | `topic readwrite  my room` files the filter `my room`: the whitespace before the filter is dropped and the space inside it is kept |
| Scenarios.FilterStartsAtFirstOccurrence | broker/src/main/java/org/eclipse/moquette/spi/impl/security/AuthorizationsCollector.java:83 | `topic read re` files the filter `read re`, because `indexOf` finds `re` inside the permission token |
| Scenarios.UserSectionScenario | broker/src/main/java/org/eclipse/moquette/spi/impl/security/AuthorizationsCollector.java:92-95 | after `user bob`, `topic read bob/inbox` is filed for bob only; bob may read but not write, and neither an anonymous client nor another user may read |
| Scenarios.UnknownKeywordScenario | broker/src/main/java/org/eclipse/moquette/spi/impl/security/AuthorizationsCollector.java:99-100 | `frobnicate foo` is an invalid line definition and changes nothing |
| Scenarios.BogusPermissionScenario | broker/src/main/java/org/eclipse/moquette/spi/impl/security/AuthorizationsCollector.java:86-87 | `topic bogusperm a/b/c` is refused as an invalid permission token and changes nothing |
| Scenarios.NamelessUserOrphansRules | broker/src/main/java/org/eclipse/moquette/spi/impl/security/AuthorizationsCollector.java:93-94 | after a nameless `user` line, `topic a` is filed under the empty user name, where no query ever sees it |
| Scenarios.ImmutableScenario | broker/src/main/java/org/eclipse/moquette/spi/impl/security/AuthorizationsCollector.java:49-51 | the immutable empty collector refuses `topic a` and stays as it was |

## Left out

- The topic matcher `SubscriptionsStore.matchTopics` is not part of this
  model. Every query takes it as a parameter, and no wildcard semantics are
  modelled.
- Logging through the SLF4J logger is output only and is not modelled.
- The pattern rule list is never read or written except by
  `emptyImmutableCollector`, so it has no field. `pattern` lines are modelled
  as doing nothing, as the code does.
- Authorizations.DefaultAuthorization: the one-argument `Authorization`
  constructor is not part of this model. Its permission is taken to be
  READWRITE, and the contract states only that the filter is kept.
- Authorizations.PermissionToken: case mapping is ASCII only. Java's
  `toUpperCase` also maps 'ı' (U+0131) to 'I' and 'ſ' (U+017F) to 'S'. So Java
  accepts a token such as `wrıte` as WRITE, and the model refuses it.
- ParseFacts.Keywords: the keyword is lower-cased as ASCII, independent of
  locale. Under a Turkish default locale Java lower-cases `TOPIC` to `topıc`,
  so Java rejects that line and the model accepts it.
- Java strings are sequences of UTF-16 code units; the model works on Dafny
  characters. The two agree for the text in rule files.
- The messages and error offsets of the `ParseException`s are not modelled.
  Only which error is raised is modelled, with the offending line for an
  invalid line definition.
- The collector is not thread safe, and it has no concurrency logic to model.
- HashMap and ArrayList identity and mutation are modelled as values: a map
  from user names to rule sequences, and a sequence of global rules.
