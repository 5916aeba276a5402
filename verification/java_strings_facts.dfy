/**
  What `split("\\s+")`, `indexOf` and the case mappings guarantee to the parser:
  the shape of the tokens, that every token really occurs in the line, a
  split/join round trip, and the agreement of the case-folding comparisons with
  `EqualsIgnoreCase`.
 */
module JavaStringFacts {
  import opened Wrappers
  import opened JavaStrings

  /** Lines rebuilt from tokens and the whitespace runs between them. */
  function Join(tokens: seq<string>, seps: seq<string>): (line: string)
    requires |tokens| >= 1 && |seps| == |tokens| - 1
    decreases |tokens|
  {
    if |tokens| == 1 then tokens[0]
    else tokens[0] + seps[0] + Join(tokens[1..], seps[1..])
  }

  /** The first whitespace position is determined by the prefix it ends. */
  lemma {:induction false} FirstWhitespaceIs(s: string, from: nat, m: nat)
    requires from <= m <= |s|
    requires forall k :: from <= k < m ==> !IsWhitespace(s[k])
    requires m < |s| ==> IsWhitespace(s[m])
    ensures FirstWhitespace(s, from) == m
    decreases m - from
  {
    if from < m {
      FirstWhitespaceIs(s, from + 1, m);
    }
  }

  /** The end of a whitespace run is determined by the run it closes. */
  lemma {:induction false} RunEndIs(s: string, from: nat, m: nat)
    requires from <= m <= |s|
    requires forall k :: from <= k < m ==> IsWhitespace(s[k])
    requires m < |s| ==> !IsWhitespace(s[m])
    ensures RunEnd(s, from) == m
    decreases m - from
  {
    if from < m {
      RunEndIs(s, from + 1, m);
    }
  }

  /** What occurs in a suffix occurs in the whole string. */
  lemma OccursInSuffix(needle: string, s: string, j: nat)
    requires j <= |s| && Occurs(needle, s[j..])
    ensures Occurs(needle, s)
  {
    var q: nat :| OccursAt(needle, s[j..], q);
    assert s[j + q..j + q + |needle|] == s[j..][q..q + |needle|];
    assert OccursAt(needle, s, j + q);
  }

  /** Each segment produced by the splitter is a substring of its input. */
  lemma {:induction false} PiecesOccur(s: string)
    ensures forall k :: 0 <= k < |Pieces(s)| ==> Occurs(Pieces(s)[k], s)
    decreases |s|
  {
    var i := FirstWhitespace(s, 0);
    if i == |s| {
      forall k | 0 <= k < |Pieces(s)| ensures Occurs(Pieces(s)[k], s) {
        assert Pieces(s)[k] == s;
        assert OccursAt(s, s, 0);
      }
    } else {
      var j := RunEnd(s, i);
      var rest := s[j..];
      PiecesOccur(rest);
      assert Pieces(s) == [s[..i]] + Pieces(rest);
      forall k | 0 <= k < |Pieces(s)|
        ensures Occurs(Pieces(s)[k], s)
      {
        if k == 0 {
          assert OccursAt(s[..i], s, 0);
        } else {
          assert Occurs(Pieces(rest)[k - 1], rest);
          OccursInSuffix(Pieces(rest)[k - 1], s, j);
        }
      }
    }
  }

  /** The segments hold no whitespace, the first one is the text before the first
      whitespace, and only the first and the last can be empty. */
  lemma {:induction false} PiecesShape(s: string)
    ensures Pieces(s)[0] == s[..FirstWhitespace(s, 0)]
    ensures forall k :: 0 <= k < |Pieces(s)| ==> NoWhitespace(Pieces(s)[k])
    ensures forall k :: 1 <= k < |Pieces(s)| - 1 ==> Pieces(s)[k] != ""
    decreases |s|
  {
    var i := FirstWhitespace(s, 0);
    if i < |s| {
      var j := RunEnd(s, i);
      var rest := s[j..];
      PiecesShape(rest);
      assert Pieces(s) == [s[..i]] + Pieces(rest);
      if |Pieces(rest)| > 1 {
        assert rest != "";
        assert !IsWhitespace(rest[0]);
        assert FirstWhitespace(rest, 0) > 0;
      }
    }
  }

  /** A line that is not all whitespace has a non-empty segment. */
  lemma {:induction false} PiecesNotAllEmpty(s: string, x: nat)
    requires x < |s| && !IsWhitespace(s[x])
    ensures exists m :: 0 <= m < |Pieces(s)| && Pieces(s)[m] != ""
    decreases |s|
  {
    var i := FirstWhitespace(s, 0);
    if i == |s| {
      assert Pieces(s)[0] != "";
    } else if x < i {
      assert Pieces(s)[0] == s[..i];
      assert |Pieces(s)[0]| > 0;
    } else {
      var j := RunEnd(s, i);
      assert x >= j;
      var rest := s[j..];
      PiecesNotAllEmpty(rest, x - j);
      assert Pieces(s) == [s[..i]] + Pieces(rest);
      var m :| 0 <= m < |Pieces(rest)| && Pieces(rest)[m] != "";
      assert Pieces(s)[m + 1] != "";
    }
  }

  /** Every token of `split("\\s+")` holds no whitespace and every token after the
      first is non-empty. */
  lemma SplitTokensShape(line: string)
    ensures forall k :: 0 <= k < |Split(line)| ==> NoWhitespace(Split(line)[k])
    ensures forall k :: 1 <= k < |Split(line)| ==> Split(line)[k] != ""
  {
    if FirstWhitespace(line, 0) < |line| {
      PiecesShape(line);
      var ps := Pieces(line);
      var ts := Split(line);
      assert ts == ps[..|ts|];
      forall k | 1 <= k < |ts| ensures ts[k] != "" {
        if k < |ts| - 1 {
          assert ts[k] == ps[k];
        }
      }
    }
  }

  /** `split("\\s+")` yields no token exactly for a non-empty all-whitespace line,
      and its first token is empty exactly when the line is empty or starts with
      whitespace. */
  lemma SplitFirstToken(line: string)
    ensures Split(line) == [] <==> line != "" && AllWhitespace(line)
    ensures |Split(line)| > 0 ==> (Split(line)[0] == "" <==> line == "" || IsWhitespace(line[0]))
  {
    var i := FirstWhitespace(line, 0);
    if i < |line| {
      PiecesShape(line);
      var ps := Pieces(line);
      var ts := Split(line);
      if !AllWhitespace(line) {
        var x :| 0 <= x < |line| && !IsWhitespace(line[x]);
        PiecesNotAllEmpty(line, x);
        var m :| 0 <= m < |ps| && ps[m] != "";
        assert |ts| > 0;
        assert ts[0] == ps[0];
      } else {
        assert i == 0;
        RunEndIs(line, 0, |line|);
        assert Pieces(line) == [""] + Pieces("");
        assert ps == ["", ""];
      }
    }
  }

  /** Every token of `split("\\s+")` occurs in the line it came from, so `indexOf`
      on it always succeeds. */
  lemma SplitTokensOccur(line: string)
    ensures forall k :: 0 <= k < |Split(line)| ==> Occurs(Split(line)[k], line)
  {
    if FirstWhitespace(line, 0) == |line| {
      forall k | 0 <= k < |Split(line)| ensures Occurs(Split(line)[k], line) {
        assert Split(line)[k] == line;
        assert OccursAt(line, line, 0);
      }
    } else {
      PiecesOccur(line);
      var ts := Split(line);
      assert ts == Pieces(line)[..|ts|];
      forall k | 0 <= k < |ts| ensures Occurs(ts[k], line) {
        assert ts[k] == Pieces(line)[k];
      }
    }
  }

  /** `indexOf` finds a token of the line. */
  lemma IndexOfToken(line: string, k: nat)
    requires k < |Split(line)|
    ensures IndexOf(line, Split(line)[k]).Some?
  {
    SplitTokensOccur(line);
  }

  /** `indexOf` passes over positions where the first two characters of the
      needle do not both appear. */
  lemma {:induction false} IndexOfSkips(hay: string, needle: string, from: nat, m: nat)
    requires 2 <= |needle| && from <= m < |hay|
    requires forall k :: from <= k < m ==> !(hay[k] == needle[0] && hay[k + 1] == needle[1])
    ensures IndexOfFrom(hay, needle, from) == IndexOfFrom(hay, needle, m)
    decreases m - from
  {
    if from < m {
      assert !OccursAt(needle, hay, from) by {
        if from + |needle| <= |hay| {
          assert hay[from..from + |needle|][0] == hay[from];
          assert hay[from..from + |needle|][1] == hay[from + 1];
        }
      }
      IndexOfSkips(hay, needle, from + 1, m);
    }
  }

  /** A whitespace-free line is its own single token. */
  lemma SplitSingle(t: string)
    requires NoWhitespace(t)
    ensures Split(t) == [t]
  {
    FirstWhitespaceIs(t, 0, |t|);
  }

  /** Dropping trailing empty strings never reaches past a non-empty head. */
  lemma {:induction false} StripCons(t: string, ps: seq<string>)
    requires t != ""
    ensures StripTrailingEmpty([t] + ps) == [t] + StripTrailingEmpty(ps)
    decreases |ps|
  {
    if |ps| > 0 && ps[|ps| - 1] == "" {
      assert ([t] + ps)[..|ps|] == [t] + ps[..|ps| - 1];
      StripCons(t, ps[..|ps| - 1]);
    }
  }

  /** Splitting consumes one leading token and the whitespace run after it. */
  lemma SplitCons(t: string, sep: string, rest: string)
    requires t != "" && NoWhitespace(t)
    requires sep != "" && AllWhitespace(sep)
    requires rest != "" && !IsWhitespace(rest[0])
    ensures Split(t + sep + rest) == [t] + Split(rest)
  {
    var line := t + sep + rest;
    assert line[|t| + |sep|] == rest[0];
    FirstWhitespaceIs(line, 0, |t|);
    RunEndIs(line, |t|, |t| + |sep|);
    assert line[..|t|] == t;
    assert line[|t| + |sep|..] == rest;
    assert Pieces(line) == [t] + Pieces(rest);
    StripCons(t, Pieces(rest));
    if FirstWhitespace(rest, 0) == |rest| {
      assert Pieces(rest) == [rest];
    }
  }

  /** Splitting a line built from whitespace-free, non-empty tokens and non-empty
      whitespace runs gives back exactly those tokens. */
  lemma {:induction false} SplitJoin(tokens: seq<string>, seps: seq<string>)
    requires |tokens| >= 1 && |seps| == |tokens| - 1
    requires forall k :: 0 <= k < |tokens| ==> tokens[k] != "" && NoWhitespace(tokens[k])
    requires forall k :: 0 <= k < |seps| ==> seps[k] != "" && AllWhitespace(seps[k])
    ensures Split(Join(tokens, seps)) == tokens
    decreases |tokens|
  {
    if |tokens| == 1 {
      SplitSingle(tokens[0]);
    } else {
      var rest := Join(tokens[1..], seps[1..]);
      assert rest[0] == tokens[1][0] by {
        if |tokens| > 2 {
          assert rest == tokens[1] + seps[1] + Join(tokens[2..], seps[2..]);
        }
      }
      SplitCons(tokens[0], seps[0], rest);
      SplitJoin(tokens[1..], seps[1..]);
      assert tokens == [tokens[0]] + tokens[1..];
    }
  }

  /** Lower-casing a token gives a keyword with no upper-case letter exactly when
      the token equals that keyword ignoring case. */
  lemma ToLowerMatches(token: string, keyword: string)
    requires forall k :: 0 <= k < |keyword| ==> !IsUpper(keyword[k])
    ensures ToLower(token) == keyword <==> EqualsIgnoreCase(token, keyword)
  {
    if EqualsIgnoreCase(token, keyword) {
      assert forall k :: 0 <= k < |token| ==> ToLower(token)[k] == keyword[k];
    }
    if ToLower(token) == keyword {
      assert forall k :: 0 <= k < |token| ==> SameIgnoringCase(token[k], keyword[k]) by {
        forall k | 0 <= k < |token| ensures SameIgnoringCase(token[k], keyword[k]) {
          assert ToLower(token)[k] == LowerChar(token[k]);
        }
      }
    }
  }

  /** Upper-casing a token gives a name with no lower-case letter exactly when
      the token equals that name ignoring case. */
  lemma ToUpperMatches(token: string, name: string)
    requires forall k :: 0 <= k < |name| ==> !IsLower(name[k])
    ensures ToUpper(token) == name <==> EqualsIgnoreCase(token, name)
  {
    if EqualsIgnoreCase(token, name) {
      assert forall k :: 0 <= k < |token| ==> ToUpper(token)[k] == name[k];
    }
    if ToUpper(token) == name {
      assert forall k :: 0 <= k < |token| ==> SameIgnoringCase(token[k], name[k]) by {
        forall k | 0 <= k < |token| ensures SameIgnoringCase(token[k], name[k]) {
          assert ToUpper(token)[k] == UpperChar(token[k]);
        }
      }
    }
  }
}
