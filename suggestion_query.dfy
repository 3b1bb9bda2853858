/**
 * The typeahead query of the lesson-07 mention extension: the static list of
 * mention candidates and the `items({ query })` callback that keeps the
 * candidates whose label contains the query, ignoring case, in list order,
 * capped at five.
 */
module SuggestionQuery {
  import opened Wrappers

  /** One mention candidate: a unique id and the label shown in the menu (`label` is a Dafny keyword). */
  datatype MentionItem = MentionItem(id: string, labelText: string)

  /** The static candidate list the mention menu searches. */
  const MENTION_SUGGESTIONS: seq<MentionItem> := [
    MentionItem("user1", "John Doe"),
    MentionItem("user2", "Jane Smith"),
    MentionItem("user3", "Alice Johnson"),
    MentionItem("user4", "Bob Wilson"),
    MentionItem("user5", "Charlie Brown")
  ]

  /** The number of results `items` keeps (`.slice(0, 5)`). */
  const MAX_RESULTS: nat := 5

  // ---------------------------------------------------------------------------
  // Case folding
  // ---------------------------------------------------------------------------

  /** `toLowerCase` on one character (a Unicode scalar value), folding the ASCII capitals only. */
  function LowerChar(c: char): (r: char)
    ensures 'A' <= c <= 'Z' ==> 'a' <= r <= 'z' && r as int - c as int == 32
    ensures !('A' <= c <= 'Z') ==> r == c
  {
    if 'A' <= c <= 'Z' then (c as int + 32) as char else c
  }

  /** `String.prototype.toLowerCase`, character by character: same length, each character folded. */
  function ToLower(s: string): (r: string)
    ensures |r| == |s| && forall i | 0 <= i < |s| :: r[i] == LowerChar(s[i])
  {
    seq(|s|, i requires 0 <= i < |s| => LowerChar(s[i]))
  }

  // ---------------------------------------------------------------------------
  // Substring search
  // ---------------------------------------------------------------------------

  /** `hay.includes(needle)`: does `needle` start at the head of `hay` or somewhere further on? */
  predicate Includes(hay: string, needle: string): (b: bool)
    ensures b ==> |needle| <= |hay|
    decreases |hay|
  {
    |needle| <= |hay| && (hay[..|needle|] == needle || Includes(hay[1..], needle))
  }

  /** The independent definition of a substring: some position where the needle occurs. */
  ghost predicate OccursAt(hay: string, needle: string, k: int)
  {
    0 <= k && k + |needle| <= |hay| && hay[k..k + |needle|] == needle
  }

  /** `Includes` holds exactly when the needle occurs at some position of the haystack. */
  lemma {:induction false} IncludesIffOccurs(hay: string, needle: string)
    ensures Includes(hay, needle) <==> exists k :: OccursAt(hay, needle, k)
    decreases |hay|
  {
    if |needle| <= |hay| && hay == [] {
      assert OccursAt(hay, needle, 0);
    } else if |needle| <= |hay| {
      IncludesIffOccurs(hay[1..], needle);
      assert OccursAt(hay, needle, 0) <==> hay[..|needle|] == needle;
      forall k | OccursAt(hay[1..], needle, k)
        ensures OccursAt(hay, needle, k + 1)
      {
        assert hay[1..][k..k + |needle|] == hay[k + 1..k + 1 + |needle|];
      }
      forall k | 0 < k && OccursAt(hay, needle, k)
        ensures OccursAt(hay[1..], needle, k - 1)
      {
        assert hay[1..][k - 1..k - 1 + |needle|] == hay[k..k + |needle|];
      }
    }
  }

  /** A haystack includes its own suffixes: the needle occurs at the last position it fits. */
  lemma IncludesSuffix(hay: string, needle: string)
    requires |needle| <= |hay| && hay[|hay| - |needle|..] == needle
    ensures Includes(hay, needle)
  {
    IncludesIffOccurs(hay, needle);
    assert OccursAt(hay, needle, |hay| - |needle|);
  }

  /** The empty string occurs in every string. */
  lemma EmptyIncluded(hay: string)
    ensures Includes(hay, "")
  {
  }

  // ---------------------------------------------------------------------------
  // The `items` callback
  // ---------------------------------------------------------------------------

  /** The filter condition: the lower-cased label includes the lower-cased query. */
  predicate LabelMatches(item: MentionItem, query: string): (b: bool)
    ensures b <==> exists k :: OccursAt(ToLower(item.labelText), ToLower(query), k)
  {
    IncludesIffOccurs(ToLower(item.labelText), ToLower(query));
    Includes(ToLower(item.labelText), ToLower(query))
  }

  /** `candidates.filter(...)`: the candidates that match, in their original order. */
  function Matching(candidates: seq<MentionItem>, query: string): (r: seq<MentionItem>)
    ensures |r| <= |candidates|
  {
    if candidates == [] then []
    else if LabelMatches(candidates[0], query) then [candidates[0]] + Matching(candidates[1..], query)
    else Matching(candidates[1..], query)
  }

  /** The filter keeps exactly the candidates that match. */
  lemma {:induction false} MatchingMembers(candidates: seq<MentionItem>, query: string)
    ensures forall x :: x in Matching(candidates, query) <==> x in candidates && LabelMatches(x, query)
  {
    if candidates != [] {
      MatchingMembers(candidates[1..], query);
      assert candidates == [candidates[0]] + candidates[1..];
    }
  }

  /** `a` is `b` with some elements removed and the rest kept in order. */
  predicate IsSubsequence<T(==)>(a: seq<T>, b: seq<T>)
    decreases |b|
  {
    a == [] || (b != [] && (if a[0] == b[0] then IsSubsequence(a[1..], b[1..]) else IsSubsequence(a, b[1..])))
  }

  /** A prefix of a subsequence is again a subsequence. */
  lemma {:induction false} PrefixOfSubsequence<T>(a: seq<T>, b: seq<T>, n: nat)
    requires n <= |a| && IsSubsequence(a, b)
    ensures IsSubsequence(a[..n], b)
    decreases |b|
  {
    if n > 0 {
      if a[0] == b[0] {
        PrefixOfSubsequence(a[1..], b[1..], n - 1);
        assert a[..n][1..] == a[1..][..n - 1];
      } else {
        PrefixOfSubsequence(a, b[1..], n);
      }
    }
  }

  /** The filter keeps the candidates' relative order. */
  lemma {:induction false} MatchingIsSubsequence(candidates: seq<MentionItem>, query: string)
    ensures IsSubsequence(Matching(candidates, query), candidates)
  {
    if candidates != [] {
      MatchingIsSubsequence(candidates[1..], query);
      MatchingMembers(candidates[1..], query);
      var rest := Matching(candidates[1..], query);
      if LabelMatches(candidates[0], query) {
        assert ([candidates[0]] + rest)[1..] == rest;
      } else {
        // The first match lies in the tail and matches, so it is not the dropped head.
        assert rest != [] ==> rest[0] in rest && rest[0] != candidates[0];
      }
    }
  }

  /** The filter depends on the query only through its lower-cased form. */
  lemma {:induction false} MatchingIgnoresCase(candidates: seq<MentionItem>, q1: string, q2: string)
    requires ToLower(q1) == ToLower(q2)
    ensures Matching(candidates, q1) == Matching(candidates, q2)
  {
    if candidates != [] {
      MatchingIgnoresCase(candidates[1..], q1, q2);
    }
  }

  /** An empty query matches every candidate. */
  lemma {:induction false} MatchingEmptyQuery(candidates: seq<MentionItem>)
    ensures Matching(candidates, "") == candidates
  {
    if candidates != [] {
      EmptyIncluded(ToLower(candidates[0].labelText));
      MatchingEmptyQuery(candidates[1..]);
    }
  }

  /**
   * `items({ query })`: the matching candidates in list order, at most five of
   * them, and all of them when there are five or fewer.
   */
  function Items(query: string): (r: seq<MentionItem>)
    ensures |r| <= MAX_RESULTS
    ensures forall x :: x in r ==> x in MENTION_SUGGESTIONS && LabelMatches(x, query)
    ensures IsSubsequence(r, MENTION_SUGGESTIONS)
    ensures |r| == Min(MAX_RESULTS, |Matching(MENTION_SUGGESTIONS, query)|)
    ensures |Matching(MENTION_SUGGESTIONS, query)| <= MAX_RESULTS ==>
              forall x :: x in MENTION_SUGGESTIONS && LabelMatches(x, query) ==> x in r
  {
    var all := Matching(MENTION_SUGGESTIONS, query);
    MatchingMembers(MENTION_SUGGESTIONS, query);
    MatchingIsSubsequence(MENTION_SUGGESTIONS, query);
    PrefixOfSubsequence(all, MENTION_SUGGESTIONS, Min(MAX_RESULTS, |all|));
    assert |all| <= MAX_RESULTS ==> all[..Min(MAX_RESULTS, |all|)] == all;
    all[..Min(MAX_RESULTS, |all|)]
  }

  /** Queries that differ only in the case of ASCII letters give the same results. */
  lemma ItemsIgnoreCase(q1: string, q2: string)
    requires ToLower(q1) == ToLower(q2)
    ensures Items(q1) == Items(q2)
  {
    MatchingIgnoresCase(MENTION_SUGGESTIONS, q1, q2);
  }

  /** An empty query lists the first five candidates, which here is the whole list. */
  lemma ItemsOfEmptyQuery()
    ensures Items("") == MENTION_SUGGESTIONS
  {
    MatchingEmptyQuery(MENTION_SUGGESTIONS);
  }

  // ---------------------------------------------------------------------------
  // Worked queries over the static list
  // ---------------------------------------------------------------------------

  /** A one-character needle is included exactly when the character occurs. */
  lemma {:induction false} IncludesOneChar(hay: string, c: char)
    ensures Includes(hay, [c]) <==> c in hay
    decreases |hay|
  {
    if hay != [] {
      IncludesOneChar(hay[1..], c);
      assert hay == [hay[0]] + hay[1..];
    }
  }

  /** A two-character needle is excluded when no adjacent pair spells it. */
  lemma {:induction false} NotIncludesTwoChars(hay: string, c: char, d: char)
    requires forall k | 0 <= k < |hay| - 1 :: !(hay[k] == c && hay[k + 1] == d)
    ensures !Includes(hay, [c, d])
    decreases |hay|
  {
    if |hay| >= 2 {
      assert hay[..2] != [c, d] by { assert hay[..2][0] == hay[0] && hay[..2][1] == hay[1]; }
      forall k | 0 <= k < |hay[1..]| - 1
        ensures !(hay[1..][k] == c && hay[1..][k + 1] == d)
      {
        assert hay[1..][k] == hay[k + 1] && hay[1..][k + 1] == hay[k + 2];
      }
      NotIncludesTwoChars(hay[1..], c, d);
    }
  }

  /**
   * A query that lower-cases to "j" lists John Doe, Jane Smith and Alice
   * Johnson, in list order: the "j" of "Johnson" matches as well.
   */
  lemma ItemsForJ(query: string)
    requires ToLower(query) == "j"
    ensures Items(query) == [MENTION_SUGGESTIONS[0], MENTION_SUGGESTIONS[1], MENTION_SUGGESTIONS[2]]
  {
    LowerLabels();
    MatchingForJ(MENTION_SUGGESTIONS, query);
  }

  /** The filter for "j" over any five candidates whose labels lower-case like the static list's. */
  lemma MatchingForJ(m: seq<MentionItem>, query: string)
    requires ToLower(query) == "j"
    requires |m| == 5 && forall k | 0 <= k < 5 :: ToLower(m[k].labelText) == LOWER_LABELS[k]
    ensures Matching(m, query) == [m[0], m[1], m[2]]
  {
    FlagsForJ(m, query);
    MatchingOfFive(m, query, true, true, true, false, false);
  }

  /** Which of five such candidates match "j". */
  lemma FlagsForJ(m: seq<MentionItem>, query: string)
    requires ToLower(query) == "j"
    requires |m| == 5 && forall k | 0 <= k < 5 :: ToLower(m[k].labelText) == LOWER_LABELS[k]
    ensures LabelMatches(m[0], query) && LabelMatches(m[1], query) && LabelMatches(m[2], query)
    ensures !LabelMatches(m[3], query) && !LabelMatches(m[4], query)
  {
    JohnDoeMatches(m[0], query);
    JaneSmithMatches(m[1], query);
    AliceJohnsonMatches(m[2], query);
    BobWilsonMatches(m[3], query);
    CharlieBrownMatches(m[4], query);
  }

  /**
   * A query that lower-cases to "al" ("al", "AL", "Al", "aL") lists Alice
   * Johnson alone: "Charlie" has an 'a' and an 'l' but not the pair.
   */
  lemma ItemsForAl(query: string)
    requires ToLower(query) == "al"
    ensures Items(query) == [MENTION_SUGGESTIONS[2]]
  {
    LowerLabels();
    MatchingForAl(MENTION_SUGGESTIONS, query);
  }

  /** The filter for "al" over any five candidates whose labels lower-case like the static list's. */
  lemma MatchingForAl(m: seq<MentionItem>, query: string)
    requires ToLower(query) == "al"
    requires |m| == 5 && forall k | 0 <= k < 5 :: ToLower(m[k].labelText) == LOWER_LABELS[k]
    ensures Matching(m, query) == [m[2]]
  {
    FlagsForAl(m, query);
    MatchingOfFive(m, query, false, false, true, false, false);
  }

  /** Which of five such candidates match "al". */
  lemma FlagsForAl(m: seq<MentionItem>, query: string)
    requires ToLower(query) == "al"
    requires |m| == 5 && forall k | 0 <= k < 5 :: ToLower(m[k].labelText) == LOWER_LABELS[k]
    ensures !LabelMatches(m[0], query) && !LabelMatches(m[1], query) && LabelMatches(m[2], query)
    ensures !LabelMatches(m[3], query) && !LabelMatches(m[4], query)
  {
    JohnDoeMatches(m[0], query);
    JaneSmithMatches(m[1], query);
    AliceJohnsonMatches(m[2], query);
    BobWilsonMatches(m[3], query);
    CharlieBrownMatches(m[4], query);
  }

  /**
   * Whether a candidate with each of the five lower-cased labels matches the
   * queries "j" and "al", one label at a time (kept apart so that each proof
   * stays small).
   */
  lemma JohnDoeMatches(x: MentionItem, query: string)
    requires ToLower(x.labelText) == "john doe"
    ensures ToLower(query) == "j" ==> LabelMatches(x, query)
    ensures ToLower(query) == "al" ==> !LabelMatches(x, query)
  {
    var h := ToLower(x.labelText);
    assert Includes(h, "j") by { assert h[0] == 'j'; IncludesOneChar(h, 'j'); }
    assert !Includes(h, "al") by { NotIncludesTwoChars(h, 'a', 'l'); }
  }

  lemma JaneSmithMatches(x: MentionItem, query: string)
    requires ToLower(x.labelText) == "jane smith"
    ensures ToLower(query) == "j" ==> LabelMatches(x, query)
    ensures ToLower(query) == "al" ==> !LabelMatches(x, query)
  {
    var h := ToLower(x.labelText);
    assert Includes(h, "j") by { assert h[0] == 'j'; IncludesOneChar(h, 'j'); }
    assert !Includes(h, "al") by { NotIncludesTwoChars(h, 'a', 'l'); }
  }

  lemma AliceJohnsonMatches(x: MentionItem, query: string)
    requires ToLower(x.labelText) == "alice johnson"
    ensures ToLower(query) == "j" ==> LabelMatches(x, query)
    ensures ToLower(query) == "al" ==> LabelMatches(x, query)
  {
    var h := ToLower(x.labelText);
    assert Includes(h, "j") by { assert h[6] == 'j'; IncludesOneChar(h, 'j'); }
    assert Includes(h, "al") by { assert h[..2] == "al"; }
  }

  lemma BobWilsonMatches(x: MentionItem, query: string)
    requires ToLower(x.labelText) == "bob wilson"
    ensures ToLower(query) == "j" ==> !LabelMatches(x, query)
    ensures ToLower(query) == "al" ==> !LabelMatches(x, query)
  {
    var h := ToLower(x.labelText);
    assert !Includes(h, "j") by { IncludesOneChar(h, 'j'); }
    assert !Includes(h, "al") by { NotIncludesTwoChars(h, 'a', 'l'); }
  }

  lemma CharlieBrownMatches(x: MentionItem, query: string)
    requires ToLower(x.labelText) == "charlie brown"
    ensures ToLower(query) == "j" ==> !LabelMatches(x, query)
    ensures ToLower(query) == "al" ==> !LabelMatches(x, query)
  {
    var h := ToLower(x.labelText);
    assert !Includes(h, "j") by { IncludesOneChar(h, 'j'); }
    assert !Includes(h, "al") by { NotIncludesTwoChars(h, 'a', 'l'); }
  }

  /** The candidate list's labels, lower-cased. */
  const LOWER_LABELS: seq<string> := ["john doe", "jane smith", "alice johnson", "bob wilson", "charlie brown"]

  /** The singleton of `x` when `keep` holds, otherwise nothing. */
  function KeepIf(x: MentionItem, keep: bool): seq<MentionItem>
  {
    if keep then [x] else []
  }

  /** The filter over a five-element list, given which of its elements match. */
  lemma MatchingOfFive(m: seq<MentionItem>, query: string, b0: bool, b1: bool, b2: bool, b3: bool, b4: bool)
    requires |m| == 5
    requires LabelMatches(m[0], query) == b0 && LabelMatches(m[1], query) == b1
    requires LabelMatches(m[2], query) == b2 && LabelMatches(m[3], query) == b3
    requires LabelMatches(m[4], query) == b4
    ensures Matching(m, query) ==
              KeepIf(m[0], b0) + (KeepIf(m[1], b1) + (KeepIf(m[2], b2) + (KeepIf(m[3], b3) + KeepIf(m[4], b4))))
  {
    assert m[4..][1..] == [];
    assert m[3..][1..] == m[4..];
    assert m[2..][1..] == m[3..];
    assert m[1..][1..] == m[2..];
    assert Matching(m[4..], query) == KeepIf(m[4], b4);
    assert Matching(m[3..], query) == KeepIf(m[3], b3) + Matching(m[4..], query);
    assert Matching(m[2..], query) == KeepIf(m[2], b2) + Matching(m[3..], query);
    assert Matching(m[1..], query) == KeepIf(m[1], b1) + Matching(m[2..], query);
    assert Matching(m, query) == KeepIf(m[0], b0) + Matching(m[1..], query);
  }

  /** The lower-cased labels of the candidate list, one candidate at a time. */
  lemma LowerLabels()
    ensures ToLower(MENTION_SUGGESTIONS[0].labelText) == "john doe"
    ensures ToLower(MENTION_SUGGESTIONS[1].labelText) == "jane smith"
    ensures ToLower(MENTION_SUGGESTIONS[2].labelText) == "alice johnson"
    ensures ToLower(MENTION_SUGGESTIONS[3].labelText) == "bob wilson"
    ensures ToLower(MENTION_SUGGESTIONS[4].labelText) == "charlie brown"
  {
    LowerJohnDoe();
    LowerJaneSmith();
    LowerAliceJohnson();
    LowerBobWilson();
    LowerCharlieBrown();
  }

  lemma LowerJohnDoe() ensures ToLower(MENTION_SUGGESTIONS[0].labelText) == "john doe" {
    LowerLiteral("John Doe", "john doe");
  }
  lemma LowerJaneSmith() ensures ToLower(MENTION_SUGGESTIONS[1].labelText) == "jane smith" {
    LowerLiteral("Jane Smith", "jane smith");
  }
  lemma LowerAliceJohnson() ensures ToLower(MENTION_SUGGESTIONS[2].labelText) == "alice johnson" {
    LowerLiteral("Alice Johnson", "alice johnson");
  }
  lemma LowerBobWilson() ensures ToLower(MENTION_SUGGESTIONS[3].labelText) == "bob wilson" {
    LowerLiteral("Bob Wilson", "bob wilson");
  }
  lemma LowerCharlieBrown() ensures ToLower(MENTION_SUGGESTIONS[4].labelText) == "charlie brown" {
    LowerLiteral("Charlie Brown", "charlie brown");
  }

  /** A string lower-cases to `t` when each of its characters lower-cases to the matching one of `t`. */
  lemma LowerLiteral(s: string, t: string)
    requires |s| == |t| && forall i | 0 <= i < |s| :: LowerChar(s[i]) == t[i]
    ensures ToLower(s) == t
  {
  }
}
