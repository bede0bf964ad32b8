/**
 * `calculateWordCount` of `src/fichiers/editor_usage_example.ts`: the words of a chapter, counted
 * over the editor's JSON document.
 */
module WordCount {
  import opened Wrappers
  import opened Text

  /** A node of the editor's JSON document, reduced to the two keys the counter looks at. */
  datatype JsonNode = JsonNode(text: Option<string>, content: Children)

  /** The `content` key of a node: absent (or `null`), or a list of child nodes. */
  datatype Children = Absent | Present(nodes: seq<JsonNode>)

  /** Splitting on the regular expression `\s+`: the pieces between maximal runs of whitespace, empty pieces included. */
  function SplitOnSpaces(s: string): (parts: seq<string>)
    ensures |parts| >= 1
    decreases |s|
  {
    if s == [] then [""]
    else if IsSpace(s[0]) then [""] + SplitOnSpaces(DropRun(s, IsSpace))
    else
      var parts := SplitOnSpaces(s[1..]);
      [[s[0]] + parts[0]] + parts[1..]
  }

  /** What one text contributes: the number of pieces its trimmed text splits into on whitespace. */
  function WordsIn(text: string): nat {
    |SplitOnSpaces(Trim(text))|
  }

  /** Splitting gives one piece more than there are maximal runs of whitespace. */
  lemma {:induction false} SplitCountsSpaceRuns(s: string)
    ensures |SplitOnSpaces(s)| == RunStarts(s, IsSpace, false) + 1
    decreases |s|
  {
    if s != [] {
      if IsSpace(s[0]) {
        SplitCountsSpaceRuns(DropRun(s, IsSpace));
        RunStartsAfterRun(s[1..], IsSpace);
        assert DropRun(s, IsSpace) == DropRun(s[1..], IsSpace);
      } else {
        SplitCountsSpaceRuns(s[1..]);
      }
    }
  }

  /**
   * Runs of words and runs of whitespace alternate: in a text that ends with a word there are as
   * many runs of words as runs of whitespace, plus one when the text follows whitespace.
   */
  lemma {:induction false} WordRunsAlternate(s: string, afterSpace: bool)
    requires if s == [] then !afterSpace else !IsSpace(s[|s| - 1])
    ensures RunStarts(s, NotSpace, !afterSpace)
            == RunStarts(s, IsSpace, afterSpace) + (if afterSpace then 1 else 0)
    decreases |s|
  {
    if s != [] {
      if IsSpace(s[0]) {
        assert s[1..][|s| - 2] == s[|s| - 1];
        WordRunsAlternate(s[1..], true);
      } else {
        WordRunsAlternate(s[1..], false);
      }
    }
  }

  /**
   * The count a text contributes is 1 when the text is blank, and otherwise the number of its
   * words: the maximal runs of non-whitespace characters.
   */
  lemma WordsInCountsWords(text: string)
    ensures WordsIn(text) == if Trim(text) == [] then 1 else RunStarts(Trim(text), NotSpace, false)
  {
    var t := Trim(text);
    SplitCountsSpaceRuns(t);
    if t != [] {
      WordRunsAlternate(t, true);
      assert RunStarts(t, IsSpace, true) == RunStarts(t, IsSpace, false);
    }
  }

  /** What a node adds by itself: nothing unless its `text` is a non-empty string. */
  function OwnWords(n: JsonNode): nat {
    if n.text.Some? && n.text.value != "" then WordsIn(n.text.value) else 0
  }

  /** Words of a node and of everything below it through `content`. */
  function NodeWords(n: JsonNode): nat
    decreases n, 1
  {
    OwnWords(n) + (if n.content.Present? then ListWords(n.content.nodes) else 0)
  }

  /** Words of a list of sibling nodes. */
  function ListWords(ns: seq<JsonNode>): nat
    decreases ns, 0
  {
    if ns == [] then 0 else NodeWords(ns[0]) + ListWords(ns[1..])
  }

  /** The count `calculateWordCount` returns for `json` (`None` standing for `null`). */
  function DocumentWords(json: Option<JsonNode>): (count: nat)
    ensures json.None? || json.value.content.Absent? ==> count == 0
  {
    if json.None? || json.value.content.Absent? then 0 else ListWords(json.value.content.nodes)
  }

  // ---------------------------------------------------------------------------------------------
  // The imperative counter: a mutable `count` that the recursive `traverse` increments.

  /** `traverse(node)`: adds the node's own words to `count`, then visits each child in order. */
  method Traverse(node: JsonNode, count: nat) returns (newCount: nat)
    ensures newCount == count + NodeWords(node)
    decreases node
  {
    newCount := count;
    if node.text.Some? && node.text.value != "" {
      newCount := newCount + WordsIn(node.text.value);
    }
    if node.content.Present? {
      var children := node.content.nodes;
      for i := 0 to |children|
        invariant newCount == count + OwnWords(node) + ListWords(children[..i])
      {
        assert children[i] in node.content.nodes;
        newCount := Traverse(children[i], newCount);
        ListWordsAppend(children[..i], [children[i]]);
        assert children[..i + 1] == children[..i] + [children[i]];
      }
      assert children[..|children|] == children;
    }
  }

  /** `calculateWordCount(json)`: 0 without a document or without `content`; else every top-level node traversed. */
  method CalculateWordCount(json: Option<JsonNode>) returns (count: nat)
    ensures count == DocumentWords(json)
  {
    if json.None? || json.value.content.Absent? {
      return 0;
    }
    var nodes := json.value.content.nodes;
    count := 0;
    for i := 0 to |nodes|
      invariant count == ListWords(nodes[..i])
    {
      count := Traverse(nodes[i], count);
      ListWordsAppend(nodes[..i], [nodes[i]]);
      assert nodes[..i + 1] == nodes[..i] + [nodes[i]];
    }
    assert nodes[..|nodes|] == nodes;
  }

  // ---------------------------------------------------------------------------------------------
  // Properties

  /** The count is additive over a list of nodes. */
  lemma {:induction false} ListWordsAppend(a: seq<JsonNode>, b: seq<JsonNode>)
    ensures ListWords(a + b) == ListWords(a) + ListWords(b)
    decreases |a|
  {
    if a != [] {
      assert (a + b)[0] == a[0];
      assert (a + b)[1..] == a[1..] + b;
      ListWordsAppend(a[1..], b);
    } else {
      assert a + b == b;
    }
  }

  /** Only the top-level `content` list is counted: the root node's own `text` plays no part. */
  lemma RootTextIgnored(root: JsonNode, text: Option<string>)
    ensures DocumentWords(Some(root.(text := text))) == DocumentWords(Some(root))
  {
  }

  /** The count is additive over the top-level list of the document. */
  lemma DocumentWordsAppend(a: seq<JsonNode>, b: seq<JsonNode>, text: Option<string>)
    ensures DocumentWords(Some(JsonNode(text, Present(a + b))))
            == DocumentWords(Some(JsonNode(text, Present(a)))) + DocumentWords(Some(JsonNode(text, Present(b))))
  {
    ListWordsAppend(a, b);
  }

  /** A node with non-empty text adds at least one word; without text, or with empty text, it adds none. */
  lemma OwnWordsBounds(n: JsonNode)
    ensures n.text.Some? && n.text.value != "" ==> OwnWords(n) >= 1
    ensures n.text.None? || n.text.value == "" ==> OwnWords(n) == 0
  {
  }

  /** Whitespace-only text still counts one word: splitting the empty trimmed text yields one empty piece. */
  lemma {:induction false} BlankTextCountsOne(text: string)
    requires text != [] && forall i :: 0 <= i < |text| ==> IsSpace(text[i])
    ensures WordsIn(text) == 1
  {
    assert FirstNonSpace(text, 0) == |text|;
  }

  /** Words separated by single spaces, with no whitespace at either end nor any other whitespace. */
  predicate SingleSpaced(s: string) {
    Trimmed(s)
    && (forall i :: 0 <= i < |s| ==> IsSpace(s[i]) ==> s[i] == ' ')
    && (forall i :: 0 <= i < |s| - 1 ==> !(s[i] == ' ' && s[i + 1] == ' '))
  }

  lemma {:induction false} SplitSingleSpaces(s: string)
    requires forall i :: 0 <= i < |s| ==> IsSpace(s[i]) ==> s[i] == ' '
    requires forall i :: 0 <= i < |s| - 1 ==> !(s[i] == ' ' && s[i + 1] == ' ')
    ensures |SplitOnSpaces(s)| == Occurrences(s, ' ') + 1
    decreases |s|
  {
    if s != [] {
      SplitSingleSpaces(s[1..]);
      if IsSpace(s[0]) {
        assert DropRun(s, IsSpace) == s[1..] by {
          assert s[1..] == [] || !IsSpace(s[1..][0]);
        }
      }
    }
  }

  /** For words separated by single spaces the contribution is the number of spaces plus one. */
  lemma SingleSpacedWords(text: string)
    requires SingleSpaced(text)
    ensures WordsIn(text) == Occurrences(text, ' ') + 1
  {
    TrimOfTrimmed(text);
    SplitSingleSpaces(text);
  }

  // ---------------------------------------------------------------------------------------------
  // An independent reading of the count: the sum of own words over the nodes the traversal reaches.

  /** The nodes `traverse` visits from a list of siblings, in visiting order (pre-order). */
  function ReachedFrom(ns: seq<JsonNode>): seq<JsonNode>
    decreases ns, 0
  {
    if ns == [] then [] else ReachedBelow(ns[0]) + ReachedFrom(ns[1..])
  }

  /** A node followed by the nodes reached through its `content`. */
  function ReachedBelow(n: JsonNode): seq<JsonNode>
    decreases n, 1
  {
    [n] + (if n.content.Present? then ReachedFrom(n.content.nodes) else [])
  }

  function SumOwnWords(ns: seq<JsonNode>): nat {
    if ns == [] then 0 else OwnWords(ns[0]) + SumOwnWords(ns[1..])
  }

  lemma {:induction false} SumOwnWordsAppend(a: seq<JsonNode>, b: seq<JsonNode>)
    ensures SumOwnWords(a + b) == SumOwnWords(a) + SumOwnWords(b)
    decreases |a|
  {
    if a != [] {
      assert (a + b)[0] == a[0];
      assert (a + b)[1..] == a[1..] + b;
      SumOwnWordsAppend(a[1..], b);
    } else {
      assert a + b == b;
    }
  }

  /** The count of a list is the sum, over every node reached from it, of that node's own words. */
  lemma {:induction false} ListWordsIsSumOverReached(ns: seq<JsonNode>)
    ensures ListWords(ns) == SumOwnWords(ReachedFrom(ns))
    decreases ns, 0
  {
    if ns != [] {
      NodeWordsIsSumOverReached(ns[0]);
      ListWordsIsSumOverReached(ns[1..]);
      SumOwnWordsAppend(ReachedBelow(ns[0]), ReachedFrom(ns[1..]));
    }
  }

  lemma {:induction false} NodeWordsIsSumOverReached(n: JsonNode)
    ensures NodeWords(n) == SumOwnWords(ReachedBelow(n))
    decreases n, 1
  {
    if n.content.Present? {
      ListWordsIsSumOverReached(n.content.nodes);
      SumOwnWordsAppend([n], ReachedFrom(n.content.nodes));
    } else {
      assert ReachedBelow(n) == [n];
    }
  }
}
