/** The keyword-priority rule both chat responders apply to the lowercased
    message: "revenue" or "financial" first, then "project" or "timeline",
    then nothing (src/utils/api.ts:123-133, backend/main.py:173-199). */
module Keywords {
  import opened Strings

  datatype Topic = Financial | Project | General

  predicate MentionsFinancial(message: string)
  {
    var lower := ToLower(message);
    Contains(lower, "revenue") || Contains(lower, "financial")
  }

  predicate MentionsProject(message: string)
  {
    var lower := ToLower(message);
    Contains(lower, "project") || Contains(lower, "timeline")
  }

  /** The branch a message falls into; the financial test is made first. */
  function Classify(message: string): Topic
  {
    if MentionsFinancial(message) then Financial
    else if MentionsProject(message) then Project
    else General
  }

  /** Lower-casing a message first never changes its topic: the rule is
      case-insensitive. */
  lemma ClassifyIgnoresCase(message: string)
    ensures Classify(ToLower(message)) == Classify(message)
  {
    ToLowerIdempotent(message);
  }

  /** A message without upper-case ASCII letters is its own lower-case form. */
  lemma {:induction false} ToLowerFixed(s: string)
    requires forall i :: 0 <= i < |s| ==> !('A' <= s[i] <= 'Z')
    ensures ToLower(s) == s
  {
    var r := ToLower(s);
    assert forall i :: 0 <= i < |s| ==> r[i] == s[i];
  }

  /** A lower-case keyword occurring anywhere in a message is found in its
      lower-case form, whatever the case of the characters around it. */
  lemma {:induction false} KeywordFound(message: string, word: string, i: int)
    requires OccursAt(message, word, i)
    requires forall k :: 0 <= k < |word| ==> !('A' <= word[k] <= 'Z')
    ensures Contains(ToLower(message), word)
  {
    var lower := ToLower(message);
    forall k | 0 <= k < |word|
      ensures lower[i..i + |word|][k] == word[k]
    {
      assert message[i..i + |word|][k] == word[k];
    }
    ContainsAt(lower, word, i);
  }

  /** "What was our revenue?" is a financial question. */
  lemma RevenueQuestionIsFinancial()
    ensures Classify("What was our revenue?") == Financial
  {
    var m := "What was our revenue?";
    assert m[13..20] == "revenue";
    KeywordFound(m, "revenue", 13);
  }

  /** A message naming a project keyword and a financial one is financial:
      the first rule wins. */
  lemma FinancialWinsOverProject()
    ensures Classify("What is the project timeline for revenue growth?") == Financial
  {
    var m := "What is the project timeline for revenue growth?";
    assert m[33..40] == "revenue";
    KeywordFound(m, "revenue", 33);
  }

  /** A message that, lower-cased, lacks a 'v', an 'f', a 'p' and an 'm'
      can name none of the four keywords, so it gets the fallback branch. */
  lemma MissingLettersIsGeneral(m: string)
    requires forall c :: c in ToLower(m) ==> c != 'v' && c != 'f' && c != 'p' && c != 'm'
    ensures Classify(m) == General
  {
    var lower := ToLower(m);
    MissingCharNotContained(lower, "revenue", 2);
    MissingCharNotContained(lower, "financial", 0);
    MissingCharNotContained(lower, "project", 0);
    MissingCharNotContained(lower, "timeline", 2);
  }
}
