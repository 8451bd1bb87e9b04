/** The survey prompt sent to the chat chain on "Submit": a fixed request followed by
    one numbered line per (question, answer) pair. */
module ChatPrompt {
  import opened Wrappers
  import opened Text

  const Header := "Based on the following responses to travel preference questions, please provide an analysis of my traveler type and recommend relevant touristic sites or activities specifically in Daejeon, South Korea:\n\n"

  /** Line `i` (counted from 0) reads `{i+1}. {question} (Response: {response})` and ends
      with a newline. */
  function Line(i: nat, question: string, response: int): string
  {
    NatToString(i + 1) + ". " + question + " (Response: " + IntToString(response) + ")\n"
  }

  /** The lines for the first `n` pairs of `zip(questions, responses)`. */
  function Body(questions: seq<string>, responses: seq<int>, n: nat): string
    requires n <= |questions| && n <= |responses|
  {
    if n == 0 then "" else Body(questions, responses, n - 1) + Line(n - 1, questions[n - 1], responses[n - 1])
  }

  /** The finished prompt; `zip` stops at the shorter list. */
  function Prompt(questions: seq<string>, responses: seq<int>): string
  {
    Header + Body(questions, responses, Min(|questions|, |responses|))
  }

  /** The Submit handler's loop: start from the header and append one line per pair. */
  method BuildPrompt(questions: seq<string>, responses: seq<int>) returns (prompt: string)
    ensures prompt == Prompt(questions, responses)
    ensures Header <= prompt
  {
    var n := Min(|questions|, |responses|);
    prompt := Header;
    var i := 0;
    while i < n
      invariant 0 <= i <= n
      invariant prompt == Header + Body(questions, responses, i)
    {
      AppendLine(Header, questions, responses, i);
      prompt := prompt + Line(i, questions[i], responses[i]);
      i := i + 1;
    }
    PrefixOfAppend(Header, Header, Body(questions, responses, n));
  }

  /** One step of the loop: appending line `i` to the text so far gives the text for
      `i + 1` pairs. */
  lemma AppendLine(header: string, questions: seq<string>, responses: seq<int>, i: nat)
    requires i < |questions| && i < |responses|
    ensures header + Body(questions, responses, i) + Line(i, questions[i], responses[i])
            == header + Body(questions, responses, i + 1)
  {
  }

  function NewlineCount(s: string): nat
  {
    if s == [] then 0 else NewlineCount(s[..|s| - 1]) + (if s[|s| - 1] == '\n' then 1 else 0)
  }

  lemma {:induction false} NewlineCountAppend(a: string, b: string)
    ensures NewlineCount(a + b) == NewlineCount(a) + NewlineCount(b)
    decreases |b|
  {
    if b == [] {
      assert a + b == a;
    } else {
      var b' := b[..|b| - 1];
      assert (a + b)[..|a + b| - 1] == a + b';
      NewlineCountAppend(a, b');
    }
  }

  lemma {:induction false} NoNewlineCount(s: string)
    requires '\n' !in s
    ensures NewlineCount(s) == 0
    decreases |s|
  {
    if s != [] {
      assert s[..|s| - 1] + [s[|s| - 1]] == s;
      NoNewlineCount(s[..|s| - 1]);
    }
  }

  /** A line built from a question without a newline holds exactly one newline, its
      last character. */
  lemma LineNewlines(i: nat, question: string, response: int)
    requires '\n' !in question
    ensures NewlineCount(Line(i, question, response)) == 1
  {
    var front := NatToString(i + 1) + ". " + question + " (Response: " + IntToString(response) + ")";
    assert Line(i, question, response) == front + "\n";
    assert '\n' !in NatToString(i + 1);
    assert '\n' !in IntToString(response);
    assert '\n' !in front;
    NoNewlineCount(front);
    NewlineCountAppend(front, "\n");
    assert NewlineCount("\n") == NewlineCount([]) + 1;
  }

  /** Every line ends with its newline and starts with its 1-based number and ". ". */
  lemma LineShape(i: nat, question: string, response: int)
    ensures var l := Line(i, question, response);
            l[|l| - 1] == '\n' && l[..|NatToString(i + 1)| + 2] == NatToString(i + 1) + ". "
  {
    var num := NatToString(i + 1);
    var rest := question + " (Response: " + IntToString(response) + ")\n";
    assert Line(i, question, response) == (num + ". ") + rest;
  }

  /** The body has exactly one line per pair when no question holds a newline. */
  lemma {:induction false} BodyLineCount(questions: seq<string>, responses: seq<int>, n: nat)
    requires n <= |questions| && n <= |responses|
    requires forall j :: 0 <= j < n ==> '\n' !in questions[j]
    ensures NewlineCount(Body(questions, responses, n)) == n
  {
    if n > 0 {
      var prev := Body(questions, responses, n - 1);
      var line := Line(n - 1, questions[n - 1], responses[n - 1]);
      assert Body(questions, responses, n) == prev + line;
      BodyLineCount(questions, responses, n - 1);
      LineNewlines(n - 1, questions[n - 1], responses[n - 1]);
      NewlineCountAppend(prev, line);
    }
  }

  /** Lines come in question order: the text for the first `k` pairs is a prefix of
      the text for any longer run. */
  lemma {:induction false} BodyPrefix(questions: seq<string>, responses: seq<int>, k: nat, n: nat)
    requires k <= n <= |questions| && n <= |responses|
    ensures Body(questions, responses, k) <= Body(questions, responses, n)
    decreases n
  {
    if k < n {
      var prev := Body(questions, responses, n - 1);
      var line := Line(n - 1, questions[n - 1], responses[n - 1]);
      assert Body(questions, responses, n) == prev + line;
      BodyPrefix(questions, responses, k, n - 1);
      PrefixOfAppend(Body(questions, responses, k), prev, line);
    }
  }

  lemma PrefixOfAppend(p: string, a: string, t: string)
    requires p <= a
    ensures p <= a + t
  {
    assert (a + t)[..|a|] == a;
  }
}
