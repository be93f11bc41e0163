/** The post-processing of `LocalLLM.generate`: drop one leading copy of the
    prompt from the generated text, then strip surrounding whitespace the way
    Python's `str.strip()` does. The text generator itself is foreign. */
module Llm {
  import opened Text

  /** Python's `str.isspace()` for one character. */
  predicate IsSpace(c: char) {
    || '\t' <= c <= '\r'
    || '\U{1C}' <= c <= ' '
    || c == '\U{85}' || c == '\U{A0}' || c == '\U{1680}'
    || '\U{2000}' <= c <= '\U{200A}'
    || c == '\U{2028}' || c == '\U{2029}' || c == '\U{202F}' || c == '\U{205F}' || c == '\U{3000}'
  }

  predicate AllSpace(s: string) {
    forall i :: 0 <= i < |s| ==> IsSpace(s[i])
  }

  /** Neither end of `s` is whitespace. */
  predicate Trimmed(s: string) {
    |s| == 0 || (!IsSpace(s[0]) && !IsSpace(s[|s| - 1]))
  }

  /** Length of the leading whitespace run. */
  function LeadingSpace(s: string): (n: nat)
    ensures n <= |s| && forall k :: 0 <= k < n ==> IsSpace(s[k])
    ensures n < |s| ==> !IsSpace(s[n])
  {
    if |s| == 0 || !IsSpace(s[0]) then 0 else 1 + LeadingSpace(s[1..])
  }

  /** Length of the trailing whitespace run. */
  function TrailingSpace(s: string): (n: nat)
    ensures n <= |s| && forall k :: |s| - n <= k < |s| ==> IsSpace(s[k])
    ensures n < |s| ==> !IsSpace(s[|s| - n - 1])
  {
    if |s| == 0 || !IsSpace(s[|s| - 1]) then 0 else 1 + TrailingSpace(s[..|s| - 1])
  }

  /** Python's `s.strip()`: the text between the leading and the trailing
      whitespace runs, or nothing when the text is all whitespace. */
  function Strip(s: string): (r: string)
    ensures Trimmed(r) && IsInfix(r, s)
    ensures var i := LeadingSpace(s);
            && i + |r| <= |s| && s[i..i + |r|] == r
            && (forall k :: 0 <= k < i ==> IsSpace(s[k]))
            && (forall k :: i + |r| <= k < |s| ==> IsSpace(s[k]))
  {
    var lead := LeadingSpace(s);
    if lead == |s| then
      assert StartsWith(s[0..], "");
      ""
    else
      var end := |s| - TrailingSpace(s);
      assert lead < end;
      SliceIsInfix(s, lead, end);
      s[lead..end]
  }

  /** The leading whitespace run of `before + rest` is `before` when `rest`
      does not begin with whitespace. */
  lemma {:induction false} LeadingSpaceOf(before: string, rest: string)
    requires AllSpace(before)
    requires |rest| == 0 || !IsSpace(rest[0])
    ensures LeadingSpace(before + rest) == |before|
  {
    if |before| == 0 {
      assert before + rest == rest;
    } else {
      assert (before + rest)[0] == before[0];
      assert (before + rest)[1..] == before[1..] + rest;
      LeadingSpaceOf(before[1..], rest);
    }
  }

  /** The trailing whitespace run of `front + after` is `after` when `front`
      does not end with whitespace. */
  lemma {:induction false} TrailingSpaceOf(front: string, after: string)
    requires AllSpace(after)
    requires |front| == 0 || !IsSpace(front[|front| - 1])
    ensures TrailingSpace(front + after) == |after|
  {
    var s := front + after;
    if |after| == 0 {
      assert s == front;
    } else {
      var shorter := after[..|after| - 1];
      assert s[|s| - 1] == after[|after| - 1];
      assert s[..|s| - 1] == front + shorter;
      TrailingSpaceOf(front, shorter);
    }
  }

  /** Whitespace around a trimmed core is exactly what `Strip` removes. */
  lemma StripUnique(before: string, core: string, after: string)
    requires AllSpace(before) && AllSpace(after) && Trimmed(core)
    ensures Strip(before + core + after) == core
  {
    var s := before + core + after;
    if |core| == 0 {
      assert s == (before + after) + "";
      LeadingSpaceOf(before + after, "");
    } else {
      assert s == before + (core + after);
      assert (core + after)[0] == core[0];
      LeadingSpaceOf(before, core + after);
      assert (before + core)[|before + core| - 1] == core[|core| - 1];
      TrailingSpaceOf(before + core, after);
      assert s[|before|..|before| + |core|] == core;
    }
  }

  /** Stripping twice is stripping once. */
  lemma StripIdempotent(s: string)
    ensures Strip(Strip(s)) == Strip(s)
  {
    StripUnique("", Strip(s), "");
    assert "" + Strip(s) + "" == Strip(s);
  }

  /** The text returned for a prompt, given what the generator produced. */
  function StripEcho(prompt: string, generated: string): (r: string)
    ensures Trimmed(r)
    ensures IsInfix(r, generated)
  {
    var k := if StartsWith(generated, prompt) then |prompt| else 0;
    InfixOfSuffix(Strip(generated[k..]), generated, k);
    Strip(generated[k..])
  }

  /** A leading echo is removed exactly once: anything after it, including a
      second copy of the prompt, is kept. */
  lemma EchoRemovedOnce(prompt: string, rest: string)
    ensures StripEcho(prompt, prompt + rest) == Strip(rest)
  {
    assert (prompt + rest)[..|prompt|] == prompt;
    assert (prompt + rest)[|prompt|..] == rest;
  }

  /** Output that does not begin with the prompt is only stripped, so a copy of
      the prompt anywhere else survives. */
  lemma NoEchoKept(prompt: string, generated: string)
    requires !StartsWith(generated, prompt)
    ensures StripEcho(prompt, generated) == Strip(generated)
  {
  }
}
