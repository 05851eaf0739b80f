/** The one text transformation applied to the model's reply before it is parsed:
    every match of the regular expression /```json\n?|\n?```/g is replaced by the
    empty string, then the result is trimmed. */
module TextCleaning {
  import opened JsValues

  /** Three backticks in a row start at position `i` of `s`. */
  predicate BackticksAt(s: string, i: nat) {
    i + 3 <= |s| && s[i] == '`' && s[i + 1] == '`' && s[i + 2] == '`'
  }

  /** The length of the match of /```json\n?|\n?```/ that starts at the front of `s`,
      or 0 when none starts there. The alternatives are tried in order, and each
      optional newline is taken whenever it is there. */
  function FenceAt(s: string): (n: nat)
    ensures n == 0 || n == 3 || n == 4 || n == 7 || n == 8
    ensures n <= |s|
    ensures n > 0 ==> BackticksAt(s, 0) || (s[0] == '\n' && BackticksAt(s, 1))
  {
    if BackticksAt(s, 0) && |s| >= 7 && s[3] == 'j' && s[4] == 's' && s[5] == 'o' && s[6] == 'n' then
      (if |s| > 7 && s[7] == '\n' then 8 else 7)
    else if |s| >= 4 && s[0] == '\n' && BackticksAt(s, 1) then 4
    else if BackticksAt(s, 0) then 3
    else 0
  }

  /** A global replace of the fence pattern: scanning left to right, each leftmost
      match is dropped and the search resumes right after it. */
  function StripFences(s: string): (r: string)
    ensures |r| <= |s|
    decreases |s|
  {
    if s == [] then []
    else
      var n := FenceAt(s);
      if n > 0 then StripFences(s[n..]) else [s[0]] + StripFences(s[1..])
  }

  /** `aiResponse.replace(/```json\n?|\n?```/g, '').trim()` */
  function CleanResponse(raw: string): string {
    Trim(StripFences(raw))
  }

  lemma BackticksOccur(s: string, i: nat)
    requires BackticksAt(s, i)
    ensures OccursAt(s, "```", i)
  {
    assert s[i..i + 3] == "```";
  }

  /** Text without three backticks in a row passes through the replacement unchanged. */
  lemma {:induction false} StripFencesKeepsPlainText(s: string)
    requires !Includes(s, "```")
    ensures StripFences(s) == s
    decreases |s|
  {
    if s != [] {
      if FenceAt(s) > 0 {
        var i := if BackticksAt(s, 0) then 0 else 1;
        BackticksOccur(s, i);
        FoundAt(s, "```", i);
      }
      assert !Includes(s[1..], "```");
      StripFencesKeepsPlainText(s[1..]);
    }
  }

  /** Removing matches can bring backticks together into a new fence: the replacement
      does not guarantee that the cleaned text is free of fences. */
  lemma StripFencesCanLeaveAFence()
    ensures StripFences("`\n`````") == "```"
  {
    var s := "`\n`````";
    assert FenceAt(s) == 0;
    assert s[1..] == "\n`````";
    assert FenceAt(s[1..]) == 4;
    assert s[1..][4..] == "``";
    assert FenceAt("``") == 0 && FenceAt("`") == 0;
    assert "``"[1..] == "`" && "`"[1..] == "";
  }

  /** A reply fenced as a json code block is cleaned down to what is inside the fence,
      for any inside without backticks that has no surrounding white space; newlines
      inside are kept. */
  lemma CleanResponseUnwrapsCodeBlock(body: string)
    requires '`' !in body && body == Trim(body)
    ensures CleanResponse("```json\n" + body + "\n```") == body
  {
    StripCodeBlock(body);
  }

  /** The replacement alone leaves exactly the inside of a json code block. */
  lemma StripCodeBlock(body: string)
    requires '`' !in body
    ensures StripFences("```json\n" + body + "\n```") == body
  {
    var t := body + "\n```";
    assert "```json\n" + body + "\n```" == "```json\n" + t;
    OpeningFenceDropped(t);
    ClosingFenceDropped(body);
  }

  /** The opening "```json" and its newline make one match, dropped as a whole. */
  lemma OpeningFenceDropped(t: string)
    ensures StripFences("```json\n" + t) == StripFences(t)
  {
    var s := "```json\n" + t;
    assert s[..8] == "```json\n";
    assert FenceAt(s) == 8;
    assert s[8..] == t;
  }

  /** A newline and three backticks at the end of backtick-free text are dropped. */
  lemma ClosingFenceDropped(body: string)
    requires '`' !in body
    ensures StripFences(body + "\n```") == body
  {
    StripAfterPlainText(body, "\n```");
    ClosingFenceAlone();
    assert body + [] == body;
  }

  /** The closing fence on its own is one match and strips to nothing. */
  lemma ClosingFenceAlone()
    ensures StripFences("\n```") == []
  {
    var closing := "\n```";
    assert FenceAt(closing) == 4;
    assert closing[4..] == [];
  }

  /** A first character that is not a backtick, and is not a newline right before
      one, starts no match and is kept. */
  lemma PlainHead(s: string)
    requires |s| > 0 && s[0] != '`' && (|s| < 2 || s[1] != '`')
    ensures StripFences(s) == [s[0]] + StripFences(s[1..])
  {
    assert FenceAt(s) == 0;
  }

  /** Text with no backtick is kept as it is in front of whatever the rest of the
      reply is stripped to, when that rest does not start with a backtick. */
  lemma {:induction false} StripAfterPlainText(p: string, q: string)
    requires '`' !in p && (q == [] || q[0] != '`')
    ensures StripFences(p + q) == p + StripFences(q)
    decreases |p|
  {
    if p == [] {
      assert p + q == q;
    } else {
      HeadOfConcat(p, q);
      assert '`' !in p[1..] by { assert forall c :: c in p[1..] ==> c in p; }
      StripAfterPlainText(p[1..], q);
      ConsAssoc(p, StripFences(q));
    }
  }

  /** The first character of backtick-free `p` is kept in front of the rest of `p + q`. */
  lemma HeadOfConcat(p: string, q: string)
    requires p != [] && '`' !in p && (q == [] || q[0] != '`')
    ensures StripFences(p + q) == [p[0]] + StripFences(p[1..] + q)
  {
    PlainStart(p, q);
    TailOfConcat(p, q);
    PlainHead(p + q);
  }

  /** The head and the tail of a concatenation with a non-empty front. */
  lemma TailOfConcat(p: string, q: string)
    requires p != []
    ensures (p + q)[0] == p[0] && (p + q)[1..] == p[1..] + q
  {
  }

  /** Neither of the first two characters of `p + q` is a backtick. */
  lemma PlainStart(p: string, q: string)
    requires p != [] && '`' !in p && (q == [] || q[0] != '`')
    ensures var s := p + q; s[0] != '`' && (|s| < 2 || s[1] != '`')
  {
    assert p[0] in p;
    if |p| >= 2 {
      assert p[1] in p;
    }
  }

  /** Putting the first character back in front of the rest gives `p` again. */
  lemma ConsAssoc(p: string, t: string)
    requires p != []
    ensures [p[0]] + (p[1..] + t) == p + t
  {
    assert [p[0]] + p[1..] == p;
  }
}
