/** An agent file is YAML frontmatter and a system prompt (internal/files/agents.go). The YAML is text here. */
module AgentFiles {
  import opened Basics

  datatype AgentText = AgentText(frontmatter: string, prompt: string)

  datatype ParseError = NoOpening | Unclosed

  // ----- the strings package --------------------------------------------------------------------

  predicate At(s: string, i: nat, sep: string)
  {
    i + |sep| <= |s| && s[i..i + |sep|] == sep
  }

  /** The first place of a substring. */
  function Find(s: string, sep: string): (i: Option<nat>)
    ensures i.Some? ==> At(s, i.value, sep) && forall j: nat :: j < i.value ==> !At(s, j, sep)
    ensures i.None? ==> forall j: nat :: !At(s, j, sep)
  {
    FindFrom(s, sep, 0)
  }

  function FindFrom(s: string, sep: string, from: nat): (i: Option<nat>)
    requires from <= |s| && forall j: nat :: j < from ==> !At(s, j, sep)
    ensures i.Some? ==> At(s, i.value, sep) && forall j: nat :: j < i.value ==> !At(s, j, sep)
    ensures i.None? ==> forall j: nat :: !At(s, j, sep)
    decreases |s| - from
  {
    if At(s, from, sep) then Some(from)
    else if from == |s| then None
    else FindFrom(s, sep, from + 1)
  }

  /** ReplaceAll of carriage return and newline by newline: one pass, what it leaves is not read again. */
  function Normalise(s: string): string
  {
    if s == "" then ""
    else if "\r\n" <= s then "\n" + Normalise(s[2..])
    else s[..1] + Normalise(s[1..])
  }

  function TrimNewline(s: string): string
  {
    if s != "" && s[0] == '\n' then s[1..] else s
  }

  // ----- the two functions ------------------------------------------------------------------------

  function ParseAgentFile(data: string): Result<AgentText, ParseError>
  {
    var s := Normalise(data);
    if !("---\n" <= s) then Err(NoOpening) else
    var after := s[4..];
    match Find(after, "\n---")
    case None => Err(Unclosed)
    case Some(end) => Ok(AgentText(after[..end], TrimNewline(after[end + 4..])))
  }

  function MarshalAgentFile(frontmatter: string, prompt: string): string
  {
    "---\n" + frontmatter + "---\n" + prompt
  }

  // ----- reading any text ---------------------------------------------------------------------------

  predicate Has(s: string, sep: string)
  {
    Find(s, sep).Some?
  }

  /** A text with normal line ends is the opening line, the frontmatter, the first delimiter behind it, and the
      rest. */
  predicate IsAgentFile(s: string, frontmatter: string, rest: string)
  {
    && s == "---\n" + (frontmatter + "\n---" + rest)
    && forall j: nat :: j < |frontmatter| ==> !At(frontmatter + "\n---" + rest, j, "\n---")
  }

  /** A text of that form is read as its frontmatter and, without one newline at its start, its rest. */
  lemma ReadsAgentFile(data: string, frontmatter: string, rest: string)
    requires IsAgentFile(Normalise(data), frontmatter, rest)
    ensures ParseAgentFile(data) ==
            Ok(AgentText(frontmatter, if rest != "" && rest[0] == '\n' then rest[1..] else rest))
  {
    var after := frontmatter + "\n---" + rest;
    assert ("---\n" + after)[4..] == after;
    assert At(after, |frontmatter|, "\n---");
    assert after[..|frontmatter|] == frontmatter && after[|frontmatter| + 4..] == rest;
  }

  /** Every other text is refused: it does not start with the opening line, or no delimiter is behind it. */
  lemma ReadsNothingElse(data: string) returns (frontmatter: string, rest: string)
    ensures ParseAgentFile(data).Ok? ==> IsAgentFile(Normalise(data), frontmatter, rest)
    ensures ParseAgentFile(data) == Err(NoOpening) <==> !("---\n" <= Normalise(data))
    ensures ParseAgentFile(data) == Err(Unclosed) <==> "---\n" <= Normalise(data) && !Has(Normalise(data)[4..], "\n---")
  {
    frontmatter, rest := "", "";
    var s := Normalise(data);
    if "---\n" <= s && Has(s[4..], "\n---") {
      var after, end := s[4..], Find(s[4..], "\n---").value;
      frontmatter, rest := after[..end], after[end + 4..];
      Opened(s);
      Delimited(after, end);
    }
  }

  lemma Opened(s: string)
    requires "---\n" <= s
    ensures s == "---\n" + s[4..]
  {
  }

  lemma Delimited(after: string, end: nat)
    requires At(after, end, "\n---")
    ensures after == after[..end] + "\n---" + after[end + 4..]
  {
  }

  /** Every carriage return before a newline goes, wherever it stands. */
  lemma {:induction false} NormaliseLine(a: string, b: string)
    ensures Normalise(a + "\r\n" + b) == Normalise(a) + "\n" + Normalise(b)
    decreases |a|
  {
    var s := a + "\r\n" + b;
    if a == "" {
      assert s[2..] == b;
    } else {
      var n := if "\r\n" <= a then 2 else 1;
      assert s[n..] == a[n..] + "\r\n" + b;
      assert "\r\n" <= s <==> "\r\n" <= a by {
        assert s[1] == if |a| > 1 then a[1] else '\r';
      }
      NormaliseLine(a[n..], b);
    }
  }

  // ----- reading back what was written -----------------------------------------------------------

  lemma {:induction false} NormaliseConcat(a: string, b: string)
    requires a == "" || Last(a) != '\r'
    ensures Normalise(a + b) == Normalise(a) + Normalise(b)
    decreases |a|
  {
    if a == "" {
      assert a + b == b;
    } else {
      var n := if "\r\n" <= a then 2 else 1;
      assert (a + b)[n..] == a[n..] + b;
      assert "\r\n" <= a + b ==> (a + b)[1] == a[1];
      NormaliseConcat(a[n..], b);
    }
  }

  /** What is normal already, and only that, is left alone. */
  lemma {:induction false} NormaliseFixedPoints(s: string)
    ensures Normalise(s) == s <==> !Has(s, "\r\n")
    ensures |Normalise(s)| <= |s|
    decreases |s|
  {
    if "\r\n" <= s {
      NormaliseFixedPoints(s[2..]);
      assert At(s, 0, "\r\n");
    } else if s != "" {
      var rest := s[1..];
      NormaliseFixedPoints(rest);
      assert s == s[..1] + rest;
      assert Normalise(s)[1..] == Normalise(rest);
      HasInRest(s);
    }
  }

  lemma HasInRest(s: string)
    requires s != "" && !("\r\n" <= s)
    ensures Has(s, "\r\n") <==> Has(s[1..], "\r\n")
  {
    assert forall j: nat :: At(s, j + 1, "\r\n") == At(s[1..], j, "\r\n");
    assert !At(s, 0, "\r\n");
    if Has(s, "\r\n") {
      assert At(s[1..], Find(s, "\r\n").value - 1, "\r\n");
    }
    if Has(s[1..], "\r\n") {
      assert At(s, Find(s[1..], "\r\n").value + 1, "\r\n");
    }
  }

  /** A text that ends its last line still does so. */
  lemma {:induction false} NormaliseEnds(s: string)
    ensures Normalise(s + "\n") != "" && Last(Normalise(s + "\n")) == '\n'
    decreases |s|
  {
    var t := s + "\n";
    if s != "" {
      if "\r\n" <= t {
        if |s| > 1 {
          assert t[2..] == s[2..] + "\n";
          NormaliseEnds(s[2..]);
        } else {
          assert t[2..] == "";
        }
      } else {
        assert t[1..] == s[1..] + "\n";
        NormaliseEnds(s[1..]);
      }
    } else {
      assert t[1..] == "";
    }
  }

  /** The frontmatter as it is read back. */
  function ReadBack(frontmatter: string): string
  {
    NormaliseEnds(frontmatter);
    Front(Normalise(frontmatter + "\n"))
  }

  lemma FindDelimiter(text: string, prompt: string)
    ensures var end := Find(text + "\n---" + prompt, "\n---");
            if Has(text, "\n---") then end.Some? && end.value < |text| else end == Some(|text|)
  {
    var s := text + "\n---" + prompt;
    assert At(s, |text|, "\n---");
    if Has(text, "\n---") {
      var i := Find(text, "\n---").value;
      assert s[i..i + 4] == text[i..i + 4];
      assert At(s, i, "\n---");
    } else {
      forall j: nat | j < |text| && At(s, j, "\n---") ensures At(text, j, "\n---") {
        OnlyInText(text, prompt, j);
      }
    }
  }

  lemma OnlyInText(text: string, prompt: string, j: nat)
    requires j < |text| && At(text + "\n---" + prompt, j, "\n---")
    ensures At(text, j, "\n---")
  {
    var s := text + "\n---" + prompt;
    assert s[|text|] == '\n';
    var found := s[j..j + 4];
    assert s[j + 1] == found[1] == '-' && s[j + 2] == found[2] == '-' && s[j + 3] == found[3] == '-';
    assert |text| != j + 1 && |text| != j + 2 && |text| != j + 3;
    assert s[j..j + 4] == text[j..j + 4];
  }

  /** Frontmatter that ends its last line is recovered with the prompt, both with normal line ends, if
      it does not hold the delimiter; otherwise it is cut short there. */
  lemma ParseOfMarshal(frontmatter: string, prompt: string)
    ensures var read := ParseAgentFile(MarshalAgentFile(frontmatter + "\n", prompt));
            && read.Ok?
            && if Has(ReadBack(frontmatter), "\n---") then |read.value.frontmatter| < |ReadBack(frontmatter)|
               else read.value == AgentText(ReadBack(frontmatter), Normalise(prompt))
  {
    var text := ReadBack(frontmatter);
    NormaliseMarshalled(frontmatter, prompt);
    var tail := "\n" + Normalise(prompt);
    var after := text + "\n---" + tail;
    FindDelimiter(text, tail);
    assert ("---\n" + after)[4..] == after;
    assert after[..|text|] == text && after[|text| + 4..] == tail;
    assert tail[1..] == Normalise(prompt);
  }

  lemma NormaliseMarshalled(frontmatter: string, prompt: string)
    ensures Normalise(MarshalAgentFile(frontmatter + "\n", prompt))
            == "---\n" + (ReadBack(frontmatter) + "\n---" + ("\n" + Normalise(prompt)))
  {
    var lines := frontmatter + "\n";
    NormaliseEnds(frontmatter);
    NormaliseHead();
    NormaliseParts("---\n", lines, prompt);
    assert Normalise(lines) == ReadBack(frontmatter) + "\n";
    Reassociate(ReadBack(frontmatter), Normalise(prompt));
  }

  lemma NormaliseParts(head: string, lines: string, prompt: string)
    requires head != "" && Last(head) != '\r' && Normalise(head) == head
    requires lines != "" && Last(lines) != '\r'
    ensures Normalise(head + lines + head + prompt) == head + (Normalise(lines) + (head + Normalise(prompt)))
  {
    assert head + lines + head + prompt == head + (lines + (head + prompt));
    NormaliseConcat(head, lines + (head + prompt));
    NormaliseConcat(lines, head + prompt);
    NormaliseConcat(head, prompt);
  }

  lemma NormaliseHead()
    ensures Normalise("---\n") == "---\n"
  {
    assert forall i: nat :: At("---\n", i, "\r\n") ==> "---\n"[i] == '\r';
    NormaliseFixedPoints("---\n");
  }

  lemma Reassociate(text: string, prompt: string)
    ensures (text + "\n") + ("---\n" + prompt) == text + "\n---" + ("\n" + prompt)
  {
  }

  /** A written file reads back as it was exactly if the frontmatter does not hold the delimiter and
      neither text holds a carriage return before a newline. */
  lemma RoundTrip(frontmatter: string, prompt: string)
    ensures ParseAgentFile(MarshalAgentFile(frontmatter + "\n", prompt)) == Ok(AgentText(frontmatter, prompt))
            <==> !Has(frontmatter, "\n---") && !Has(frontmatter + "\n", "\r\n") && !Has(prompt, "\r\n")
  {
    ParseOfMarshal(frontmatter, prompt);
    NormaliseFixedPoints(prompt);
    NormaliseFixedPoints(frontmatter + "\n");
    NormaliseEnds(frontmatter);
    assert ReadBack(frontmatter) == frontmatter <==> Normalise(frontmatter + "\n") == frontmatter + "\n";
  }

  /** Reading once does not make a text normal: a prompt with two carriage returns before a newline still
      has one of them when it is read, and loses it when that is written and read again. */
  lemma SecondReadDiffers(frontmatter: string)
    returns (prompt: string)
    requires !Has(frontmatter, "\n---") && !Has(frontmatter + "\n", "\r\n")
    ensures var once := ParseAgentFile(MarshalAgentFile(frontmatter + "\n", prompt));
            && once.Ok? && once.value.frontmatter == frontmatter
            && ParseAgentFile(MarshalAgentFile(frontmatter + "\n", once.value.prompt)) != once
  {
    prompt := "\r\r\n";
    NormaliseFixedPoints(frontmatter + "\n");
    ParseOfMarshal(frontmatter, prompt);
    TwoReturns();
    RoundTrip(frontmatter, "\r\n");
  }

  lemma TwoReturns()
    ensures Normalise("\r\r\n") == "\r\n" && Has("\r\n", "\r\n")
  {
    assert "\r\r\n"[1..] == "\r\n" && "\r\n"[2..] == "";
    assert At("\r\n", 0, "\r\n");
  }
}
