/**
Passing code to `sh -c` inside single quotes. Each single quote in the code is replaced by `'\''`; the shell then
reads the quoted text back as the original string (sections 2.2.1 and 2.2.2 of the POSIX.1-2017 Shell Command
Language).
*/
module ShellQuoting {
  import opened Options
  import opened Text

  const QUOTE := "'"
  const ESCAPED := "'\\''"

  function Escape(code: string): string {
    ReplaceAll(code, QUOTE, ESCAPED)
  }

  // The run command with the escaped code in place of its only verb.
  function RunCommand(head: string, tail: string, code: string): string {
    head + Escape(code) + tail
  }

  // ---------------------------------------------------------------- how the shell reads quotes

  datatype Mode = Plain | Quoted

  // The characters read so far into the current word, or Broken when a construct outside this reader occurs.
  datatype Reading = Reading(mode: Mode, word: string) | Broken

  // Characters that outside single quotes mean more than themselves.
  predicate Special(c: char) {
    c in " \t\n|&;<>()$`\"*?[]#~=%!{}"
  }

  // Reads on from `r`. Inside single quotes every character but the quote stands for itself; outside, a backslash
  // makes the next character stand for itself, except that backslash-newline vanishes.
  function Read(r: Reading, input: string): Reading
    decreases |input|
  {
    if r.Broken? || input == "" then r
    else if r.mode.Quoted? then
      if input[0] == '\'' then Read(Reading(Plain, r.word), input[1..])
      else Read(Reading(Quoted, r.word + [input[0]]), input[1..])
    else if input[0] == '\'' then Read(Reading(Quoted, r.word), input[1..])
    else if input[0] == '\\' then
      if |input| == 1 then Broken
      else if input[1] == '\n' then Read(r, input[2..])
      else Read(Reading(Plain, r.word + [input[1]]), input[2..])
    else if Special(input[0]) then Broken
    else Read(Reading(Plain, r.word + [input[0]]), input[1..])
  }

  // The input as one whole word.
  function ReadWord(input: string): Option<string> {
    match Read(Reading(Plain, ""), input)
    case Reading(Plain, word) => Some(word)
    case _ => None
  }

  lemma ReadEscapedQuote(word: string, rest: string)
    ensures Read(Reading(Quoted, word), ESCAPED + rest) == Read(Reading(Quoted, word + QUOTE), rest)
  {
    var input := ESCAPED + rest;
    var afterQuote, afterPair := input[1..], input[3..];
    assert Read(Reading(Quoted, word), input) == Read(Reading(Plain, word), afterQuote);
    assert afterQuote[0] == '\\' && afterQuote[1] == '\'' && afterQuote[2..] == afterPair;
    assert Read(Reading(Plain, word), afterQuote) == Read(Reading(Plain, word + QUOTE), afterPair);
    assert afterPair[0] == '\'' && afterPair[1..] == rest;
  }

  // Inside quotes, the escaped code is read back as the code, and reading goes on after it.
  lemma {:induction false} EscapedReadsBack(word: string, code: string, rest: string)
    ensures Read(Reading(Quoted, word), Escape(code) + rest) == Read(Reading(Quoted, word + code), rest)
    decreases |code|
  {
    if code == "" {
      assert Escape(code) + rest == rest && word + code == word;
    } else if IsAt(code, 0, QUOTE) {
      var more := code[1..];
      assert code[0] == '\'';
      assert Escape(code) + rest == ESCAPED + (Escape(more) + rest);
      ReadEscapedQuote(word, Escape(more) + rest);
      EscapedReadsBack(word + QUOTE, more, rest);
      assert word + QUOTE + more == word + code;
    } else {
      var more := code[1..];
      assert code[0] != '\'' by { assert code[0..1] == [code[0]]; }
      var input := Escape(code) + rest;
      assert input[0] == code[0] && input[1..] == Escape(more) + rest;
      EscapedReadsBack(word + [code[0]], more, rest);
      assert word + [code[0]] + more == word + code;
    }
  }

  // For every string: escaped and put between single quotes, it is one word, namely itself.
  lemma QuotingRoundTrip(code: string)
    ensures ReadWord(QUOTE + Escape(code) + QUOTE) == Some(code)
  {
    var input := QUOTE + Escape(code) + QUOTE;
    assert input[1..] == Escape(code) + QUOTE;
    EscapedReadsBack("", code, QUOTE);
    assert "" + code == code;
  }

  // In any command whose text before the code ends inside single quotes, the code contributes exactly itself
  // and the rest of the command is read as written.
  lemma CodeCannotEscape(head: string, tail: string, code: string, before: string)
    requires Read(Reading(Plain, ""), head) == Reading(Quoted, before)
    ensures Read(Reading(Plain, ""), RunCommand(head, tail, code)) == Read(Reading(Quoted, before + code), tail)
  {
    ReadOn(Reading(Plain, ""), head, Escape(code) + tail);
    assert RunCommand(head, tail, code) == head + (Escape(code) + tail);
    EscapedReadsBack(before, code, tail);
  }

  // A prefix that ends inside single quotes can be read on its own.
  lemma {:induction false} ReadOn(r: Reading, a: string, b: string)
    requires Read(r, a).Reading? && Read(r, a).mode == Quoted
    ensures Read(r, a + b) == Read(Read(r, a), b)
    decreases |a|
  {
    if a == "" {
      assert a + b == b;
    } else if r.mode.Plain? && a[0] == '\\' {
      assert |a| > 1;
      assert (a + b)[2..] == a[2..] + b;
      ReadOn(if a[1] == '\n' then r else Reading(Plain, r.word + [a[1]]), a[2..], b);
    } else {
      assert (a + b)[1..] == a[1..] + b;
      if a[0] == '\'' {
        ReadOn(Reading(if r.mode.Quoted? then Plain else Quoted, r.word), a[1..], b);
      } else {
        ReadOn(Reading(r.mode, r.word + [a[0]]), a[1..], b);
      }
    }
  }

  // ---------------------------------------------------------------- why escaping is needed

  // Reading never lengthens: a quote that opens or closes yields nothing, and neither does a backslash. So a
  // last quote always costs a character.
  lemma {:induction false} ReadShrinks(r: Reading, input: string)
    requires r.Reading? && Read(r, input).Reading?
    ensures |Read(r, input).word| <= |r.word| + |input|
    ensures input != "" && input[|input| - 1] == '\'' ==> |Read(r, input).word| < |r.word| + |input|
    decreases |input|
  {
    if input == "" {
    } else {
      if r.mode.Quoted? {
        var next := if input[0] == '\'' then Reading(Plain, r.word) else Reading(Quoted, r.word + [input[0]]);
        ReadShrinks(next, input[1..]);
      } else if input[0] == '\'' {
        ReadShrinks(Reading(Quoted, r.word), input[1..]);
      } else if input[0] == '\\' {
        ReadShrinks(if input[1] == '\n' then r else Reading(Plain, r.word + [input[1]]), input[2..]);
      } else {
        ReadShrinks(Reading(Plain, r.word + [input[0]]), input[1..]);
      }
    }
  }

  lemma {:induction false} QuotelessReadsBack(word: string, a: string, rest: string)
    requires '\'' !in a
    ensures Read(Reading(Quoted, word), a + rest) == Read(Reading(Quoted, word + a), rest)
    decreases |a|
  {
    if a == "" {
      assert a + rest == rest && word + a == word;
    } else {
      assert (a + rest)[1..] == a[1..] + rest;
      QuotelessReadsBack(word + [a[0]], a[1..], rest);
      assert word + [a[0]] + a[1..] == word + a;
    }
  }

  lemma {:induction false} FirstQuote(s: string) returns (q: nat)
    requires '\'' in s
    ensures q < |s| && s[q] == '\'' && '\'' !in s[..q]
  {
    if s[0] == '\'' {
      q := 0;
    } else {
      q := FirstQuote(s[1..]);
      q := q + 1;
      assert s[..q] == [s[0]] + s[1..][..q - 1];
    }
  }

  // Without escaping, a string between single quotes is read back as itself exactly when it has no single quote.
  lemma RawQuotingIff(code: string)
    ensures ReadWord(QUOTE + code + QUOTE) == Some(code) <==> '\'' !in code
  {
    var input := QUOTE + code + QUOTE;
    assert input[1..] == code + QUOTE;
    if '\'' !in code {
      QuotelessReadsBack("", code, QUOTE);
      assert "" + code == code;
    } else {
      var q := FirstQuote(code);
      var rest := code[q + 1..] + QUOTE;
      assert code + QUOTE == code[..q] + (QUOTE + rest);
      QuotelessReadsBack("", code[..q], QUOTE + rest);
      assert "" + code[..q] == code[..q] && (QUOTE + rest)[1..] == rest;
      assert Read(Reading(Plain, ""), input) == Read(Reading(Plain, code[..q]), rest);
      if Read(Reading(Plain, code[..q]), rest).Reading? {
        ReadShrinks(Reading(Plain, code[..q]), rest);
      }
    }
  }
}
