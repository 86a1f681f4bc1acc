/** Escaping for chat markdown (`VoiceCommandHandler._escape_md`): five replacement passes. */
module MarkdownEscape {

  const SPECIALS := "*_`[]"

  /** `text.replace(ch, "\\" + ch)`. */
  function ReplaceAll(text: string, ch: char): string {
    if text == "" then "" else (if text[0] == ch then ['\\', ch] else [text[0]]) + ReplaceAll(text[1..], ch)
  }

  /** The single pass: every special character of `chars` gets a backslash in front of it. */
  function EscapeOnce(text: string, chars: string): string {
    if text == "" then ""
    else (if text[0] in chars then ['\\', text[0]] else [text[0]]) + EscapeOnce(text[1..], chars)
  }

  /** Drops the character in front of every special one. */
  function Unescape(text: string): string
    decreases |text|
  {
    if |text| >= 2 && text[1] in SPECIALS then [text[1]] + Unescape(text[2..])
    else if text == "" then ""
    else [text[0]] + Unescape(text[1..])
  }

  lemma {:induction false} ReplaceAppend(a: string, b: string, ch: char)
    ensures ReplaceAll(a + b, ch) == ReplaceAll(a, ch) + ReplaceAll(b, ch)
  {
    if a == "" {
      assert a + b == b;
    } else {
      ReplaceAppend(a[1..], b, ch);
      var head := if a[0] == ch then ['\\', ch] else [a[0]];
      assert (a + b)[0] == a[0] && (a + b)[1..] == a[1..] + b;
      assert head + (ReplaceAll(a[1..], ch) + ReplaceAll(b, ch)) == head + ReplaceAll(a[1..], ch) + ReplaceAll(b, ch);
    }
  }

  /** One more pass over a text escaped so far escapes one more character. */
  lemma {:induction false} OneMorePass(text: string, done: string, ch: char)
    requires ch !in done && ch != '\\'
    ensures ReplaceAll(EscapeOnce(text, done), ch) == EscapeOnce(text, done + [ch])
  {
    if text != "" {
      OneMorePass(text[1..], done, ch);
      var head := if text[0] in done then ['\\', text[0]] else [text[0]];
      ReplaceAppend(head, EscapeOnce(text[1..], done), ch);
      ReplaceHead(text[0], done, ch);
    }
  }

  lemma ReplaceHead(c: char, done: string, ch: char)
    requires ch !in done && ch != '\\'
    ensures ReplaceAll(if c in done then ['\\', c] else [c], ch) == if c in done + [ch] then ['\\', c] else [c]
  {
    assert ReplaceAll("", ch) == "";
    if c in done {
      assert ['\\', c][1..] == [c] && [c][1..] == "";
      assert ReplaceAll([c], ch) == [c] + "";
    } else {
      assert [c][1..] == "";
    }
  }

  lemma {:induction false} NothingEscaped(text: string)
    ensures EscapeOnce(text, "") == text
  {
    if text != "" {
      NothingEscaped(text[1..]);
    }
  }

  /** The five passes are one character-by-character pass. */
  method EscapeMd(text: string) returns (escaped: string)
    ensures escaped == EscapeOnce(text, SPECIALS)
  {
    escaped := text;
    NothingEscaped(text);
    for k := 0 to |SPECIALS|
      invariant escaped == EscapeOnce(text, SPECIALS[..k])
    {
      var ch := SPECIALS[k];
      OneMorePass(text, SPECIALS[..k], ch);
      assert SPECIALS[..k + 1] == SPECIALS[..k] + [ch];
      escaped := ReplaceAll(escaped, ch);
    }
    assert SPECIALS[..|SPECIALS|] == SPECIALS;
  }

  lemma {:induction false} HeadNotSpecial(text: string)
    ensures text != "" ==> EscapeOnce(text, SPECIALS) != "" && EscapeOnce(text, SPECIALS)[0] !in SPECIALS
  {
  }

  /** Unescaping undoes escaping, also for texts that hold backslashes already. */
  lemma {:induction false} RoundTrip(text: string)
    ensures Unescape(EscapeOnce(text, SPECIALS)) == text
  {
    if text != "" {
      RoundTrip(text[1..]);
      HeadNotSpecial(text[1..]);
      var rest := EscapeOnce(text[1..], SPECIALS);
      if text[0] in SPECIALS {
        assert (['\\', text[0]] + rest)[2..] == rest;
      } else {
        assert ([text[0]] + rest)[1..] == rest;
      }
    }
  }

  /** Hence different texts never escape to the same one. */
  lemma Injective(a: string, b: string)
    requires EscapeOnce(a, SPECIALS) == EscapeOnce(b, SPECIALS)
    ensures a == b
  {
    RoundTrip(a);
    RoundTrip(b);
  }
}
