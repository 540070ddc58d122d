// `stripMarkdown`: the plain-text preview of a card's question or answer in
// the card list.

module Markdown {
  import opened JsString

  /** The characters the preview deletes: `#`, `*`, `_`, backtick, `~`, `[`, `]`. */
  predicate IsMarkup(c: char)
  {
    c == '#' || c == '*' || c == '_' || c == '`' || c == '~' || c == '[' || c == ']'
  }

  /** `.replace(/[#*_`~\[\]]/g, '')`: the characters of `s` that are not
      markup, in order. */
  function RemoveMarkup(s: string): (r: string)
    ensures |r| <= |s|
    ensures forall k :: 0 <= k < |r| ==> !IsMarkup(r[k])
  {
    if |s| == 0 then []
    else if IsMarkup(s[0]) then RemoveMarkup(s[1..])
    else [s[0]] + RemoveMarkup(s[1..])
  }

  /** `.replace(/\n/g, ' ')`: every line feed becomes a space. */
  function NewlinesToSpaces(s: string): (r: string)
    ensures |r| == |s|
    ensures forall k :: 0 <= k < |s| ==> r[k] == (if s[k] == '\n' then ' ' else s[k])
  {
    seq(|s|, k requires 0 <= k < |s| => if s[k] == '\n' then ' ' else s[k])
  }

  /** The preview text: no markup, no line feed, no white space at either end. */
  function StripMarkdown(text: string): (r: string)
    ensures forall k :: 0 <= k < |r| ==> !IsMarkup(r[k]) && r[k] != '\n'
    ensures IsTrimmed(r)
  {
    var t := NewlinesToSpaces(RemoveMarkup(text));
    var r := Trim(t);
    assert forall k :: 0 <= k < |r| ==> r[k] == t[Lead(t) + k];
    r
  }

  /** Removing markup distributes over concatenation: each character is
      judged on its own. */
  lemma {:induction false} RemoveMarkupAppend(a: string, b: string)
    ensures RemoveMarkup(a + b) == RemoveMarkup(a) + RemoveMarkup(b)
  {
    if |a| > 0 {
      assert (a + b)[1..] == a[1..] + b;
      RemoveMarkupAppend(a[1..], b);
    } else {
      assert a + b == b;
    }
  }

  /** Text without markup passes through the first step unchanged. */
  lemma {:induction false} RemoveMarkupPlain(s: string)
    requires forall k :: 0 <= k < |s| ==> !IsMarkup(s[k])
    ensures RemoveMarkup(s) == s
  {
    if |s| > 0 {
      RemoveMarkupPlain(s[1..]);
      assert [s[0]] + s[1..] == s;
    }
  }

  /** One character on its own: markup is deleted, anything else is kept.
      With `RemoveMarkupAppend` this fixes `RemoveMarkup` on every input. */
  lemma RemoveMarkupChar(c: char)
    ensures RemoveMarkup([c]) == if IsMarkup(c) then [] else [c]
  {
    assert [c][1..] == [];
  }

  /** Every character that is not markup is kept, as often as it occurs. */
  lemma {:induction false} RemoveMarkupKeeps(s: string, c: char)
    ensures Count(RemoveMarkup(s), c) == if IsMarkup(c) then 0 else Count(s, c)
  {
    if |s| > 0 {
      RemoveMarkupKeeps(s[1..], c);
      if !IsMarkup(s[0]) {
        CountConcat([s[0]], RemoveMarkup(s[1..]), c);
        assert [s[0]][1..] == [];
      }
    } else if IsMarkup(c) {
      CountZero(RemoveMarkup(s), c);
    }
  }

  /** `NewlinesToSpaces` works character by character. */
  lemma NewlinesToSpacesAppend(a: string, b: string)
    ensures NewlinesToSpaces(a + b) == NewlinesToSpaces(a) + NewlinesToSpaces(b)
  {
  }

  /** A markup character anywhere in the text is deleted from the preview. */
  lemma StripDeletesMarkup(a: string, m: char, b: string)
    requires IsMarkup(m)
    ensures StripMarkdown(a + [m] + b) == StripMarkdown(a + b)
  {
    RemoveMarkupAppend(a + [m], b);
    RemoveMarkupAppend(a, [m]);
    RemoveMarkupAppend(a, b);
    RemoveMarkupChar(m);
    assert RemoveMarkup(a) + [] == RemoveMarkup(a);
  }

  /** A line feed anywhere in the text shows in the preview as a space. */
  lemma StripNewlineIsSpace(a: string, b: string)
    ensures StripMarkdown(a + "\n" + b) == StripMarkdown(a + " " + b)
  {
    RemoveMarkupAppend(a + "\n", b);
    RemoveMarkupAppend(a, "\n");
    RemoveMarkupAppend(a + " ", b);
    RemoveMarkupAppend(a, " ");
    RemoveMarkupChar('\n');
    RemoveMarkupChar(' ');
    var ra, rb := RemoveMarkup(a), RemoveMarkup(b);
    NewlinesToSpacesAppend(ra + "\n", rb);
    NewlinesToSpacesAppend(ra, "\n");
    NewlinesToSpacesAppend(ra + " ", rb);
    NewlinesToSpacesAppend(ra, " ");
    assert NewlinesToSpaces("\n") == NewlinesToSpaces(" ");
  }

  /** A preview that is already plain, single-line and trimmed is its own
      preview. */
  lemma StripPlain(s: string)
    requires forall k :: 0 <= k < |s| ==> !IsMarkup(s[k]) && s[k] != '\n'
    requires IsTrimmed(s)
    ensures StripMarkdown(s) == s
  {
    RemoveMarkupPlain(s);
    assert NewlinesToSpaces(s) == s;
    TrimmedIsFixed(s);
  }

  /** Stripping a preview again changes nothing. */
  lemma StripIdempotent(text: string)
    ensures StripMarkdown(StripMarkdown(text)) == StripMarkdown(text)
  {
    StripPlain(StripMarkdown(text));
  }
}
