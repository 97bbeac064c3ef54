// Python's str.strip on the white space of str.isspace.

module Text {
  predicate IsSpace(c: char) {
    || '\t' <= c <= '\r'
    || '\U{1c}' <= c <= ' '
    || c in {'\U{85}', '\U{a0}', '\U{1680}', '\U{2028}', '\U{2029}', '\U{202f}', '\U{205f}', '\U{3000}'}
    || '\U{2000}' <= c <= '\U{200a}'
  }

  function StripLeft(s: string): string {
    if s != [] && IsSpace(s[0]) then StripLeft(s[1..]) else s
  }

  function StripRight(s: string): string {
    if s != [] && IsSpace(s[|s| - 1]) then StripRight(s[..|s| - 1]) else s
  }

  function Strip(s: string): string {
    StripRight(StripLeft(s))
  }

  ghost predicate Trimmed(s: string) {
    s != [] ==> !IsSpace(s[0]) && !IsSpace(s[|s| - 1])
  }

  lemma {:induction false} StripRightKeepsStart(s: string)
    requires s != [] ==> !IsSpace(s[0])
    ensures Trimmed(StripRight(s)) && StripRight(s) <= s
  {
    if s != [] && IsSpace(s[|s| - 1]) {
      StripRightKeepsStart(s[..|s| - 1]);
    }
  }

  lemma {:induction false} StripLeftStart(s: string)
    ensures StripLeft(s) != [] ==> !IsSpace(StripLeft(s)[0])
  {
    if s != [] && IsSpace(s[0]) {
      StripLeftStart(s[1..]);
    }
  }

  lemma StripTrims(s: string)
    ensures Trimmed(Strip(s))
  {
    StripLeftStart(s);
    StripRightKeepsStart(StripLeft(s));
  }

  lemma StripFixed(s: string)
    requires Trimmed(s)
    ensures Strip(s) == s
  {
  }

  // Leading white space in front of a text disappears with the rest of its margin.
  lemma {:induction false} StripLeadingSpace(margin: string, s: string)
    requires forall c :: c in margin ==> IsSpace(c)
    ensures Strip(margin + s) == Strip(s)
  {
    if margin == [] {
      assert margin + s == s;
    } else {
      assert (margin + s)[1..] == margin[1..] + s;
      StripLeadingSpace(margin[1..], s);
    }
  }
}
