/** The part of a browser text input that the handlers rely on: assigning its
    `value` runs the value sanitization algorithm of the Text and Telephone
    states of the input element (HTML Living Standard), which strips every line
    feed and carriage return from the assigned string; no stored value holds
    either character. */
module InputElement {

  /** The string holds no line feed and no carriage return. */
  predicate NoNewlines(s: string) {
    '\n' !in s && '\r' !in s
  }

  /** "Strip newlines": deletes every line feed and carriage return, keeping
      the other characters in order. */
  function StripNewlines(s: string): (r: string)
    ensures NoNewlines(r)
    ensures |r| <= |s|
    ensures forall c :: c in r ==> c in s
  {
    if s == [] then []
    else if s[0] == '\n' || s[0] == '\r' then StripNewlines(s[1..])
    else [s[0]] + StripNewlines(s[1..])
  }

  /** Stripping leaves a string unchanged exactly when it has no newline. */
  lemma {:induction false} StripNewlinesFixpoint(s: string)
    ensures StripNewlines(s) == s <==> NoNewlines(s)
  {
    if s != [] {
      StripNewlinesFixpoint(s[1..]);
      assert s == [s[0]] + s[1..];
    }
  }

  /** Stripping deletes every newline and keeps every occurrence of every other
      character. */
  lemma {:induction false} StripNewlinesCounts(s: string, c: char)
    ensures multiset(StripNewlines(s))[c] == if c == '\n' || c == '\r' then 0 else multiset(s)[c]
  {
    if s != [] {
      StripNewlinesCounts(s[1..], c);
      assert s == [s[0]] + s[1..];
      assert multiset(s) == multiset{s[0]} + multiset(s[1..]);
    }
  }
}
