/** A phone-number text field with the three handlers attached to it. The
    browser's event objects are left out: the handlers act on `value` directly,
    the pasted text is a parameter, and the key-press decision is returned.
    Every assignment to `value` goes through the element's setter, which
    strips line feeds and carriage returns. */
module PhoneField {
  import opened PhoneFilter
  import opened InputElement

  /** Cleaning never introduces a newline. */
  lemma CleanKeepsNoNewlines(s: string)
    requires NoNewlines(s)
    ensures NoNewlines(Clean(s))
  {
    var t := Sanitize(s);
    SanitizeCounts(s, '\n');
    SanitizeCounts(s, '\r');
    assert '\n' !in t && '\r' !in t;
    var r := Clean(s);
    assert r == t[..|r|];
    forall c | c in r ensures c in t {
      var i :| 0 <= i < |r| && r[i] == c;
      assert t[i] == c;
    }
  }

  /** The element's setter only deletes: the stored text is a subsequence of
      the text assigned, its other characters kept in order. */
  lemma {:induction false} StripNewlinesIsSubsequence(s: string)
    ensures IsSubsequence(StripNewlines(s), s)
  {
    if s != [] {
      StripNewlinesIsSubsequence(s[1..]);
      var r := StripNewlines(s);
      if (s[0] == '\n' || s[0] == '\r') && r != [] {
        assert r[0] != '\n' && r[0] != '\r';
      }
    }
  }

  /** The value the paste handler assigns, as the field stores it. */
  function PastedValue(clip: string): (v: string)
    ensures NoNewlines(v)
    ensures NoNewlines(clip) ==> v == Clean(clip)
  {
    var stored := StripNewlines(PasteCap(Sanitize(clip)));
    if NoNewlines(clip) then
      CleanKeepsNoNewlines(clip);
      StripNewlinesFixpoint(Clean(clip));
      stored
    else
      stored
  }

  /** The value a paste leaves behind once the re-fired `input` has run: it is
      clean and holds no newline, and when the clipboard text has no newline it
      is the cleaned clipboard text, the value the paste itself assigned. */
  lemma PasteThenRefire(clip: string)
    ensures IsClean(Clean(PastedValue(clip))) && NoNewlines(Clean(PastedValue(clip)))
    ensures NoNewlines(clip) ==> Clean(PastedValue(clip)) == PastedValue(clip) == Clean(clip)
  {
    CleanKeepsNoNewlines(PastedValue(clip));
    if NoNewlines(clip) {
      CleanIdempotent(clip);
    }
  }

  class Field {
    /** The field's current text. */
    var value: string

    /** The element never stores a newline. */
    predicate Valid()
      reads this
    {
      NoNewlines(value)
    }

    /** A field holding whatever text the page or the user put there. */
    constructor (initial: string)
      ensures Valid()
      ensures value == StripNewlines(initial)
    {
      value := StripNewlines(initial);
    }

    /** Assigning `value`: the element strips newlines from the new text. */
    method SetValue(v: string)
      modifies this
      ensures Valid()
      ensures value == StripNewlines(v)
      ensures NoNewlines(v) ==> value == v
    {
      StripNewlinesFixpoint(v);
      value := StripNewlines(v);
    }

    /** The `input` handler: replace the value by its cleaned form. Whatever the
        field held, the new value is clean and bounded by its prefix class. */
    method OnInput()
      requires Valid()
      modifies this
      ensures Valid()
      ensures value == Clean(old(value))
      ensures IsClean(value)
    {
      var v := value;
      v := Sanitize(v);
      v := Cap(v);
      CleanKeepsNoNewlines(old(value));
      SetValue(v);
    }

    /** The `paste` handler: the value becomes the sanitized clipboard text, cut
        with an unconditional `substring` and stored without newlines; then
        the re-fired `input` handler cleans it once more. The result is clean,
        and for clipboard text without newlines it is the cleaned text. */
    method OnPaste(clip: string)
      modifies this
      ensures Valid()
      ensures value == Clean(PastedValue(clip))
      ensures IsClean(value)
      ensures NoNewlines(clip) ==> value == Clean(clip)
    {
      var paste := Sanitize(clip);
      paste := PasteCap(paste);
      SetValue(paste);
      PasteThenRefire(clip);
      OnInput();
    }

    /** The `keydown` handler: returns whether the key press is prevented. It
        changes nothing, the value included. */
    method OnKeydown(key: string, ctrlKey: bool, metaKey: bool) returns (prevented: bool)
      ensures prevented == KeyBlocked(key, ctrlKey, metaKey)
      ensures key in AllowedKeys || ctrlKey || metaKey ==> !prevented
      ensures !(key in AllowedKeys || ctrlKey || metaKey) ==>
                (prevented <==> forall i :: 0 <= i < |key| ==> !IsKeep(key[i]))
    {
      if key in AllowedKeys || ctrlKey || metaKey {
        return false;
      }
      BlockedIffNoKeepChar(key, ctrlKey, metaKey);
      prevented := !KeyHasKeep(key);
    }
  }
}
