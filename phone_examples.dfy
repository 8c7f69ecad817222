/** Worked examples of the phone-field filter, checked against the model.

    Each example is proved from small facts about its pieces (what sanitizing
    or capping one short string gives), combined with `SanitizeAppend`. Longer
    inputs are written as the concatenation of two literals: the verifier
    evaluates a function on one long string literal slowly, and on the
    concatenation it can use the facts about the pieces instead. */
module PhoneExamples {
  import opened PhoneFilter
  import opened InputElement
  import opened PhoneField

  /** Typing "a+255b123": the letters go, and the seven remaining characters
      fit. */
  lemma ExampleTyped()
    ensures Sanitize("a+255" + "b123") == "+255123"
    ensures Clean("a+255" + "b123") == "+255123"
  {
    SanitizeTypedHead();
    SanitizeTypedTail();
    SanitizeAppend("a+255", "b123");
    CapTyped();
  }

  /** Of "a+255" the letter goes. */
  lemma SanitizeTypedHead()
    ensures Sanitize("a+255") == "+255"
  {
    SanitizeDropped("a");
    SanitizeKept("+255");
    SanitizeAppend("a", "+255");
    assert "a" + "+255" == "a+255";
  }

  /** Of "b123" the letter goes. */
  lemma SanitizeTypedTail()
    ensures Sanitize("b123") == "123"
  {
    SanitizeDropped("b");
    SanitizeKept("123");
    SanitizeAppend("b", "123");
    assert "b" + "123" == "b123";
  }

  /** "+255123" fits the 16-character class unchanged. */
  lemma CapTyped()
    ensures Cap("+255123") == "+255123"
  {
  }

  /** Pasting "+255 712 345 678 extra chars": the letters go, leaving the 18
      characters "+255 712 345 678  ", which are cut to their first 16. */
  lemma ExamplePasted()
    ensures Sanitize("+255 712 345 678 " + "extra chars") == "+255 712 345 678  "
    ensures Clean("+255 712 345 678 " + "extra chars") == "+255 712 345 678"
  {
    SanitizePastedHead();
    SanitizePastedTail();
    SanitizeAppend("+255 712 345 678 ", "extra chars");
    CapPasted();
  }

  /** The head of the pasted text has allowed characters only. */
  lemma SanitizePastedHead()
    ensures Sanitize("+255 712 345 678 ") == "+255 712 345 678 "
  {
    SanitizeKept("+255 712 345 678 ");
  }

  /** Of "extra chars" only the space survives. */
  lemma SanitizePastedTail()
    ensures Sanitize("extra chars") == " "
  {
    SanitizeDropped("extra");
    SanitizeDropped("chars");
    SanitizeKept(" ");
    SanitizeAppend(" ", "chars");
    assert " " + "chars" == " chars";
    SanitizeAppend("extra", " chars");
    assert "extra" + " chars" == "extra chars";
  }

  /** The 18 sanitized characters are cut to the 16 the `+255` class allows. */
  lemma CapPasted()
    ensures Cap("+255 712 345 678  ") == "+255 712 345 678"
  {
  }

  /** A 16-digit local number keeps its digits and is cut to 14 characters. */
  lemma ExampleLocal()
    ensures Clean("0712345678901234") == "07123456789012"
  {
    SanitizeLocal();
    CapLocal();
  }

  /** A string of digits is left as it is by sanitizing. */
  lemma SanitizeLocal()
    ensures Sanitize("0712345678901234") == "0712345678901234"
  {
    SanitizeKept("0712345678901234");
  }

  /** A 16-character string starting with `0` is cut to 14 characters. */
  lemma CapLocal()
    ensures Cap("0712345678901234") == "07123456789012"
  {
    var s := "0712345678901234";
    assert s[0] == '0';
    assert !StartsWith(s, InternationalPrefix);
    assert StartsWith(s, LocalPrefix);
  }

  /** The unanchored search lets "F5" through and blocks "Shift" and "a";
      "Backspace" is on the allow-list. */
  lemma ExampleKeys()
    ensures !KeyBlocked("F5", false, false)
    ensures KeyBlocked("Shift", false, false)
    ensures KeyBlocked("a", false, false)
    ensures !KeyBlocked("Backspace", false, false)
  {
    KeyF5();
    KeyNoKeep("Shift");
    KeyNoKeep("a");
    KeysListed();
  }

  /** "Backspace" is on the allow-list; "F5", "Shift" and "a" are not. */
  lemma KeysListed()
    ensures "Backspace" in AllowedKeys
    ensures "F5" !in AllowedKeys && "Shift" !in AllowedKeys && "a" !in AllowedKeys
  {
  }

  /** "F5" contains a digit, so the search finds it. */
  lemma KeyF5()
    ensures KeyHasKeep("F5")
  {
    assert "F5"[1..] == "5";
  }

  /** "Shift" and "a" contain no allowed character. */
  lemma KeyNoKeep(key: string)
    requires key == "Shift" || key == "a"
    ensures !KeyHasKeep(key)
  {
    KeyHasKeepIff(key);
  }

  /** Pressing "a" on an empty field is prevented and leaves the field empty;
      pressing "Backspace" on a non-empty one is let through. */
  method KeydownOnField() returns (letterPrevented: bool, valueAfter: string, backspacePrevented: bool)
    ensures letterPrevented && valueAfter == ""
    ensures !backspacePrevented
  {
    var empty := new Field("");
    letterPrevented := empty.OnKeydown("a", false, false);
    valueAfter := empty.value;
    var filled := new Field("0712");
    backspacePrevented := filled.OnKeydown("Backspace", false, false);
  }

  /** After a paste, dispatching `input` once more does not change the field;
      for clipboard text without newlines the value is the cleaned text. */
  method PasteThenInput(initial: string, clip: string) returns (pasted: string, again: string)
    ensures pasted == again && IsClean(pasted)
    ensures NoNewlines(clip) ==> pasted == Clean(clip)
  {
    var f := new Field(initial);
    f.OnPaste(clip);
    pasted := f.value;
    f.OnInput();
    again := f.value;
    CleanFixpoint(pasted);
  }

  /** Pasting a line feed followed by sixteen digits starting with `0`: the
      paste handler cuts the text to 16 characters as an "other" number, the
      element strips the line feed, and the re-fired `input` handler then cuts
      the 15-character local number to 14. */
  lemma ExampleNewlinePaste()
    ensures PastedValue("\n" + "0123456789012345") == "012345678901234"
    ensures Clean(PastedValue("\n" + "0123456789012345")) == "01234567890123"
  {
    SanitizeNewlineClip();
    PasteCapNewlineClip();
    StripNewlineClip();
    CapStrippedClip();
    SanitizeKept("012345678901234");
  }

  /** The clipboard text has allowed characters only. */
  lemma SanitizeNewlineClip()
    ensures Sanitize("\n" + "0123456789012345") == "\n" + "0123456789012345"
  {
    SanitizeKept("\n" + "0123456789012345");
  }

  /** Starting with a line feed, the text falls in the 16-character class. */
  lemma PasteCapNewlineClip()
    ensures PasteCap("\n" + "0123456789012345") == "\n" + "012345678901234"
  {
    var s := "\n" + "0123456789012345";
    assert s[0] == '\n';
    assert !StartsWith(s, InternationalPrefix) && !StartsWith(s, LocalPrefix);
    assert s[..16] == "\n" + "012345678901234";
  }

  /** The element's setter drops the line feed. */
  lemma StripNewlineClip()
    ensures StripNewlines("\n" + "012345678901234") == "012345678901234"
  {
    StripNewlinesFixpoint("012345678901234");
    assert ("\n" + "012345678901234")[1..] == "012345678901234";
  }

  /** Now starting with `0`, the value falls in the 14-character class. */
  lemma CapStrippedClip()
    ensures Cap("012345678901234") == "01234567890123"
  {
    var s := "012345678901234";
    assert s[0] == '0';
    assert !StartsWith(s, InternationalPrefix) && StartsWith(s, LocalPrefix);
  }
}
