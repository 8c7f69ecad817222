/** The string logic of the phone-number field filter: the character filter
    applied by both the `input` and the `paste` handler, the length cap chosen by
    the number's prefix, and the key-press decision of the `keydown` handler.

    Strings are sequences of `char`. The browser counts UTF-16 code units; the
    model counts characters, which agree on every character the filter keeps
    (all of them lie in the Basic Multilingual Plane). */
module PhoneFilter {

  /** The international prefix, and the caps of the three format classes. */
  const InternationalPrefix: string := "+255"
  const LocalPrefix: string := "0"
  const InternationalMax: nat := 16
  const LocalMax: nat := 14
  const OtherMax: nat := 16

  // ---------------------------------------------------------------------------
  // Characters kept by the character class [\d+\s]
  // ---------------------------------------------------------------------------

  /** `\d`: the ASCII decimal digits only. */
  predicate IsDigit(c: char): (b: bool)
    ensures b ==> c as int < 0x80
    ensures b <==> 0 <= c as int - '0' as int < 10
  {
    '0' <= c <= '9'
  }

  /** `\s`: the ECMAScript WhiteSpace and LineTerminator code points (tab, line
      feed, vertical tab, form feed, carriage return, the space separators of
      category Zs, line and paragraph separators, and the byte-order mark). */
  predicate IsSpace(c: char): (b: bool)
    ensures c == ' ' || c == '\t' || c == '\n' || c == '\r' ==> b
    ensures b ==> !IsDigit(c) && c != '+'
    ensures b ==> c as int < 0x1_0000
  {
    c == '\t' || c == '\n' || c == '\U{0B}' || c == '\U{0C}' || c == '\r'
    || c == ' ' || c == '\U{A0}' || c == '\U{1680}'
    || ('\U{2000}' <= c <= '\U{200A}')
    || c == '\U{2028}' || c == '\U{2029}' || c == '\U{202F}' || c == '\U{205F}'
    || c == '\U{3000}' || c == '\U{FEFF}'
  }

  /** Membership in the class [\d+\s]. Every member is a single UTF-16 code
      unit, so lengths of sanitized strings are the same counted either way. */
  predicate IsKeep(c: char): (b: bool)
    ensures c == '+' || c == ' ' || c == '0' ==> b
    ensures b ==> c as int < 0x1_0000
  {
    IsDigit(c) || c == '+' || IsSpace(c)
  }

  /** Every character of `s` is one the filter keeps. */
  predicate AllKeep(s: string) {
    forall i :: 0 <= i < |s| ==> IsKeep(s[i])
  }

  // ---------------------------------------------------------------------------
  // Sanitize: value.replace(/[^\d+\s]/g, '')
  // ---------------------------------------------------------------------------

  /** Deletes every character outside [\d+\s], keeping the rest in order. */
  function Sanitize(s: string): (r: string)
    ensures AllKeep(r)
    ensures |r| <= |s|
    ensures |r| == |s| ==> r == s
  {
    if s == [] then []
    else if IsKeep(s[0]) then [s[0]] + Sanitize(s[1..])
    else Sanitize(s[1..])
  }

  /** `r` can be obtained from `s` by deleting characters (order kept). */
  predicate IsSubsequence(r: string, s: string)
    decreases |s|
  {
    if r == [] then true
    else if s == [] then false
    else if r[0] == s[0] then IsSubsequence(r[1..], s[1..])
    else IsSubsequence(r, s[1..])
  }

  /** Sanitize only deletes: its output is a subsequence of its input. */
  lemma {:induction false} SanitizeIsSubsequence(s: string)
    ensures IsSubsequence(Sanitize(s), s)
  {
    if s != [] {
      SanitizeIsSubsequence(s[1..]);
      var r := Sanitize(s);
      if !IsKeep(s[0]) && r != [] {
        assert IsKeep(r[0]);
      }
    }
  }

  /** Sanitize keeps every occurrence of every allowed character and drops
      every occurrence of every other character. */
  lemma {:induction false} SanitizeCounts(s: string, c: char)
    ensures multiset(Sanitize(s))[c] == if IsKeep(c) then multiset(s)[c] else 0
  {
    if s != [] {
      SanitizeCounts(s[1..], c);
      assert s == [s[0]] + s[1..];
      assert multiset(s) == multiset{s[0]} + multiset(s[1..]);
    }
  }

  /** Sanitize works character by character: it distributes over concatenation. */
  lemma {:induction false} SanitizeAppend(a: string, b: string)
    ensures Sanitize(a + b) == Sanitize(a) + Sanitize(b)
  {
    if a != [] {
      assert (a + b)[0] == a[0];
      assert (a + b)[1..] == a[1..] + b;
      SanitizeAppend(a[1..], b);
    } else {
      assert a + b == b;
    }
  }

  /** A string is left unchanged by Sanitize exactly when it has only allowed
      characters. */
  lemma {:induction false} SanitizeFixpoint(s: string)
    ensures Sanitize(s) == s <==> AllKeep(s)
  {
    if s != [] {
      SanitizeFixpoint(s[1..]);
      if AllKeep(s) {
        assert AllKeep(s[1..]) by {
          forall i | 0 <= i < |s[1..]| ensures IsKeep(s[1..][i]) {
            assert s[1..][i] == s[i + 1];
          }
        }
      }
    }
  }

  // ---------------------------------------------------------------------------
  // Cap: the prefix-dependent length limit
  // ---------------------------------------------------------------------------

  /** `s.startsWith(p)`. */
  predicate StartsWith(s: string, p: string): (b: bool)
    ensures b <==> p <= s
  {
    |p| <= |s| && s[..|p|] == p
  }

  /** The greatest length the format class of `s` allows: 14 exactly for the
      strings that start with `0`, and 16 for all others. */
  function MaxLength(s: string): (n: nat)
    ensures n == LocalMax <==> |s| > 0 && s[0] == '0'
    ensures n != LocalMax ==> n == InternationalMax == OtherMax
  {
    if StartsWith(s, InternationalPrefix) then InternationalMax
    else if StartsWith(s, LocalPrefix) then LocalMax
    else OtherMax
  }

  /** The `input` handler's cap: each branch truncates only when the string is
      longer than the branch's limit. The result is a prefix of the input that
      fits its class, it stays in the same class, and the input is returned
      unchanged exactly when it already fits. */
  function Cap(s: string): (r: string)
    ensures r <= s
    ensures MaxLength(r) == MaxLength(s)
    ensures |r| <= MaxLength(r)
    ensures r == s <==> |s| <= MaxLength(s)
    ensures |s| > MaxLength(s) ==> |r| == MaxLength(s)
  {
    if StartsWith(s, InternationalPrefix) then
      (if |s| > InternationalMax then s[..InternationalMax] else s)
    else if StartsWith(s, LocalPrefix) then
      (if |s| > LocalMax then s[..LocalMax] else s)
    else
      (if |s| > OtherMax then s[..OtherMax] else s)
  }

  /** `s.substring(start, end)`: both bounds are clamped to [0, |s|], and
      swapped when the start is past the end. */
  function JsSubstring(s: string, start: int, end: int): (r: string)
    ensures |r| <= |s|
    ensures start == 0 <= end ==> r == s[..if end < |s| then end else |s|]
  {
    var a := if start < 0 then 0 else if start > |s| then |s| else start;
    var b := if end < 0 then 0 else if end > |s| then |s| else end;
    if a <= b then s[a..b] else s[b..a]
  }

  /** The `paste` handler's cap: each branch calls `substring` unconditionally.
      It computes the same string as the guarded truncation of the `input`
      handler, for every string. */
  function PasteCap(s: string): (r: string)
    ensures r == Cap(s)
  {
    if StartsWith(s, InternationalPrefix) then JsSubstring(s, 0, InternationalMax)
    else if StartsWith(s, LocalPrefix) then JsSubstring(s, 0, LocalMax)
    else JsSubstring(s, 0, OtherMax)
  }

  // ---------------------------------------------------------------------------
  // Clean: what both handlers write back into the field
  // ---------------------------------------------------------------------------

  /** A field value the filter would leave alone: allowed characters only, and
      no longer than its format class allows. */
  predicate IsClean(s: string): (b: bool)
    ensures b ==> |s| <= InternationalMax
    ensures b && |s| > 0 && s[0] == '0' ==> |s| <= LocalMax
  {
    AllKeep(s) && |s| <= MaxLength(s)
  }

  /** Sanitize, then cap. The result is clean and is a prefix of the sanitized
      input; in particular it has at most 16 characters after `+255`, at most 14
      after `0`, and at most 16 otherwise. */
  function Clean(s: string): (r: string)
    ensures IsClean(r)
    ensures r <= Sanitize(s)
    ensures StartsWith(r, InternationalPrefix) ==> |r| <= InternationalMax
    ensures !StartsWith(r, InternationalPrefix) && StartsWith(r, LocalPrefix) ==> |r| <= LocalMax
    ensures !StartsWith(r, InternationalPrefix) && !StartsWith(r, LocalPrefix) ==> |r| <= OtherMax
  {
    var t := Sanitize(s);
    var r := Cap(t);
    assert AllKeep(r) by {
      forall i | 0 <= i < |r| ensures IsKeep(r[i]) {
        assert r[i] == t[i];
      }
    }
    r
  }

  /** The clean strings are exactly the fixed points of Clean. */
  lemma CleanFixpoint(s: string)
    ensures Clean(s) == s <==> IsClean(s)
  {
    SanitizeFixpoint(s);
  }

  /** Clean is idempotent: running the `input` handler's computation on its
      own output changes nothing. */
  lemma CleanIdempotent(s: string)
    ensures Clean(Clean(s)) == Clean(s)
  {
    CleanFixpoint(Clean(s));
  }

  // ---------------------------------------------------------------------------
  // Keydown: which key presses are prevented
  // ---------------------------------------------------------------------------

  /** The eleven navigation and editing keys that are always let through. */
  const AllowedKeys: seq<string> := [
    "Backspace", "Delete", "Tab", "Escape", "Enter",
    "ArrowLeft", "ArrowRight", "ArrowUp", "ArrowDown",
    "Home", "End"
  ]

  /** `/[\d+\s]/.test(key)`: the unanchored search, scanning the key name from
      the left for any allowed character. It succeeds exactly when sanitizing
      the key name leaves something behind. */
  predicate KeyHasKeep(key: string): (b: bool)
    ensures b <==> Sanitize(key) != []
  {
    key != [] && (IsKeep(key[0]) || KeyHasKeep(key[1..]))
  }

  /** The regex search succeeds exactly when some character of the key name is
      allowed. */
  lemma {:induction false} KeyHasKeepIff(key: string)
    ensures KeyHasKeep(key) <==> exists i :: 0 <= i < |key| && IsKeep(key[i])
  {
    if key != [] {
      KeyHasKeepIff(key[1..]);
      if exists i :: 0 <= i < |key| && IsKeep(key[i]) {
        var i :| 0 <= i < |key| && IsKeep(key[i]);
        if i > 0 {
          assert key[1..][i - 1] == key[i];
        }
      }
      if KeyHasKeep(key[1..]) {
        var j :| 0 <= j < |key[1..]| && IsKeep(key[1..][j]);
        assert key[j + 1] == key[1..][j];
      }
    }
  }

  /** Whether the `keydown` handler calls `preventDefault`: only for a key that
      is not allow-listed, pressed without ctrl or meta, whose name sanitizes
      to nothing. */
  predicate KeyBlocked(key: string, ctrlKey: bool, metaKey: bool): (b: bool)
    ensures b <==> key !in AllowedKeys && !ctrlKey && !metaKey && Sanitize(key) == []
  {
    !(key in AllowedKeys || ctrlKey || metaKey) && !KeyHasKeep(key)
  }

  /** An allow-listed key, or any key with ctrl or meta held, is never
      blocked. */
  lemma AllowedNeverBlocked(key: string, ctrlKey: bool, metaKey: bool)
    requires key in AllowedKeys || ctrlKey || metaKey
    ensures !KeyBlocked(key, ctrlKey, metaKey)
  {
  }

  /** Any other key is blocked exactly when its name contains no digit, `+`
      or whitespace character. */
  lemma BlockedIffNoKeepChar(key: string, ctrlKey: bool, metaKey: bool)
    requires !(key in AllowedKeys || ctrlKey || metaKey)
    ensures KeyBlocked(key, ctrlKey, metaKey) <==> forall i :: 0 <= i < |key| ==> !IsKeep(key[i])
  {
    KeyHasKeepIff(key);
  }

  /** A string with no allowed character sanitizes to the empty string. */
  lemma SanitizeDropped(w: string)
    requires forall i :: 0 <= i < |w| ==> !IsKeep(w[i])
    ensures Sanitize(w) == []
  {
    KeyHasKeepIff(w);
  }

  /** A string of allowed characters only sanitizes to itself. */
  lemma SanitizeKept(w: string)
    requires AllKeep(w)
    ensures Sanitize(w) == w
  {
    SanitizeFixpoint(w);
  }
}
