/**
 * `utils.sanitizeForUrl`: lower-case the text, then delete every character
 * outside `[a-z0-9]`.
 */
module Utils {

  predicate IsUrlChar(c: char) {
    ('a' <= c <= 'z') || ('0' <= c <= '9')
  }

  predicate IsUrlSafe(s: string) {
    forall i :: 0 <= i < |s| ==> IsUrlChar(s[i])
  }

  /**
   * JavaScript's `toLowerCase` on one character, exact for every character
   * whose lower case contains a letter or digit of `[a-z0-9]`: the ASCII
   * capitals, KELVIN SIGN (lower case `k`) and LATIN CAPITAL LETTER I WITH DOT
   * ABOVE (lower case `i` followed by a combining dot). Every other character
   * is kept as it is, which the `[a-z0-9]` filter then treats exactly like its
   * real lower case.
   */
  function LowerChar(c: char): (r: string)
    ensures IsUrlChar(c) ==> r == [c]
    ensures 'A' <= c <= 'Z' ==> r == [(c as int + 32) as char] && IsUrlChar(r[0])
  {
    if 'A' <= c <= 'Z' then [(c as int + 32) as char]
    else if c == '\U{212A}' then "k"
    else if c == '\U{0130}' then "i\U{0307}"
    else [c]
  }

  /** `str.toLowerCase()`, character by character. */
  function ToLowerCase(s: string): string {
    if s == [] then [] else LowerChar(s[0]) + ToLowerCase(s[1..])
  }

  /** `replace(/[^a-z0-9]/g, '')`: keep exactly the URL characters, in order. */
  function KeepUrlChars(s: string): (r: string)
    ensures IsUrlSafe(r)
    ensures |r| <= |s|
  {
    if s == [] then []
    else if IsUrlChar(s[0]) then [s[0]] + KeepUrlChars(s[1..])
    else KeepUrlChars(s[1..])
  }

  function SanitizeForUrl(s: string): string {
    KeepUrlChars(ToLowerCase(s))
  }

  lemma {:induction false} KeepUrlCharsAppend(a: string, b: string)
    ensures KeepUrlChars(a + b) == KeepUrlChars(a) + KeepUrlChars(b)
  {
    if a == [] {
      assert a + b == b;
    } else {
      assert (a + b)[1..] == a[1..] + b;
      KeepUrlCharsAppend(a[1..], b);
    }
  }

  lemma {:induction false} ToLowerCaseAppend(a: string, b: string)
    ensures ToLowerCase(a + b) == ToLowerCase(a) + ToLowerCase(b)
  {
    if a == [] {
      assert a + b == b;
    } else {
      assert (a + b)[1..] == a[1..] + b;
      ToLowerCaseAppend(a[1..], b);
    }
  }

  /** The filter leaves a string alone exactly when it is already URL-safe. */
  lemma {:induction false} KeepUrlCharsFixpoint(s: string)
    ensures KeepUrlChars(s) == s <==> IsUrlSafe(s)
  {
    if s != [] {
      KeepUrlCharsFixpoint(s[1..]);
      if !IsUrlChar(s[0]) {
        assert |KeepUrlChars(s[1..])| <= |s[1..]| < |s|;
      } else {
        assert IsUrlSafe(s) <==> IsUrlSafe(s[1..]) by {
          if IsUrlSafe(s[1..]) {
            forall i | 0 <= i < |s| ensures IsUrlChar(s[i]) {
              if i > 0 { assert s[i] == s[1..][i - 1]; }
            }
          }
          if IsUrlSafe(s) {
            forall i | 0 <= i < |s[1..]| ensures IsUrlChar(s[1..][i]) {
              assert s[1..][i] == s[i + 1];
            }
          }
        }
      }
    }
  }

  /** Lower-casing leaves a URL-safe string alone. */
  lemma {:induction false} ToLowerCaseOfUrlSafe(s: string)
    requires IsUrlSafe(s)
    ensures ToLowerCase(s) == s
  {
    if s != [] {
      assert IsUrlChar(s[0]);
      assert IsUrlSafe(s[1..]) by {
        forall i | 0 <= i < |s[1..]| ensures IsUrlChar(s[1..][i]) {
          assert s[1..][i] == s[i + 1];
        }
      }
      ToLowerCaseOfUrlSafe(s[1..]);
      assert [s[0]] + s[1..] == s;
    }
  }

  /** The output holds only letters `a`-`z` and digits. */
  lemma SanitizeIsUrlSafe(s: string)
    ensures IsUrlSafe(SanitizeForUrl(s))
  {
  }

  /** A string is its own sanitized form exactly when it is already URL-safe. */
  lemma SanitizeFixpoint(s: string)
    ensures SanitizeForUrl(s) == s <==> IsUrlSafe(s)
  {
    if IsUrlSafe(s) {
      ToLowerCaseOfUrlSafe(s);
      KeepUrlCharsFixpoint(s);
    }
  }

  /** Sanitizing twice gives the same as sanitizing once. */
  lemma SanitizeIdempotent(s: string)
    ensures SanitizeForUrl(SanitizeForUrl(s)) == SanitizeForUrl(s)
  {
    SanitizeFixpoint(SanitizeForUrl(s));
  }

  /** Sanitizing works character by character, so it distributes over concatenation. */
  lemma SanitizeAppend(a: string, b: string)
    ensures SanitizeForUrl(a + b) == SanitizeForUrl(a) + SanitizeForUrl(b)
  {
    ToLowerCaseAppend(a, b);
    KeepUrlCharsAppend(ToLowerCase(a), ToLowerCase(b));
  }

  /** Per character: capitals become their small letter, URL characters stay, the rest vanish. */
  lemma SanitizeChar(c: char)
    ensures 'A' <= c <= 'Z' ==> SanitizeForUrl([c]) == [(c as int + 32) as char]
    ensures IsUrlChar(c) ==> SanitizeForUrl([c]) == [c]
    ensures c == '\U{212A}' ==> SanitizeForUrl([c]) == "k"
    ensures c == '\U{0130}' ==> SanitizeForUrl([c]) == "i"
    ensures !IsUrlChar(c) && !('A' <= c <= 'Z') && c != '\U{212A}' && c != '\U{0130}' ==>
              SanitizeForUrl([c]) == []
  {
    assert ToLowerCase([c]) == LowerChar(c) + ToLowerCase([]) by {
      assert [c][1..] == [];
    }
    assert ToLowerCase([c]) == LowerChar(c);
    if c == '\U{0130}' {
      var dot := '\U{0307}';
      assert LowerChar(c) == ['i', dot];
      assert !IsUrlChar(dot);
      assert KeepUrlChars([dot]) == [] by { assert [dot][1..] == []; }
      assert KeepUrlChars(['i', dot]) == ['i'] + KeepUrlChars([dot]) by {
        assert ['i', dot][1..] == [dot];
      }
    }
  }
}
