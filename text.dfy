/** The string operations the clients and the backend rely on:
    `toLowerCase`, `includes`, `startsWith` and `trim`, modelled on
    `seq<char>`. */
module Text {

  /** Lower-cases one character; only the ASCII letters A-Z are mapped. */
  function LowerChar(c: char): char {
    if 'A' <= c <= 'Z' then (c as int + 32) as char else c
  }

  function Lower(s: string): string {
    seq(|s|, i requires 0 <= i < |s| => LowerChar(s[i]))
  }

  /** `p` is a prefix of `s` (`s.startsWith(p)`). */
  predicate StartsWith(s: string, p: string) {
    |p| <= |s| && s[..|p|] == p
  }

  /** `sub` occurs in `s` starting at index `i`. */
  ghost predicate OccursAt(s: string, sub: string, i: int) {
    0 <= i && i + |sub| <= |s| && s[i..i + |sub|] == sub
  }

  /** `s.includes(sub)`: scans the start positions of `s` from left to right. */
  predicate Includes(s: string, sub: string)
    decreases |s|
  {
    StartsWith(s, sub) || (s != [] && Includes(s[1..], sub))
  }

  /** `Includes` holds exactly when `sub` occurs at some position of `s`. */
  lemma {:induction false} IncludesIff(s: string, sub: string)
    ensures Includes(s, sub) <==> exists i :: OccursAt(s, sub, i)
    decreases |s|
  {
    if StartsWith(s, sub) {
      assert OccursAt(s, sub, 0);
    }
    if s != [] {
      IncludesIff(s[1..], sub);
      if Includes(s[1..], sub) {
        var i :| OccursAt(s[1..], sub, i);
        assert s[1..][i..i + |sub|] == s[i + 1..i + 1 + |sub|];
        assert OccursAt(s, sub, i + 1);
      }
      if exists i :: OccursAt(s, sub, i) {
        var i :| OccursAt(s, sub, i);
        if i > 0 {
          assert s[1..][i - 1..i - 1 + |sub|] == s[i..i + |sub|];
          assert OccursAt(s[1..], sub, i - 1);
        } else {
          assert StartsWith(s, sub);
        }
      }
    } else {
      if exists i :: OccursAt(s, sub, i) {
        var i :| OccursAt(s, sub, i);
        assert sub == [];
        assert StartsWith(s, sub);
      }
    }
  }

  /** A string that lacks some character of `sub` does not include `sub`. */
  lemma MissingCharNotIncluded(s: string, sub: string, c: char)
    requires c in sub && c !in s
    ensures !Includes(s, sub)
  {
    IncludesIff(s, sub);
    var k :| 0 <= k < |sub| && sub[k] == c;
    forall i | 0 <= i
      ensures !OccursAt(s, sub, i)
    {
      if i + |sub| <= |s| {
        assert s[i..i + |sub|][k] == s[i + k] != c;
      }
    }
  }

  /** Every string includes the empty string. */
  lemma IncludesEmpty(s: string)
    ensures Includes(s, "")
  {
  }

  /** A station name matches a search text when the lower-cased name
      includes the lower-cased text. */
  predicate NameMatches(name: string, query: string) {
    Includes(Lower(name), Lower(query))
  }

  /** The empty search text matches every name. */
  lemma EmptyQueryMatches(name: string)
    ensures NameMatches(name, "")
  {
    assert Lower("") == "";
    IncludesEmpty(Lower(name));
  }

  /** The characters `String.prototype.trim` removes: the ECMAScript
      WhiteSpace code points (tab, vertical tab, form feed, space, no-break
      space, byte order mark and the Unicode space separators) and the
      LineTerminator code points. */
  predicate IsJsWhitespace(c: char) {
    var n := c as int;
    n == 0x09 || n == 0x0B || n == 0x0C || n == 0x20 || n == 0xA0 || n == 0xFEFF
    || n == 0x1680 || (0x2000 <= n <= 0x200A) || n == 0x202F || n == 0x205F || n == 0x3000
    || n == 0x0A || n == 0x0D || n == 0x2028 || n == 0x2029
  }

  function TrimStart(s: string): (r: string)
    ensures |r| <= |s|
  {
    if s != [] && IsJsWhitespace(s[0]) then TrimStart(s[1..]) else s
  }

  function TrimEnd(s: string): (r: string)
    ensures |r| <= |s|
  {
    if s != [] && IsJsWhitespace(s[|s| - 1]) then TrimEnd(s[..|s| - 1]) else s
  }

  /** `s.trim()`. */
  function Trim(s: string): string {
    TrimEnd(TrimStart(s))
  }

  /** Every character of `s` is whitespace. */
  ghost predicate AllWhitespace(s: string) {
    forall i :: 0 <= i < |s| ==> IsJsWhitespace(s[i])
  }

  lemma {:induction false} TrimStartEmptyIff(s: string)
    ensures TrimStart(s) == [] <==> AllWhitespace(s)
    decreases |s|
  {
    if s != [] {
      TrimStartEmptyIff(s[1..]);
      if IsJsWhitespace(s[0]) {
        if AllWhitespace(s[1..]) {
          forall i | 0 <= i < |s| ensures IsJsWhitespace(s[i]) {
            if i > 0 { assert s[i] == s[1..][i - 1]; }
          }
        } else {
          var j :| 0 <= j < |s[1..]| && !IsJsWhitespace(s[1..][j]);
          assert !IsJsWhitespace(s[j + 1]);
        }
      }
    }
  }

  /** Trimming the end leaves a non-empty string non-empty when it starts
      with a character that is not whitespace. */
  lemma {:induction false} TrimEndKeepsHead(s: string)
    requires s != [] && !IsJsWhitespace(s[0])
    ensures TrimEnd(s) != [] && TrimEnd(s)[0] == s[0]
    decreases |s|
  {
    if IsJsWhitespace(s[|s| - 1]) {
      assert |s| > 1;
      TrimEndKeepsHead(s[..|s| - 1]);
    }
  }

  lemma {:induction false} TrimStartHead(s: string)
    requires TrimStart(s) != []
    ensures !IsJsWhitespace(TrimStart(s)[0])
    decreases |s|
  {
    if s != [] && IsJsWhitespace(s[0]) {
      TrimStartHead(s[1..]);
    }
  }

  /** `s.trim()` is the empty string exactly when `s` consists of whitespace
      only, so a string is blank after trimming iff it has no other
      character. */
  lemma TrimEmptyIff(s: string)
    ensures Trim(s) == "" <==> AllWhitespace(s)
  {
    TrimStartEmptyIff(s);
    if TrimStart(s) != [] {
      TrimStartHead(s);
      TrimEndKeepsHead(TrimStart(s));
    }
  }
}
