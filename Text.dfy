/** The string operations the pages apply to user input and role values:
    `toLowerCase` (ASCII letters only), `trim` (the ECMAScript white-space and
    line-terminator set), `includes`, and the UTF-16 length that `.length`
    and zod's `min` count. */
module Text {

  predicate IsUpperAscii(c: char) {
    'A' <= c <= 'Z'
  }

  /** One character lowered; only 'A'..'Z' change. */
  function LowerChar(c: char): (d: char)
    ensures IsUpperAscii(c) ==> d as int == c as int + 32
    ensures !IsUpperAscii(c) ==> d == c
  {
    if IsUpperAscii(c) then (c as int + 32) as char else c
  }

  /** `s.toLowerCase()`, restricted to ASCII letters. */
  function Lower(s: string): (r: string)
    ensures |r| == |s|
  {
    if s == [] then [] else [LowerChar(s[0])] + Lower(s[1..])
  }

  /** Lowering maps every character on its own and leaves no ASCII capital. */
  lemma {:induction false} LowerShape(s: string)
    ensures forall i :: 0 <= i < |s| ==> Lower(s)[i] == LowerChar(s[i])
    ensures forall i :: 0 <= i < |s| ==> !IsUpperAscii(Lower(s)[i])
  {
    if s != [] {
      LowerShape(s[1..]);
      assert Lower(s) == [LowerChar(s[0])] + Lower(s[1..]);
    }
  }

  lemma LowerAppend(a: string, b: string)
    ensures Lower(a + b) == Lower(a) + Lower(b)
  {
    LowerShape(a + b);
    LowerShape(a);
    LowerShape(b);
  }

  /** Lowering twice is lowering once. */
  lemma LowerIdempotent(s: string)
    ensures Lower(Lower(s)) == Lower(s)
  {
    LowerShape(s);
    LowerShape(Lower(s));
  }

  /** A string without ASCII capitals is its own lower case. */
  lemma LowerFixesLowercase(s: string)
    requires forall i :: 0 <= i < |s| ==> !IsUpperAscii(s[i])
    ensures Lower(s) == s
  {
    LowerShape(s);
  }

  /** The characters `String.prototype.trim` removes: ECMAScript WhiteSpace
      (tab, vertical tab, form feed, space, no-break space, byte-order mark
      and the Unicode space separators) and LineTerminator (LF, CR, U+2028,
      U+2029). */
  predicate IsJsSpace(c: char) {
    || c == '\t' || c == '\n' || c == '\U{000B}' || c == '\U{000C}' || c == '\r'
    || c == ' ' || c == '\U{00A0}' || c == '\U{1680}'
    || ('\U{2000}' <= c <= '\U{200A}')
    || c == '\U{2028}' || c == '\U{2029}' || c == '\U{202F}' || c == '\U{205F}'
    || c == '\U{3000}' || c == '\U{FEFF}'
  }

  /** The role names the screens compare with are their own lower case. */
  lemma LowerFixesRoleName(s: string)
    requires s in {"unassigned", "admin", "hr", "employee", "accounts"}
    ensures Lower(s) == s
  {
    if s == "unassigned" {
      LowerFixesLowercase("unassigned");
    } else if s == "admin" {
      LowerFixesLowercase("admin");
    } else if s == "hr" {
      LowerFixesLowercase("hr");
    } else if s == "employee" {
      LowerFixesLowercase("employee");
    } else {
      LowerFixesLowercase("accounts");
    }
  }

  lemma LowerFixesRoleNames()
    ensures Lower("unassigned") == "unassigned" && Lower("admin") == "admin" && Lower("hr") == "hr"
    ensures Lower("employee") == "employee" && Lower("accounts") == "accounts"
  {
    LowerFixesRoleName("unassigned");
    LowerFixesRoleName("admin");
    LowerFixesRoleName("hr");
    LowerFixesRoleName("employee");
    LowerFixesRoleName("accounts");
  }

  /** A white-space character is not an ASCII capital, so lowering keeps it. */
  lemma SpaceIsNotUpper(c: char)
    requires IsJsSpace(c)
    ensures !IsUpperAscii(c) && LowerChar(c) == c
  {
  }

  /** `s` with its leading white space removed. */
  function TrimStart(s: string): (r: string)
    ensures |r| <= |s|
  {
    if s != [] && IsJsSpace(s[0]) then TrimStart(s[1..]) else s
  }

  /** What `TrimStart` keeps is a suffix of `s`, everything before it is
      white space, and it does not start with white space. */
  lemma {:induction false} TrimStartShape(s: string)
    ensures TrimStart(s) == s[|s| - |TrimStart(s)|..]
    ensures forall i :: 0 <= i < |s| - |TrimStart(s)| ==> IsJsSpace(s[i])
    ensures TrimStart(s) != [] ==> !IsJsSpace(TrimStart(s)[0])
  {
    if s != [] && IsJsSpace(s[0]) {
      TrimStartShape(s[1..]);
    }
  }

  /** `s` with its trailing white space removed. */
  function TrimEnd(s: string): (r: string)
    ensures |r| <= |s|
  {
    if s != [] && IsJsSpace(s[|s| - 1]) then TrimEnd(s[..|s| - 1]) else s
  }

  /** What `TrimEnd` keeps is a prefix of `s`, everything after it is white
      space, and it does not end with white space. */
  lemma {:induction false} TrimEndShape(s: string)
    ensures TrimEnd(s) == s[..|TrimEnd(s)|]
    ensures forall i :: |TrimEnd(s)| <= i < |s| ==> IsJsSpace(s[i])
    ensures TrimEnd(s) != [] ==> !IsJsSpace(TrimEnd(s)[|TrimEnd(s)| - 1])
  {
    if s != [] && IsJsSpace(s[|s| - 1]) {
      TrimEndShape(s[..|s| - 1]);
    }
  }

  /** `s.trim()`. */
  function Trim(s: string): string {
    TrimEnd(TrimStart(s))
  }

  /** Where the text `trim` keeps begins: the length of the leading white space. */
  function TrimOffset(s: string): (i: nat)
    ensures i <= |s|
  {
    |s| - |TrimStart(s)|
  }

  /** What `trim` keeps: the slice of `s` between two white-space runs, which
      neither starts nor ends with white space. */
  lemma TrimIsInnerSlice(s: string)
    ensures TrimOffset(s) + |Trim(s)| <= |s|
    ensures Trim(s) == s[TrimOffset(s)..TrimOffset(s) + |Trim(s)|]
    ensures forall k :: 0 <= k < TrimOffset(s) ==> IsJsSpace(s[k])
    ensures forall k :: TrimOffset(s) + |Trim(s)| <= k < |s| ==> IsJsSpace(s[k])
    ensures Trim(s) != [] ==> !IsJsSpace(Trim(s)[0]) && !IsJsSpace(Trim(s)[|Trim(s)| - 1])
  {
    var t := TrimStart(s);
    var r := TrimEnd(t);
    var i := TrimOffset(s);
    TrimStartShape(s);
    TrimEndShape(t);
    assert r == Trim(s);
    assert t == s[i..];
    assert r == t[..|r|];
    assert r == s[i..i + |r|];
    forall k | i + |r| <= k < |s| ensures IsJsSpace(s[k]) {
      assert |r| <= k - i < |t|;
      assert s[k] == t[k - i];
    }
  }

  /** `trim` yields the empty string exactly when every character is white space. */
  lemma TrimEmptyIff(s: string)
    ensures Trim(s) == [] <==> forall i :: 0 <= i < |s| ==> IsJsSpace(s[i])
  {
    TrimIsInnerSlice(s);
  }

  /** A string that neither starts nor ends with white space is unchanged by `trim`. */
  lemma TrimFixesUnpadded(s: string)
    requires s != [] ==> !IsJsSpace(s[0]) && !IsJsSpace(s[|s| - 1])
    ensures Trim(s) == s
  {
  }

  /** `trim` is idempotent. */
  lemma TrimIdempotent(s: string)
    ensures Trim(Trim(s)) == Trim(s)
  {
    TrimIsInnerSlice(s);
    TrimFixesUnpadded(Trim(s));
  }

  /** `part` occurs in `s` starting at index `i`. */
  predicate OccursAt(s: string, part: string, i: int) {
    0 <= i && i + |part| <= |s| && s[i..i + |part|] == part
  }

  /** `s.includes(part)`. */
  function Contains(s: string, part: string): (b: bool)
    ensures b <==> exists i :: OccursAt(s, part, i)
    decreases |s|
  {
    if |part| > |s| then
      assert forall i :: !OccursAt(s, part, i);
      false
    else if s[..|part|] == part then
      assert OccursAt(s, part, 0);
      true
    else
      var b := Contains(s[1..], part);
      assert forall i :: OccursAt(s[1..], part, i) <==> OccursAt(s, part, i + 1) by {
        forall i ensures OccursAt(s[1..], part, i) <==> OccursAt(s, part, i + 1) {
          if 0 <= i && i + |part| <= |s[1..]| {
            assert s[1..][i..i + |part|] == s[i + 1..i + 1 + |part|];
          }
        }
      }
      assert !OccursAt(s, part, 0);
      assert (exists i :: OccursAt(s, part, i)) ==> exists i :: OccursAt(s[1..], part, i) by {
        if exists i :: OccursAt(s, part, i) {
          var i :| OccursAt(s, part, i);
          assert OccursAt(s[1..], part, i - 1);
        }
      }
      b
  }

  /** The number of UTF-16 code units of `s` (JavaScript's `length`): one per
      character of the Basic Multilingual Plane, two per character above it. */
  function Utf16Length(s: string): (n: nat)
    ensures |s| <= n <= 2 * |s|
  {
    if s == [] then 0
    else (if s[0] as int > 0xFFFF then 2 else 1) + Utf16Length(s[1..])
  }

  /** For text within the Basic Multilingual Plane the two lengths agree. */
  lemma {:induction false} Utf16LengthInBmp(s: string)
    requires forall i :: 0 <= i < |s| ==> s[i] as int <= 0xFFFF
    ensures Utf16Length(s) == |s|
  {
    if s != [] {
      Utf16LengthInBmp(s[1..]);
    }
  }
}
