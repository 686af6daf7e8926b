/** Room codes as the server handles them: `createRoom` upper-cases the code
    it is given, `joinRoom` upper-cases and then trims it. Upper-casing is
    modelled for the ASCII letters; trimming removes the ECMAScript white
    space and line terminator characters. */
module RoomCode {

  /** The characters ECMAScript's `String.prototype.trim` removes: white
      space (TAB, VT, FF, SP, NBSP, ZWNBSP and the Zs separators) and the
      line terminators LF, CR, LS and PS. */
  predicate IsWhitespace(c: char)
  {
    var n := c as int;
    n == 0x09 || n == 0x0A || n == 0x0B || n == 0x0C || n == 0x0D || n == 0x20
    || n == 0xA0 || n == 0x1680 || (0x2000 <= n <= 0x200A) || n == 0x2028
    || n == 0x2029 || n == 0x202F || n == 0x205F || n == 0x3000 || n == 0xFEFF
  }

  predicate IsLower(c: char)
  {
    'a' <= c <= 'z'
  }

  /** No lower-case ASCII letter occurs in `s`. */
  predicate NoLower(s: string)
  {
    forall i :: 0 <= i < |s| ==> !IsLower(s[i])
  }

  function UpperChar(c: char): (u: char)
    ensures !IsLower(u)
    ensures IsLower(c) ==> u as int == c as int - 32
    ensures !IsLower(c) ==> u == c
  {
    if IsLower(c) then (c as int - 32) as char else c
  }

  /** `toUpperCase` on ASCII letters: every lower-case letter becomes its
      capital, every other character is kept. */
  function Upper(s: string): (u: string)
    ensures |u| == |s| && NoLower(u)
    ensures forall i :: 0 <= i < |s| && !IsLower(s[i]) ==> u[i] == s[i]
    ensures forall i :: 0 <= i < |s| && IsLower(s[i]) ==> u[i] as int == s[i] as int - 32
  {
    seq(|s|, i requires 0 <= i < |s| => UpperChar(s[i]))
  }

  /** Upper-casing changes nothing in a string without lower-case letters. */
  lemma UpperKeepsUpper(s: string)
    requires NoLower(s)
    ensures Upper(s) == s
  {
  }

  /** The number of white space characters `s` begins with. */
  function LeadingSpace(s: string): (n: nat)
    ensures n <= |s|
    ensures forall i :: 0 <= i < n ==> IsWhitespace(s[i])
    ensures n == |s| || !IsWhitespace(s[n])
  {
    if s != [] && IsWhitespace(s[0]) then 1 + LeadingSpace(s[1..]) else 0
  }

  /** The length of `s` without the white space it ends with. */
  function TrailingStart(s: string): (m: nat)
    ensures m <= |s|
    ensures forall i :: m <= i < |s| ==> IsWhitespace(s[i])
    ensures m == 0 || !IsWhitespace(s[m - 1])
  {
    if s != [] && IsWhitespace(s[|s| - 1]) then TrailingStart(s[..|s| - 1]) else |s|
  }

  /** `trim`: the part of `s` between its leading and its trailing white
      space. Only white space is removed, and the result neither begins nor
      ends with white space. */
  function Trim(s: string): (r: string)
    ensures LeadingSpace(s) + |r| <= |s| && r == s[LeadingSpace(s)..LeadingSpace(s) + |r|]
    ensures forall i :: 0 <= i < |s| && !IsWhitespace(s[i]) ==>
      LeadingSpace(s) <= i < LeadingSpace(s) + |r|
    ensures r == [] || (!IsWhitespace(r[0]) && !IsWhitespace(r[|r| - 1]))
  {
    var lo := LeadingSpace(s);
    if lo == |s| then [] else s[lo..TrailingStart(s)]
  }

  /** Trimming changes nothing in a string that starts and ends with a
      character that is not white space. */
  lemma TrimKeepsTrimmed(s: string)
    requires s == [] || (!IsWhitespace(s[0]) && !IsWhitespace(s[|s| - 1]))
    ensures Trim(s) == s
  {
  }

  /** The key `joinRoom` looks a room up by: `roomId.toUpperCase().trim()`. */
  function Normalize(roomId: string): (key: string)
    ensures NoLower(key)
    ensures key == [] || (!IsWhitespace(key[0]) && !IsWhitespace(key[|key| - 1]))
    ensures |key| <= |roomId|
  {
    Trim(Upper(roomId))
  }

  /** Normalising a key that is already normalised changes nothing. */
  lemma NormalizeIdempotent(roomId: string)
    ensures Normalize(Normalize(roomId)) == Normalize(roomId)
  {
    var key := Normalize(roomId);
    UpperKeepsUpper(key);
    TrimKeepsTrimmed(key);
  }

  /** `createRoom` stores a room under `Upper(code)` but `joinRoom` looks it
      up under `Normalize(code)`: the two agree exactly when the code does
      not begin or end with white space. */
  lemma JoinKeyMatchesCreateKey(code: string)
    ensures Normalize(code) == Upper(code)
        <==> code == [] || (!IsWhitespace(code[0]) && !IsWhitespace(code[|code| - 1]))
  {
    var u := Upper(code);
    if code != [] {
      assert IsWhitespace(u[0]) <==> IsWhitespace(code[0]);
      assert IsWhitespace(u[|u| - 1]) <==> IsWhitespace(code[|code| - 1]);
      if Normalize(code) == u {
        assert u != [];
      } else {
        if !IsWhitespace(code[0]) && !IsWhitespace(code[|code| - 1]) {
          TrimKeepsTrimmed(u);
        }
      }
    }
  }
}
