/** The string operations of .NET that the domain uses (String.IsNullOrWhiteSpace,
    Trim, ToUpperInvariant, ToLowerInvariant, Replace with a one-character
    pattern), restricted to ASCII. */
module Text {

  import opened Common

  /** char.IsWhiteSpace restricted to ASCII: tab, line feed, vertical tab,
      form feed, carriage return and space. */
  predicate IsWhiteSpace(c: char)
  {
    c == ' ' || '\t' <= c <= '\r'
  }

  /** String.IsNullOrWhiteSpace on a non-null string. */
  predicate IsBlank(s: string)
  {
    forall i :: 0 <= i < |s| ==> IsWhiteSpace(s[i])
  }

  /** Neither end of the string is white space. */
  predicate IsTrimmed(s: string)
  {
    s == [] || (!IsWhiteSpace(s[0]) && !IsWhiteSpace(s[|s| - 1]))
  }

  predicate IsLowerLetter(c: char) { 'a' <= c <= 'z' }

  predicate IsUpperLetter(c: char) { 'A' <= c <= 'Z' }

  /** No ASCII lower-case letter occurs in the string. */
  predicate HasNoLowerCase(s: string)
  {
    forall i :: 0 <= i < |s| ==> !IsLowerLetter(s[i])
  }

  /** No ASCII upper-case letter occurs in the string. */
  predicate HasNoUpperCase(s: string)
  {
    forall i :: 0 <= i < |s| ==> !IsUpperLetter(s[i])
  }

  /** The first index at or after `k` whose character is not white space,
      or |s| when there is none. */
  function SkipWhiteSpace(s: string, k: nat): (n: nat)
    requires k <= |s|
    ensures k <= n <= |s|
    ensures forall i :: k <= i < n ==> IsWhiteSpace(s[i])
    ensures n == |s| || !IsWhiteSpace(s[n])
    decreases |s| - k
  {
    if k < |s| && IsWhiteSpace(s[k]) then SkipWhiteSpace(s, k + 1) else k
  }

  /** The index just past the last character before `k` that is not white
      space, or 0 when there is none. */
  function SkipWhiteSpaceBack(s: string, k: nat): (n: nat)
    requires k <= |s|
    ensures n <= k
    ensures forall i :: n <= i < k ==> IsWhiteSpace(s[i])
    ensures n == 0 || !IsWhiteSpace(s[n - 1])
  {
    if k > 0 && IsWhiteSpace(s[k - 1]) then SkipWhiteSpaceBack(s, k - 1) else k
  }

  /** String.Trim: what lies between the leading and the trailing white
      space. The result is trimmed, the part of `s` left once a blank
      prefix and a blank suffix are removed, and empty exactly when `s` is
      blank. */
  function Trim(s: string): (r: string)
    ensures IsTrimmed(r)
    ensures |r| <= |s|
    ensures IsBlank(s) <==> r == []
    ensures exists i, j :: 0 <= i <= j <= |s| && r == s[i..j] && IsBlank(s[..i]) && IsBlank(s[j..])
  {
    var start := SkipWhiteSpace(s, 0);
    if start == |s| then
      assert s[start..start] == [] && IsBlank(s[..start]) && IsBlank(s[start..]);
      []
    else
      var end := SkipWhiteSpaceBack(s, |s|);
      assert !IsWhiteSpace(s[start]);
      assert IsBlank(s[..start]) && IsBlank(s[end..]);
      s[start..end]
  }

  /** `description?.Trim() ?? ""`: the trimmed description, or "" for
      null. */
  function TrimOrEmpty(s: Option<string>): (r: string)
    ensures IsTrimmed(r)
    ensures s.None? ==> r == []
    ensures s.Some? ==> r == Trim(s.value)
  {
    match s
    case None => ""
    case Some(t) => Trim(t)
  }

  function ToUpperChar(c: char): char
  {
    if IsLowerLetter(c) then (c as int - 32) as char else c
  }

  function ToLowerChar(c: char): char
  {
    if IsUpperLetter(c) then (c as int + 32) as char else c
  }

  /** ToUpperInvariant: every letter is upper-cased, nothing else moves. */
  function ToUpper(s: string): (r: string)
    ensures |r| == |s|
    ensures forall i :: 0 <= i < |s| ==> r[i] == ToUpperChar(s[i])
  {
    seq(|s|, i requires 0 <= i < |s| => ToUpperChar(s[i]))
  }

  /** ToLowerInvariant: every letter is lower-cased, nothing else moves. */
  function ToLower(s: string): (r: string)
    ensures |r| == |s|
    ensures forall i :: 0 <= i < |s| ==> r[i] == ToLowerChar(s[i])
  {
    seq(|s|, i requires 0 <= i < |s| => ToLowerChar(s[i]))
  }

  /** String.Replace with a one-character pattern: every occurrence of `c`
      becomes `rep`; characters other than `c` are kept, and no character
      appears that was neither in `s` nor in `rep`. */
  function ReplaceChar(s: string, c: char, rep: string): string
  {
    if s == [] then []
    else (if s[0] == c then rep else [s[0]]) + ReplaceChar(s[1..], c, rep)
  }

  /** What ReplaceChar keeps and what it brings in: every other character
      survives, only they and the replacement's characters occur in the
      result, and a string without `c` is returned as it is. */
  lemma {:induction false} ReplaceCharMembers(s: string, c: char, rep: string)
    ensures forall x :: x != c && x in s ==> x in ReplaceChar(s, c, rep)
    ensures forall x :: x in ReplaceChar(s, c, rep) ==> (x in s && x != c) || x in rep
    ensures c !in s ==> ReplaceChar(s, c, rep) == s
    decreases |s|
  {
    if s != [] {
      ReplaceCharMembers(s[1..], c, rep);
      assert s == [s[0]] + s[1..];
    }
  }

  /** ToLower works character by character, so it distributes over
      concatenation. */
  lemma ToLowerAppend(a: string, b: string)
    ensures ToLower(a + b) == ToLower(a) + ToLower(b)
  {
  }

  /** So does ReplaceChar. */
  lemma {:induction false} ReplaceCharAppend(a: string, b: string, c: char, rep: string)
    ensures ReplaceChar(a + b, c, rep) == ReplaceChar(a, c, rep) + ReplaceChar(b, c, rep)
    decreases |a|
  {
    if a != [] {
      assert (a + b)[1..] == a[1..] + b;
      ReplaceCharAppend(a[1..], b, c, rep);
    } else {
      assert a + b == b;
    }
  }

  /** Trimming a trimmed string changes nothing. */
  lemma TrimOfTrimmed(s: string)
    requires IsTrimmed(s)
    ensures Trim(s) == s
  {
  }

  /** Trim is idempotent. */
  lemma TrimIdempotent(s: string)
    ensures Trim(Trim(s)) == Trim(s)
  {
  }

  lemma ToUpperHasNoLowerCase(s: string)
    ensures HasNoLowerCase(ToUpper(s))
  {
  }

  lemma ToLowerHasNoUpperCase(s: string)
    ensures forall c :: c in ToLower(s) ==> !IsUpperLetter(c)
  {
  }

  /** ToUpper changes nothing in a string without lower-case letters. */
  lemma ToUpperOfUpper(s: string)
    requires HasNoLowerCase(s)
    ensures ToUpper(s) == s
  {
  }

  /** Upper-casing keeps white space where it was, so a string is blank
      exactly when its upper-case form is, and stays trimmed. */
  lemma ToUpperKeepsWhiteSpace(s: string)
    ensures IsBlank(ToUpper(s)) <==> IsBlank(s)
    ensures IsTrimmed(s) ==> IsTrimmed(ToUpper(s))
  {
  }
}
