/**
 * The string normalisations applied to handles and e-mails: the schema's
 * `trim` and `lowercase` setters, and the `slug` the registration handler
 * applies to the requested handle (ASCII letters and digits only).
 */
module Text {

  /** The characters JavaScript's `trim` removes: white space (tab,
      vertical tab, form feed, space, no-break space, byte-order mark and
      the Unicode space separators) and line terminators (line feed,
      carriage return, line and paragraph separators). */
  predicate IsSpace(c: char) {
    var n := c as int;
    || n == 0x09 || n == 0x0A || n == 0x0B || n == 0x0C || n == 0x0D
    || n == 0x20 || n == 0xA0 || n == 0x1680
    || (0x2000 <= n <= 0x200A)
    || n == 0x2028 || n == 0x2029 || n == 0x202F || n == 0x205F
    || n == 0x3000 || n == 0xFEFF
  }

  predicate IsUpper(c: char) {
    'A' <= c <= 'Z'
  }

  predicate IsLower(c: char) {
    'a' <= c <= 'z'
  }

  predicate IsDigit(c: char) {
    '0' <= c <= '9'
  }

  predicate IsAlnum(c: char) {
    IsUpper(c) || IsLower(c) || IsDigit(c)
  }

  function ToLower(c: char): (d: char)
    ensures !IsUpper(d)
    ensures IsSpace(d) <==> IsSpace(c)
    ensures IsUpper(c) ==> IsLower(d)
    ensures !IsUpper(c) ==> d == c
  {
    if IsUpper(c) then (c as int + 32) as char else c
  }

  /** The `lowercase` setter, on ASCII letters: no upper-case letter is
      left, each one becomes its lower-case counterpart, and every other
      character is kept in place. */
  function Lowercase(s: string): (r: string)
    ensures |r| == |s|
    ensures forall i :: 0 <= i < |r| ==> !IsUpper(r[i])
    ensures forall i :: 0 <= i < |s| && !IsUpper(s[i]) ==> r[i] == s[i]
    ensures forall i :: 0 <= i < |s| && IsUpper(s[i]) ==>
      IsLower(r[i]) && r[i] as int - s[i] as int == 'a' as int - 'A' as int
  {
    seq(|s|, i requires 0 <= i < |s| => ToLower(s[i]))
  }

  /** The first index at or after `i` that does not hold white space, or
      `|s|` when there is none. */
  function SkipLeading(s: string, i: nat): (j: nat)
    requires i <= |s|
    ensures i <= j <= |s|
    ensures forall k :: i <= k < j ==> IsSpace(s[k])
    ensures j < |s| ==> !IsSpace(s[j])
    decreases |s| - i
  {
    if i < |s| && IsSpace(s[i]) then SkipLeading(s, i + 1) else i
  }

  /** The end of `s[lo..hi]` once trailing white space is cut: every
      character from the result up to `hi` is white space, and the one
      just before it, if still above `lo`, is not. */
  function SkipTrailing(s: string, lo: nat, hi: nat): (j: nat)
    requires lo <= hi <= |s|
    ensures lo <= j <= hi
    ensures forall k :: j <= k < hi ==> IsSpace(s[k])
    ensures lo < j ==> !IsSpace(s[j - 1])
    decreases hi - lo
  {
    if lo < hi && IsSpace(s[hi - 1]) then SkipTrailing(s, lo, hi - 1) else hi
  }

  /** The `trim` setter: the result is a slice of `s` with only white
      space cut from either end, and none left at either end. */
  function Trim(s: string): (r: string)
    ensures |r| <= |s|
    ensures |r| > 0 ==> !IsSpace(r[0]) && !IsSpace(r[|r| - 1])
    ensures exists i, j ::
              && 0 <= i <= j <= |s| && r == s[i..j]
              && (forall k :: 0 <= k < i ==> IsSpace(s[k]))
              && (forall k :: j <= k < |s| ==> IsSpace(s[k]))
  {
    var i := SkipLeading(s, 0);
    var j := SkipTrailing(s, i, |s|);
    s[i..j]
  }

  /** What a schema path with both `trim` and `lowercase` stores. */
  function Canon(s: string): string {
    Lowercase(Trim(s))
  }

  /** `slug(h, '')` restricted to ASCII: letters are lowercased, digits
      kept, and every other character removed. */
  function Slug(s: string): (r: string)
    ensures |r| <= |s|
    ensures forall i :: 0 <= i < |r| ==> IsLower(r[i]) || IsDigit(r[i])
  {
    if |s| == 0 then []
    else (if IsAlnum(s[0]) then [ToLower(s[0])] else []) + Slug(s[1..])
  }

  /** A string that starts and ends with a non-space is its own trim. */
  lemma TrimKeepsUnpadded(s: string)
    requires |s| > 0 ==> !IsSpace(s[0]) && !IsSpace(s[|s| - 1])
    ensures Trim(s) == s
  {
  }

  /** A string without upper-case letters is its own lower-case form. */
  lemma LowercaseKeepsLower(s: string)
    requires forall i :: 0 <= i < |s| ==> !IsUpper(s[i])
    ensures Lowercase(s) == s
  {
  }

  /** Storing an already stored value changes nothing. */
  lemma CanonIdempotent(s: string)
    ensures Canon(Canon(s)) == Canon(s)
  {
    var t := Trim(s);
    var c := Lowercase(t);
    assert |c| > 0 ==> !IsSpace(c[0]) && !IsSpace(c[|c| - 1]);
    TrimKeepsUnpadded(c);
    LowercaseKeepsLower(c);
  }

  /** A slug already is in the form the schema stores. */
  lemma SlugIsCanonical(s: string)
    ensures Canon(Slug(s)) == Slug(s)
  {
    var h := Slug(s);
    TrimKeepsUnpadded(h);
    LowercaseKeepsLower(h);
  }

  /** Slugging a slug changes nothing. */
  lemma {:induction false} SlugIdempotent(s: string)
    ensures Slug(Slug(s)) == Slug(s)
    decreases |s|
  {
    if |s| > 0 {
      var rest := Slug(s[1..]);
      SlugIdempotent(s[1..]);
      if IsAlnum(s[0]) {
        var h := [ToLower(s[0])] + rest;
        assert h[1..] == rest;
        assert IsAlnum(h[0]) && ToLower(h[0]) == h[0];
      } else {
        assert Slug(s) == rest;
      }
    }
  }

  /** Slugging works character by character: the slug of a concatenation
      is the concatenation of the slugs. */
  lemma {:induction false} SlugAppend(a: string, b: string)
    ensures Slug(a + b) == Slug(a) + Slug(b)
    decreases |a|
  {
    if |a| == 0 {
      assert a + b == b;
    } else {
      assert (a + b)[0] == a[0];
      assert (a + b)[1..] == a[1..] + b;
      SlugAppend(a[1..], b);
    }
  }

  /** A letter or digit survives, lower-cased. */
  lemma SlugKeepsAlnum(c: char)
    requires IsAlnum(c)
    ensures Slug([c]) == [ToLower(c)]
  {
    assert [c][1..] == [];
  }

  /** Any other character is dropped. */
  lemma SlugDropsOther(c: char)
    requires !IsAlnum(c)
    ensures Slug([c]) == []
  {
    assert [c][1..] == [];
  }
}
