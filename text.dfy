/**
 * The string operations the components rely on: `toLowerCase`, `includes`
 * and `startsWith` of JavaScript strings, over `seq<char>`.
 *
 * Letter case is modelled on ASCII only: 'A'..'Z' map to 'a'..'z' and every
 * other character is left alone.
 */
module Text {

  predicate IsUpper(c: char) {
    'A' <= c <= 'Z'
  }

  /** `toLowerCase` on one character (ASCII). */
  function ToLower(c: char): (r: char)
    ensures !IsUpper(r)
    ensures !IsUpper(c) ==> r == c
    ensures IsUpper(c) ==> r as int - c as int == 32
  {
    if IsUpper(c) then (c as int + 32) as char else c
  }

  /** `toUpperCase` on one character (ASCII); used to state case-insensitivity. */
  function ToUpper(c: char): (r: char)
    ensures !('a' <= r <= 'z')
    ensures !('a' <= c <= 'z') ==> r == c
  {
    if 'a' <= c <= 'z' then (c as int - 32) as char else c
  }

  lemma LowerOfUpper(c: char)
    ensures ToLower(ToUpper(c)) == ToLower(c)
  {
  }

  /** `s.toLowerCase()`. */
  function LowerCase(s: string): (r: string)
    ensures |r| == |s|
    ensures forall i | 0 <= i < |s| :: r[i] == ToLower(s[i])
  {
    if s == [] then [] else [ToLower(s[0])] + LowerCase(s[1..])
  }

  /** `s.toUpperCase()`. */
  function UpperCase(s: string): (r: string)
    ensures |r| == |s|
    ensures forall i | 0 <= i < |s| :: r[i] == ToUpper(s[i])
  {
    if s == [] then [] else [ToUpper(s[0])] + UpperCase(s[1..])
  }

  /** Lower-casing a string that is already lower case changes nothing. */
  lemma LowerCaseIdempotent(s: string)
    ensures LowerCase(LowerCase(s)) == LowerCase(s)
  {
  }

  /** Upper-casing first does not change the lower-cased form. */
  lemma LowerCaseOfUpperCase(s: string)
    ensures LowerCase(UpperCase(s)) == LowerCase(s)
  {
    forall i | 0 <= i < |s|
      ensures LowerCase(UpperCase(s))[i] == LowerCase(s)[i]
    {
      LowerOfUpper(s[i]);
    }
  }

  /** `s.startsWith(p)`: `p` occurs at position 0, and `s` is `p` followed by the rest. */
  predicate StartsWith(s: string, p: string)
    ensures StartsWith(s, p) <==> OccursAt(s, p, 0)
    ensures StartsWith(s, p) ==> s == p + s[|p|..]
  {
    |p| <= |s| && s[..|p|] == p
  }

  /** `s.includes(t)`: `t` starts at the first position of `s` or somewhere in its tail. */
  predicate Includes(s: string, t: string)
    decreases |s|
    ensures Includes(s, t) ==> |t| <= |s|
    ensures t == [] ==> Includes(s, t)
  {
    StartsWith(s, t) || (s != [] && Includes(s[1..], t))
  }

  /** `t` occurs in `s` at position `i`: the independent definition of `Includes`. */
  ghost predicate OccursAt(s: string, t: string, i: int) {
    0 <= i && i + |t| <= |s| && s[i..i + |t|] == t
  }

  /** An occurrence at any position is found by `Includes`. */
  lemma {:induction false} OccurrenceIsIncluded(s: string, t: string, i: int)
    requires OccursAt(s, t, i)
    ensures Includes(s, t)
    decreases i
  {
    if i > 0 {
      assert s[1..][i - 1..i - 1 + |t|] == s[i..i + |t|];
      OccurrenceIsIncluded(s[1..], t, i - 1);
    }
  }

  /** Whatever `Includes` accepts occurs at some position. */
  lemma {:induction false} IncludedOccurs(s: string, t: string)
    requires Includes(s, t)
    ensures exists i :: OccursAt(s, t, i)
    decreases |s|
  {
    if StartsWith(s, t) {
      assert OccursAt(s, t, 0);
    } else {
      IncludedOccurs(s[1..], t);
      var i :| OccursAt(s[1..], t, i);
      assert s[1..][i..i + |t|] == s[i + 1..i + 1 + |t|];
      assert OccursAt(s, t, i + 1);
    }
  }

  /** `Includes` holds exactly when `t` occurs at some position of `s`. */
  lemma IncludesIffOccurs(s: string, t: string)
    ensures Includes(s, t) <==> exists i :: OccursAt(s, t, i)
  {
    if Includes(s, t) {
      IncludedOccurs(s, t);
    }
    if exists i :: OccursAt(s, t, i) {
      var i :| OccursAt(s, t, i);
      OccurrenceIsIncluded(s, t, i);
    }
  }
}
