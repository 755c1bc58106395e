/** Strings as the program's standard libraries treat them. */
module Text {

  // Letters outside ASCII keep their case here; none of the texts searched for contains any.
  function ToLower(s: string): (r: string)
    ensures |r| == |s|
  {
    seq(|s|, i requires 0 <= i < |s| => if 'A' <= s[i] <= 'Z' then s[i] - 'A' + 'a' else s[i])
  }

  /** Capital letters become small ones, and all else stays. */
  lemma LowerCases(s: string, i: nat)
    requires i < |s|
    ensures 'A' <= s[i] <= 'Z' ==> ToLower(s)[i] as int == s[i] as int + 32 && 'a' <= ToLower(s)[i] <= 'z'
    ensures !('A' <= s[i] <= 'Z') ==> ToLower(s)[i] == s[i]
  {
  }

  predicate Contains(s: string, part: string) {
    |part| <= |s| && (s[..|part|] == part || Contains(s[1..], part))
  }

  /** `part` occurs in `s`, whatever the case of its letters. */
  predicate Mentions(s: string, part: string) {
    Contains(ToLower(s), part)
  }

  lemma {:induction false} ContainedOccurs(s: string, part: string) returns (a: string, b: string)
    requires Contains(s, part)
    ensures s == a + part + b
  {
    if s[..|part|] == part {
      a, b := "", s[|part|..];
    } else {
      a, b := ContainedOccurs(s[1..], part);
      a := [s[0]] + a;
    }
  }

  lemma {:induction false} OccursIsContained(a: string, part: string, b: string)
    ensures Contains(a + part + b, part)
  {
    var s := a + part + b;
    if a == "" {
      assert s[..|part|] == part;
    } else {
      assert s[1..] == a[1..] + part + b;
      OccursIsContained(a[1..], part, b);
    }
  }

  lemma ContainsMeansOccurs(s: string, part: string)
    ensures Contains(s, part) <==> exists a, b :: s == a + part + b
  {
    if Contains(s, part) {
      var a, b := ContainedOccurs(s, part);
    }
    if a, b :| s == a + part + b {
      OccursIsContained(a, part, b);
    }
  }

  ghost predicate Occurs(part: string, s: string) {
    exists a, b :: s == a + part + b
  }

  lemma MentionsIff(s: string, part: string)
    ensures Mentions(s, part) <==> Occurs(part, ToLower(s))
  {
    ContainsMeansOccurs(ToLower(s), part);
  }

  // -- trimming -----------------------------------------------------------------------------------------

  /** White space that JavaScript's trim removes. */
  predicate IsWhite(c: char) {
    || c == ' ' || c == '\t' || c == '\n' || c == '\r' || c == '\U{000B}' || c == '\U{000C}' || c == '\U{00A0}'
    || c == '\U{1680}' || '\U{2000}' <= c <= '\U{200A}' || c == '\U{2028}' || c == '\U{2029}' || c == '\U{202F}'
    || c == '\U{205F}' || c == '\U{3000}' || c == '\U{FEFF}'
  }

  function TrimLeft(s: string, white: char -> bool): (r: string)
    ensures |r| <= |s|
  {
    if s != "" && white(s[0]) then TrimLeft(s[1..], white) else s
  }

  function TrimRight(s: string, white: char -> bool): (r: string)
    ensures |r| <= |s|
  {
    if s != "" && white(s[|s| - 1]) then TrimRight(s[..|s| - 1], white) else s
  }

  function Trim(s: string, white: char -> bool): (r: string)
    ensures |r| <= |s|
  {
    TrimRight(TrimLeft(s, white), white)
  }

  predicate AllWhite(s: string, white: char -> bool) {
    forall i | 0 <= i < |s| :: white(s[i])
  }

  /** Neither empty nor bounded by white space. */
  predicate Solid(s: string, white: char -> bool) {
    s != "" && !white(s[0]) && !white(s[|s| - 1])
  }

  lemma {:induction false} TrimLeftRemoves(l: string, s: string, white: char -> bool)
    requires AllWhite(l, white) && (s == "" || !white(s[0]))
    ensures TrimLeft(l + s, white) == s
  {
    if l == "" {
      assert l + s == s;
    } else {
      assert (l + s)[1..] == l[1..] + s;
      TrimLeftRemoves(l[1..], s, white);
    }
  }

  lemma {:induction false} TrimRightRemoves(s: string, r: string, white: char -> bool)
    requires AllWhite(r, white) && (s == "" || !white(s[|s| - 1]))
    ensures TrimRight(s + r, white) == s
  {
    if r == "" {
      assert s + r == s;
    } else {
      assert (s + r)[..|s + r| - 1] == s + r[..|r| - 1];
      TrimRightRemoves(s, r[..|r| - 1], white);
    }
  }

  /** Trimming takes off exactly the white space around a solid text. */
  lemma TrimRemoves(l: string, s: string, r: string, white: char -> bool)
    requires AllWhite(l, white) && AllWhite(r, white) && Solid(s, white)
    ensures Trim(l + s + r, white) == s
  {
    assert l + s + r == l + (s + r);
    TrimLeftRemoves(l, s + r, white);
    TrimRightRemoves(s, r, white);
  }

  lemma {:induction false} TrimLeftSplits(s: string, white: char -> bool) returns (l: string)
    ensures s == l + TrimLeft(s, white) && AllWhite(l, white)
    ensures TrimLeft(s, white) == "" || !white(TrimLeft(s, white)[0])
  {
    l := "";
    if s != "" && white(s[0]) {
      l := TrimLeftSplits(s[1..], white);
      l := [s[0]] + l;
    }
  }

  lemma {:induction false} TrimRightSplits(s: string, white: char -> bool) returns (r: string)
    ensures s == TrimRight(s, white) + r && AllWhite(r, white)
    ensures TrimRight(s, white) == "" || !white(TrimRight(s, white)[|TrimRight(s, white)| - 1])
  {
    r := "";
    if s != "" && white(s[|s| - 1]) {
      r := TrimRightSplits(s[..|s| - 1], white);
      r := r + [s[|s| - 1]];
    }
  }

  lemma TrimSplits(s: string, white: char -> bool) returns (l: string, r: string)
    ensures s == l + Trim(s, white) + r && AllWhite(l, white) && AllWhite(r, white)
    ensures Trim(s, white) == "" || Solid(Trim(s, white), white)
  {
    l := TrimLeftSplits(s, white);
    r := TrimRightSplits(TrimLeft(s, white), white);
    assert s == l + (Trim(s, white) + r);
    if Trim(s, white) != "" {
      assert Trim(s, white)[0] == TrimLeft(s, white)[0];
    }
  }
}
