/** The short names under which colleges are found: made from a college's name, and unique. */
module Slug {
  import opened Text
  import opened Matching

  predicate SlugChar(c: char) {
    'a' <= c <= 'z' || '0' <= c <= '9'
  }

  predicate IsDash(c: char) {
    c == '-'
  }

  // -- slugify --------------------------------------------------------------------------------------------

  // The length of the run of characters at the start that may stand in a slug, or that may not.
  function Run(s: string, good: bool): (n: nat)
    ensures n <= |s|
    ensures n < |s| ==> SlugChar(s[n]) != good
  {
    if s != "" && SlugChar(s[0]) == good then Run(s[1..], good) + 1 else 0
  }

  /** Every run of characters that may not stand in a slug becomes one dash. */
  function Dashed(s: string): string {
    if s == "" then ""
    else if SlugChar(s[0]) then [s[0]] + Dashed(s[1..])
    else "-" + Dashed(s[Run(s[1..], false) + 1..])
  }

  /** `lower` is the language's lower-casing, which also changes letters outside ASCII. */
  function Slugify(name: string, lower: string -> string): string {
    var base := Trim(Dashed(Trim(lower(name), IsWhite)), IsDash);
    if base == "" then "college" else base
  }

  // -- what a slug is -------------------------------------------------------------------------------------

  predicate Word(w: string) {
    w != "" && forall i | 0 <= i < |w| :: SlugChar(w[i])
  }

  predicate AllWords(ws: seq<string>) {
    forall i | 0 <= i < |ws| :: Word(ws[i])
  }

  /** The longest runs of letters and digits, in order. */
  function Words(s: string): seq<string>
    decreases |s|
  {
    if s == "" then []
    else
      var n := Run(s, true);
      if n == 0 then Words(s[1..]) else [s[..n]] + Words(s[n..])
  }

  function Join(ws: seq<string>): string {
    if |ws| == 0 then ""
    else if |ws| == 1 then ws[0]
    else ws[0] + "-" + Join(ws[1..])
  }

  /** Letters and digits, with single dashes between them. */
  predicate IsSlug(s: string) {
    && s != "" && s[0] != '-' && s[|s| - 1] != '-'
    && (forall i | 0 <= i < |s| :: SlugChar(s[i]) || s[i] == '-')
    && NoDoubledDash(s)
  }

  predicate NoDoubledDash(s: string) {
    forall i | 0 < i < |s| && s[i] == '-' :: s[i - 1] != '-'
  }

  // Lower-casing leaves texts alone that hold small letters, digits and dashes only.
  ghost predicate LowerKeepsSlugs(lower: string -> string) {
    forall s: string | IsSlug(s) :: lower(s) == s
  }

  // -- proofs ---------------------------------------------------------------------------------------------

  lemma {:induction false} RunIs(a: string, b: string, good: bool)
    requires forall i | 0 <= i < |a| :: SlugChar(a[i]) == good
    requires b != "" ==> SlugChar(b[0]) != good
    ensures Run(a + b, good) == |a|
  {
    if a == "" {
      assert a + b == b;
    } else {
      assert (a + b)[1..] == a[1..] + b;
      RunIs(a[1..], b, good);
    }
  }

  lemma {:induction false} RunHolds(s: string, good: bool)
    ensures forall i | 0 <= i < Run(s, good) :: SlugChar(s[i]) == good
  {
    if s == "" || SlugChar(s[0]) != good {
    } else {
      RunHolds(s[1..], good);
      forall i | 0 <= i < Run(s, good) ensures SlugChar(s[i]) == good {
        if i > 0 {
          assert s[i] == s[1..][i - 1];
        }
      }
    }
  }

  lemma {:induction false} WordsAreWords(s: string)
    ensures AllWords(Words(s))
    decreases |s|
  {
    if s == "" {
    } else {
      var n := Run(s, true);
      RunHolds(s, true);
      WordsAreWords(if n == 0 then s[1..] else s[n..]);
    }
  }

  lemma {:induction false} WordsSkipLeft(l: string, s: string)
    requires forall i | 0 <= i < |l| :: !SlugChar(l[i])
    ensures Words(l + s) == Words(s)
  {
    if l == "" {
      assert l + s == s;
    } else {
      assert (l + s)[1..] == l[1..] + s;
      WordsSkipLeft(l[1..], s);
    }
  }

  lemma {:induction false} WordsSkipRight(s: string, r: string)
    requires forall i | 0 <= i < |r| :: !SlugChar(r[i])
    ensures Words(s + r) == Words(s)
    decreases |s|
  {
    if s == "" {
      assert s + r == r + "";
      WordsSkipLeft(r, "");
    } else {
      var n := Run(s, true);
      RunHolds(s, true);
      assert s + r == s[..n] + (s[n..] + r);
      RunIs(s[..n], s[n..] + r, true);
      if n == 0 {
        assert (s + r)[1..] == s[1..] + r;
        WordsSkipRight(s[1..], r);
      } else {
        assert (s + r)[n..] == s[n..] + r && (s + r)[..n] == s[..n];
        WordsSkipRight(s[n..], r);
      }
    }
  }

  lemma {:induction false} DashedKeepsWord(w: string, s: string)
    requires forall i | 0 <= i < |w| :: SlugChar(w[i])
    ensures Dashed(w + s) == w + Dashed(s)
  {
    if w == "" {
      assert w + s == s;
    } else {
      assert (w + s)[1..] == w[1..] + s;
      DashedKeepsWord(w[1..], s);
    }
  }

  lemma RestStarts(s: string, good: bool) returns (a: string, b: string)
    requires s != "" && SlugChar(s[0]) == good
    ensures s == a + b && a != "" && |a| == Run(s, good)
    ensures forall i | 0 <= i < |a| :: SlugChar(a[i]) == good
    ensures b != "" ==> SlugChar(b[0]) != good
  {
    RunHolds(s, good);
    a, b := s[..Run(s, good)], s[Run(s, good)..];
  }

  lemma WordFirst(w: string, s: string)
    requires Word(w) && (s != "" ==> !SlugChar(s[0]))
    ensures Words(w + s) == [w] + Words(s)
  {
    RunIs(w, s, true);
    assert (w + s)[..|w|] == w && (w + s)[|w|..] == s;
  }

  lemma OthersFirst(d: string, s: string)
    requires d != "" && (forall i | 0 <= i < |d| :: !SlugChar(d[i])) && (s != "" ==> SlugChar(s[0]))
    ensures Dashed(d + s) == "-" + Dashed(s)
  {
    assert (d + s)[1..] == d[1..] + s;
    RunIs(d[1..], s, false);
    assert (d + s)[|d|..] == s;
  }

  // Dashing joins the words of `s`, with dashes `l` before and `r` after where it does not begin or end in one.
  ghost predicate Framed(s: string, l: string, r: string) {
    && Dashed(s) == l + Join(Words(s)) + r && AllWhite(r, IsDash)
    && l == if s != "" && !SlugChar(s[0]) then "-" else ""
  }

  lemma JoinFirst(w: string, ws: seq<string>)
    requires ws != []
    ensures Join([w] + ws) == w + "-" + Join(ws)
  {
    assert ([w] + ws)[1..] == ws;
  }

  lemma Regroup(w: string, x: string, y: string, z: string)
    ensures w + (x + y + z) == (w + x + y) + z
  {
  }

  lemma AddDashes(w: string, l: string, r: string)
    ensures w + (l + "" + r) == "" + w + (l + r)
  {
  }

  lemma FrameLastWord(w: string, s: string, l: string, r: string)
    requires Word(w) && (s != "" ==> !SlugChar(s[0])) && Framed(s, l, r) && Words(s) == []
    ensures Framed(w + s, "", l + r)
  {
    DashedKeepsWord(w, s);
    WordFirst(w, s);
    AddDashes(w, l, r);
    var ws := Words(w + s);
    assert Join(ws) == w && Join(Words(s)) == "";
    assert (w + s)[0] == w[0];
  }

  lemma FrameWord(w: string, s: string, l: string, r: string)
    requires Word(w) && s != "" && !SlugChar(s[0]) && Framed(s, l, r) && Words(s) != []
    ensures Framed(w + s, "", r)
  {
    DashedKeepsWord(w, s);
    WordFirst(w, s);
    JoinFirst(w, Words(s));
    Regroup(w, "-", Join(Words(s)), r);
    var joined := Join(Words(w + s));
    assert "" + joined == joined;
    assert (w + s)[0] == w[0];
  }

  lemma FrameOthers(d: string, s: string, l: string, r: string)
    requires d != "" && (forall i | 0 <= i < |d| :: !SlugChar(d[i])) && (s != "" ==> SlugChar(s[0])) && Framed(s, l, r)
    ensures Framed(d + s, "-", r)
  {
    OthersFirst(d, s);
    WordsSkipLeft(d, s);
    assert "-" + ("" + Join(Words(s)) + r) == "-" + Join(Words(s)) + r;
    assert (d + s)[0] == d[0];
  }

  lemma {:induction false} DashedJoinsWords(s: string) returns (l: string, r: string)
    ensures Framed(s, l, r)
    decreases |s|
  {
    l, r := "", "";
    if s == "" {
    } else {
      var good := SlugChar(s[0]);
      var a, b := RestStarts(s, good);
      l, r := DashedJoinsWords(b);
      if good {
        if Words(b) == [] {
          FrameLastWord(a, b, l, r);
          r := l + r;
        } else {
          FrameWord(a, b, l, r);
        }
        l := "";
      } else {
        FrameOthers(a, b, l, r);
        l := "-";
      }
    }
  }

  lemma {:induction false} JoinIsSlug(ws: seq<string>)
    requires AllWords(ws) && ws != []
    ensures IsSlug(Join(ws)) && SlugChar(Join(ws)[0]) && SlugChar(Join(ws)[|Join(ws)| - 1])
  {
    if |ws| > 1 {
      JoinIsSlug(ws[1..]);
      var w, rest := ws[0], Join(ws[1..]);
      assert Word(w);
      forall i | 0 <= i < |Join(ws)| ensures Join(ws)[i] == if i < |w| then w[i] else if i == |w| then '-' else rest[i - |w| - 1] {
      }
    } else {
      assert Word(ws[0]);
    }
  }

  lemma {:induction false} WordsOfJoin(ws: seq<string>)
    requires AllWords(ws)
    ensures Words(Join(ws)) == ws
  {
    if ws == [] {
    } else {
      var w := ws[0];
      assert Word(w);
      if |ws| == 1 {
        RunIs(w, "", true);
        assert w + "" == w && w[..|w|] == w;
        assert Words(w[|w|..]) == [];
        assert ws == [w];
      } else {
        var rest := "-" + Join(ws[1..]);
        assert Join(ws) == w + rest;
        RunIs(w, rest, true);
        assert (w + rest)[|w|..] == rest && (w + rest)[..|w|] == w;
        WordsSkipLeft("-", Join(ws[1..]));
        WordsOfJoin(ws[1..]);
        assert ws == [w] + ws[1..];
      }
    }
  }

  lemma WordsSurviveTrim(s: string)
    ensures Words(Trim(s, IsWhite)) == Words(s)
  {
    var l, r := TrimSplits(s, IsWhite);
    var t := Trim(s, IsWhite);
    WordsSkipRight(l + t, r);
    WordsSkipLeft(l, t);
  }

  lemma StrippedDashed(s: string)
    ensures Trim(Dashed(s), IsDash) == Join(Words(s))
  {
    var l, r := DashedJoinsWords(s);
    var core := Join(Words(s));
    WordsAreWords(s);
    if Words(s) == [] {
      assert Dashed(s) == (l + r) + "";
      TrimLeftRemoves(l + r, "", IsDash);
    } else {
      JoinIsSlug(Words(s));
      TrimRemoves(l, core, r, IsDash);
    }
  }

  /** A slug is the words of the lower-cased name with single dashes between them. */
  lemma SlugJoinsWords(name: string, lower: string -> string)
    ensures Slugify(name, lower) == if Words(lower(name)) == [] then "college" else Join(Words(lower(name)))
    ensures IsSlug(Slugify(name, lower))
  {
    StrippedDashed(Trim(lower(name), IsWhite));
    WordsSurviveTrim(lower(name));
    WordsAreWords(lower(name));
    if Words(lower(name)) != [] {
      JoinIsSlug(Words(lower(name)));
    }
  }

  lemma {:induction false} SlugStays(s: string)
    requires forall i | 0 <= i < |s| :: SlugChar(s[i]) || s[i] == '-'
    requires NoDoubledDash(s)
    ensures Dashed(s) == s
  {
    if s == "" {
    } else {
      var t := s[1..];
      assert NoDoubledDash(t) by {
        forall i | 0 < i < |t| && t[i] == '-' ensures t[i - 1] != '-' {
          assert t[i] == s[i + 1];
        }
      }
      SlugStays(t);
      if !SlugChar(s[0]) && t != "" {
        assert s[1] != '-' && t[0] == s[1];
      }
    }
  }

  /** The slugs are the names that stay as they are. */
  lemma FixedIffSlug(name: string, lower: string -> string)
    requires LowerKeepsSlugs(lower)
    ensures Slugify(name, lower) == name <==> IsSlug(name)
  {
    SlugJoinsWords(name, lower);
    if IsSlug(name) {
      SlugSurvivesTrims(name);
      SlugStays(name);
    }
  }

  lemma SlugSurvivesTrims(s: string)
    requires IsSlug(s)
    ensures Trim(s, IsWhite) == s && Trim(s, IsDash) == s
  {
    SolidSurvivesTrim(s, IsWhite);
    SolidSurvivesTrim(s, IsDash);
  }

  lemma SolidSurvivesTrim(s: string, white: char -> bool)
    requires Solid(s, white)
    ensures Trim(s, white) == s
  {
    TrimRemoves("", s, "", white);
    assert "" + s + "" == s;
  }

  lemma SlugifyIsIdempotent(name: string, lower: string -> string)
    requires LowerKeepsSlugs(lower)
    ensures Slugify(Slugify(name, lower), lower) == Slugify(name, lower)
  {
    SlugJoinsWords(name, lower);
    FixedIffSlug(Slugify(name, lower), lower);
  }

  // What a name goes by: its words, or the one word that stands for none.
  function NameWords(name: string, lower: string -> string): seq<string> {
    if Words(lower(name)) == [] then ["college"] else Words(lower(name))
  }

  /** Names get the same slug exactly when they go by the same words. */
  lemma SameSlugIffSameWords(a: string, b: string, lower: string -> string)
    ensures Slugify(a, lower) == Slugify(b, lower) <==> NameWords(a, lower) == NameWords(b, lower)
  {
    WordsOfSlug(a, lower);
    WordsOfSlug(b, lower);
  }

  lemma WordsOfSlug(name: string, lower: string -> string)
    ensures Slugify(name, lower) == Join(NameWords(name, lower))
    ensures Words(Slugify(name, lower)) == NameWords(name, lower)
  {
    SlugJoinsWords(name, lower);
    WordsAreWords(lower(name));
    WordsOfJoin(NameWords(name, lower));
  }

  // -- uniqueSlug -----------------------------------------------------------------------------------------

  function Decimal(n: nat): (s: string)
    ensures s != "" && forall i | 0 <= i < |s| :: '0' <= s[i] <= '9'
  {
    var digit := ['0' + (n % 10) as char];
    if n < 10 then digit else Decimal(n / 10) + digit
  }

  lemma {:induction false} DecimalIsInjective(m: nat, n: nat)
    requires Decimal(m) == Decimal(n)
    ensures m == n
  {
    var s := Decimal(m);
    assert s[|s| - 1] == '0' + (m % 10) as char == '0' + (n % 10) as char;
    assert m < 10 <==> |s| == 1;
    if m < 10 {
    } else {
      assert Decimal(m / 10) == s[..|s| - 1] == Decimal(n / 10);
      DecimalIsInjective(m / 10, n / 10);
    }
  }

  /** The number a row of digits stands for. */
  function Value(digits: string): int {
    if digits == "" then 0 else 10 * Value(digits[..|digits| - 1]) + (digits[|digits| - 1] as int - '0' as int)
  }

  /** A number is written by the digits that stand for it, without a leading zero. */
  lemma {:induction false} DecimalStandsFor(n: nat)
    ensures Value(Decimal(n)) == n && (n > 0 ==> Decimal(n)[0] != '0')
  {
    var digit := ['0' + (n % 10) as char];
    if n < 10 {
      assert digit[..0] == "";
    } else {
      DecimalStandsFor(n / 10);
      assert Decimal(n)[..|Decimal(n)| - 1] == Decimal(n / 10);
    }
  }

  /** The names tried, in order: the base, then the base with a number from two on. */
  function Candidate(base: string, k: nat): string {
    if k <= 1 then base else base + "-" + Decimal(k)
  }

  lemma CandidatesDiffer(base: string, j: nat, k: nat)
    requires 1 <= j < k
    ensures Candidate(base, j) != Candidate(base, k)
  {
    if Candidate(base, j) == Candidate(base, k) {
      assert |Candidate(base, k)| > |base|;
      assert Decimal(j) == Candidate(base, j)[|base| + 1..] && Decimal(k) == Candidate(base, k)[|base| + 1..];
      DecimalIsInjective(j, k);
    }
  }

  /** As many candidates can be taken as there are names in use. */
  lemma TakenCandidates(base: string, n: nat, existing: set<string>)
    requires forall k | 1 <= k <= n :: Candidate(base, k) in existing
    ensures n <= |existing|
  {
    var tried := seq(n, i requires 0 <= i < n => Candidate(base, i + 1));
    forall i, j | 0 <= i < j < n ensures tried[i] != tried[j] {
      CandidatesDiffer(base, i + 1, j + 1);
    }
    DistinctElements(tried);
    SubsetSize(Elements(tried), existing);
  }

  /** Finds the first candidate not in use, and how many times it looked. */
  method UniqueSlug(base: string, existing: set<string>) returns (slug: string, lookups: nat)
    ensures 1 <= lookups <= |existing| + 1
    ensures slug == Candidate(base, lookups) && slug !in existing
    ensures slug == if lookups == 1 then base else base + "-" + Decimal(lookups)
    ensures forall k | 1 <= k < lookups :: Candidate(base, k) in existing
    ensures lookups > 1 ==> base in existing && forall k | 2 <= k < lookups :: base + "-" + Decimal(k) in existing
  {
    slug := base;
    var suffix := 1;
    lookups := 1;
    while slug in existing
      invariant 1 <= suffix == lookups && slug == Candidate(base, suffix)
      invariant forall k | 1 <= k < suffix :: Candidate(base, k) in existing
      invariant suffix > 1 ==> base in existing
      invariant forall k | 2 <= k < suffix :: base + "-" + Decimal(k) in existing
      invariant suffix <= |existing| + 1
      decreases |existing| + 1 - suffix
    {
      TakenCandidates(base, suffix, existing);
      suffix := suffix + 1;
      slug := base + "-" + Decimal(suffix);
      lookups := lookups + 1;
    }
  }

  /** What is handed out for a name is a slug again, so its words are those of the base and the number. */
  lemma CandidateIsSlug(base: string, k: nat)
    requires IsSlug(base)
    ensures IsSlug(Candidate(base, k))
  {
    if k > 1 {
      var s, d, n := Candidate(base, k), Decimal(k), |base|;
      forall i | 0 <= i < |s| ensures s[i] == if i < n then base[i] else if i == n then '-' else d[i - n - 1] {
      }
    }
  }
}
