/** `normalize_sans`: the names of a certificate, trimmed, lower-cased, without trailing dots, in order and
    without repetition. */
module San {
  predicate IsWhite(c: char) {
    var n := c as int;
    || 9 <= n <= 13 || n == 0x20 || n == 0x85 || n == 0xA0 || n == 0x1680 || 0x2000 <= n <= 0x200A
    || n == 0x2028 || n == 0x2029 || n == 0x202F || n == 0x205F || n == 0x3000
  }

  /** The code points that Unicode calls white space. */
  const WHITE_SPACE: set<int> := {
    0x9, 0xA, 0xB, 0xC, 0xD, 0x20, 0x85, 0xA0, 0x1680,
    0x2000, 0x2001, 0x2002, 0x2003, 0x2004, 0x2005, 0x2006, 0x2007, 0x2008, 0x2009, 0x200A,
    0x2028, 0x2029, 0x202F, 0x205F, 0x3000}

  lemma WhiteExact(c: char)
    ensures IsWhite(c) <==> c as int in WHITE_SPACE
  {
  }

  function TrimStart(s: string): string {
    if s != [] && IsWhite(s[0]) then TrimStart(s[1..]) else s
  }

  function TrimEnd(s: string): string {
    if s != [] && IsWhite(s[|s| - 1]) then TrimEnd(s[..|s| - 1]) else s
  }

  function LowerChar(c: char): char {
    if 'A' <= c <= 'Z' then ((c as int) + 32) as char else c
  }

  function Lower(s: string): (r: string)
    ensures |r| == |s| && forall i :: 0 <= i < |s| ==> r[i] == LowerChar(s[i])
  {
    if s == [] then [] else Lower(s[..|s| - 1]) + [LowerChar(s[|s| - 1])]
  }

  function StripDots(s: string): string {
    if s != [] && s[|s| - 1] == '.' then StripDots(s[..|s| - 1]) else s
  }

  function Normal(name: string): string {
    StripDots(Lower(TrimEnd(TrimStart(name))))
  }

  /** Lexicographic order, as of a BTreeSet of strings. */
  predicate Less(a: string, b: string) {
    b != [] && (a == [] || a[0] < b[0] || (a[0] == b[0] && Less(a[1..], b[1..])))
  }

  /** `a` comes before `b` if it is a proper prefix of it, or has the smaller character where they first differ. */
  lemma {:induction false} LessExact(a: string, b: string)
    ensures Less(a, b) <==> exists k :: 0 <= k <= |a| && k < |b| && a[..k] == b[..k] && (k == |a| || a[k] < b[k])
  {
    if a != [] && b != [] && a[0] == b[0] {
      LessExact(a[1..], b[1..]);
      if k :| 0 <= k < |a| && k < |b| - 1 && a[1..][..k] == b[1..][..k] && (k == |a| - 1 || a[1..][k] < b[1..][k]) {
        assert a[..k + 1] == [a[0]] + a[1..][..k] && b[..k + 1] == [b[0]] + b[1..][..k];
      }
      if k :| 0 <= k <= |a| && k < |b| && a[..k] == b[..k] && (k == |a| || a[k] < b[k]) {
        assert k > 0 && a[1..][..k - 1] == a[..k][1..] && b[1..][..k - 1] == b[..k][1..];
      }
    } else if a == [] && b != [] {
      assert a[..0] == b[..0];
    } else if a != [] && b != [] {
      assert a[..0] == b[..0];
      if k :| 0 <= k <= |a| && k < |b| && a[..k] == b[..k] && (k == |a| || a[k] < b[k]) {
        assert k > 0 ==> a[..k][0] == b[..k][0];
      }
    }
  }

  predicate Ascending(s: seq<string>) {
    forall i, j :: 0 <= i < j < |s| ==> Less(s[i], s[j])
  }

  lemma {:induction false} LessTransitive(a: string, b: string, c: string)
    requires Less(a, b) && Less(b, c)
    ensures Less(a, c)
  {
    if a != [] && a[0] == b[0] == c[0] {
      LessTransitive(a[1..], b[1..], c[1..]);
    }
  }

  lemma {:induction false} LessTotal(a: string, b: string)
    ensures a == b || Less(a, b) || Less(b, a)
    ensures !(Less(a, b) && Less(b, a)) && !Less(a, a)
  {
    if a != [] && b != [] {
      LessTotal(a[1..], b[1..]);
      assert a == [a[0]] + a[1..] && b == [b[0]] + b[1..];
    }
    if a != [] {
      LessTotal(a[1..], a[1..]);
    }
  }

  /** Inserting into an ordered set. */
  method Insert(s: seq<string>, x: string) returns (r: seq<string>)
    requires Ascending(s)
    ensures Ascending(r)
    ensures forall y :: y in r <==> y in s || y == x
  {
    var i := 0;
    while i < |s| && Less(s[i], x)
      invariant 0 <= i <= |s|
      invariant forall j :: 0 <= j < i ==> Less(s[j], x)
    {
      i := i + 1;
    }
    if i < |s| && s[i] == x {
      return s;
    }
    forall j | i <= j < |s|
      ensures Less(x, s[j])
    {
      LessTotal(s[i], x);
      if i < j {
        LessTransitive(x, s[i], s[j]);
      }
    }
    r := s[..i] + [x] + s[i..];
    assert s == s[..i] + s[i..];
  }

  /** `sans` is what normalizing `names` must give: the non-empty normal forms, in order, once each. */
  ghost predicate IsNormalized(names: seq<string>, sans: seq<string>) {
    && Ascending(sans)
    && forall s :: s in sans <==> s != [] && exists i :: 0 <= i < |names| && Normal(names[i]) == s
  }

  /** A name is the normal form of some name given, and is not empty. No upper-case letter is left in it. */
  method NormalizeSans(names: seq<string>) returns (sans: seq<string>)
    ensures IsNormalized(names, sans)
    ensures forall k, i :: 0 <= k < |sans| && 0 <= i < |sans[k]| ==> !('A' <= sans[k][i] <= 'Z')
  {
    sans := [];
    for k := 0 to |names|
      invariant IsNormalized(names[..k], sans)
    {
      var n := Lower(TrimEnd(TrimStart(names[k])));
      while n != [] && n[|n| - 1] == '.'
        invariant StripDots(n) == Normal(names[k])
        decreases |n|
      {
        n := n[..|n| - 1];
      }
      assert names[..k + 1] == names[..k] + [names[k]];
      ghost var before := sans;
      if n != [] {
        sans := Insert(sans, n);
      }
      Extends(names[..k], before, names[k], sans);
    }
    assert names[..|names|] == names;
    AllShaped(names, sans);
  }

  lemma AllShaped(names: seq<string>, sans: seq<string>)
    requires IsNormalized(names, sans)
    ensures forall k :: 0 <= k < |sans| ==> Shaped(sans[k])
  {
    forall k | 0 <= k < |sans|
      ensures Shaped(sans[k])
    {
      assert sans[k] in sans;
      var i :| 0 <= i < |names| && Normal(names[i]) == sans[k];
      NormalIsShaped(names[i]);
    }
  }

  lemma Extends(names: seq<string>, before: seq<string>, name: string, sans: seq<string>)
    requires IsNormalized(names, before) && Ascending(sans)
    requires forall y :: y in sans <==> y in before || (y == Normal(name) && y != [])
    ensures IsNormalized(names + [name], sans)
  {
    var all := names + [name];
    forall s
      ensures s in sans <==> s != [] && exists i :: 0 <= i < |all| && Normal(all[i]) == s
    {
      if s in before {
        var i :| 0 <= i < |names| && Normal(names[i]) == s;
        assert Normal(all[i]) == s;
      }
      if s == Normal(name) {
        assert Normal(all[|names|]) == s;
      }
      if i :| 0 <= i < |all| && Normal(all[i]) == s {
        assert i < |names| ==> Normal(names[i]) == s;
      }
    }
  }

  lemma TailMembers(a: seq<string>, s: string)
    requires Ascending(a) && a != []
    ensures s in a[1..] <==> s in a && s != a[0]
  {
    LessTotal(a[0], a[0]);
    assert a == [a[0]] + a[1..];
    if s in a[1..] {
      var i :| 0 <= i < |a| - 1 && a[1..][i] == s;
      assert Less(a[0], a[i + 1]);
    }
  }

  lemma {:induction false} AscendingUnique(a: seq<string>, b: seq<string>)
    requires Ascending(a) && Ascending(b) && forall s :: s in a <==> s in b
    ensures a == b
  {
    if a != [] {
      assert a[0] in b;
    }
    if b != [] {
      assert b[0] in a;
    }
    if a != [] && b != [] {
      SameFirst(a, b);
      forall s
        ensures s in a[1..] <==> s in b[1..]
      {
        TailMembers(a, s);
        TailMembers(b, s);
      }
      AscendingUnique(a[1..], b[1..]);
      assert a == [a[0]] + a[1..] && b == [b[0]] + b[1..];
    }
  }

  lemma SameFirst(a: seq<string>, b: seq<string>)
    requires Ascending(a) && Ascending(b) && a != [] && b != [] && forall s :: s in a <==> s in b
    ensures a[0] == b[0]
  {
    assert a[0] in b && b[0] in a;
    LessTotal(a[0], b[0]);
  }

  /** The result does not depend on the order or the number of the names. */
  lemma OrderIrrelevant(names: seq<string>, names': seq<string>, sans: seq<string>, sans': seq<string>)
    requires IsNormalized(names, sans) && IsNormalized(names', sans')
    requires forall n :: n in names <==> n in names'
    ensures sans == sans'
  {
    forall s
      ensures s in sans <==> s in sans'
    {
      if i :| 0 <= i < |names| && Normal(names[i]) == s {
        assert names[i] in names';
      }
      if i :| 0 <= i < |names'| && Normal(names'[i]) == s {
        assert names'[i] in names;
      }
    }
    AscendingUnique(sans, sans');
  }

  // ---------------------------------------------------------------------------------------------
  // What a normal form is
  // ---------------------------------------------------------------------------------------------

  /** The name is white space up to `lo` and from `hi` on, and not at either end in between; there, before nothing but
      dots and not ending in one, it is `s` but for its capitals, each of which is the letter 32 places on in `s`. */
  ghost predicate IsNormalForm(name: string, s: string, lo: nat, hi: nat) {
    && lo + |s| <= hi <= |name|
    && (forall i :: 0 <= i < lo ==> name[i] as int in WHITE_SPACE)
    && (forall i :: hi <= i < |name| ==> name[i] as int in WHITE_SPACE)
    && (lo < hi ==> name[lo] as int !in WHITE_SPACE && name[hi - 1] as int !in WHITE_SPACE)
    && (forall i :: lo + |s| <= i < hi ==> name[i] == '.')
    && (s != [] ==> s[|s| - 1] != '.')
    && forall i :: 0 <= i < |s| ==>
         s[i] as int == name[lo + i] as int + if 'A' <= name[lo + i] <= 'Z' then 32 else 0
  }

  lemma {:induction false} TrimStartSlice(s: string) returns (lo: nat)
    ensures lo <= |s| && TrimStart(s) == s[lo..]
    ensures forall i :: 0 <= i < lo ==> s[i] as int in WHITE_SPACE
    ensures lo < |s| ==> s[lo] as int !in WHITE_SPACE
  {
    lo := 0;
    if s != [] {
      WhiteExact(s[0]);
      if IsWhite(s[0]) {
        var rest := TrimStartSlice(s[1..]);
        lo := rest + 1;
      }
    }
  }

  lemma {:induction false} TrimEndSlice(s: string) returns (hi: nat)
    ensures hi <= |s| && TrimEnd(s) == s[..hi]
    ensures forall i :: hi <= i < |s| ==> s[i] as int in WHITE_SPACE
    ensures hi > 0 ==> s[hi - 1] as int !in WHITE_SPACE
  {
    hi := |s|;
    if s != [] {
      WhiteExact(s[|s| - 1]);
      if IsWhite(s[|s| - 1]) {
        hi := TrimEndSlice(s[..|s| - 1]);
        assert s[..|s| - 1][..hi] == s[..hi];
      }
    }
  }

  lemma {:induction false} StripDotsSlice(s: string) returns (n: nat)
    ensures n <= |s| && StripDots(s) == s[..n]
    ensures forall i :: n <= i < |s| ==> s[i] == '.'
    ensures n > 0 ==> s[n - 1] != '.'
  {
    n := |s|;
    if s != [] && s[|s| - 1] == '.' {
      n := StripDotsSlice(s[..|s| - 1]);
      assert s[..|s| - 1][..n] == s[..n];
    }
  }

  lemma NormalIsForm(name: string) returns (lo: nat, hi: nat)
    ensures IsNormalForm(name, Normal(name), lo, hi)
  {
    hide IsWhite, TrimStart, TrimEnd, StripDots, WHITE_SPACE;
    lo := TrimStartSlice(name);
    var m := TrimEndSlice(name[lo..]);
    hi := lo + m;
    var lower := Lower(name[lo..][..m]);
    var n := StripDotsSlice(lower);
    forall i | lo + n <= i < hi
      ensures name[i] == '.'
    {
      assert lower[i - lo] == LowerChar(name[i]);
    }
    forall i | hi <= i < |name|
      ensures name[i] as int in WHITE_SPACE
    {
      assert name[lo..][i - lo] == name[i];
    }
  }

  lemma OneForm(name: string, s: string, lo: nat, hi: nat, s': string, lo': nat, hi': nat)
    requires IsNormalForm(name, s, lo, hi) && IsNormalForm(name, s', lo', hi')
    ensures s == s'
  {
    hide WHITE_SPACE;
    if lo < hi {
      assert lo' <= lo < hi';
      assert lo == lo' && hi == hi';
      LastOfForm(name, s, lo, hi);
      LastOfForm(name, s', lo, hi);
    }
  }

  lemma LastOfForm(name: string, s: string, lo: nat, hi: nat)
    requires IsNormalForm(name, s, lo, hi)
    ensures lo + |s| <= hi <= |name| && (s != [] ==> name[lo + |s| - 1] != '.')
    ensures forall i :: lo + |s| <= i < hi ==> name[i] == '.'
  {
  }

  /** Exactly: of each name there is one normal form, and that is what the code computes. */
  lemma NormalExact(name: string, s: string)
    ensures Normal(name) == s <==> exists lo, hi :: IsNormalForm(name, s, lo, hi)
  {
    hide IsNormalForm, Normal;
    var lo, hi := NormalIsForm(name);
    if lo', hi' :| IsNormalForm(name, s, lo', hi') {
      OneForm(name, Normal(name), lo, hi, s, lo', hi');
    }
  }

  /** The two differ at most in that one has a capital where the other has its small letter. */
  ghost predicate SameButCase(a: string, b: string) {
    && |a| == |b|
    && forall i :: 0 <= i < |a| ==>
         || a[i] == b[i]
         || ('A' <= a[i] <= 'Z' && b[i] as int == a[i] as int + 32)
         || ('A' <= b[i] <= 'Z' && a[i] as int == b[i] as int + 32)
  }

  lemma NormalIgnoresCase(a: string, b: string)
    requires SameButCase(a, b)
    ensures Normal(a) == Normal(b)
  {
    hide Normal, WHITE_SPACE;
    var lo, hi := NormalIsForm(a);
    forall i | 0 <= i < |a|
      ensures (a[i] as int in WHITE_SPACE <==> b[i] as int in WHITE_SPACE) && (a[i] == '.' <==> b[i] == '.')
      ensures a[i] as int + (if 'A' <= a[i] <= 'Z' then 32 else 0) == b[i] as int + if 'A' <= b[i] <= 'Z' then 32 else 0
    {
      LettersAreNotWhite(a[i]);
      LettersAreNotWhite(b[i]);
    }
    assert IsNormalForm(b, Normal(a), lo, hi);
    NormalExact(b, Normal(a));
  }

  lemma LettersAreNotWhite(c: char)
    ensures 'A' <= c <= 'Z' || 'a' <= c <= 'z' ==> c as int !in WHITE_SPACE
  {
  }

  /** Capitals make no difference to the result. */
  lemma CaseIrrelevant(names: seq<string>, names': seq<string>, sans: seq<string>, sans': seq<string>)
    requires IsNormalized(names, sans) && IsNormalized(names', sans')
    requires |names| == |names'| && forall i :: 0 <= i < |names| ==> SameButCase(names[i], names'[i])
    ensures sans == sans'
  {
    hide Normal, SameButCase;
    forall i | 0 <= i < |names|
      ensures Normal(names[i]) == Normal(names'[i])
    {
      NormalIgnoresCase(names[i], names'[i]);
    }
    AscendingUnique(sans, sans');
  }

  // ---------------------------------------------------------------------------------------------
  // Normalizing twice
  // ---------------------------------------------------------------------------------------------

  predicate EndsWhite(s: string) {
    s != [] && IsWhite(s[|s| - 1])
  }

  /** The shape of a normal form. */
  predicate Shaped(s: string) {
    && (s != [] ==> s[0] as int !in WHITE_SPACE && s[|s| - 1] != '.')
    && forall i :: 0 <= i < |s| ==> !('A' <= s[i] <= 'Z')
  }

  lemma {:induction false} TrimEndPrefix(s: string)
    ensures TrimEnd(s) <= s
    ensures EndsWhite(s) <==> TrimEnd(s) != s
  {
    if EndsWhite(s) {
      TrimEndPrefix(s[..|s| - 1]);
    }
  }

  lemma {:induction false} TrimStartShape(s: string)
    ensures TrimStart(s) != [] ==> !IsWhite(TrimStart(s)[0])
  {
    if s != [] && IsWhite(s[0]) {
      TrimStartShape(s[1..]);
    }
  }

  lemma {:induction false} StripDotsPrefix(s: string)
    ensures StripDots(s) <= s
    ensures StripDots(s) != [] ==> StripDots(s)[|StripDots(s)| - 1] != '.'
  {
    if s != [] && s[|s| - 1] == '.' {
      StripDotsPrefix(s[..|s| - 1]);
    }
  }

  /** A normal form has no upper-case letter, no leading white space and no trailing dot. */
  lemma NormalIsShaped(name: string)
    ensures Shaped(Normal(name))
  {
    TrimStartShape(name);
    TrimEndPrefix(TrimStart(name));
    StripDotsPrefix(Lower(TrimEnd(TrimStart(name))));
    if Normal(name) != [] {
      WhiteExact(TrimStart(name)[0]);
      assert Normal(name)[0] == LowerChar(TrimStart(name)[0]);
      WhiteExact(Normal(name)[0]);
    }
  }

  /** A normal form is left alone by a second pass unless white space has come to its end, which a second pass
      then removes. */
  lemma NormalFixed(s: string)
    requires Shaped(s)
    ensures Normal(s) <= s
    ensures Normal(s) == s <==> !EndsWhite(s)
  {
    TrimEndPrefix(s);
    StripDotsPrefix(Lower(TrimEnd(s)));
    assert Lower(TrimEnd(s)) == TrimEnd(s);
    if s != [] {
      WhiteExact(s[0]);
    }
  }

  lemma {:induction false} LongestEndingWhite(sans: seq<string>) returns (m: nat)
    requires exists i :: 0 <= i < |sans| && EndsWhite(sans[i])
    ensures m < |sans| && EndsWhite(sans[m])
    ensures forall i :: 0 <= i < |sans| && EndsWhite(sans[i]) ==> |sans[i]| <= |sans[m]|
  {
    var last := |sans| - 1;
    m := last;
    if exists i :: 0 <= i < last && EndsWhite(sans[..last][i]) {
      var m' := LongestEndingWhite(sans[..last]);
      if !EndsWhite(sans[last]) || |sans[last]| <= |sans[m']| {
        m := m';
      }
    }
  }

  /** Idempotence: normalizing the result again gives the same exactly when none of its names ends in white
      space, as "foo ." leaves "foo ". */
  lemma IdempotentExact(names: seq<string>, sans: seq<string>, again: seq<string>)
    requires IsNormalized(names, sans) && IsNormalized(sans, again)
    ensures again == sans <==> forall i :: 0 <= i < |names| ==> !EndsWhite(Normal(names[i]))
  {
    hide Normal, IsWhite, Less;
    forall i | 0 <= i < |sans|
      ensures Normal(sans[i]) <= sans[i] && (Normal(sans[i]) == sans[i] <==> !EndsWhite(sans[i]))
      ensures exists k :: 0 <= k < |names| && Normal(names[k]) == sans[i]
    {
      assert sans[i] in sans;
      var k :| 0 <= k < |names| && Normal(names[k]) == sans[i];
      NormalIsShaped(names[k]);
      NormalFixed(sans[i]);
    }
    if k :| 0 <= k < |names| && EndsWhite(Normal(names[k])) {
      assert Normal(names[k]) in sans;
      var m := LongestEndingWhite(sans);
      assert forall i :: 0 <= i < |sans| ==> Normal(sans[i]) != sans[m];
      assert sans[m] !in again && sans[m] in sans;
    } else {
      assert forall i :: 0 <= i < |sans| ==> Normal(sans[i]) == sans[i];
      assert IsNormalized(sans, sans);
      AscendingUnique(again, sans);
    }
  }
}
